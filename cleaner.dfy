/** `clean_llm_response` (tests/test_llm.py): the four-step repair applied to a reply of
    the text-generation service before it is parsed as JSON. Each step is a function
    here, and `Clean` chains them exactly as the source does. */
module Cleaner {
  import opened Text

  /** `re.sub(r"```json|```", "", s)`: scanning left to right, a fence marker is removed
      wherever it starts, and the tagged form is tried before the bare one. */
  function StripFences(s: string): string
    decreases |s|
  {
    if s == [] then []
    else if StartsWith(s, "```json") then StripFences(s[7..])
    else if StartsWith(s, "```") then StripFences(s[3..])
    else [s[0]] + StripFences(s[1..])
  }

  /** A kept character is the first output character, so output that begins with a
      backtick comes from input that begins with one. */
  lemma HeadTick(t: string)
    ensures StripFences(t) != [] && StripFences(t)[0] == '`' ==> t != [] && t[0] == '`'
  {
  }

  /** Output that begins with two backticks comes from input that begins with two. */
  lemma HeadTwoTicks(t: string)
    ensures StartsWith(StripFences(t), "``") ==> StartsWith(t, "``")
  {
    if t != [] && !StartsWith(t, "```json") && !StartsWith(t, "```") {
      HeadTick(t[1..]);
    }
  }

  /** No fence marker survives: whatever text the service sent, the output of the fence
      step never contains three backticks in a row, even where removing one marker
      brings backticks on either side of it together. */
  lemma {:induction false} NoFenceSurvives(s: string)
    ensures !Contains(StripFences(s), "```")
    decreases |s|
  {
    if s == [] {
    } else if StartsWith(s, "```json") {
      NoFenceSurvives(s[7..]);
    } else if StartsWith(s, "```") {
      NoFenceSurvives(s[3..]);
    } else {
      var rest := StripFences(s[1..]);
      var o := StripFences(s);
      NoFenceSurvives(s[1..]);
      HeadTwoTicks(s[1..]);
      assert o == [s[0]] + rest;
      forall i | 0 <= i <= |o| - 3 ensures !OccursAt(o, "```", i) {
        if i > 0 {
          assert o[i..i + 3] == rest[i - 1..i + 2];
          assert !OccursAt(rest, "```", i - 1);
        } else if s[0] == '`' {
          assert !StartsWith(s[1..], "``");
          assert !StartsWith(rest, "``");
          assert rest[..2] == o[1..3];
        }
      }
    }
  }

  lemma StartsWithHead(s: string, p: string)
    ensures |p| > 0 && StartsWith(s, p) ==> s[0] == p[0]
  {
    if |p| > 0 && StartsWith(s, p) {
      assert s[..|p|][0] == p[0];
    }
  }

  /** A prefix without backticks passes the fence step unchanged, and the scan resumes
      after it. */
  lemma {:induction false} StripFencesPrefix(a: string, b: string)
    requires '`' !in a
    ensures StripFences(a + b) == a + StripFences(b)
  {
    if a != [] {
      var s := a + b;
      assert s[0] == a[0] && s[1..] == a[1..] + b;
      StartsWithHead(s, "```json");
      StartsWithHead(s, "```");
      assert StripFences(s) == [a[0]] + StripFences(a[1..] + b);
      StripFencesPrefix(a[1..], b);
      assert [a[0]] + (a[1..] + StripFences(b)) == a + StripFences(b);
    } else {
      assert a + b == b;
    }
  }

  /** `s[1:-1]`: the text between the first and the last character (empty when there
      are fewer than two). */
  function Inner(s: string): (r: string)
    ensures |s| >= 2 ==> |r| == |s| - 2 && s == [s[0]] + r + [s[|s| - 1]]
  {
    if |s| >= 2 then s[1..|s| - 1] else []
  }

  predicate EndsWith(s: string, p: string) {
    |p| <= |s| && s[|s| - |p|..] == p
  }

  /** Steps 3 of the cleaner: when the text both starts and ends with `"`, drop that
      outer pair and turn every `\"` into `"`; otherwise leave the text alone. */
  function Unquote(s: string): string {
    if StartsWith(s, "\"") && EndsWith(s, "\"") then ReplaceAll(Inner(s), "\\\"", "\"") else s
  }

  /** The escaping that the unquote step undoes: every `"` preceded by a backslash. */
  function EscapeQuotes(t: string): (r: string)
    ensures r == [] || r[0] != '"'
  {
    if t == [] then []
    else if t[0] == '"' then "\\\"" + EscapeQuotes(t[1..])
    else [t[0]] + EscapeQuotes(t[1..])
  }

  /** Un-escaping inverts escaping, for every text, backslashes included. */
  lemma {:induction false} UnescapeEscape(t: string)
    ensures ReplaceAll(EscapeQuotes(t), "\\\"", "\"") == t
  {
    if t != [] {
      UnescapeEscape(t[1..]);
      var e := EscapeQuotes(t);
      if t[0] == '"' {
        assert StartsWith(e, "\\\"");
        assert e[2..] == EscapeQuotes(t[1..]);
      } else {
        assert e[1..] == EscapeQuotes(t[1..]);
        assert !StartsWith(e, "\\\"");
      }
      assert [t[0]] + t[1..] == t;
    }
  }

  /** Escaping works piece by piece. */
  lemma {:induction false} EscapeAppend(a: string, b: string)
    ensures EscapeQuotes(a + b) == EscapeQuotes(a) + EscapeQuotes(b)
  {
    if a != [] {
      var s := a + b;
      assert s[0] == a[0] && s[1..] == a[1..] + b;
      EscapeAppend(a[1..], b);
      if a[0] == '"' {
        assert EscapeQuotes(s) == "\\\"" + (EscapeQuotes(a[1..]) + EscapeQuotes(b));
        assert EscapeQuotes(a) == "\\\"" + EscapeQuotes(a[1..]);
      } else {
        assert EscapeQuotes(a) == [a[0]] + EscapeQuotes(a[1..]);
        assert EscapeQuotes(s) == [a[0]] + (EscapeQuotes(a[1..]) + EscapeQuotes(b));
      }
    } else {
      assert a + b == b;
    }
  }

  /** Escaping adds only backslashes and quotes, so it brings in no backtick. */
  lemma {:induction false} EscapeNoTick(t: string)
    requires '`' !in t
    ensures '`' !in EscapeQuotes(t)
  {
    if t != [] {
      EscapeNoTick(t[1..]);
    }
  }

  /** The double-encoded reply: a payload sent back as a quoted string with its quotes
      escaped is recovered exactly by the unquote step. */
  lemma UnquoteDoubleEncoded(t: string)
    ensures Unquote("\"" + EscapeQuotes(t) + "\"") == t
  {
    var s := "\"" + EscapeQuotes(t) + "\"";
    assert Inner(s) == EscapeQuotes(t);
    UnescapeEscape(t);
  }

  /** The pattern `"\s*"` matches at index `i`: a quote, optional whitespace, a quote. */
  predicate RunAt(s: string, i: int) {
    0 <= i < |s| && s[i] == '"' && i + 1 + LeadingSpaces(s[i + 1..]) < |s| && s[i + 1 + LeadingSpaces(s[i + 1..])] == '"'
  }

  /** `re.sub(r'"\s*"\s*', '", "', s)`: scanning left to right, every quote that is
      followed, after optional whitespace, by another quote is rewritten, together with
      the whitespace after the second quote, to `", "`. */
  function InsertCommas(s: string): string
    decreases |s|
  {
    if s == [] then []
    else if RunAt(s, 0) then
      var j := 1 + LeadingSpaces(s[1..]);
      var k := j + 1 + LeadingSpaces(s[j + 1..]);
      "\", \"" + InsertCommas(s[k..])
    else [s[0]] + InsertCommas(s[1..])
  }

  /** A match in `s[1..]` is a match in `s` one position later. */
  lemma RunAtShift(s: string, i: nat)
    requires s != []
    ensures RunAt(s[1..], i) == RunAt(s, i + 1)
  {
    if i < |s| - 1 {
      assert s[1..][i + 1..] == s[i + 2..];
    }
  }

  predicate NoRun(s: string) {
    forall i :: 0 <= i < |s| ==> !RunAt(s, i)
  }

  /** Text in which the pattern does not occur passes the comma step unchanged. */
  lemma {:induction false} NoRunUnchanged(s: string)
    requires NoRun(s)
    ensures InsertCommas(s) == s
    decreases |s|
  {
    if s != [] {
      assert !RunAt(s, 0);
      forall i | 0 <= i < |s| - 1 ensures !RunAt(s[1..], i) {
        RunAtShift(s, i);
      }
      NoRunUnchanged(s[1..]);
      assert [s[0]] + s[1..] == s;
    }
  }

  /** Text in which the pattern occurs is changed by the comma step. */
  lemma {:induction false} RunChanges(s: string, i: nat)
    requires RunAt(s, i)
    ensures InsertCommas(s) != s
    decreases |s|
  {
    if RunAt(s, 0) {
      RunAtStartChanges(s);
    } else {
      RunAtShift(s, i - 1);
      RunChanges(s[1..], i - 1);
      assert InsertCommas(s)[1..] == InsertCommas(s[1..]);
    }
  }

  lemma RunAtStartChanges(s: string)
    requires RunAt(s, 0)
    ensures InsertCommas(s)[1] == ',' != s[1]
  {
    assert s[1..][0] == s[1];
  }

  /** The comma step changes the text exactly when the pattern occurs in it. */
  lemma InsertCommasUnchangedIff(s: string)
    ensures InsertCommas(s) == s <==> NoRun(s)
  {
    if NoRun(s) {
      NoRunUnchanged(s);
    } else {
      var i :| 0 <= i < |s| && RunAt(s, i);
      RunChanges(s, i);
    }
  }

  /** Every quote of `s` but a final one is followed by a character that is neither
      whitespace nor a quote, so the pattern cannot start anywhere in `s`. */
  predicate QuotesSeparated(s: string) {
    forall i :: 0 <= i < |s| - 1 && s[i] == '"' ==> s[i + 1] != '"' && !IsSpace(s[i + 1])
  }

  /** The pattern cannot start at a character other than a quote, nor at a quote that is
      followed by a character that is neither whitespace nor a quote. */
  lemma NoRunAtStart(s: string)
    requires s != [] && (s[0] != '"' || (|s| >= 2 && s[1] != '"' && !IsSpace(s[1])))
    ensures InsertCommas(s) == [s[0]] + InsertCommas(s[1..])
  {
    if s[0] == '"' {
      assert s[1..][0] == s[1];
      assert LeadingSpaces(s[1..]) == 0;
    }
    assert !RunAt(s, 0);
  }

  lemma QuotesSeparatedTail(a: string)
    requires a != [] && QuotesSeparated(a)
    ensures QuotesSeparated(a[1..])
  {
    forall i | 0 <= i < |a[1..]| - 1 && a[1..][i] == '"'
      ensures a[1..][i + 1] != '"' && !IsSpace(a[1..][i + 1])
    {
      assert a[i + 1] == '"';
    }
  }

  /** A prefix in which the pattern cannot start, and which does not end in a quote,
      passes the comma step unchanged, and the scan resumes after it. */
  lemma {:induction false} InsertCommasPrefix(a: string, b: string)
    requires QuotesSeparated(a) && (a == [] || a[|a| - 1] != '"')
    ensures InsertCommas(a + b) == a + InsertCommas(b)
  {
    if a != [] {
      var x := InsertCommas(b);
      PrefixStep(a, b);
      InsertCommasPrefix(a[1..], b);
      assert a == [a[0]] + a[1..];
      assert [a[0]] + (a[1..] + x) == a + x;
    } else {
      assert a + b == b;
    }
  }

  /** One step of `InsertCommasPrefix`: the first character of the prefix is kept. */
  lemma PrefixStep(a: string, b: string)
    requires a != [] && QuotesSeparated(a) && a[|a| - 1] != '"'
    ensures InsertCommas(a + b) == [a[0]] + InsertCommas(a[1..] + b)
    ensures QuotesSeparated(a[1..]) && (a[1..] == [] || a[1..][|a[1..]| - 1] != '"')
  {
    var s := a + b;
    assert s[0] == a[0] && s[1..] == a[1..] + b;
    if a[0] == '"' {
      assert |a| >= 2 && s[1] == a[1];
    }
    NoRunAtStart(s);
    QuotesSeparatedTail(a);
  }

  /** Text whose two ends are not whitespace is left alone by `strip`. */
  /** `clean_llm_response`: trim, remove fences and trim again, unquote, insert commas. */
  function Clean(raw: string): string {
    InsertCommas(Unquote(Strip(StripFences(Strip(raw)))))
  }

  /** Text that needs no repair: no whitespace at either end, no backtick, no quote at
      the front, and no quote followed by whitespace or by another quote. Such text is
      returned unchanged. */
  lemma CleanUnchanged(s: string)
    requires s != [] && !IsSpace(s[0]) && !IsSpace(s[|s| - 1]) && s[0] != '"' && s[|s| - 1] != '"'
    requires '`' !in s && QuotesSeparated(s)
    ensures Clean(s) == s
  {
    CleanUnquoted(s);
    InsertCommasPrefix(s, []);
    assert s + [] == s;
  }

  /** Text with no whitespace at either end, no backtick and no quote at the front
      only goes through the comma step. */
  lemma CleanUnquoted(s: string)
    requires s != [] && !IsSpace(s[0]) && !IsSpace(s[|s| - 1]) && s[0] != '"' && '`' !in s
    ensures Clean(s) == InsertCommas(s)
  {
    StripUnchanged(s);
    StripFencesPrefix(s, []);
    assert s + [] == s;
  }

  /** A quote, whitespace and a quote become `", "` wherever the pattern starts. */
  lemma {:induction false} InsertCommasRun(w: string, r: string)
    requires forall k :: 0 <= k < |w| ==> IsSpace(w[k])
    requires r == [] || !IsSpace(r[0])
    ensures InsertCommas("\"" + w + "\"" + r) == "\", \"" + InsertCommas(r)
  {
    var s := "\"" + w + "\"" + r;
    LeadingSpacesAll(w, "\"" + r);
    assert s[1..] == w + ("\"" + r);
    assert s[1 + |w|] == '"';
    assert s[|w| + 2..] == r;
    assert LeadingSpaces(r) == 0;
  }

  /** The whitespace run at the front of `w + t`, when `w` is all whitespace and `t`
      begins with something else, is exactly `w`. */
  lemma {:induction false} LeadingSpacesAll(w: string, t: string)
    requires forall k :: 0 <= k < |w| ==> IsSpace(w[k])
    requires t != [] && !IsSpace(t[0])
    ensures LeadingSpaces(w + t) == |w|
  {
    if w != [] {
      assert (w + t)[1..] == w[1..] + t;
      LeadingSpacesAll(w[1..], t);
    } else {
      assert w + t == t;
    }
  }

  /** A quoted, escaped payload without backticks passes the trimming and fence steps
      unchanged. */
  lemma QuotedPassesFences(t: string)
    requires '`' !in t
    ensures var s := "\"" + EscapeQuotes(t) + "\""; Strip(s) == s && StripFences(s) == s
  {
    var s := "\"" + EscapeQuotes(t) + "\"";
    QuotedNoTick(t);
    StripUnchanged(s);
    StripFencesPrefix(s, []);
    assert s + [] == s;
  }

  lemma QuotedNoTick(t: string)
    requires '`' !in t
    ensures '`' !in "\"" + EscapeQuotes(t) + "\""
  {
    var e := EscapeQuotes(t);
    EscapeNoTick(t);
    var s := "\"" + e + "\"";
    forall i | 0 <= i < |s| ensures s[i] != '`' {
      if 0 < i < |s| - 1 {
        assert s[i] == e[i - 1];
      }
    }
  }

  /** A payload with no backtick that comes back quoted, with its quotes escaped, is
      cleaned exactly as the bare payload would be. */
  lemma CleanDoubleEncoded(t: string)
    requires '`' !in t
    ensures Clean("\"" + EscapeQuotes(t) + "\"") == InsertCommas(t)
  {
    QuotedPassesFences(t);
    UnquoteDoubleEncoded(t);
  }

  lemma FenceAlone()
    ensures StripFences("```") == []
  {
  }

  /** The fence step removes a tagged opening fence and a closing fence, each on a line
      of its own, around text that has no backtick of its own. */
  lemma StripFencedBlock(x: string)
    requires '`' !in x
    ensures StripFences("```json\n" + x + "\n```") == "\n" + x + "\n"
  {
    var m := "\n" + x + "\n";
    var s := "```json\n" + x + "\n```";
    forall i | 0 <= i < |m| ensures m[i] != '`' {
      if 0 < i < |m| - 1 {
        assert m[i] == x[i - 1];
      }
    }
    assert s[..7] == "```json";
    assert s[7..] == m + "```";
    StripFencesPrefix(m, "```");
    FenceAlone();
    assert m + [] == m;
  }

  /** `strip` removes one line break on each side of text whose ends are not whitespace. */
  lemma StripNewlines(x: string)
    requires x != [] && !IsSpace(x[0]) && !IsSpace(x[|x| - 1])
    ensures Strip("\n" + x + "\n") == x
  {
    var s := "\n" + x + "\n";
    var t := x + "\n";
    assert s[1..] == t && t[..|x|] == x;
    assert LeadingSpaces(t) == 0;
    assert LeadingSpaces(s) == 1;
    assert TrailingSpaces(x) == 0;
    assert TrailingSpaces(t) == 1;
  }

  /** A reply fenced as a `json` block, one line each for the fences and the payload, is
      cleaned exactly as the bare payload would be, provided the payload has no backtick
      and no whitespace at its ends. */
  lemma CleanFenced(x: string)
    requires x != [] && !IsSpace(x[0]) && !IsSpace(x[|x| - 1]) && '`' !in x
    ensures Clean("```json\n" + x + "\n```") == Clean(x)
  {
    var s := "```json\n" + x + "\n```";
    assert s[0] == '`' && s[|s| - 1] == '`';
    StripUnchanged(s);
    StripUnchanged(x);
    StripFencedBlock(x);
    StripNewlines(x);
    StripFencesPrefix(x, []);
    assert x + [] == x;
  }

  /** Two string literals separated only by whitespace, with no comma between them, get
      their comma back, and the text around them is kept. */
  lemma CleanRepairsMissingComma(a: string, w: string, r: string)
    requires a != [] && !IsSpace(a[0]) && a[0] != '"' && a[|a| - 1] != '"'
    requires QuotesSeparated(a) && '`' !in a
    requires forall k :: 0 <= k < |w| ==> IsSpace(w[k])
    requires r != [] && !IsSpace(r[0]) && !IsSpace(r[|r| - 1]) && r[|r| - 1] != '"'
    requires QuotesSeparated(r) && '`' !in r
    ensures Clean(a + "\"" + w + "\"" + r) == a + "\", \"" + r
  {
    var m := "\"" + w + "\"" + r;
    var s := a + m;
    RepairShape(a, w, r);
    CleanUnquoted(s);
    InsertCommasPrefix(a, m);
    InsertCommasRun(w, r);
    InsertCommasPrefix(r, []);
    assert r + [] == r;
  }

  lemma RepairShape(a: string, w: string, r: string)
    requires a != [] && '`' !in a && '`' !in r && r != []
    requires forall k :: 0 <= k < |w| ==> IsSpace(w[k])
    ensures var s := a + ("\"" + w + "\"" + r);
      a + "\"" + w + "\"" + r == s && s[0] == a[0] && s[|s| - 1] == r[|r| - 1] && '`' !in s
  {
    assert '`' !in w by {
      forall k | 0 <= k < |w| ensures w[k] != '`' {
        assert IsSpace(w[k]);
      }
    }
  }
}
