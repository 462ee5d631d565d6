/** The deterministic parts of the text-generation client (llm_client.py): the quiz
    reply's fence removal and schema check in `generate_game_quiz`, and the extraction
    of the first `{...}` block from a trait reply in `get_personality_traits`, with its
    fallback dictionaries. `json.loads` is the parameter `parse`. */
module LlmClient {
  import opened Wrappers
  import opened Text
  import opened Json

  // ---------------------------------------------------------------------------
  // Quiz replies
  // ---------------------------------------------------------------------------

  /** `content.strip().replace("```json", "").replace("```", "")`. */
  function QuizFenceStrip(content: string): string {
    ReplaceAll(ReplaceAll(Strip(content), "```json", ""), "```", "")
  }

  /** Deleting every occurrence of three backticks leaves none: a backtick kept just
      before a deleted run would itself have started an earlier run. */
  lemma {:induction false} NoTicksAfterRemoval(s: string)
    ensures !Contains(ReplaceAll(s, "```", ""), "```")
    decreases |s|
  {
    if s == [] {
    } else if StartsWith(s, "```") {
      NoTicksAfterRemoval(s[3..]);
      assert ReplaceAll(s, "```", "") == ReplaceAll(s[3..], "```", "");
    } else {
      var rest := ReplaceAll(s[1..], "```", "");
      var o := ReplaceAll(s, "```", "");
      NoTicksAfterRemoval(s[1..]);
      RemovalHead(s[1..]);
      assert o == [s[0]] + rest;
      forall i | 0 <= i <= |o| - 3 ensures !OccursAt(o, "```", i) {
        if i > 0 {
          assert o[i..i + 3] == rest[i - 1..i + 2];
          assert !OccursAt(rest, "```", i - 1);
        } else if s[0] == '`' {
          assert !StartsWith(s[1..], "``");
          assert rest[..2] == o[1..3];
        }
      }
    }
  }

  /** Output that begins with two backticks comes from input that begins with two. */
  lemma RemovalHead(t: string)
    ensures StartsWith(ReplaceAll(t, "```", ""), "``") ==> StartsWith(t, "``")
  {
    if t != [] && !StartsWith(t, "```") {
      assert ReplaceAll(t, "```", "") == [t[0]] + ReplaceAll(t[1..], "```", "");
      RemovalFirst(t[1..]);
    }
  }

  /** Output that begins with a backtick comes from input that begins with one: either
      the first character is kept, or a run of backticks starts there. */
  lemma RemovalFirst(t: string)
    ensures var o := ReplaceAll(t, "```", ""); o != [] && o[0] == '`' ==> t != [] && t[0] == '`'
  {
    if t != [] && !StartsWith(t, "```") {
      assert ReplaceAll(t, "```", "") == [t[0]] + ReplaceAll(t[1..], "```", "");
    }
  }

  /** After the quiz path's fence removal no three backticks remain, whatever the reply. */
  lemma QuizFenceStripComplete(content: string)
    ensures !Contains(QuizFenceStrip(content), "```")
  {
    NoTicksAfterRemoval(ReplaceAll(Strip(content), "```json", ""));
  }

  const StatNames: seq<string> := ["bravery", "curiosity", "empathy", "logic"]

  /** `isinstance(v, str)` for the value stored under a key, when there is one. */
  predicate IsStrAt(fields: seq<Field>, k: string) {
    var v := Get(fields, k);
    v.Some? && v.value.JStr?
  }

  /** One stat of an option's value: present, an `int` (booleans included), and in [-3, 3]. */
  predicate ValidStat(value: seq<Field>, stat: string) {
    var v := Get(value, stat);
    v.Some? && IsPyInt(v.value) && -3 <= PyIntValue(v.value) <= 3
  }

  /** An answer option: a string "label", a string "name", and a dictionary "value" that
      carries each of the four stats. Other keys are not looked at. */
  predicate ValidOption(o: Json) {
    o.JObj? && IsStrAt(o.fields, "label") && IsStrAt(o.fields, "name")
    && var v := Get(o.fields, "value");
    v.Some? && v.value.JObj? && forall s :: s in StatNames ==> ValidStat(v.value.fields, s)
  }

  /** A question: a string "question" (empty allowed) and a list of exactly four valid
      options under "options". */
  predicate ValidQuestion(q: Json) {
    q.JObj? && IsStrAt(q.fields, "question")
    && var opts := Get(q.fields, "options");
    opts.Some? && opts.value.JArr? && |opts.value.items| == 4
    && forall k :: 0 <= k < 4 ==> ValidOption(opts.value.items[k])
  }

  /** A quiz: a list of exactly five valid questions. */
  predicate ValidQuiz(j: Json) {
    j.JArr? && |j.items| == 5 && forall k :: 0 <= k < 5 ==> ValidQuestion(j.items[k])
  }

  /** Python's `p in s` for two strings. */
  predicate SubstringOf(p: string, s: string) {
    exists i | 0 <= i <= |s| - |p| :: OccursAt(s, p, i)
  }

  /** `str(e)` of the `TypeError` that `key in v` raises for a value that is neither a
      container nor a string. */
  function NotIterableMessage(v: Json): string
    requires v.JNull? || v.JBool? || v.JInt?
  {
    match v
    case JNull => "argument of type 'NoneType' is not iterable"
    case JBool(_) => "argument of type 'bool' is not iterable"
    case _ => "argument of type 'int' is not iterable"
  }

  /** `str(e)` of the `TypeError` that `v[key]` raises on a list or a string (Python
      3.11 and later). */
  const ListIndexMessage := "list indices must be integers or slices, not str"
  const StrIndexMessage := "string indices must be integers, not 'str'"

  /** One line `assert key in v and check(v[key])` of the schema check: `None` when it
      passes, otherwise `str(e)` of what it raises. A dictionary fails the assertion,
      whose message is empty. Anything else fails before that: a number, a boolean or
      `None` cannot be searched, and a list or a string that holds the key cannot be
      indexed by it; a list or a string without the key fails the assertion. */
  function KeyFailure(v: Json, key: string, check: Json -> bool): (r: Option<string>)
    ensures r.None? <==> v.JObj? && Get(v.fields, key).Some? && check(Get(v.fields, key).value)
    ensures v.JObj? ==> r.None? || r == Some("")
    ensures v.JNull? || v.JBool? || v.JInt? ==> r == Some(NotIterableMessage(v))
    ensures v.JArr? ==> r == Some(if JStr(key) in v.items then ListIndexMessage else "")
    ensures v.JStr? ==> r == Some(if SubstringOf(key, v.s) then StrIndexMessage else "")
  {
    match v
    case JObj(fs) => if Get(fs, key).Some? && check(Get(fs, key).value) then None else Some("")
    case JArr(items) => Some(if JStr(key) in items then ListIndexMessage else "")
    case JStr(t) => Some(if SubstringOf(key, t) then StrIndexMessage else "")
    case _ => Some(NotIterableMessage(v))
  }

  /** The first failure in a loop over `xs`: later items are not looked at. */
  function FirstFailure<T>(xs: seq<T>, f: T -> Option<string>): (r: Option<string>)
    ensures r.None? <==> forall k :: 0 <= k < |xs| ==> f(xs[k]).None?
  {
    if |xs| == 0 then None else if f(xs[0]).Some? then f(xs[0]) else FirstFailure(xs[1..], f)
  }

  /** The loop reports the failure of the first item that fails. */
  lemma {:induction false} FirstFailureAt<T>(xs: seq<T>, f: T -> Option<string>, k: nat)
    requires k < |xs| && f(xs[k]).Some?
    requires forall i :: 0 <= i < k ==> f(xs[i]).None?
    ensures FirstFailure(xs, f) == f(xs[k])
  {
    if k > 0 {
      FirstFailureAt(xs[1..], f, k - 1);
    }
  }

  /** The lines of the schema check for one option, in their order: "label", "name",
      "value", then the four stats inside "value". */
  function OptionFailure(o: Json): (r: Option<string>)
    ensures r.None? <==> ValidOption(o)
    ensures o.JObj? ==> r.None? || r == Some("")
  {
    var onLabel := KeyFailure(o, "label", (v: Json) => v.JStr?);
    if onLabel.Some? then onLabel
    else
      var onName := KeyFailure(o, "name", (v: Json) => v.JStr?);
      if onName.Some? then onName
      else
        var onValue := KeyFailure(o, "value", (v: Json) => v.JObj?);
        if onValue.Some? then onValue
        else if forall s :: s in StatNames ==> ValidStat(Get(o.fields, "value").value.fields, s) then None
        else Some("")
  }

  /** The lines of the schema check for one question: "question", "options", then each
      option in turn. */
  function QuestionFailure(q: Json): (r: Option<string>)
    ensures r.None? <==> ValidQuestion(q)
  {
    var onQuestion := KeyFailure(q, "question", (v: Json) => v.JStr?);
    if onQuestion.Some? then onQuestion
    else
      var onOptions := KeyFailure(q, "options", (v: Json) => v.JArr? && |v.items| == 4);
      if onOptions.Some? then onOptions
      else FirstFailure(Get(q.fields, "options").value.items, OptionFailure)
  }

  /** The whole schema check: a list of five, then each question in turn. */
  function QuizFailure(j: Json): (r: Option<string>)
    ensures r.None? <==> ValidQuiz(j)
  {
    if j.JArr? && |j.items| == 5 then FirstFailure(j.items, QuestionFailure) else Some("")
  }

  /** The quiz path after the service has answered: remove the fences, parse, check the
      schema. `Ok` carries the parsed list; `Err` carries `str(e)`, the text that ends up
      under "details": the parser's message, the empty message of a failed assertion, or
      the message of the `TypeError` that a question or option which is not a
      dictionary raises. */
  function CheckQuiz(content: string, parse: string -> Result<Json>): (r: Result<Json>)
    ensures r.Ok? <==> parse(QuizFenceStrip(content)).Ok? && ValidQuiz(parse(QuizFenceStrip(content)).value)
    ensures r.Ok? ==> r.value == parse(QuizFenceStrip(content)).value
    ensures parse(QuizFenceStrip(content)).Err? ==> r == Err(parse(QuizFenceStrip(content)).msg)
  {
    match parse(QuizFenceStrip(content))
    case Err(m) => Err(m)
    case Ok(q) => match QuizFailure(q) case None => Ok(q) case Some(m) => Err(m)
  }

  /** The details of a rejected quiz are the message of its first invalid question. */
  lemma QuizErrorDetails(content: string, parse: string -> Result<Json>, k: nat)
    requires parse(QuizFenceStrip(content)).Ok?
    requires var j := parse(QuizFenceStrip(content)).value;
      j.JArr? && |j.items| == 5 && k < 5 && !ValidQuestion(j.items[k])
      && forall i :: 0 <= i < k ==> ValidQuestion(j.items[i])
    ensures var j := parse(QuizFenceStrip(content)).value;
      CheckQuiz(content, parse) == Err(QuestionFailure(j.items[k]).value)
  {
    var j := parse(QuizFenceStrip(content)).value;
    FirstFailureAt(j.items, QuestionFailure, k);
  }

  /** A question that is a number, a list holding the text "question", or a string
      containing it fails with a `TypeError` message, not an empty one. */
  lemma QuestionTypeErrors(n: int)
    ensures QuestionFailure(JInt(n)) == Some("argument of type 'int' is not iterable")
    ensures QuestionFailure(JArr([JStr("question")])) == Some(ListIndexMessage)
    ensures QuestionFailure(JStr("the question")) == Some(StrIndexMessage)
  {
    assert JStr("question") in [JStr("question")];
    assert OccursAt("the question", "question", 4);
  }

  /** A question that is a dictionary, with only dictionaries among its options, fails
      with an empty message or not at all. */
  lemma DictQuestionSilent(q: Json)
    requires q.JObj?
    requires var opts := Get(q.fields, "options");
      opts.Some? && opts.value.JArr? ==> forall k :: 0 <= k < |opts.value.items| ==> opts.value.items[k].JObj?
    ensures QuestionFailure(q).None? || QuestionFailure(q) == Some("")
  {
    var opts := Get(q.fields, "options");
    if opts.Some? && opts.value.JArr? && |opts.value.items| == 4 && IsStrAt(q.fields, "question") {
      FirstFailureSilent(opts.value.items);
    }
  }

  /** Options that are all dictionaries fail, if at all, with an empty message. */
  lemma {:induction false} FirstFailureSilent(os: seq<Json>)
    requires forall k :: 0 <= k < |os| ==> os[k].JObj?
    ensures FirstFailure(os, OptionFailure).None? || FirstFailure(os, OptionFailure) == Some("")
  {
    if |os| > 0 {
      FirstFailureSilent(os[1..]);
    }
  }

  /** The body that the quiz route sends back. */
  function QuizReply(r: Result<Json>): (body: Json)
    ensures body.JObj?
    ensures r.Ok? ==> body == JObj([("questions", r.value)])
    ensures r.Err? ==> Get(body.fields, "error") == Some(JStr("Failed to generate or parse questions"))
    ensures r.Err? ==> Get(body.fields, "details") == Some(JStr(r.msg)) && Get(body.fields, "questions").None?
  {
    match r
    case Ok(q) => JObj([("questions", q)])
    case Err(d) =>
      var e, f := ("error", JStr("Failed to generate or parse questions")), ("details", JStr(d));
      GetTwo(e, f, "error");
      GetTwo(e, f, "details");
      GetTwo(e, f, "questions");
      JObj([e, f])
  }

  /** All or nothing: a single invalid question anywhere rejects the whole quiz. */
  lemma OneBadQuestionRejects(content: string, parse: string -> Result<Json>, k: nat)
    requires parse(QuizFenceStrip(content)).Ok?
    requires var j := parse(QuizFenceStrip(content)).value; j.JArr? && k < |j.items| && !ValidQuestion(j.items[k])
    ensures CheckQuiz(content, parse).Err?
  {
  }

  /** All or nothing for options: one invalid option rejects its question. */
  lemma OneBadOptionRejects(q: Json, k: nat)
    requires q.JObj? && Get(q.fields, "options").Some? && Get(q.fields, "options").value.JArr?
    requires var opts := Get(q.fields, "options").value.items; k < |opts| && !ValidOption(opts[k])
    ensures !ValidQuestion(q)
  {
  }

  /** A stat outside [-3, 3], or missing, rejects its option. */
  lemma StatOutOfRangeRejects(o: Json, s: string)
    requires o.JObj? && s in StatNames
    requires var v := Get(o.fields, "value"); v.Some? && v.value.JObj? && !ValidStat(v.value.fields, s)
    ensures !ValidOption(o)
  {
  }

  /** Keys the schema does not name are not rejected: adding one to a valid option keeps
      it valid. */
  lemma ExtraKeyAccepted(fs: seq<Field>, k: string, v: Json)
    requires ValidOption(JObj(fs)) && k !in Keys(fs)
    ensures ValidOption(JObj(fs + [(k, v)]))
  {
    forall n ensures Get(fs + [(k, v)], n) == (if n in Keys(fs) then Get(fs, n) else if n == k then Some(v) else None) {
      GetAppend(fs, k, v, n);
    }
    GetSpec(fs, "label");
    GetSpec(fs, "name");
    GetSpec(fs, "value");
    var w := Get(fs, "value").value;
    assert Get(fs + [(k, v)], "value") == Some(w);
  }

  lemma {:induction false} GetAppend(fs: seq<Field>, k: string, v: Json, n: string)
    ensures Get(fs + [(k, v)], n) == (if n in Keys(fs) then Get(fs, n) else if n == k then Some(v) else None)
  {
    if fs != [] {
      assert (fs + [(k, v)])[1..] == fs[1..] + [(k, v)];
      GetAppend(fs[1..], k, v, n);
      assert Keys(fs) == [fs[0].0] + Keys(fs[1..]);
    }
  }

  /** JSON `true` and `false` pass the stat check as 1 and 0, because Python's `bool`
      is a subclass of `int`. */
  lemma BooleanStatsAccepted(value: seq<Field>, s: string, b: bool)
    requires Get(value, s) == Some(JBool(b))
    ensures ValidStat(value, s)
  {
  }

  /** An option whose stat is a string is rejected, even when the string is a numeral. */
  lemma StringStatRejected(value: seq<Field>, s: string, t: string)
    requires Get(value, s) == Some(JStr(t))
    ensures !ValidStat(value, s)
  {
  }

  // ---------------------------------------------------------------------------
  // Trait replies
  // ---------------------------------------------------------------------------

  /** The first index at or after `from` that holds `c`, if any. */
  function IndexFrom(s: string, c: char, from: nat): (r: Option<nat>)
    requires from <= |s|
    ensures r.Some? ==> from <= r.value < |s| && s[r.value] == c
    ensures r.Some? ==> forall k :: from <= k < r.value ==> s[k] != c
    ensures r.None? ==> forall k :: from <= k < |s| ==> s[k] != c
    decreases |s| - from
  {
    if from == |s| then None
    else if s[from] == c then Some(from)
    else IndexFrom(s, c, from + 1)
  }

  /** `re.search(r"\{[\s\S]*?\}", content).group(0)`: the leftmost match starts at the
      first `{`, and the lazy `*?` makes it end at the first `}` after that. */
  function ExtractBlock(content: string): (r: Option<string>)
    ensures r.Some? ==> |r.value| >= 2 && r.value[0] == '{' && r.value[|r.value| - 1] == '}'
    ensures r.Some? ==> forall k :: 0 < k < |r.value| - 1 ==> r.value[k] != '}'
  {
    match IndexFrom(content, '{', 0)
    case None => None
    case Some(i) =>
      match IndexFrom(content, '}', i + 1)
      case None => None
      case Some(j) => Some(content[i..j + 1])
  }

  /** There is a block exactly when some `{` is followed, somewhere later, by a `}`. */
  lemma ExtractBlockExists(content: string)
    ensures ExtractBlock(content).Some? <==>
      exists i, j :: 0 <= i < j < |content| && content[i] == '{' && content[j] == '}'
  {
    var fi := IndexFrom(content, '{', 0);
    if ExtractBlock(content).Some? {
      var i := fi.value;
      var j := IndexFrom(content, '}', i + 1).value;
      assert content[i] == '{' && content[j] == '}';
    }
    forall i, j | 0 <= i < j < |content| && content[i] == '{' && content[j] == '}'
      ensures ExtractBlock(content).Some?
    {
      assert fi.Some? && fi.value <= i;
      assert IndexFrom(content, '}', fi.value + 1).Some?;
    }
  }

  /** The block is exactly what lies between the first `{` and the first `}` after it:
      the text before the block holds no `{`, and the block holds no `}` but its last. */
  lemma ExtractBlockAt(p: string, q: string, t: string)
    requires '{' !in p && '}' !in q
    ensures ExtractBlock(p + "{" + q + "}" + t) == Some("{" + q + "}")
  {
    var s := p + "{" + q + "}" + t;
    var i := |p|;
    var j := |p| + 1 + |q|;
    assert s[i] == '{' && s[j] == '}';
    forall k | 0 <= k < i ensures s[k] != '{' {
      assert s[k] == p[k];
    }
    forall k | i + 1 <= k < j ensures s[k] != '}' {
      assert s[k] == q[k - i - 1];
    }
    FirstIndexIs(s, '{', 0, i);
    FirstIndexIs(s, '}', i + 1, j);
    assert s[i..j + 1] == "{" + q + "}";
  }

  lemma {:induction false} FirstIndexIs(s: string, c: char, from: nat, i: nat)
    requires from <= i < |s| && s[i] == c
    requires forall k :: from <= k < i ==> s[k] != c
    ensures IndexFrom(s, c, from) == Some(i)
    decreases i - from
  {
    if from < i {
      FirstIndexIs(s, c, from + 1, i);
    }
  }

  /** The dictionary returned when the reply holds no block, or the block does not
      parse. */
  function ParseFailure(content: string): (j: Json)
    ensures j.JObj? && DistinctKeys(j.fields)
    ensures Get(j.fields, "archetype") == Some(JStr("Unknown"))
    ensures Get(j.fields, "error") == Some(JStr("Failed to parse JSON"))
    ensures Get(j.fields, "raw") == Some(JStr(content))
  {
    var a, e, r := ("archetype", JStr("Unknown")), ("error", JStr("Failed to parse JSON")), ("raw", JStr(content));
    GetThree(a, e, r, "archetype");
    GetThree(a, e, r, "error");
    GetThree(a, e, r, "raw");
    GetTwo(e, r, "raw");
    JObj([a, e, r])
  }

  /** The dictionary returned when the service answers with a status other than 200. */
  const CallFailure: Json := JObj([("archetype", JStr("Unknown")), ("error", JStr("LLM call failed"))])

  /** `get_personality_traits` once the service has answered with `status` and the reply
      text `content`. */
  function PersonalityTraits(status: int, content: string, parse: string -> Result<Json>): (j: Json)
    ensures status != 200 ==> j == CallFailure
    ensures status == 200 && ExtractBlock(content).None? ==> j == ParseFailure(content)
    ensures status == 200 && ExtractBlock(content).Some? ==>
      j == match parse(ExtractBlock(content).value) case Ok(v) => v case Err(_) => ParseFailure(content)
  {
    if status != 200 then CallFailure
    else match ExtractBlock(content)
      case None => ParseFailure(content)
      case Some(b) =>
        match parse(b)
        case Ok(v) => v
        case Err(_) => ParseFailure(content)
  }

  /** A nested object is cut at its inner `}`: only the text up to the first closing
      brace is handed to the parser. */
  lemma NestedObjectCut(p: string, a: string, b: string, t: string)
    requires '{' !in p && '}' !in a && '}' !in b
    ensures ExtractBlock(p + "{" + a + "{" + b + "}" + t) == Some("{" + a + "{" + b + "}")
  {
    var q := a + "{" + b;
    assert '}' !in q by {
      forall k | 0 <= k < |q| ensures q[k] != '}' {
        if k < |a| {
          assert q[k] == a[k];
        } else if k > |a| {
          assert q[k] == b[k - |a| - 1];
        }
      }
    }
    assert p + "{" + a + "{" + b + "}" + t == p + "{" + q + "}" + t;
    ExtractBlockAt(p, q, t);
    assert "{" + q + "}" == "{" + a + "{" + b + "}";
  }

  /** A reply with no `{` at all falls back to the failure dictionary, which carries the
      reply text unchanged. */
  lemma NoBraceFallsBack(content: string, parse: string -> Result<Json>)
    requires '{' !in content
    ensures PersonalityTraits(200, content, parse) == ParseFailure(content)
  {
    ExtractBlockExists(content);
  }
}
