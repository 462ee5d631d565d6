/** The quiz page of the game (static/game.js): the radio value each answer option
    carries, the stat board that an answer's value updates, and the slide show that
    walks through the questions. */
module Game {
  import opened Wrappers
  import opened Text
  import opened Json

  /** `MAX_STAT`: the ceiling of every stat. */
  const MaxStat := 30

  /** A JavaScript number as this page can produce it: an integer, or `NaN`. */
  datatype Num = Int(i: int) | NaN

  /** `a + b`: `NaN` if either side is. */
  function Add(a: Num, b: Num): Num {
    if a.NaN? || b.NaN? then NaN else Int(a.i + b.i)
  }

  /** `Math.min(a, b)` and `Math.max(a, b)`: `NaN` if either argument is. */
  function Min(a: Num, b: Num): Num {
    if a.NaN? || b.NaN? then NaN else Int(if a.i <= b.i then a.i else b.i)
  }

  function Max(a: Num, b: Num): Num {
    if a.NaN? || b.NaN? then NaN else Int(if a.i >= b.i then a.i else b.i)
  }

  /** `Math.max(0, Math.min(MAX_STAT, stat + change))`: the stat moved by the change and
      held within `[0, MAX_STAT]`; a `NaN` on either side gives `NaN`. */
  function Clamp(stat: Num, change: Num): (r: Num)
    ensures r.NaN? <==> stat.NaN? || change.NaN?
    ensures r.Int? ==> 0 <= r.i <= MaxStat
    ensures stat.Int? && change.Int? && 0 <= stat.i + change.i <= MaxStat ==> r == Int(stat.i + change.i)
    ensures stat.Int? && change.Int? && stat.i + change.i < 0 ==> r == Int(0)
    ensures stat.Int? && change.Int? && stat.i + change.i > MaxStat ==> r == Int(MaxStat)
  {
    Max(Int(0), Min(Int(MaxStat), Add(stat, change)))
  }

  /** The white space `parseInt` skips at the front of its argument. */
  predicate JsSpace(c: char) {
    ('\t' <= c <= '\r') || c == ' ' || c == '\U{00A0}' || c == '\U{1680}'
    || ('\U{2000}' <= c <= '\U{200A}') || c == '\U{2028}' || c == '\U{2029}'
    || c == '\U{202F}' || c == '\U{205F}' || c == '\U{3000}' || c == '\U{FEFF}'
  }

  function JsLeadingSpaces(s: string): (n: nat)
    ensures n <= |s|
    ensures n < |s| ==> !JsSpace(s[n])
  {
    if s != [] && JsSpace(s[0]) then 1 + JsLeadingSpaces(s[1..]) else 0
  }

  /** The length of the run of decimal digits at the front of `s`. */
  function DigitRun(s: string): (n: nat)
    ensures n <= |s| && AllDigits(s[..n])
    ensures n < |s| ==> !IsDigit(s[n])
  {
    if s != [] && IsDigit(s[0]) then
      var n := 1 + DigitRun(s[1..]);
      assert s[..n] == [s[0]] + s[1..][..n - 1];
      n
    else 0
  }

  /** `parseInt(text)` in base 10: skip leading white space, take an optional sign and
      then the longest run of digits; without a digit the result is `NaN`. Anything after
      the digits is ignored. */
  function ParseInt(text: string): Num {
    var t := text[JsLeadingSpaces(text)..];
    var signed := t != [] && (t[0] == '-' || t[0] == '+');
    var u := if signed then t[1..] else t;
    var n := DigitRun(u);
    if n == 0 then NaN
    else if signed && t[0] == '-' then Int(-(DigitsValue(u[..n]) as int))
    else Int(DigitsValue(u[..n]))
  }

  /** `parseInt` reads back every integer that `${n}` prints. */
  lemma ParseIntNumeral(n: int)
    ensures ParseInt(IntToString(n)) == Int(n)
  {
    var d := NatToString(if n < 0 then -n else n);
    NatToStringDigits(if n < 0 then -n else n);
    AllDigitsRun(d);
    if n < 0 {
      assert IntToString(n) == "-" + d;
      assert ("-" + d)[1..] == d;
    } else {
      assert IntToString(n) == d;
    }
  }

  lemma AllDigitsRun(d: string)
    requires |d| >= 1 && AllDigits(d)
    ensures JsLeadingSpaces(d) == 0 && JsLeadingSpaces("-" + d) == 0
    ensures DigitRun(d) == |d| && d[..|d|] == d
  {
    assert !JsSpace(d[0]) && !JsSpace(("-" + d)[0]);
    DigitRunAll(d);
  }

  lemma {:induction false} DigitRunAll(d: string)
    requires AllDigits(d)
    ensures DigitRun(d) == |d|
  {
    if d != [] {
      DigitRunAll(d[1..]);
    }
  }

  /** `String(v)`, as a template literal prints a parsed JSON value. An array prints its
      items joined by commas, with `null` printed as nothing. */
  function JsText(v: Json): string
    decreases v
  {
    match v
    case JNull => "null"
    case JBool(b) => if b then "true" else "false"
    case JInt(i) => IntToString(i)
    case JStr(s) => s
    case JArr(items) =>
      Join(seq(|items|, k requires 0 <= k < |items| =>
        if items[k].JNull? then "" else JsText(items[k])), ",")
    case JObj(_) => "[object Object]"
  }

  /** The value of an answer's radio button: the option's stat changes as `stat:change`
      pairs, in the object's order, joined by commas. */
  function Encode(value: seq<Field>): string {
    Join(seq(|value|, k requires 0 <= k < |value| => value[k].0 + ":" + JsText(value[k].1)), ",")
  }

  /** One `stat:change` pair read back from a radio value. */
  datatype Update = Update(stat: string, change: Num)

  /** `const [stat, changeStr] = update.split(":"); parseInt(changeStr)`: a pair without a
      colon leaves `changeStr` undefined, which `parseInt` reads as the text
      `"undefined"`. */
  function DecodeUpdate(piece: string): Update {
    var parts := Split(piece, ':');
    Update(parts[0], ParseInt(if |parts| >= 2 then parts[1] else "undefined"))
  }

  /** `value.split(",")`, each piece read as a pair. */
  function Decode(value: string): (us: seq<Update>)
    ensures |us| == |Split(value, ',')|
  {
    var pieces := Split(value, ',');
    seq(|pieces|, k requires 0 <= k < |pieces| => DecodeUpdate(pieces[k]))
  }

  /** A stat board with no `NaN` and every stat within `[0, MAX_STAT]`. */
  predicate InRange(stats: map<string, Num>) {
    forall k | k in stats :: stats[k].Int? && 0 <= stats[k].i <= MaxStat
  }

  /** `if (stat in stats) stats[stat] = clamp(...)`: a pair whose stat is not on the board
      changes nothing. */
  function ApplyUpdate(stats: map<string, Num>, u: Update): map<string, Num> {
    if u.stat in stats then stats[u.stat := Clamp(stats[u.stat], u.change)] else stats
  }

  /** The pairs applied one after the other, from the left. */
  function ApplyAll(stats: map<string, Num>, us: seq<Update>): map<string, Num> {
    if us == [] then stats else ApplyUpdate(ApplyAll(stats, us[..|us| - 1]), us[|us| - 1])
  }

  /** The stats the page starts with. */
  function InitialStats(): map<string, Num> {
    map["bravery" := Int(7), "curiosity" := Int(3), "empathy" := Int(8), "logic" := Int(6)]
  }

  /** The page starts with all four stats in range. */
  lemma InitialInRange()
    ensures InitialStats().Keys == {"bravery", "curiosity", "empathy", "logic"}
    ensures InRange(InitialStats())
  {
  }

  /** Applying pairs never adds or drops a stat. */
  lemma {:induction false} ApplyAllKeys(stats: map<string, Num>, us: seq<Update>)
    ensures ApplyAll(stats, us).Keys == stats.Keys
  {
    if us != [] {
      ApplyAllKeys(stats, us[..|us| - 1]);
    }
  }

  /** A stat that no pair names keeps its value; in particular a pair naming an unknown
      stat is ignored. */
  lemma {:induction false} ApplyAllUntouched(stats: map<string, Num>, us: seq<Update>, k: string)
    requires k in stats
    requires forall j :: 0 <= j < |us| ==> us[j].stat != k
    ensures k in ApplyAll(stats, us) && ApplyAll(stats, us)[k] == stats[k]
  {
    if us != [] {
      ApplyAllUntouched(stats, us[..|us| - 1], k);
    }
  }

  /** Starting in range, integer changes keep every stat in range. */
  lemma {:induction false} ApplyAllInRange(stats: map<string, Num>, us: seq<Update>)
    requires InRange(stats)
    requires forall j :: 0 <= j < |us| ==> us[j].change.Int?
    ensures InRange(ApplyAll(stats, us))
  {
    if us != [] {
      ApplyAllInRange(stats, us[..|us| - 1]);
    }
  }

  /** A `NaN` stat stays `NaN` whatever is applied to it. */
  lemma {:induction false} ApplyAllNaNSticky(stats: map<string, Num>, us: seq<Update>, k: string)
    requires k in stats && stats[k].NaN?
    ensures k in ApplyAll(stats, us) && ApplyAll(stats, us)[k].NaN?
  {
    if us != [] {
      ApplyAllNaNSticky(stats, us[..|us| - 1], k);
    }
  }

  /** A `NaN` change to a stat on the board leaves that stat `NaN` for good. */
  lemma {:induction false} ApplyAllNaN(stats: map<string, Num>, us: seq<Update>, j: nat)
    requires j < |us| && us[j].stat in stats && us[j].change.NaN?
    ensures us[j].stat in ApplyAll(stats, us) && ApplyAll(stats, us)[us[j].stat].NaN?
  {
    var k := us[j].stat;
    if j == |us| - 1 {
      ApplyAllKeys(stats, us[..|us| - 1]);
    } else {
      ApplyAllNaN(stats, us[..|us| - 1], j);
      var before := ApplyAll(stats, us[..|us| - 1]);
      assert k in before && before[k].NaN?;
    }
  }

  /** Reading back the radio value of an option whose changes are integers gives each
      stat with its change, in order. */
  lemma EncodeDecode(value: seq<Field>)
    requires |value| >= 1
    requires forall k :: 0 <= k < |value| ==> ',' !in value[k].0 && ':' !in value[k].0
    requires forall k :: 0 <= k < |value| ==> value[k].1.JInt?
    ensures Decode(Encode(value)) == seq(|value|, k requires 0 <= k < |value| => Update(value[k].0, Int(value[k].1.i)))
  {
    var pieces := seq(|value|, k requires 0 <= k < |value| => value[k].0 + ":" + JsText(value[k].1));
    forall k | 0 <= k < |value|
      ensures ',' !in pieces[k]
      ensures DecodeUpdate(pieces[k]) == Update(value[k].0, Int(value[k].1.i))
    {
      PairDecode(value[k].0, value[k].1.i);
    }
    SplitJoin(pieces, ',');
  }

  /** One `stat:change` pair with an integer change. */
  lemma PairDecode(stat: string, n: int)
    requires ',' !in stat && ':' !in stat
    ensures ',' !in stat + ":" + IntToString(n)
    ensures DecodeUpdate(stat + ":" + IntToString(n)) == Update(stat, Int(n))
  {
    var d := IntToString(n);
    NatToStringDigits(if n < 0 then -n else n);
    assert forall c | c in d :: c == '-' || IsDigit(c);
    PieceDecode(stat, d);
    ParseIntNumeral(n);
  }

  /** A pair whose two sides hold neither separator splits into exactly those sides. */
  lemma PieceDecode(stat: string, t: string)
    requires ',' !in stat && ':' !in stat && ',' !in t && ':' !in t
    ensures ',' !in stat + ":" + t
    ensures DecodeUpdate(stat + ":" + t) == Update(stat, ParseInt(t))
  {
    SplitNoSeparator(t, ':');
    SplitPrefix(stat, t, ':');
    assert stat + ":" + t == stat + [':'] + t;
  }

  /** An option with no stat changes yields one pair naming the empty stat, which the
      board ignores. */
  lemma EmptyOptionIgnored(stats: map<string, Num>)
    requires "" !in stats
    ensures Decode(Encode([])) == [Update("", NaN)]
    ensures ApplyAll(stats, Decode(Encode([]))) == stats
  {
    assert Split("", ',') == [""];
    assert Split("", ':') == [""];
    var us := Decode(Encode([]));
    assert us[..0] == [];
  }

  /** A change given as a JSON boolean prints as `true` or `false`, which `parseInt`
      reads as `NaN`: the stat it names becomes `NaN`. */
  lemma BooleanChangeIsNaN(stats: map<string, Num>, stat: string, b: bool)
    requires ',' !in stat && ':' !in stat && stat in stats
    ensures Decode(Encode([(stat, JBool(b))])) == [Update(stat, NaN)]
    ensures var after := ApplyAll(stats, Decode(Encode([(stat, JBool(b))])));
      stat in after && after[stat].NaN?
  {
    BooleanPair(stat, b);
    ApplyAllNaN(stats, [Update(stat, NaN)], 0);
  }

  lemma BooleanPair(stat: string, b: bool)
    requires ',' !in stat && ':' !in stat
    ensures Decode(Encode([(stat, JBool(b))])) == [Update(stat, NaN)]
  {
    var t := if b then "true" else "false";
    var piece := stat + ":" + t;
    assert Encode([(stat, JBool(b))]) == piece;
    BooleanPiece(stat, t);
    SplitNoSeparator(piece, ',');
  }

  lemma BooleanPiece(stat: string, t: string)
    requires ',' !in stat && ':' !in stat
    requires t == "true" || t == "false"
    ensures ',' !in stat + ":" + t
    ensures DecodeUpdate(stat + ":" + t) == Update(stat, NaN)
  {
    assert t[0] == 'f' || t[0] == 't';
    assert forall c | c in t :: 'a' <= c <= 'z';
    PieceDecode(stat, t);
    NoNumberAhead(t);
  }

  /** Text that starts with neither white space, a sign nor a digit is no number. */
  lemma NoNumberAhead(t: string)
    requires t != [] && !JsSpace(t[0]) && !IsDigit(t[0]) && t[0] != '-' && t[0] != '+'
    ensures ParseInt(t) == NaN
  {
    assert JsLeadingSpaces(t) == 0 && DigitRun(t) == 0;
  }

  /** The stats panel: `stats`, updated by the "next" button from the chosen answer. */
  class StatBoard {
    var stats: map<string, Num>

    constructor()
      ensures stats == InitialStats()
    {
      stats := InitialStats();
    }

    /** The "next" button: with no answer chosen nothing changes; otherwise each
        `stat:change` pair of the answer's value is applied in turn. */
    method ApplyChoice(choice: Option<string>)
      modifies this
      ensures choice.None? ==> stats == old(stats)
      ensures choice.Some? ==> stats == ApplyAll(old(stats), Decode(choice.value))
    {
      if choice.None? {
        return;
      }
      var updates := Split(choice.value, ',');
      ghost var us := Decode(choice.value);
      var i := 0;
      while i < |updates|
        invariant 0 <= i <= |updates|
        invariant stats == ApplyAll(old(stats), us[..i])
      {
        var parts := Split(updates[i], ':');
        var stat := parts[0];
        var change := ParseInt(if |parts| >= 2 then parts[1] else "undefined");
        ApplyAllStep(old(stats), us, i);
        if stat in stats {
          stats := stats[stat := Clamp(stats[stat], change)];
        }
        i := i + 1;
      }
      assert us[..|updates|] == us;
    }
  }

  /** Applying one more pair of a list. */
  lemma ApplyAllStep(stats: map<string, Num>, us: seq<Update>, i: nat)
    requires i < |us|
    ensures ApplyAll(stats, us[..i + 1]) == ApplyUpdate(ApplyAll(stats, us[..i]), us[i])
  {
    assert us[..i + 1][..i] == us[..i];
  }

  /** Which of `count` slides a flag is set for: exactly the one at `index`. */
  function Showing(index: int, count: nat): (r: seq<bool>)
    ensures |r| == count
    ensures forall i :: 0 <= i < count ==> (r[i] <==> i == index)
  {
    seq(count, i => i == index)
  }

  /** The question slides: `currentSlide`, the slide whose inline style shows it, the
      slide marked `active`, and whether the "next" and "submit" buttons are shown. */
  class SlideShow {
    var current: int
    var count: nat
    var display: seq<bool>
    var active: seq<bool>
    var nextShown: bool
    var submitShown: bool

    /** The slide show as the handlers keep it: the current index is at most one past
        the last slide; the current slide, or the last one once past the end, is the one
        displayed; the current slide is the active one; "submit" replaces "next" exactly
        on the last slide. */
    predicate Valid()
      reads this
    {
      |display| == count && |active| == count && 0 <= current <= count
      && display == Showing(if current < count then current else count - 1, count)
      && active == Showing(current, count)
      && (nextShown <==> current != count - 1)
      && (submitShown <==> current == count - 1)
    }

    /** Page load: `let currentSlide = 0`, no slides yet. */
    constructor()
      ensures Valid() && current == 0 && count == 0
    {
      current := 0;
      count := 0;
      display := [];
      active := [];
      nextShown := true;
      submitShown := false;
    }

    /** `resetSlide()`: back to the first question. */
    method ResetSlide()
      modifies this
      ensures current == 0
      ensures count == old(count) && display == old(display) && active == old(active)
      ensures nextShown == old(nextShown) && submitShown == old(submitShown)
    {
      current := 0;
    }

    /** `showSlide(index)`: mark only slide `index` active, and show "submit" instead of
        "next" exactly when `index` is the last slide. */
    method ShowSlide(index: int)
      modifies this
      ensures active == Showing(index, count)
      ensures nextShown <==> index != count - 1
      ensures submitShown <==> index == count - 1
      ensures current == old(current) && count == old(count) && display == old(display)
    {
      active := Showing(index, count);
      if index == count - 1 {
        nextShown := false;
        submitShown := true;
      } else {
        nextShown := true;
        submitShown := false;
      }
    }

    /** A freshly generated quiz of `n` questions: only the first slide is displayed, then
        `showSlide(currentSlide)`. After `resetSlide()` this leaves a valid slide show on
        its first question. */
    method Render(n: nat)
      modifies this
      ensures count == n && current == old(current)
      ensures display == Showing(0, n)
      ensures active == Showing(current, n)
      ensures old(current) == 0 ==> Valid()
    {
      count := n;
      display := Showing(0, n);
      ShowSlide(current);
    }

    /** `nextSlide()`: hide the current slide and display the next one; on the last
        slide, only move the index one past the end; past the end, stay. */
    method NextSlide()
      requires Valid()
      modifies this
      ensures Valid()
      ensures count == old(count)
      ensures current == if old(current) < count then old(current) + 1 else old(current)
    {
      if current < count - 1 {
        display := display[current := false];
        current := current + 1;
        display := display[current := true];
        assert display == Showing(current, count);
      } else if current == count - 1 {
        current := current + 1;
      }
      ShowSlide(current);
    }
  }
}
