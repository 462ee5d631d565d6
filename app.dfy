/** The Flask server's own logic (app.py): the archetype classifier
    `determine_archetype`, the re-parse and merge of the trait reply in the `/analyze`
    route, and the missing-value check of the `/start` route. */
module App {
  import opened Wrappers
  import opened Text
  import opened Json
  import opened Ranking
  import LlmClient

  /** The four personality traits. */
  datatype Trait = Bravery | Empathy | Curiosity | Logic

  /** The order in which the classifier reads the traits, which decides ties. */
  const TraitOrder: seq<Trait> := [Bravery, Empathy, Curiosity, Logic]

  /** The dictionary key of a trait. */
  function Key(t: Trait): string {
    match t
    case Bravery => "bravery"
    case Empathy => "empathy"
    case Curiosity => "curiosity"
    case Logic => "logic"
  }

  /** Where a trait stands in `TraitOrder`. */
  function Position(t: Trait): (i: nat)
    ensures i < |TraitOrder| && TraitOrder[i] == t
  {
    match t
    case Bravery => 0
    case Empathy => 1
    case Curiosity => 2
    case Logic => 3
  }

  // ---------------------------------------------------------------------------
  // Python's int()

  /** The whitespace `int()` skips around a numeral: Python's whitespace except the four
      information separators U+001C to U+001F. `int()` maps every non-ASCII space to an
      ASCII one and then skips only the C library's spaces, which leave those four out. */
  predicate IntSpace(c: char) {
    IsSpace(c) && !('\U{001C}' <= c <= '\U{001F}')
  }

  /** The number of `int()` spaces at the front of `s`. */
  function IntLeading(s: string): (n: nat)
    ensures n <= |s|
    ensures forall k :: 0 <= k < n ==> IntSpace(s[k])
    ensures n < |s| ==> !IntSpace(s[n])
  {
    if s != [] && IntSpace(s[0]) then 1 + IntLeading(s[1..]) else 0
  }

  /** The number of `int()` spaces at the back of `s`. */
  function IntTrailing(s: string): (n: nat)
    ensures n <= |s|
    ensures forall k :: |s| - n <= k < |s| ==> IntSpace(s[k])
    ensures n < |s| ==> !IntSpace(s[|s| - n - 1])
  {
    if s != [] && IntSpace(s[|s| - 1]) then 1 + IntTrailing(s[..|s| - 1]) else 0
  }

  /** The text `int()` reads: `s` without the `int()` spaces at either end. */
  function IntStrip(s: string): string {
    var t := s[IntLeading(s)..];
    t[..|t| - IntTrailing(t)]
  }

  /** Padding made of `int()` spaces is removed, and nothing more. */
  lemma IntStripPadded(w: string, d: string, w': string)
    requires forall k :: 0 <= k < |w| ==> IntSpace(w[k])
    requires forall k :: 0 <= k < |w'| ==> IntSpace(w'[k])
    requires d != [] && !IntSpace(d[0]) && !IntSpace(d[|d| - 1])
    ensures IntStrip(w + d + w') == d
  {
    var s := w + d + w';
    var i := IntLeading(s);
    assert s[|w|] == d[0];
    assert forall k :: 0 <= k < |w| ==> s[k] == w[k];
    assert i == |w|;
    var t := s[i..];
    assert t == d + w';
    var j := IntTrailing(t);
    assert t[|d| - 1] == d[|d| - 1];
    assert forall k :: |d| <= k < |t| ==> t[k] == w'[k - |d|];
    assert j == |w'|;
    assert t[..|t| - j] == d;
  }

  /** Python's default limit on the digits of a decimal numeral that `int()` reads and
      `str()` prints (`sys.int_info.default_max_str_digits`, Python 3.11 and later). */
  const MaxStrDigits := 4300

  /** Decimal digits with single underscores between them, as `int()` accepts them. */
  predicate IsNumeral(s: string) {
    s != [] && IsDigit(s[0]) && IsDigit(s[|s| - 1])
    && (forall k :: 0 <= k < |s| ==> IsDigit(s[k]) || s[k] == '_')
    && (forall k :: 0 <= k < |s| - 1 ==> s[k] == '_' ==> s[k + 1] != '_')
  }

  /** The digits of a numeral, without its underscores. */
  function DropUnderscores(s: string): (r: string)
    ensures (forall k :: 0 <= k < |s| ==> IsDigit(s[k]) || s[k] == '_') ==> AllDigits(r)
    ensures AllDigits(s) ==> r == s
  {
    if s == [] then []
    else (if s[0] == '_' then [] else [s[0]]) + DropUnderscores(s[1..])
  }

  /** The value of a numeral, or `None` when the text is not one or has more digits
      than the limit (underscores are not counted). */
  function NumeralValue(s: string): Option<int> {
    if IsNumeral(s) && |DropUnderscores(s)| <= MaxStrDigits then Some(DigitsValue(DropUnderscores(s)))
    else None
  }

  /** `int(s)` for a string: `int()` spaces around the text are ignored, one sign is
      allowed and the rest must be a numeral within the digit limit; any other text
      raises `ValueError`, which is `None` here. */
  function PyIntOfText(s: string): Option<int> {
    var t := IntStrip(s);
    if t != [] && t[0] == '-' then
      match NumeralValue(t[1..]) case Some(n) => Some(-n) case None => None
    else if t != [] && t[0] == '+' then NumeralValue(t[1..])
    else NumeralValue(t)
  }

  /** The number of digits `str(n)` prints for `n`. */
  function DigitCount(n: int): nat {
    |NatToString(if n < 0 then -n else n)|
  }

  /** `int()` reads back every integer whose numeral `str()` prints, that is one of at
      most 4300 digits; the numeral of a longer integer is refused. */
  lemma PyIntOfTextNumeral(n: int)
    ensures DigitCount(n) <= MaxStrDigits ==> PyIntOfText(IntToString(n)) == Some(n)
    ensures DigitCount(n) > MaxStrDigits ==> PyIntOfText(IntToString(n)) == None
  {
    var m: nat := if n < 0 then -n else n;
    NatToStringDigits(m);
    if n < 0 {
      NegativeNumeral(NatToString(m));
    } else {
      UnsignedNumeral(NatToString(m));
    }
  }

  /** `int()` spaces around a numeral do not change what `int()` reads. */
  lemma PaddedNumeral(w: string, n: int, w': string)
    requires forall k :: 0 <= k < |w| ==> IntSpace(w[k])
    requires forall k :: 0 <= k < |w'| ==> IntSpace(w'[k])
    ensures PyIntOfText(w + IntToString(n) + w') == PyIntOfText(IntToString(n))
  {
    var d := IntToString(n);
    NumeralEnds(n);
    IntStripPadded(w, d, w');
    IntStripUnchanged(d);
    SameStripSameInt(w + d + w', d);
  }

  /** `int()` looks only at the text between its whitespace. */
  lemma SameStripSameInt(a: string, b: string)
    requires IntStrip(a) == IntStrip(b)
    ensures PyIntOfText(a) == PyIntOfText(b)
  {
  }

  /** A printed integer starts with a digit or `-` and ends with a digit. */
  lemma NumeralEnds(n: int)
    ensures var d := IntToString(n); d != [] && !IntSpace(d[0]) && !IntSpace(d[|d| - 1])
  {
    var m: nat := if n < 0 then -n else n;
    NatToStringDigits(m);
    var e := NatToString(m);
    if n < 0 {
      assert IntToString(n) == "-" + e;
      assert ("-" + e)[|e|] == e[|e| - 1];
    }
  }

  /** Text without an `int()` space at either end is read as it is. */
  lemma IntStripUnchanged(s: string)
    requires s == [] || (!IntSpace(s[0]) && !IntSpace(s[|s| - 1]))
    ensures IntStrip(s) == s
  {
    assert IntLeading(s) == 0;
    assert s[0..] == s;
    assert IntTrailing(s) == 0;
  }

  /** An information separator is Python whitespace, yet a numeral that starts with one
      is refused by `int()`. */
  lemma SeparatorRefused(n: int)
    ensures IsSpace('\U{001C}')
    ensures PyIntOfText("\U{001C}" + IntToString(n)) == None
  {
    var s := "\U{001C}" + IntToString(n);
    assert IntLeading(s) == 0;
    assert IntStrip(s)[0] == '\U{001C}';
  }

  lemma UnsignedNumeral(d: string)
    requires d != [] && AllDigits(d)
    ensures PyIntOfText(d) == if |d| <= MaxStrDigits then Some(DigitsValue(d) as int) else None
  {
    IntStripUnchanged(d);
    assert !(d[0] == '-' || d[0] == '+');
    DigitsAreNumeral(d);
  }

  lemma NegativeNumeral(d: string)
    requires d != [] && AllDigits(d)
    ensures PyIntOfText("-" + d) == if |d| <= MaxStrDigits then Some(-(DigitsValue(d) as int)) else None
  {
    var s := "-" + d;
    assert s[0] == '-' && s[1..] == d;
    assert s[|s| - 1] == d[|d| - 1];
    IntStripUnchanged(s);
    DigitsAreNumeral(d);
    NegativeText(s, d);
  }

  lemma NegativeText(s: string, d: string)
    requires IntStrip(s) == s && |s| >= 1 && s[0] == '-' && s[1..] == d
    requires IsNumeral(d) && DropUnderscores(d) == d && AllDigits(d)
    ensures PyIntOfText(s) == if |d| <= MaxStrDigits then Some(-(DigitsValue(d) as int)) else None
  {
  }

  lemma DigitsAreNumeral(d: string)
    requires d != [] && AllDigits(d)
    ensures IsNumeral(d) && DropUnderscores(d) == d
  {
  }

  /** `int(v)` for a parsed JSON value. Booleans are integers; a string is read as a
      numeral; `None`, lists and dictionaries raise `TypeError`, which is `None` here. */
  function PyInt(v: Json): (r: Option<int>)
    ensures IsPyInt(v) ==> r == Some(PyIntValue(v))
    ensures v.JNull? || v.JArr? || v.JObj? ==> r == None
  {
    match v
    case JInt(i) => Some(i)
    case JBool(b) => Some(if b then 1 else 0)
    case JStr(s) => PyIntOfText(s)
    case _ => None
  }

  // ---------------------------------------------------------------------------
  // determine_archetype

  /** `d.get(k, default)`. */
  function GetOr(d: seq<Field>, k: string, default: Json): Json {
    match Get(d, k) case Some(v) => v case None => default
  }

  /** `int(stats.get(key, 0))`, or 0 where that raises `ValueError` or `TypeError`. */
  function Coerce(stats: seq<Field>, t: Trait): int {
    var n := PyInt(GetOr(stats, Key(t), JInt(0)));
    if n.Some? then n.value else 0
  }

  /** What the coercion promises: a missing stat or a value `int()` refuses counts as 0,
      an integer or a boolean counts as its value, and a numeral as the number it
      spells. */
  lemma CoerceCases(stats: seq<Field>, t: Trait, n: int)
    ensures Get(stats, Key(t)).None? ==> Coerce(stats, t) == 0
    ensures Get(stats, Key(t)).Some? && PyInt(Get(stats, Key(t)).value).None? ==> Coerce(stats, t) == 0
    ensures Get(stats, Key(t)) == Some(JInt(n)) ==> Coerce(stats, t) == n
    ensures Get(stats, Key(t)) == Some(JStr(IntToString(n))) ==>
      Coerce(stats, t) == if DigitCount(n) <= MaxStrDigits then n else 0
    ensures Get(stats, Key(t)) == Some(JStr("\U{001C}" + IntToString(n))) ==> Coerce(stats, t) == 0
  {
    PyIntOfTextNumeral(n);
    SeparatorRefused(n);
  }

  /** The coercion of one traits dictionary, as a function of the trait. */
  function CoerceAll(stats: seq<Field>): Trait -> int {
    t => Coerce(stats, t)
  }

  /** The given traits, each paired with its stat, in their order. */
  function SafeStatsFor(score: Trait -> int, traits: seq<Trait>): (safe: seq<(Trait, int)>)
    ensures |safe| == |traits|
  {
    if traits == [] then []
    else
      var t := traits[|traits| - 1];
      SafeStatsFor(score, traits[..|traits| - 1]) + [(t, score(t))]
  }

  /** `safe_stats`: the coerced stats in trait order. */
  function SafeStatsOf(stats: seq<Field>): seq<(Trait, int)> {
    SafeStatsFor(CoerceAll(stats), TraitOrder)
  }

  /** Fills `safe_stats` one key at a time, as the classifier's loop does. */
  method SafeStats(stats: seq<Field>) returns (safe: seq<(Trait, int)>)
    ensures safe == SafeStatsOf(stats)
  {
    safe := [];
    for i := 0 to |TraitOrder|
      invariant safe == SafeStatsFor(CoerceAll(stats), TraitOrder[..i])
    {
      var key := TraitOrder[i];
      var value := PyInt(GetOr(stats, Key(key), JInt(0)));
      assert TraitOrder[..i + 1][..i] == TraitOrder[..i];
      safe := safe + [(key, if value.Some? then value.value else 0)];
    }
    assert TraitOrder[..|TraitOrder|] == TraitOrder;
  }

  /** A stats list with one entry per trait, in trait order. */
  predicate InTraitOrder(safe: seq<(Trait, int)>) {
    |safe| == |TraitOrder| && forall i :: 0 <= i < |safe| ==> safe[i].0 == TraitOrder[i]
  }

  /** The stat of trait `t` in such a list. */
  function Score(safe: seq<(Trait, int)>, t: Trait): int
    requires InTraitOrder(safe)
  {
    safe[Position(t)].1
  }

  /** `safe_stats` has exactly the four traits, in trait order, each with its coerced
      stat. */
  lemma SafeStatsShape(stats: seq<Field>)
    ensures InTraitOrder(SafeStatsOf(stats))
    ensures forall t :: Score(SafeStatsOf(stats), t) == Coerce(stats, t)
  {
    SafeStatsForShape(CoerceAll(stats), TraitOrder);
  }

  lemma {:induction false} SafeStatsForShape(score: Trait -> int, traits: seq<Trait>)
    ensures forall i :: 0 <= i < |traits| ==> SafeStatsFor(score, traits)[i] == (traits[i], score(traits[i]))
  {
    if traits != [] {
      var init := traits[..|traits| - 1];
      SafeStatsForShape(score, init);
      forall i | 0 <= i < |init| ensures init[i] == traits[i] {}
    }
  }

  /** The stats as the JSON object the reply carries. */
  function StatsObject(safe: seq<(Trait, int)>): (j: Json)
    ensures j.JObj? && |j.fields| == |safe|
    ensures forall i :: 0 <= i < |safe| ==> j.fields[i] == (Key(safe[i].0), JInt(safe[i].1))
  {
    JObj(seq(|safe|, i requires 0 <= i < |safe| => (Key(safe[i].0), JInt(safe[i].1))))
  }

  /** `archetype_map`: one name per ordered pair of distinct traits. */
  function ArchetypeTable(primary: Trait, secondary: Trait): Option<string> {
    match (primary, secondary)
    case (Bravery, Empathy) => Some("Champion")
    case (Bravery, Curiosity) => Some("Trailblazer")
    case (Bravery, Logic) => Some("Ironmind")
    case (Empathy, Bravery) => Some("Guardian")
    case (Empathy, Curiosity) => Some("Dreamweaver")
    case (Empathy, Logic) => Some("Mediator")
    case (Curiosity, Bravery) => Some("Wanderer")
    case (Curiosity, Empathy) => Some("Seeker")
    case (Curiosity, Logic) => Some("Tinker")
    case (Logic, Bravery) => Some("Strategist")
    case (Logic, Empathy) => Some("Philosopher")
    case (Logic, Curiosity) => Some("Architect")
    case _ => None
  }

  /** `archetype_map.get((primary, secondary), "Unknown")`. */
  function ArchetypeName(primary: Trait, secondary: Trait): string {
    match ArchetypeTable(primary, secondary) case Some(name) => name case None => "Unknown"
  }

  /** The table holds exactly the ordered pairs of distinct traits, so the fallback is
      reached only when both traits are the same. */
  lemma TableCoversDistinctPairs()
    ensures forall p, s :: ArchetypeTable(p, s).Some? <==> p != s
    ensures forall p, s :: ArchetypeName(p, s) == "Unknown" <==> p == s
  {
  }

  /** The table is directional and names every pair differently: the archetype tells
      which trait came first and which second. */
  lemma TableInjective()
    ensures ArchetypeName(Bravery, Empathy) == "Champion" && ArchetypeName(Empathy, Bravery) == "Guardian"
    ensures forall p, s, p', s' :: p != s && ArchetypeName(p, s) == ArchetypeName(p', s') ==> p == p' && s == s'
  {
  }

  /** What `determine_archetype` returns. */
  datatype ArchetypeInfo = ArchetypeInfo(archetype: string, primary: Trait, secondary: Trait, stats: seq<(Trait, int)>)

  /** The classification of `safe_stats`: the first two entries of a stable sort from the
      highest stat down, and their name in the table. */
  function Rank(safe: seq<(Trait, int)>): ArchetypeInfo
    requires |safe| >= 2
  {
    var ranked := SortDesc(safe);
    ArchetypeInfo(ArchetypeName(ranked[0].0, ranked[1].0), ranked[0].0, ranked[1].0, safe)
  }

  /** The classification of a traits dictionary. */
  function Classify(stats: seq<Field>): ArchetypeInfo {
    Rank(SafeStatsOf(stats))
  }

  /** The message of the `AttributeError` raised by `stats.get` on a value that is not a
      dictionary. */
  function NoGetMessage(v: Json): string {
    "'" + PyTypeName(v) + "' object has no attribute 'get'"
  }

  /** `determine_archetype(stats)`: fails as `stats.get` does when `stats` is not a
      dictionary. */
  method DetermineArchetype(stats: Json) returns (r: Result<ArchetypeInfo>)
    ensures stats.JObj? ==> r == Ok(Classify(stats.fields))
    ensures !stats.JObj? ==> r == Err(NoGetMessage(stats))
  {
    if !stats.JObj? {
      return Err(NoGetMessage(stats));
    }
    var safe := SafeStats(stats.fields);
    var ranked := SortDesc(safe);
    var primary, secondary := ranked[0].0, ranked[1].0;
    r := Ok(ArchetypeInfo(ArchetypeName(primary, secondary), primary, secondary, safe));
  }

  /** Primary is the earliest trait of greatest stat; secondary is a different trait, the
      earliest of greatest stat among the other three; the name is never "Unknown". */
  lemma RankSpec(safe: seq<(Trait, int)>)
    requires InTraitOrder(safe)
    ensures var info := Rank(safe);
      info.primary != info.secondary
      && (forall t :: Score(safe, t) <= Score(safe, info.primary))
      && (forall t :: Position(t) < Position(info.primary) ==> Score(safe, t) < Score(safe, info.primary))
      && (forall t :: t != info.primary ==> Score(safe, t) <= Score(safe, info.secondary))
      && (forall t :: t != info.primary && Position(t) < Position(info.secondary) ==>
            Score(safe, t) < Score(safe, info.secondary))
      && info.archetype == ArchetypeName(info.primary, info.secondary) != "Unknown"
  {
    RankPicks(safe);
    TableCoversDistinctPairs();
  }

  /** The first two entries of the stable sort, as indices of `safe_stats`. */
  lemma RankPicks(safe: seq<(Trait, int)>)
    requires InTraitOrder(safe)
    ensures var info, i, j := Rank(safe), Position(Rank(safe).primary), Position(Rank(safe).secondary);
      i != j
      && (forall k :: 0 <= k < |safe| ==> safe[k].1 <= safe[i].1)
      && (forall k :: 0 <= k < i ==> safe[k].1 < safe[i].1)
      && (forall k :: 0 <= k < |safe| && k != i ==> safe[k].1 <= safe[j].1)
      && (forall k :: 0 <= k < j && k != i ==> safe[k].1 < safe[j].1)
  {
    var i, j := FirstMaxIndex(safe), SecondIndex(safe);
    RankFields(safe);
    SecondIndexSpec(safe);
    PositionOf(i);
    PositionOf(j);
  }

  lemma RankFields(safe: seq<(Trait, int)>)
    requires |safe| >= 2
    ensures Rank(safe).primary == safe[FirstMaxIndex(safe)].0
    ensures Rank(safe).secondary == safe[SecondIndex(safe)].0
  {
    SortHead(safe);
    SortSecond(safe);
  }

  lemma PositionOf(i: nat)
    requires i < |TraitOrder|
    ensures Position(TraitOrder[i]) == i
  {
  }

  /** The same for a traits dictionary, in terms of its coerced stats. */
  lemma ClassifyRanks(stats: seq<Field>)
    ensures var info := Classify(stats);
      info.primary != info.secondary
      && (forall t :: Coerce(stats, t) <= Coerce(stats, info.primary))
      && (forall t :: Position(t) < Position(info.primary) ==> Coerce(stats, t) < Coerce(stats, info.primary))
      && (forall t :: t != info.primary ==> Coerce(stats, t) <= Coerce(stats, info.secondary))
      && (forall t :: t != info.primary && Position(t) < Position(info.secondary) ==>
            Coerce(stats, t) < Coerce(stats, info.secondary))
      && info.archetype == ArchetypeName(info.primary, info.secondary) != "Unknown"
      && info.stats == SafeStatsOf(stats)
  {
    SafeStatsShape(stats);
    RankSpec(SafeStatsOf(stats));
  }

  /** When all four stats are equal (all missing, say), the tie goes to bravery then
      empathy: "Champion". */
  lemma TieGivesChampion(safe: seq<(Trait, int)>)
    requires InTraitOrder(safe)
    requires forall t :: Score(safe, t) == Score(safe, Bravery)
    ensures Rank(safe).primary == Bravery && Rank(safe).secondary == Empathy
    ensures Rank(safe).archetype == "Champion"
  {
    RankSpec(safe);
    var info := Rank(safe);
    assert Score(safe, Bravery) == Score(safe, info.primary);
    assert Score(safe, Empathy) == Score(safe, info.secondary);
  }

  /** bravery 9, empathy 7, curiosity 2, logic 2 gives "Champion". */
  lemma NineSevenTwoTwo(safe: seq<(Trait, int)>)
    requires safe == [(Bravery, 9), (Empathy, 7), (Curiosity, 2), (Logic, 2)]
    ensures Rank(safe).archetype == "Champion"
  {
    assert InTraitOrder(safe);
    RankSpec(safe);
    var info := Rank(safe);
    assert Score(safe, Bravery) == 9 && Score(safe, Empathy) == 7;
    assert Score(safe, Curiosity) == 2 && Score(safe, Logic) == 2;
    assert info.primary == Bravery;
  }

  // ---------------------------------------------------------------------------
  // /analyze

  /** `archetype_info` as the dictionary merged into the traits. */
  function InfoFields(info: ArchetypeInfo): (fs: seq<Field>)
    ensures DistinctKeys(fs)
    ensures Keys(fs) == ["archetype", "primary", "secondary", "stats"]
  {
    [("archetype", JStr(info.archetype)), ("primary", JStr(Key(info.primary))),
     ("secondary", JStr(Key(info.secondary))), ("stats", StatsObject(info.stats))]
  }

  /** The reply when the classification raises. */
  function ErrorReply(details: string): Json {
    JObj([("error", JStr("Failed to parse trait response")), ("details", JStr(details))])
  }

  const NoAnswersReply: Json := JObj([("error", JStr("No answers provided"))])

  /** The body `/analyze` replies with, given the answers and the trait reply that the
      language model client produced for them. */
  function AnalyzeReply(answers: Json, traits: Json, parse: string -> Result<Json>): Json {
    if !Truthy(answers) then NoAnswersReply
    else
      var parsed := if traits.JStr? then parse(traits.s) else Ok(traits);
      match parsed
      case Err(msg) => ErrorReply(msg)
      case Ok(v) =>
        if v.JObj? then JObj(Update(v.fields, InfoFields(Classify(v.fields))))
        else ErrorReply(NoGetMessage(v))
  }

  /** The `/analyze` route after the trait request: re-parse a string reply, classify,
      and merge the classification into the traits dictionary. */
  method Analyze(answers: Json, llmTraits: Json, parse: string -> Result<Json>) returns (reply: Json)
    ensures reply == AnalyzeReply(answers, llmTraits, parse)
  {
    if !Truthy(answers) {
      return NoAnswersReply;
    }
    var traits := llmTraits;
    if traits.JStr? {
      var parsed := parse(traits.s);
      if parsed.Err? {
        return ErrorReply(parsed.msg);
      }
      traits := parsed.value;
    }
    var info := DetermineArchetype(traits);
    if info.Err? {
      return ErrorReply(info.msg);
    }
    var merged := Update(traits.fields, InfoFields(info.value));
    reply := JObj(merged);
  }

  /** The merge keeps every key of the traits in place, sets the four classification
      keys, and leaves every other value alone. */
  lemma AnalyzeMerge(answers: Json, traits: seq<Field>, parse: string -> Result<Json>)
    requires Truthy(answers)
    ensures var r, info := AnalyzeReply(answers, JObj(traits), parse), Classify(traits);
      r.JObj?
      && Keys(traits) <= Keys(r.fields)
      && (DistinctKeys(traits) ==> DistinctKeys(r.fields))
      && Get(r.fields, "archetype") == Some(JStr(info.archetype))
      && Get(r.fields, "primary") == Some(JStr(Key(info.primary)))
      && Get(r.fields, "secondary") == Some(JStr(Key(info.secondary)))
      && Get(r.fields, "stats") == Some(StatsObject(info.stats))
      && forall k :: k !in Keys(InfoFields(info)) ==> Get(r.fields, k) == Get(traits, k)
  {
    MergeInfo(traits, Classify(traits));
  }

  /** `d.update(archetype_info)` for any classification. */
  lemma MergeInfo(d: seq<Field>, info: ArchetypeInfo)
    ensures var r := Update(d, InfoFields(info));
      Keys(d) <= Keys(r)
      && (DistinctKeys(d) ==> DistinctKeys(r))
      && Get(r, "archetype") == Some(JStr(info.archetype))
      && Get(r, "primary") == Some(JStr(Key(info.primary)))
      && Get(r, "secondary") == Some(JStr(Key(info.secondary)))
      && Get(r, "stats") == Some(StatsObject(info.stats))
      && forall k :: k !in Keys(InfoFields(info)) ==> Get(r, k) == Get(d, k)
  {
    var n := InfoFields(info);
    UpdateKeys(d, n);
    forall k ensures Get(Update(d, n), k) == if k in Keys(n) then Get(n, k) else Get(d, k) {
      UpdateGet(d, n, k);
    }
    InfoGet(info);
  }

  /** The members of `archetype_info`. */
  lemma InfoGet(info: ArchetypeInfo)
    ensures var n := InfoFields(info);
      Get(n, "archetype") == Some(JStr(info.archetype))
      && Get(n, "primary") == Some(JStr(Key(info.primary)))
      && Get(n, "secondary") == Some(JStr(Key(info.secondary)))
      && Get(n, "stats") == Some(StatsObject(info.stats))
  {
    var n := InfoFields(info);
    assert n[1..] == [n[1], n[2], n[3]];
    GetThree(n[1], n[2], n[3], "primary");
    GetThree(n[1], n[2], n[3], "secondary");
    GetThree(n[1], n[2], n[3], "stats");
    GetTwo(n[2], n[3], "secondary");
    GetTwo(n[2], n[3], "stats");
  }

  /** A trait reply that arrives as a string is parsed once more and then handled as the
      value it holds; a string inside the string is not parsed again, and fails. */
  lemma AnalyzeReparse(answers: Json, s: string, parse: string -> Result<Json>)
    requires Truthy(answers)
    ensures parse(s).Ok? && !parse(s).value.JStr? ==>
      AnalyzeReply(answers, JStr(s), parse) == AnalyzeReply(answers, parse(s).value, parse)
    ensures parse(s).Ok? && parse(s).value.JStr? ==>
      AnalyzeReply(answers, JStr(s), parse) == ErrorReply(NoGetMessage(JStr("")))
    ensures parse(s).Err? ==> AnalyzeReply(answers, JStr(s), parse) == ErrorReply(parse(s).msg)
  {
  }

  /** The client's fallback dictionary has none of the four stats, so each coerces to 0. */
  lemma ParseFailureStats(content: string)
    ensures forall t :: Coerce(LlmClient.ParseFailure(content).fields, t) == 0
  {
    var fs := LlmClient.ParseFailure(content).fields;
    forall t ensures Get(fs, Key(t)) == None {
      GetThree(fs[0], fs[1], fs[2], Key(t));
      GetTwo(fs[1], fs[2], Key(t));
    }
  }

  /** The client's fallback dictionary is classified as "Champion": all four stats are
      missing, a four-way tie at 0. */
  lemma ParseFailureChampion(content: string)
    ensures Classify(LlmClient.ParseFailure(content).fields).archetype == "Champion"
  {
    var fs := LlmClient.ParseFailure(content).fields;
    ParseFailureStats(content);
    SafeStatsShape(fs);
    TieGivesChampion(SafeStatsOf(fs));
  }

  /** The fallback dictionary leaves `/analyze` as "Champion", with its "error" and "raw"
      keys passed through. */
  lemma AnalyzeParseFailure(answers: Json, content: string, parse: string -> Result<Json>)
    requires Truthy(answers)
    ensures var r := AnalyzeReply(answers, LlmClient.ParseFailure(content), parse);
      r.JObj?
      && Get(r.fields, "archetype") == Some(JStr("Champion"))
      && Get(r.fields, "error") == Some(JStr("Failed to parse JSON"))
      && Get(r.fields, "raw") == Some(JStr(content))
  {
    var fs := LlmClient.ParseFailure(content).fields;
    ParseFailureChampion(content);
    AnalyzeMerge(answers, fs, parse);
    NotInfoKey("error");
    NotInfoKey("raw");
  }

  /** Names that the classification does not set. */
  lemma NotInfoKey(k: string)
    requires k == "error" || k == "raw"
    ensures forall info :: k !in Keys(InfoFields(info))
  {
  }

  // ---------------------------------------------------------------------------
  // /start

  /** `data.get(key)`, with JSON null for `None`. */
  function GetOrNull(data: seq<Field>, k: string): Json {
    match Get(data, k) case Some(v) => v case None => JNull
  }

  /** `all(values)`: every value is truthy. */
  predicate AllTruthy(values: seq<Field>) {
    forall i :: 0 <= i < |values| ==> Truthy(values[i].1)
  }

  /** The `stats` dictionary that `/start` builds from the request, in trait order. */
  function StartStats(data: seq<Field>): (stats: seq<Field>)
    ensures |stats| == |TraitOrder|
    ensures forall i :: 0 <= i < |stats| ==> stats[i] == (Key(TraitOrder[i]), GetOrNull(data, Key(TraitOrder[i])))
  {
    seq(|TraitOrder|, i requires 0 <= i < |TraitOrder| => (Key(TraitOrder[i]), GetOrNull(data, Key(TraitOrder[i]))))
  }

  /** The `/start` check: the archetype and the stats go on to the start generator, or the
      request is refused. */
  function StartRequest(data: seq<Field>): (r: Result<(Json, seq<Field>)>)
    ensures r.Ok? <==> Truthy(GetOrNull(data, "archetype")) && forall t :: Truthy(GetOrNull(data, Key(t)))
    ensures r.Err? ==> r.msg == "Missing archetype or stat values"
  {
    var archetype := GetOrNull(data, "archetype");
    var stats := StartStats(data);
    assert forall t :: stats[Position(t)].1 == GetOrNull(data, Key(t));
    if !Truthy(archetype) || !AllTruthy(stats) then Err("Missing archetype or stat values")
    else Ok((archetype, stats))
  }

  /** A stat of 0, which the classifier itself produces for a missing or invalid stat, is
      refused as if it were missing. */
  lemma StartRejectsZero(data: seq<Field>, t: Trait)
    requires Get(data, Key(t)) == Some(JInt(0))
    ensures StartRequest(data).Err?
  {
  }

  /** The check as its comment describes it: only a missing archetype or a missing stat
      (absent, or JSON null, which is `None` too) is refused. */
  function StartRequestMissingOnly(data: seq<Field>): (r: Result<(Json, seq<Field>)>)
    ensures r.Ok? <==> Truthy(GetOrNull(data, "archetype")) && forall t :: !GetOrNull(data, Key(t)).JNull?
    ensures r.Err? ==> r.msg == "Missing archetype or stat values"
  {
    var archetype := GetOrNull(data, "archetype");
    var stats := StartStats(data);
    assert forall t :: stats[Position(t)].1 == GetOrNull(data, Key(t));
    if !Truthy(archetype) || exists i :: 0 <= i < |stats| && stats[i].1.JNull? then Err("Missing archetype or stat values")
    else Ok((archetype, stats))
  }

  /** With the corrected check, a request whose stats are all 0 goes through, where the
      check as written refuses it. */
  lemma StartMissingOnlyAcceptsZero(data: seq<Field>)
    requires Truthy(GetOrNull(data, "archetype"))
    requires forall t :: Get(data, Key(t)) == Some(JInt(0))
    ensures StartRequestMissingOnly(data).Ok?
    ensures StartRequest(data).Err?
  {
    assert Get(data, Key(Bravery)) == Some(JInt(0));
  }
}
