/** The quest page (static/quest-tree.js): a plot is a fixed graph of quests whose
    choices lead forward, the player's four counters grow with the choices made, a
    correct quiz answer detours through a side quest and comes back, and a running story
    summary records each step. */
module QuestTree {
  import opened Wrappers
  import opened Text
  import opened Ranking

  /** The four counters of `playerStats`, in the order the object declares them. */
  datatype Stat = Bravery | Empathy | Curiosity | Logic

  function StatName(s: Stat): string {
    match s
    case Bravery => "Bravery"
    case Empathy => "Empathy"
    case Curiosity => "Curiosity"
    case Logic => "Logic"
  }

  /** A quest id, or `null`. */
  type QuestId = Option<int>

  /** One answer of a quiz choice. */
  datatype QuizOption = QuizOption(text: string, correct: bool)

  /** A button under a quest: a plain choice, which may raise one stat, or a quiz whose
      correct answer unlocks a side quest. */
  datatype Choice =
    | Regular(text: string, next: QuestId, stat: Option<Stat>)
    | Quiz(question: string, options: seq<QuizOption>, next: QuestId, unlock: string)

  datatype Quest = Quest(title: string, context: string, narration: string, choices: seq<Choice>)

  const Placeholder := "Narration placeholder."

  /** The quests of the plot "Overcoming the Monster", by id from 1 to 9. */
  function MonsterQuest(id: int): Option<Quest> {
    if 1 <= id <= 9 then Some(Quest(MonsterTitle(id), MonsterContext(id), Placeholder, MonsterChoices(id)))
    else None
  }

  function MonsterTitle(id: int): string {
    match id
    case 1 => "First Obstacle"
    case 2 => "Fight"
    case 3 => "Flight"
    case 4 => "Second Obstacle"
    case 5 => "Fight Again"
    case 6 => "Outsmart"
    case 7 => "Final Obstacle"
    case 8 => "Bravery Ending"
    case _ => "Logic Ending"
  }

  function MonsterContext(id: int): string {
    match id
    case 1 => "A corrupt magistrate, backed by foreign arms dealers, threatens a peaceful mountain village in late Edo-period Japan. A retired samurai feels the first stirrings of duty once more."
    case 2 => "The Guardian draws his blade for the first time in years to defend his village from hired mercenaries."
    case 3 => "The Guardian seeks a subtler way to protect the village, avoiding direct confrontation\U{2014}for now."
    case 4 => "The magistrate escalates his efforts. Reinforcements arrive\U{2014}better armed, more ruthless."
    case 5 => "The Guardian unleashes a desperate assault on the advancing forces before they reach the village."
    case 6 => "Using the terrain and his cunning, the Guardian strikes not with strength, but strategy."
    case 7 => "The magistrate reveals his trump card\U{2014}a foreign war machine, a symbol of Japan\U{2019}s changing times."
    case 8 => "The Guardian destroys the enemy and with it, the last remnants of the man he used to be."
    case _ => "Through words, memory, and resolve, the Guardian resolves the conflict without bloodshed."
  }

  function MonsterChoices(id: int): seq<Choice> {
    match id
    case 1 => [Regular("Confront it.", Some(2), Some(Bravery)), Regular("Find another way.", Some(3), Some(Logic))]
    case 2 => [Regular("Press on.", Some(4), None)]
    case 3 => [Regular("Proceed cautiously.", Some(4), None)]
    case 4 => [Regular("Set a trap.", Some(6), Some(Logic)), Regular("Charge before it strikes.", Some(5), Some(Bravery))]
    case 5 => [Regular("Onward to the Final Obstacle", Some(7), None)]
    case 6 => [Regular("Onward to the Final Obstacle", Some(7), None)]
    case 7 => [Regular("Face them head-on.", Some(8), Some(Bravery)), Regular("Appeal to their humanity.", Some(9), Some(Logic))]
    case _ => []
  }

  function MonsterPlot(): map<int, Quest> {
    map id | 1 <= id <= 9 :: MonsterQuest(id).value
  }

  /** `plotTemplates`: the plots a player can start, by name. */
  function PlotTemplates(): map<string, map<int, Quest>> {
    map["Overcoming the Monster" := MonsterPlot()]
  }

  /** `sideQuests`: the side quests a quiz can unlock, by key. */
  function SideQuests(): map<string, Quest> {
    map["SQ1" := Quest("Lost Relic",
      "The brunette lady knight rescued you and asked if you want to investigate an ancient relic in the forest.",
      Placeholder,
      [Regular("Yes, let's find it! [Curiosity]", None, Some(Curiosity)), Regular("No, too risky.", None, None)])]
  }

  /** The number of choices still to make, on the longest route, before an ending. */
  function StepsToEnding(id: int): nat {
    match id
    case 1 => 5
    case 2 => 4
    case 3 => 4
    case 4 => 3
    case 5 => 2
    case 6 => 2
    case 7 => 1
    case _ => 0
  }

  /** One choice of quest `a` leads to quest `b`. */
  predicate Step(quests: map<int, Quest>, a: int, b: int) {
    a in quests && exists j :: 0 <= j < |quests[a].choices| && quests[a].choices[j].next == Some(b)
  }

  /** A route through the quests, one choice per step. */
  predicate IsRoute(quests: map<int, Quest>, route: seq<int>) {
    forall k :: 0 <= k < |route| - 1 ==> Step(quests, route[k], route[k + 1])
  }

  /** Every choice of the plot is a plain choice that leads to a quest of the plot with a
      greater id and fewer choices left; there is no quiz and no quest 17, the id the
      final-quest logic waits for. */
  lemma MonsterEdges()
    ensures 17 !in MonsterPlot()
    ensures forall id, j | id in MonsterPlot() && 0 <= j < |MonsterPlot()[id].choices| ::
      var c := MonsterPlot()[id].choices[j];
      c.Regular? && c.next.Some? && c.next.value in MonsterPlot() && c.next.value > id
      && StepsToEnding(c.next.value) < StepsToEnding(id)
  {
    forall id, j | id in MonsterPlot() && 0 <= j < |MonsterPlot()[id].choices|
      ensures var c := MonsterPlot()[id].choices[j];
        c.Regular? && c.next.Some? && c.next.value in MonsterPlot() && c.next.value > id
        && StepsToEnding(c.next.value) < StepsToEnding(id)
    {
      EdgeOf(id, j);
    }
  }

  lemma EdgeOf(id: int, j: nat)
    requires 1 <= id <= 9 && j < |MonsterChoices(id)|
    ensures var c := MonsterChoices(id)[j];
      c.Regular? && c.next.Some? && 1 <= c.next.value <= 9 && c.next.value > id
      && StepsToEnding(c.next.value) < StepsToEnding(id)
  {
  }

  /** The quests without a choice are exactly the two endings, and they are exactly the
      quests with no choices left. */
  lemma MonsterEndings()
    ensures forall id | id in MonsterPlot() ::
      (MonsterPlot()[id].choices == [] <==> id == 8 || id == 9)
      && (MonsterPlot()[id].choices == [] <==> StepsToEnding(id) == 0)
  {
    forall id | id in MonsterPlot()
      ensures MonsterPlot()[id].choices == [] <==> id == 8 || id == 9
      ensures MonsterPlot()[id].choices == [] <==> StepsToEnding(id) == 0
    {
      EndingOf(id);
    }
  }

  lemma EndingOf(id: int)
    requires 1 <= id <= 9
    ensures MonsterChoices(id) == [] <==> id == 8 || id == 9
    ensures StepsToEnding(id) == 0 <==> id == 8 || id == 9
  {
  }

  /** Each choice along a route uses up at least one of the choices left. */
  lemma {:induction false} RouteSteps(route: seq<int>)
    requires |route| >= 1 && 1 <= route[0] <= 9 && IsRoute(MonsterPlot(), route)
    ensures 1 <= route[|route| - 1] <= 9
    ensures StepsToEnding(route[|route| - 1]) + (|route| - 1) <= StepsToEnding(route[0])
  {
    if |route| > 1 {
      var front := route[..|route| - 1];
      assert IsRoute(MonsterPlot(), front) by {
        forall k | 0 <= k < |front| - 1 ensures Step(MonsterPlot(), front[k], front[k + 1]) {
          assert front[k] == route[k] && front[k + 1] == route[k + 1];
        }
      }
      RouteSteps(front);
      var a, b := route[|route| - 2], route[|route| - 1];
      assert Step(MonsterPlot(), a, b);
      var j :| 0 <= j < |MonsterPlot()[a].choices| && MonsterPlot()[a].choices[j].next == Some(b);
      MonsterEdges();
    }
  }

  /** Every route from the first quest makes at most five choices, and one that makes
      five has reached an ending. */
  lemma RoutesEnd(route: seq<int>)
    requires |route| >= 1 && route[0] == 1 && IsRoute(MonsterPlot(), route)
    ensures |route| <= 6
    ensures |route| == 6 ==> route[5] == 8 || route[5] == 9
  {
    RouteSteps(route);
    FiveSteps(route[|route| - 1], |route| - 1);
  }

  lemma FiveSteps(last: int, n: nat)
    requires 1 <= last <= 9 && StepsToEnding(last) + n <= StepsToEnding(1)
    ensures n <= 5 && (n == 5 ==> last == 8 || last == 9)
  {
    EndingOf(last);
  }

  /** The start of every story entry: the title, or "Untitled" when it is empty, then
      "- " and the context. */
  function EntryHead(title: string, context: string): string {
    (if title == [] then "Untitled" else title) + "- " + context
  }

  /** `updateStoryContext`'s entry: the head, followed by the choice and its stat when
      the choice raised one. */
  function StoryEntry(title: string, context: string, text: string, stat: Option<Stat>): (e: string)
    ensures StartsWith(e, EntryHead(title, context))
    ensures stat.None? <==> |e| == |EntryHead(title, context)|
    ensures stat.None? ==> e == EntryHead(title, context)
    ensures stat.Some? ==>
      e == EntryHead(title, context) + "- You made this choice: " + text + " (+" + StatName(stat.value) + ")"
  {
    var head := EntryHead(title, context);
    if stat.Some? then head + "- You made this choice: " + text + " (+" + StatName(stat.value) + ")"
    else head
  }

  /** `printStorySummary`: the entries joined by " -> ". */
  function Summary(story: seq<string>): string {
    Join(story, " -> ")
  }

  /** Appending an entry extends the summary by " -> " and the entry. */
  lemma {:induction false} SummaryAppend(story: seq<string>, e: string)
    ensures Summary(story + [e]) == if story == [] then e else Summary(story) + " -> " + e
  {
    if |story| == 1 {
      assert (story + [e])[1..] == [e];
      assert Join([e], " -> ") == e;
    } else if |story| > 1 {
      assert (story + [e])[1..] == story[1..] + [e];
      SummaryAppend(story[1..], e);
    }
  }

  /** `resetStats`: all four counters at 0. */
  function ZeroStats(): map<Stat, int> {
    map[Bravery := 0, Empathy := 0, Curiosity := 0, Logic := 0]
  }

  /** `if (choice.stat) playerStats[choice.stat]++`. */
  function Bump(stats: map<Stat, int>, stat: Option<Stat>): (r: map<Stat, int>)
    requires stat.Some? ==> stat.value in stats
    ensures r.Keys == stats.Keys
    ensures forall t | t in stats :: r[t] == if stat == Some(t) then stats[t] + 1 else stats[t]
  {
    if stat.Some? then stats[stat.value := stats[stat.value] + 1] else stats
  }

  /** All four counters are present and none is negative. */
  predicate Counters(stats: map<Stat, int>) {
    forall s: Stat :: s in stats && stats[s] >= 0
  }

  predicate Complete(stats: map<Stat, int>) {
    forall s: Stat :: s in stats
  }

  lemma ZeroCounters()
    ensures Counters(ZeroStats())
  {
    forall s: Stat ensures s in ZeroStats() && ZeroStats()[s] >= 0 {
      match s
      case Bravery =>
      case Empathy =>
      case Curiosity =>
      case Logic =>
    }
  }

  /** `Object.entries(playerStats)`, in declaration order. */
  function Entries(stats: map<Stat, int>): (es: seq<(Stat, int)>)
    requires Complete(stats)
    ensures |es| == 4
    ensures forall k :: 0 <= k < 4 ==> es[k].1 == stats[es[k].0]
  {
    [(Bravery, stats[Bravery]), (Empathy, stats[Empathy]), (Curiosity, stats[Curiosity]), (Logic, stats[Logic])]
  }

  /** The stat `handleFinalQuest` settles on: the first entry of greatest value, provided
      that value beats the starting mark of -1; otherwise none. */
  function FinalStat(es: seq<(Stat, int)>): Option<Stat> {
    if es == [] then None
    else
      var m := FirstMaxIndex(es);
      if es[m].1 > -1 then Some(es[m].0) else None
  }

  /** The final stat is the earliest entry that no entry beats and no earlier entry ties,
      as soon as some value is not negative. */
  lemma FinalStatSpec(es: seq<(Stat, int)>, j: nat)
    requires j < |es| && es[j].1 >= 0
    requires forall k :: 0 <= k < |es| ==> es[k].1 <= es[j].1
    requires forall k :: 0 <= k < j ==> es[k].1 < es[j].1
    ensures FinalStat(es) == Some(es[j].0)
  {
    var m := FirstMaxIndex(es);
    assert !(m < j) && !(j < m);
  }

  /** With counters that never go below 0, the final quest always names a stat. */
  lemma FinalStatChosen(stats: map<Stat, int>)
    requires Counters(stats)
    ensures FinalStat(Entries(stats)).Some?
  {
    var es := Entries(stats);
    FinalStatSpec(es, FirstMaxIndex(es));
  }

  /** `finalOutcome[maxStat]`, which prints as "undefined" when no stat was chosen. */
  function OutcomeText(stat: Option<Stat>): string {
    match stat
    case None => "undefined"
    case Some(Bravery) => "Your courage inspires warriors across the land."
    case Some(Empathy) => "Your kindness earns the trust of every faction."
    case Some(Curiosity) => "Your knowledge unlocks new ways to defend the land."
    case Some(Logic) => "Your strategies form the backbone of the kingdom\U{2019}s army."
  }

  /** The page's quest state: `playerStats`, `quests`, `currentQuestId`,
      `returnToQuestId` and `storyContext`. */
  class QuestGame {
    var playerStats: map<Stat, int>
    var quests: map<int, Quest>
    var currentQuestId: QuestId
    var returnToQuestId: QuestId
    var storyContext: seq<string>

    /** Every counter is present and none is negative. */
    predicate Valid()
      reads this
    {
      Counters(playerStats)
    }

    /** The page's opening state. */
    constructor()
      ensures Valid()
      ensures playerStats == ZeroStats() && quests == map[] && currentQuestId == Some(1)
      ensures returnToQuestId == None && storyContext == []
    {
      playerStats := ZeroStats();
      ZeroCounters();
      quests := map[];
      currentQuestId := Some(1);
      returnToQuestId := None;
      storyContext := [];
    }

    /** `resetStats()`. */
    method ResetStats()
      modifies this
      ensures Valid() && playerStats == ZeroStats()
      ensures quests == old(quests) && currentQuestId == old(currentQuestId)
      ensures returnToQuestId == old(returnToQuestId) && storyContext == old(storyContext)
    {
      playerStats := ZeroStats();
      ZeroCounters();
    }

    /** `startSelectedPlot()`: a copy of the named plot's quests, the first quest, and
        fresh counters. The side-quest return point and the story so far are kept. A name
        that is not a plot makes the deep copy throw before anything changes. */
    method StartSelectedPlot(selected: string) returns (ok: bool)
      modifies this
      ensures ok <==> selected in PlotTemplates()
      ensures ok ==> quests == PlotTemplates()[selected] && currentQuestId == Some(1)
                     && playerStats == ZeroStats() && Valid()
      ensures !ok ==> quests == old(quests) && currentQuestId == old(currentQuestId)
                      && playerStats == old(playerStats)
      ensures returnToQuestId == old(returnToQuestId) && storyContext == old(storyContext)
    {
      if selected !in PlotTemplates() {
        return false;
      }
      quests := PlotTemplates()[selected];
      currentQuestId := Some(1);
      ResetStats();
      ok := true;
    }

    /** `updateStoryContext(quest, choice)`: exactly one entry is appended. */
    method UpdateStoryContext(quest: Quest, text: string, stat: Option<Stat>)
      modifies this
      ensures storyContext == old(storyContext) + [StoryEntry(quest.title, quest.context, text, stat)]
      ensures playerStats == old(playerStats) && quests == old(quests)
      ensures currentQuestId == old(currentQuestId) && returnToQuestId == old(returnToQuestId)
    {
      storyContext := storyContext + [StoryEntry(quest.title, quest.context, text, stat)];
    }

    /** A plain choice under `quest`: raise its stat, if any, by one, move to its next
        quest, and record the step. */
    method ChooseRegular(quest: Quest, choice: Choice)
      requires Valid() && choice.Regular?
      modifies this
      ensures Valid()
      ensures playerStats == Bump(old(playerStats), choice.stat)
      ensures currentQuestId == choice.next
      ensures storyContext == old(storyContext) + [StoryEntry(quest.title, quest.context, choice.text, choice.stat)]
      ensures returnToQuestId == old(returnToQuestId) && quests == old(quests)
    {
      if choice.stat.Some? {
        playerStats := playerStats[choice.stat.value := playerStats[choice.stat.value] + 1];
      }
      currentQuestId := choice.next;
      UpdateStoryContext(quest, choice.text, choice.stat);
    }

    /** An answer to a quiz choice: a correct one remembers the quiz's next quest as the
        return point and unlocks its side quest; a wrong one moves straight to the next
        quest. Neither changes a counter or the story. */
    method ChooseQuizOption(choice: Choice, option: QuizOption) returns (unlocked: Option<string>)
      requires choice.Quiz?
      modifies this
      ensures option.correct ==> returnToQuestId == choice.next && currentQuestId == old(currentQuestId)
                                 && unlocked == Some(choice.unlock)
      ensures !option.correct ==> currentQuestId == choice.next && returnToQuestId == old(returnToQuestId)
                                  && unlocked == None
      ensures playerStats == old(playerStats) && quests == old(quests) && storyContext == old(storyContext)
    {
      if option.correct {
        returnToQuestId := choice.next;
        unlocked := Some(choice.unlock);
      } else {
        currentQuestId := choice.next;
        unlocked := None;
      }
    }

    /** A choice in side quest `quest`: raise its stat, if any; when a return point is
        set, go back to it, clear it, and record the step. */
    method ChooseSideQuest(quest: Quest, choice: Choice)
      requires Valid() && choice.Regular?
      modifies this
      ensures Valid()
      ensures playerStats == Bump(old(playerStats), choice.stat)
      ensures old(returnToQuestId).Some? ==>
                currentQuestId == old(returnToQuestId) && returnToQuestId == None
                && storyContext == old(storyContext) + [StoryEntry(quest.title, quest.context, choice.text, choice.stat)]
      ensures old(returnToQuestId).None? ==>
                currentQuestId == old(currentQuestId) && returnToQuestId == None
                && storyContext == old(storyContext)
      ensures quests == old(quests)
    {
      if choice.stat.Some? {
        playerStats := playerStats[choice.stat.value := playerStats[choice.stat.value] + 1];
      }
      if returnToQuestId.Some? {
        currentQuestId := returnToQuestId;
        returnToQuestId := None;
        UpdateStoryContext(quest, choice.text, choice.stat);
      }
    }

    /** `handleFinalQuest()`: the text appended to the quest context, naming the outcome
        of the first strictly greatest counter. */
    method HandleFinalQuest() returns (line: string)
      requires Complete(playerStats)
      ensures line == "\n\n" + OutcomeText(FinalStat(Entries(playerStats)))
    {
      var entries := Entries(playerStats);
      var maxStat: Option<Stat> := None;
      var maxValue := -1;
      for i := 0 to |entries|
        invariant i == 0 ==> maxStat == None && maxValue == -1
        invariant i > 0 ==> maxStat == FinalStat(entries[..i])
        invariant i > 0 ==> maxValue == Mark(entries[..i])
      {
        FinalStatExtend(entries, i);
        if entries[i].1 > maxValue {
          maxValue := entries[i].1;
          maxStat := Some(entries[i].0);
        }
      }
      assert entries[..|entries|] == entries;
      line := "\n\n" + OutcomeText(maxStat);
    }
  }

  /** `maxValue` after a prefix of the entries: the greatest value, or -1 if that is
      higher. */
  function Mark(es: seq<(Stat, int)>): int
    requires |es| > 0
  {
    var m := FirstMaxIndex(es);
    if es[m].1 > -1 then es[m].1 else -1
  }

  /** Looking at one more entry: it takes over exactly when it beats the mark so far. */
  lemma FinalStatExtend(es: seq<(Stat, int)>, i: nat)
    requires i < |es|
    ensures var prior := if i == 0 then -1 else Mark(es[..i]);
      var before := if i == 0 then None else FinalStat(es[..i]);
      FinalStat(es[..i + 1]) == (if es[i].1 > prior then Some(es[i].0) else before)
      && Mark(es[..i + 1]) == (if es[i].1 > prior then es[i].1 else prior)
  {
    var p := es[..i + 1];
    assert p[..i] == es[..i];
    assert p[i] == es[i];
  }
}
