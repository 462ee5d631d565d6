# soulbound-server, modelled in Dafny

Soulbound is a small role-playing game with a Flask back end and two browser pages.
The back end asks a language model for quiz questions and for a personality profile.
It classifies the player into one of twelve archetypes by their two strongest traits.
It also checks the request that starts a new adventure. The quiz page turns each
answer's stat changes into a radio-button value and applies the chosen one to a
clamped stat board. The quest page walks a fixed graph of quests, counts the stats
the player's choices raise, detours through side quests, and keeps a running story.

The model has one Dafny module per concern:

- `Wrappers`: `Option` and `Result`.
- `Text`: Python's `strip`, `str.replace`, `join`/`split` and decimal numerals.
- `Json`: parsed JSON values. An object is an ordered list of members, as a Python
  `dict` or a JavaScript object keeps them. The module also has Python truthiness and
  `isinstance(…, int)`.
- `Cleaner`: `clean_llm_response` from the test file. `CleanerExamples` holds its five
  test cases and two further behaviours.
- `LlmClient`: the quiz fence strip, the quiz schema check and its reply, and the
  extraction of the personality block with its fallback.
- `Ranking`: the earliest maximum of a list of scores, and Python's stable
  `sorted(…, reverse=True)`.
- `App`: `determine_archetype`, the `/analyze` re-parse and merge, and the `/start`
  check.
- `Game`: the radio value encoding, JavaScript `parseInt`, the "next" button's
  stat update (class `StatBoard`), and the question slides (class `SlideShow`).
- `QuestTree`: the plot template graph, the click handlers over the page's globals
  (class `QuestGame`), the story log, and the final-quest choice.

Where the source mutates state, the model has a class whose methods state the whole
new state. Each such method is proved against a function, and the properties are
lemmas about that function. Examples: `StatBoard.ApplyChoice` against `ApplyAll`,
`QuestGame.HandleFinalQuest` against `FinalStat`, `App.SafeStats` against
`SafeStatsOf`. Pure code is modelled as functions and lemmas.

Two behaviours of the code differ from what its own text suggests:

- Test case 4 of `tests/test_llm.py` (`["Q1" "Q2", "Q3"]`) is labelled as one that
  should fail. The cleaner's last step inserts the missing comma, so the cleaned text
  is the valid three-item list (`CleanerExamples.CleanMissingComma`). The model
  follows the code.
- The quiz schema check accepts a JSON boolean as a stat change, because Python's
  `bool` is an `int` (`LlmClient.BooleanStatsAccepted`). The quiz page prints it as
  `true` or `false`, `parseInt` reads that as `NaN`, and the stat becomes `NaN` for
  good (`Game.BooleanChangeIsNaN`, `Game.ApplyAllNaNSticky`).

## Model

| member | source | states |
|---|---|---|
| `Cleaner.Clean` | tests/test_llm.py:4-10 | `clean_llm_response`: strip, remove the fences and strip again, unquote, then insert the missing commas, in that order |
| `Cleaner.StripFences` | tests/test_llm.py:6 | the `re.sub` that deletes every "```json" and "```", scanning from the left with "```json" tried first |
| `Cleaner.Unquote` | tests/test_llm.py:7-8 | text that starts and ends with `"` loses that pair and has every `\"` turned into `"`; other text is kept |
| `Cleaner.InsertCommas` | tests/test_llm.py:9 | the `re.sub` that rewrites a quote, white space, a quote and the white space after it to `", "`, scanning from the left |
| `Cleaner.NoFenceSurvives` | tests/test_llm.py:6 | after the fence removal no three-backtick run is left anywhere, whatever the input |
| `Cleaner.StripFencedBlock` | tests/test_llm.py:6 | a ```` ```json ```` … ```` ``` ```` block loses both fences and keeps its content between its newlines |
| `Cleaner.UnescapeEscape` | tests/test_llm.py:8 | replacing `\"` by `"` undoes escaping every quote, for every text |
| `Cleaner.UnquoteDoubleEncoded` | tests/test_llm.py:7-8 | unquoting a quoted, escaped text gives the text back |
| `Cleaner.InsertCommasUnchangedIff` | tests/test_llm.py:9 | the comma step changes the text exactly when it holds a quote, optional white space, then a quote |
| `Cleaner.InsertCommasRun` | tests/test_llm.py:9 | a quote, any white space and a quote, followed by a non-space character, become `", "` and the scan goes on after them |
| `Cleaner.CleanUnchanged` | tests/test_llm.py:4-10 | text with no backtick, no white space or quote at either end, and no quote followed by white space or a quote comes back unchanged |
| `Cleaner.CleanUnquoted` | tests/test_llm.py:4-10 | text with no backtick, no white space at either end and no quote at the front only goes through the comma step |
| `Cleaner.CleanDoubleEncoded` | tests/test_llm.py:4-10 | a JSON text sent back as a quoted, escaped string is decoded, then goes through the comma step |
| `Cleaner.CleanFenced` | tests/test_llm.py:4-10 | fencing a trimmed text without backticks as a json block does not change what it cleans to |
| `Cleaner.CleanRepairsMissingComma` | tests/test_llm.py:4-10 | two strings separated only by white space get a comma between them, and the rest stays as it was |
| `CleanerExamples.CleanPlainList` | tests/test_llm.py:14 | test case 1, a plain list, comes back unchanged |
| `CleanerExamples.CleanDoubleEncodedList` | tests/test_llm.py:15 | test case 2, the double-encoded list, cleans to the plain list |
| `CleanerExamples.CleanFencedList` | tests/test_llm.py:16 | test case 3, the fenced list, cleans to the plain list |
| `CleanerExamples.CleanMissingComma` | tests/test_llm.py:17 | test case 4 cleans to the valid three-item list, although it is labelled as one that should fail |
| `CleanerExamples.CleanNotJson` | tests/test_llm.py:18 | test case 5, plain prose, comes back unchanged, so it is still not JSON |
| `CleanerExamples.CleanCorruptsEmptyString` | tests/test_llm.py:9 | a list holding one empty string, `[""]`, is turned into `[", "]` |
| `CleanerExamples.CleanNotIdempotent` | tests/test_llm.py:4-10 | cleaning twice can differ from cleaning once: a quoted quoted `x` gives `"x"` and then `x` |
| `LlmClient.QuizFenceStripComplete` | llm_client.py:196 | after `strip` and the two replacements no three-backtick run is left |
| `LlmClient.QuizFenceStrip` | llm_client.py:196 | `strip`, then the two `str.replace` calls, "```json" first |
| `LlmClient.ValidStat` | llm_client.py:210-213 | a stat is present, an `int` (booleans included) and within [-3, 3] |
| `LlmClient.ValidOption` | llm_client.py:206-213 | an option is a dictionary with string "label" and "name" and a dictionary "value" holding the four valid stats |
| `LlmClient.ValidQuestion` | llm_client.py:204-213 | a question is a dictionary with a string "question" and a list of exactly four valid options |
| `LlmClient.ValidQuiz` | llm_client.py:202-213 | a quiz is a list of exactly five valid questions |
| `LlmClient.KeyFailure` | llm_client.py:204 | one `assert key in v and …` line passes exactly on a dictionary whose value under the key passes; a failing dictionary gives the empty assertion message; a number, boolean or null gives "argument of type … is not iterable"; a list or string holding the key gives the indexing `TypeError` text, and one without it the empty message |
| `LlmClient.OptionFailure` | llm_client.py:206-213 | an option fails exactly when it is not valid; a dictionary option fails only with the empty message |
| `LlmClient.QuestionFailure` | llm_client.py:203-213 | a question fails exactly when it is not valid |
| `LlmClient.QuizFailure` | llm_client.py:202-213 | the schema check fails exactly when the quiz is not valid |
| `LlmClient.CheckQuiz` | llm_client.py:196-223 | the quiz is accepted exactly when the fence-stripped content parses and passes every schema check; an accepted quiz is exactly the parsed value; a parse error is passed on, and a schema failure carries the message `str(e)` of its exception |
| `LlmClient.QuizErrorDetails` | llm_client.py:202-223 | the details of a rejected quiz are the failure message of its first invalid question; later questions are not looked at |
| `LlmClient.QuestionTypeErrors` | llm_client.py:204 | a question `5` gives "argument of type 'int' is not iterable", `["question"]` gives the list-index message, and `"the question"` the string-index message |
| `LlmClient.DictQuestionSilent` | llm_client.py:204-213 | a dictionary question whose options are all dictionaries fails, if at all, with the empty assertion message |
| `LlmClient.QuizReply` | llm_client.py:215-223 | success answers `{"questions": …}` with the parsed list; failure answers the fixed "error" text and the error's message under "details", with no "questions" |
| `LlmClient.OneBadQuestionRejects` | llm_client.py:202-205 | a single malformed question rejects the whole quiz |
| `LlmClient.OneBadOptionRejects` | llm_client.py:206-213 | a single malformed option rejects its question |
| `LlmClient.StatOutOfRangeRejects` | llm_client.py:210-213 | a stat change that is missing, not an integer, or outside [-3, 3] rejects its option |
| `LlmClient.ExtraKeyAccepted` | llm_client.py:206-213 | a valid option stays valid when an extra member is added |
| `LlmClient.BooleanStatsAccepted` | llm_client.py:212 | a boolean stat change passes the integer check |
| `LlmClient.StringStatRejected` | llm_client.py:212 | a numeral given as a string fails the integer check |
| `LlmClient.ExtractBlock` | llm_client.py:111 | the lazy `\{[\s\S]*?\}` match starts with `{`, ends with `}` and holds no other `}` |
| `LlmClient.ExtractBlockExists` | llm_client.py:111-115 | a block is found exactly when some `{` comes before some `}` |
| `LlmClient.ExtractBlockAt` | llm_client.py:111 | the block found runs from the first `{` to the first `}` after it |
| `LlmClient.NestedObjectCut` | llm_client.py:111 | a nested object is cut at the inner object's closing brace |
| `LlmClient.ParseFailure` | llm_client.py:119-123 | the fallback profile holds archetype "Unknown", the parse error text and the raw content |
| `LlmClient.PersonalityTraits` | llm_client.py:104-132 | a failed call gives the call-failure profile; no block or an unparsable block gives the fallback; otherwise the parsed block |
| `LlmClient.NoBraceFallsBack` | llm_client.py:114-123 | content with no `{` always yields the fallback profile |
| `Ranking.SortPermutation` | app.py:94 | the sorted list is a permutation of the input |
| `Ranking.SortDescending` | app.py:94 | the sorted list is in non-increasing order of score |
| `Ranking.SortStable` | app.py:94 | the entries of each score keep their input order |
| `Ranking.SortHead` | app.py:95 | the first sorted entry is the earliest entry of greatest score |
| `Ranking.SecondIndexSpec` | app.py:95 | the runner-up is the earliest greatest entry among all but the first pick |
| `Ranking.SortSecond` | app.py:95 | the second sorted entry is that runner-up |
| `App.IntStripPadded` | app.py:89 | `int()` removes padding of its own whitespace around a text, and nothing more |
| `App.NumeralValue` | app.py:89 | digits with single underscores between them, of at most 4300 digits, give their value; any other text gives nothing |
| `App.PyIntOfText` | app.py:89 | `int()` of a string: its whitespace at the ends is skipped, one sign is allowed, and the rest must be a numeral within the digit limit |
| `App.PyInt` | app.py:89 | `int()` of an integer or a boolean is its value; of null, a list or a dict it raises |
| `App.PyIntOfTextNumeral` | app.py:89 | `int()` reads back every integer of at most 4300 digits from the numeral `str()` prints, and refuses the numeral of any longer integer |
| `App.PaddedNumeral` | app.py:89 | whitespace that `int()` skips around a numeral does not change what it reads |
| `App.SeparatorRefused` | app.py:89-91 | U+001C is Python whitespace, yet `int()` refuses a numeral that starts with it |
| `App.Coerce` | app.py:88-91 | `int(stats.get(key, 0))`, or 0 where that raises `ValueError` or `TypeError` |
| `App.CoerceCases` | app.py:88-91 | a missing or unconvertible stat counts as 0; an integer counts as its value; a numeral string counts as its value up to 4300 digits and as 0 beyond; a numeral after U+001C counts as 0 |
| `App.SafeStats` | app.py:86-91 | the loop builds the four coerced stats in the order bravery, empathy, curiosity, logic |
| `App.SafeStatsShape` | app.py:86-91 | the safe stats list each trait once, in that order, with its coerced value |
| `App.TableCoversDistinctPairs` | app.py:98-114 | the table has an archetype for exactly the pairs of two different traits, so "Unknown" means primary equals secondary |
| `App.TableInjective` | app.py:98-111 | the table is directional (bravery/empathy is "Champion", empathy/bravery is "Guardian") and no two pairs share a name |
| `App.DetermineArchetype` | app.py:84-121 | a dictionary is classified; any other value raises the `'<type>' object has no attribute 'get'` error |
| `App.Rank` | app.py:94-121 | the first two traits of the stable descending sort, their table entry or "Unknown", and the stats |
| `App.Classify` | app.py:84-121 | `determine_archetype` on a dictionary: coerce the four stats, then rank them |
| `App.RankSpec` | app.py:94-114 | primary and secondary differ; the primary is the earliest greatest stat; the secondary is the earliest greatest of the rest; the archetype is never "Unknown" |
| `App.ClassifyRanks` | app.py:84-121 | the same, stated in terms of the coerced stats of the dictionary, and the profile carries those stats |
| `App.TieGivesChampion` | app.py:94-99 | four equal stats give bravery then empathy: "Champion" |
| `App.NineSevenTwoTwo` | app.py:94-99 | stats 9, 7, 2, 2 give "Champion" |
| `App.InfoFields` | app.py:116-121 | the classification adds the four distinct keys archetype, primary, secondary, stats |
| `App.AnalyzeReply` | app.py:32-56 | the `/analyze` reply: no answers, a string profile parsed again, the error reply for any exception, otherwise the merged profile |
| `App.Analyze` | app.py:26-56 | the handler answers as `AnalyzeReply` does: no answers, a parse error, a non-dictionary, or the merged profile |
| `App.AnalyzeMerge` | app.py:46-49 | the merge keeps every key of the profile, sets the four classification keys, and leaves every other value alone |
| `App.AnalyzeReparse` | app.py:41-43 | a string profile is parsed once more and then handled as that value; a parse error becomes the error reply with its message, and a string again fails as `stats.get` on a string |
| `App.ParseFailureStats` | app.py:87-91 | the fallback profile has no stats, so every trait counts 0 |
| `App.AnalyzeParseFailure` | app.py:36-49 | the fallback profile is classified "Champion" and keeps its "error" and "raw" members |
| `App.StartStats` | app.py:66-71 | the four stats taken from the request in trait order, null where one is missing |
| `App.StartRequest` | app.py:62-75 | the request is accepted exactly when the archetype and all four stats are truthy; otherwise it is refused with the fixed message |
| `App.StartRejectsZero` | app.py:74-75 | a stat of 0 makes the request fail |
| `App.StartRequestMissingOnly` | app.py:73-75 | the corrected check refuses only a falsy archetype or a missing stat |
| `App.StartMissingOnlyAcceptsZero` | app.py:74-75 | all-zero stats pass the corrected check and fail the check as written |
| `Game.Clamp` | static/game.js:194 | the updated stat lies in [0, 30], equals the sum when that is in range and the nearer bound otherwise, and is `NaN` exactly when either side is |
| `Game.ParseInt` | static/game.js:192 | `parseInt` in base 10: JavaScript whitespace skipped, one sign, the longest digit run, `NaN` when there is none |
| `Game.ParseIntNumeral` | static/game.js:192 | `parseInt` reads back every integer that a template literal prints |
| `Game.JsText` | static/game.js:76 | what a template literal prints for a JSON value |
| `Game.Encode` | static/game.js:76 | the radio value: each member as `key:value`, joined by "," |
| `Game.DecodeUpdate` | static/game.js:191-192 | one piece split at ":" into the stat and the parsed change, with "undefined" as the change when there is no colon |
| `Game.Decode` | static/game.js:189-192 | one pair per piece of the value split at "," |
| `Game.EncodeDecode` | static/game.js:76 | decoding the radio value of integer changes gives each stat with its change, in order |
| `Game.EmptyOptionIgnored` | static/game.js:76 | an option with no changes decodes to one pair for the empty stat, which changes nothing |
| `Game.BooleanChangeIsNaN` | static/game.js:189-194 | a boolean change decodes as `NaN` and turns its stat into `NaN` |
| `Game.InitialInRange` | static/game.js:125-130 | the board starts with the four stats, all within range |
| `Game.StatBoard.constructor` | static/game.js:125-130 | the board starts at 7, 3, 8 and 6 |
| `Game.StatBoard.ApplyChoice` | static/game.js:180-196 | with no answer chosen nothing changes; otherwise the answer's pairs are applied from the left |
| `Game.ApplyUpdate` | static/game.js:193-194 | a pair for a stat on the board clamps that stat; any other pair changes nothing |
| `Game.ApplyAll` | static/game.js:190-196 | the pairs applied from the left |
| `Game.ApplyAllKeys` | static/game.js:193 | applying pairs never adds or removes a stat |
| `Game.ApplyAllUntouched` | static/game.js:193-194 | a stat that no pair names keeps its value, so pairs for unknown stats are ignored |
| `Game.ApplyAllInRange` | static/game.js:194 | with integer changes, every stat stays in [0, 30] |
| `Game.ApplyAllNaNSticky` | static/game.js:194 | a `NaN` stat stays `NaN` |
| `Game.ApplyAllNaN` | static/game.js:191-194 | one `NaN` change to a known stat leaves it `NaN` after all the pairs |
| `Game.SlideShow.constructor` | static/game.js:211 | the page starts on slide 0 with no slides, in a consistent state, so "next" can be pressed at once |
| `Game.SlideShow.ResetSlide` | static/game.js:252-254 | the index goes back to 0 and nothing else changes |
| `Game.SlideShow.ShowSlide` | static/game.js:217-231 | exactly slide `index` is active; "submit" is shown and "next" hidden exactly on the last slide |
| `Game.SlideShow.Render` | static/game.js:73-91 | a new quiz displays its first slide and, after a reset, leaves the slide show consistent |
| `Game.SlideShow.NextSlide` | static/game.js:233-243 | the index rises by one until one past the last slide and then stays; the displayed slide, the active slide and the buttons stay consistent |
| `QuestTree.MonsterPlot` | static/quest-tree.js:25-107 | the nine quests of "Overcoming the Monster" with their titles, contexts and choices |
| `QuestTree.MonsterEdges` | static/quest-tree.js:25-107 | every choice is a plain one that leads to an existing quest with a greater id and fewer choices left; there is no quest 17 |
| `QuestTree.MonsterEndings` | static/quest-tree.js:93-105 | the quests without a choice are exactly the endings 8 and 9 |
| `QuestTree.RouteSteps` | static/quest-tree.js:25-107 | each choice along a route uses up at least one of the choices left |
| `QuestTree.RoutesEnd` | static/quest-tree.js:25-107 | every route from quest 1 makes at most five choices, and a route of five ends at quest 8 or 9 |
| `QuestTree.EntryHead` | static/quest-tree.js:241 | the title or "Untitled", then "- " and the context |
| `QuestTree.StoryEntry` | static/quest-tree.js:241-244 | an entry is the head alone when the choice raised no stat, and otherwise the head, "- You made this choice: ", the choice text and "(+stat)" |
| `QuestTree.Summary` | static/quest-tree.js:250 | the story entries joined by " -> " |
| `QuestTree.SummaryAppend` | static/quest-tree.js:250 | one more entry extends the summary by " -> " and the entry |
| `QuestTree.Bump` | static/quest-tree.js:210 | a choice raises its own stat by exactly one and no other |
| `QuestTree.FinalStat` | static/quest-tree.js:221-228 | the scan from -1 that keeps a counter only when it is strictly greater |
| `QuestTree.OutcomeText` | static/quest-tree.js:230-237 | the outcome sentence of each stat, and "undefined" when none was chosen |
| `QuestTree.FinalStatSpec` | static/quest-tree.js:221-228 | the final stat is the earliest counter that none beats and none before it ties |
| `QuestTree.FinalStatChosen` | static/quest-tree.js:221-228 | with counters of 0 or more, some stat is always chosen |
| `QuestTree.QuestGame.constructor` | static/quest-tree.js:2-12 | the page starts with zero counters, no quests, quest 1, no return point and an empty story |
| `QuestTree.QuestGame.ResetStats` | static/quest-tree.js:310-317 | all four counters go back to 0 and nothing else changes |
| `QuestTree.QuestGame.StartSelectedPlot` | static/quest-tree.js:121-125 | a known plot is copied into the quests with quest 1 and zero counters; the return point and story are kept; an unknown plot changes nothing |
| `QuestTree.QuestGame.UpdateStoryContext` | static/quest-tree.js:240-245 | exactly one entry is appended to the story |
| `QuestTree.QuestGame.ChooseRegular` | static/quest-tree.js:209-213 | the choice's stat rises by one, the next quest becomes current, and the step is recorded |
| `QuestTree.QuestGame.ChooseQuizOption` | static/quest-tree.js:192-201 | a correct answer stores the return point and unlocks the side quest, leaving the current quest; a wrong one moves to the next quest |
| `QuestTree.QuestGame.ChooseSideQuest` | static/quest-tree.js:163-170 | the choice's stat rises by one; with a return point set, it becomes current, is cleared and the step is recorded |
| `QuestTree.QuestGame.HandleFinalQuest` | static/quest-tree.js:220-237 | the loop appends the outcome of `FinalStat`, the first strictly greatest counter |

## Left out

- Network calls, prompts and API keys. This covers `generate_questions` and the request halves of `get_personality_traits` and `generate_game_quiz` (llm_client.py:15-107, 134-191), and `fetchPlotNode` and `loadNarration` (static/quest-tree.js:254-297). A call's outcome is a parameter: a status code and the reply text.
- alternate_start_generator.py is not part of this model: it is a prompt, a network call and a JSON parse.
- Flask plumbing: routes, `request.get_json`, `jsonify` and status codes. The `/start` check works on the members of the request object. A request body that is not an object is left out.
- `json.loads` and `JSON.parse` are a parameter `parse` that returns a value or an error message. Their grammar is not modelled. On a repeated member name, Python keeps the last value; the model's lookup finds the first, so parsed objects are taken to have distinct names.
- Floating-point numbers: JSON values are integers only. `int()` truncating a float, and JavaScript integers losing precision beyond 2^53, are not modelled.
- The model's `int()` accepts ASCII digits only; Python also accepts other Unicode decimal digits.
- `int()` and the schema check's exception messages follow Python 3.11 and later: the 4300-digit limit on numerals and the text "string indices must be integers, not 'str'".
- `parseInt` with no radix reads a `0x` prefix as hexadecimal. Only base 10 is modelled.
- `stat in stats` in the quiz page also finds names inherited from `Object.prototype`, such as `toString`. The board is a map of its own keys only.
- Game.EncodeDecode: the radio value is what the HTML parser decodes from the attribute that `innerHTML` builds, and the model takes it to be the template text itself. That holds only when no key or value contains `&` or `"`: a key written `x&#58;0&#44;bravery` would read back as the pairs `x:0` and `bravery:…`.
- `Object.entries` lists integer-like keys first, in ascending order. The encoding takes the option's members in their stored order.
- `playerStats[choice.stat]++` with a stat name other than the four would add a `NaN` counter. Choice stats are one of the four.
- DOM work: rendering questions, buttons, progress bars, narration text, `alert`, and the quiz submit scoring (static/game.js:93-114), which compares against an `answer` field that a validated quiz never has. `renderQuest` and `renderSideQuest` are left out. A correct quiz answer returns the side-quest key to render, and `handleFinalQuest` returns the line it appends.
- The inline `display` style of a slide is a flag for "block" or "none".
- `startSelectedPlot`'s deep copy through JSON is an ordinary copy of immutable values. The templates hold no value that the JSON round trip would drop.
- The plot choice in `startSelectedPlot` is a parameter. The page's select element offers only known plot names.

## Findings

| source | as written | input that shows it | evidently intended | confidence | as-written member | corrected member |
|---|---|---|---|---|---|---|
| app.py:74-75 | `not all(stats.values())` refuses any falsy stat, so a stat of 0 is refused as if it were missing | `{"archetype": "Champion", "bravery": 0, "empathy": 0, "curiosity": 0, "logic": 0}` | refuse only a missing stat, as the comment "If missing any values" says; 0 is a stat value the classifier itself produces | not executed; medium | `App.StartRejectsZero` | `App.StartRequestMissingOnly` |
