# Jeopardy game rules in Dafny

A model of the rules of a browser Jeopardy game (Phaser, TypeScript), with proofs of what they promise:

- **The question bank** (`QuestionsModel`) and the question list seeded into it at start-up.
- **The computer players' decisions** (`AICore`):
  - answering, wagering and buzzing;
  - choosing the next question.
- **The clue card**:
  - the answer matcher;
  - the word-by-word reveal;
  - the buzz guards;
  - scoring of regular and Daily Double answers;
  - re-opening the buzzers after a wrong answer;
  - the answer box's key handling.
- **Final Jeopardy**:
  - eligibility;
  - wagers and their defaults;
  - settlement;
  - the winner and the final standings.
- **The Daily Double**: reading and validating the wager.
- **The question board**: which labels stay open.
- **The presentation state machine**: the state manager, the HUD service and the listening panel.
- **Two utilities**: thousands separators and releasing a scene's textures.

One file per source file:

| file | module | source |
|---|---|---|
| `questions.dfy` | `Questions` | `src/core/game/models/questions.model.ts` |
| `game_core.dfy` | `GameCore` | `src/core/game/game-core.ts` |
| `ai_core.dfy` | `AICore` | `src/core/game/ai-core.ts` |
| `clue_card.dfy` | `ClueCard` | `src/scenes/clue-card/clue-card.scene.ts` |
| `final_jeopardy.dfy` | `FinalJeopardy` | `src/scenes/final-jeopardy/final-jeopardy.scene.ts` |
| `daily_double.dfy` | `DailyDouble` | `src/scenes/daily-double/daily-double.scene.ts` |
| `choose_question.dfy` | `ChooseQuestion` | `src/scenes/choose-question/choose-question.scene.ts` |
| `game_state_manager.dfy` | `StateManager` | `src/core/game/game-state-manager.ts` |
| `hud.dfy` | `Hud` | `src/scenes/hud/hud.service.ts` |
| `listening.dfy` | `Listening` | `src/components/listening.ts` |
| `number_format.dfy` | `NumberFormat` | `src/utils/number.ts` |
| `texture_release.dfy` | `TextureRelease` | `src/utils/optimization.ts` |

Shared modules:

- `Wrappers`: `Option`.
- `Text`: the ASCII string operations the game relies on:
  - trimming and lower-casing;
  - `includes` and `split`/`join`;
  - decimal text and `parseInt`.
- `Seqs`: filter, find, distinct and maximum.
- `Sorting`: `Array.prototype.sort`, which is stable.
- `Draws`: `Math.random()` draws.
- `Players`: the player record and the leading score.
- `Events`: the presentation states and the game-wide events.

Three modelling choices run through the project:

- **Draws are parameters.** Every `Math.random()` result is a parameter `r` with `0 <= r < 1`. Arithmetic on numbers uses `real`.
- **The turn and buzz engine is outside the model.** The scenes call an engine on `GameCore`, and its code is not part of this model. Examples are `players`, `gameState`, `buzzingState`, `playerBuzz` and `simulateAIWager`.
  - What the scenes read from it comes in as parameters: the buzz order, whether buzzing is active, whether the clue has been read out.
  - What its calls answered also comes in as parameters, such as "`playerBuzz` returned `b`".
  - The player records are an `array<Player>` that the scenes update in place.
- **Animations are explicit steps.** An animation in flight is a pending flag, and its completion is a separate call. Timers and key presses are method calls made in sequence.

Where the code and its comments disagree, the model follows the code:

- `simulateAIQuestionSelection` says a player who is behind prefers medium-value questions. The comparator, however, puts first the prices farthest from 30 (`|b - 30| - |a - 30|`). The model uses the comparator.
- A Daily Double wager of 0 passes validation. The clue card then stakes the clue's price, because it uses `wagerAmount || price`. Both steps are modelled as written.
- In Final Jeopardy an AI that the simulation calls wrong records the text "Wrong answer". The substring matcher then scores it right whenever the clue's answer occurs in that text, for example "Ron" or a blank answer. This is modelled as written.

## Model

| member | source | states |
|---|---|---|
| `Questions.QuestionsModel.SetQuestions` | src/core/game/models/questions.model.ts:4-6 | the bank's data is replaced wholesale by the given list |
| `Questions.RegularQuestions` | src/core/game/models/questions.model.ts:60-62 | exactly the entries not flagged Final Jeopardy, in bank order |
| `Questions.FinalJeopardyQuestions` | src/core/game/models/questions.model.ts:44-46 | exactly the entries flagged Final Jeopardy |
| `Questions.RegularFinalPartition` | src/core/game/models/questions.model.ts:44-62 | the regular and Final-Jeopardy lists partition the bank (lengths and multisets add up), and each keeps bank order under concatenation |
| `Questions.Categories` | src/core/game/models/questions.model.ts:15-20 | each category of a regular entry appears exactly once, and no other |
| `Questions.CategoriesOrder` | src/core/game/models/questions.model.ts:15-20 | categories are listed in the order of their first regular occurrence |
| `Questions.CategoriesCount` | src/core/game/models/questions.model.ts:8-13 | the size of the category set equals the length of `categories` |
| `Questions.QuestionsByCategory` | src/core/game/models/questions.model.ts:34-37 | exactly the regular entries of that category |
| `Questions.ByCategoryAppend` | src/core/game/models/questions.model.ts:34-37 | the per-category list keeps bank order |
| `Questions.QuestionsCountByCategory` | src/core/game/models/questions.model.ts:22-25 | equals the length of the per-category list; positive exactly for listed categories |
| `Questions.QuestionsMaxCount` | src/core/game/models/questions.model.ts:27-32 | at least every category's count and equal to one of them; absent (`-Infinity`) exactly when there is no regular entry |
| `Questions.QuestionByCategoryAndQuestion` | src/core/game/models/questions.model.ts:39-42 | the first entry matching category, text and regular, or none exactly when nothing matches |
| `Questions.LookupAppend` | src/core/game/models/questions.model.ts:39-42 | a match earlier in the bank wins over a later one |
| `Questions.RegularAccessorsIgnoreFinal` | src/core/game/models/questions.model.ts:8-42 | banks with the same regular entries agree on every regular accessor, whatever their Final-Jeopardy entries |
| `Questions.RandomFinalJeopardyQuestion` | src/core/game/models/questions.model.ts:48-52 | null exactly when there is no Final-Jeopardy entry; otherwise the Final-Jeopardy entry at `floor(r * n)` |
| `Questions.FinalJeopardyCategories` | src/core/game/models/questions.model.ts:54-58 | each Final-Jeopardy category exactly once |
| `Draws.PickIndex` | src/core/game/models/questions.model.ts:51 | `floor(r * n)` is a valid index for a draw `r` in [0, 1) |
| `GameCore.LoadQuestions` | src/core/game/game-core.ts:203 | after loading, the bank holds exactly the seeded list |
| `GameCore.SeedShape` | src/core/game/game-core.ts:9-201 | the seeded list has 30 entries, none Final Jeopardy and none won |
| `GameCore.SeedBlocksAreBlocks` | src/core/game/game-core.ts:11-200 | the list is six blocks of five questions of one category each, priced 400 to 2000, with distinct names |
| `GameCore.SeedCategories` | src/core/game/game-core.ts:11-200 | `categories` is CAPITALS, SPORTS, CINEMA/TV, COLORS, ANIMALS, FOOD and `categoriesCount` is 6 |
| `GameCore.SeedByCategory` | src/core/game/game-core.ts:11-200 | each seeded category yields its own five questions priced 400, 800, 1200, 1600, 2000 in that order; any other category yields none |
| `GameCore.SeedMaxCount` | src/core/game/game-core.ts:11-200 | `getQuestionsMaxCount` of the seeded bank is 5 |
| `GameCore.SeedFinalJeopardy` | src/core/game/game-core.ts:9-201 | the seeded bank has no Final-Jeopardy entries or categories, and the random pick is null |
| `GameCore.SeedRepeatedTextLookup` | src/core/game/game-core.ts:139-200 | in ANIMALS and FOOD the lookup by text can only return the 400 entry |
| `GameCore.BlocksCategories` | src/core/game/game-core.ts:11-200 | concatenated single-category blocks with distinct names list their names as categories, in order |
| `GameCore.BlocksByCategory` | src/core/game/game-core.ts:11-200 | in concatenated blocks a category's questions are exactly its block |
| `GameCore.BlocksLookup` | src/core/game/game-core.ts:11-200 | a lookup in concatenated blocks is the lookup in the block of that category |
| `AICore.BaseProbability` | src/core/game/ai-core.ts:16-29 | the base chance is in [0, 1) and positive exactly for easy, medium and hard |
| `AICore.CorrectProbability` | src/core/game/ai-core.ts:31-33 | the scaled chance is at most 0 from price 1250 on, and between 0 and the base chance for prices 0 to 1250 |
| `AICore.DearerIsHarder` | src/core/game/ai-core.ts:31-33 | a dearer question never has a higher chance of a right answer |
| `AICore.StrongerIsLikelier` | src/core/game/ai-core.ts:16-33 | below price 1250, easy < medium < hard in the chance of a right answer |
| `AICore.ResponseTime` | src/core/game/ai-core.ts:16-29 | the response time lies in [2000,3000) easy, [1500,2500) medium, [1000,2000) hard, 0 otherwise |
| `AICore.SimulateAIAnswer` | src/core/game/ai-core.ts:11-39 | answers iff the draw is below 0.8; right iff the draw is below the scaled chance, so never from price 1250 on; an unknown difficulty is never right |
| `AICore.WagerPercentage` | src/core/game/ai-core.ts:50-71 | the percentage band for each difficulty, and for hard the band depends on being close to the lead |
| `AICore.SimulateAIWager` | src/core/game/ai-core.ts:48-74 | for a non-negative maximum the wager lies in [0, max] and in the band of its difficulty (unset reads as medium); an unknown difficulty wagers 0 |
| `AICore.FloorInBand` | src/core/game/ai-core.ts:73 | `floor(m * p)` stays between `floor`-rounded ends of the band for p in [lo, hi) |
| `AICore.BuzzTime` | src/core/game/ai-core.ts:90-101 | the buzz time lies in [1500,3500) easy, [800,2300) medium, [300,1300) hard, 0 for unset or unknown |
| `AICore.SimulateAIBuzzing` | src/core/game/ai-core.ts:82-104 | buzzes exactly when the answer simulation (difficulty defaulting to medium) would answer; no buzz means time 0; an unset difficulty buzzes at time 0 |
| `AICore.SimulateAIQuestionSelection` | src/core/game/ai-core.ts:113-138 | no questions gives ("", 0); otherwise the caller's array ends sorted by the preference for this player's standing, and the pick is the entry at `floor(r * min(3, n))` |
| `AICore.PickIsAmongTopThree` | src/core/game/ai-core.ts:133-135 | the pick is one of the available questions and none beyond the first three is preferred to it |
| `Players.LeadingScore` | src/core/game/ai-core.ts:62 | the maximum score, attained by some player; absent exactly for no players |
| `Players.LeaderCloseToLead` | src/core/game/ai-core.ts:63 | the leader counts as close to the lead exactly when the leading score is positive |
| `Players.OrMedium` | src/core/game/ai-core.ts:50 | an absent or empty difficulty reads as medium, any other is kept |
| `Sorting.SortDescSorted` | src/core/game/ai-core.ts:125-130 | the sort orders by the key, highest first |
| `Sorting.SortDescPermutes` | src/core/game/ai-core.ts:125-130 | the sort is a permutation |
| `Sorting.SortDescStable` | src/core/game/ai-core.ts:125-130 | equal keys keep their relative order, as `Array.prototype.sort` guarantees |
| `Sorting.SortInPlace` | src/core/game/ai-core.ts:125-130 | the in-place insertion sort leaves the array equal to the sorted sequence |
| `Text.ParseIntOfIntToString` | src/scenes/daily-double/daily-double.scene.ts:221 | `parseInt` reads back the decimal text of every integer |
| `Text.JoinSplit` | src/scenes/clue-card/clue-card.scene.ts:47 | joining the words of `split(' ')` with single spaces gives back the text |
| `Text.TrimEmptyIff` | src/scenes/clue-card/clue-card.scene.ts:429 | the trimmed text is empty exactly when the text is all blanks |
| `ClueCard.CheckAnswer` | src/scenes/clue-card/clue-card.scene.ts:668-676 | right iff either lower-cased trimmed answer occurs in the other |
| `ClueCard.ExactAnswerIsRight` | src/scenes/clue-card/clue-card.scene.ts:668-676 | the clue's own answer, in any letter case, is judged right |
| `ClueCard.BlankAnswerIsRight` | src/scenes/clue-card/clue-card.scene.ts:668-676 | a blank or empty answer is judged right |
| `ClueCard.CheckAnswerSymmetric` | src/scenes/clue-card/clue-card.scene.ts:668-676 | the judgement does not depend on which side is the clue's answer |
| `ClueCard.LeadingBlanksIgnored` | src/scenes/clue-card/clue-card.scene.ts:670 | blanks before the answer do not change the judgement |
| `ClueCard.HumanIndex` | src/scenes/clue-card/clue-card.scene.ts:269 | the first human's index, or -1 exactly when there is none |
| `ClueCard.RemainingPlayers` | src/scenes/clue-card/clue-card.scene.ts:558-561 | exactly the player indices missing from the buzz order, ascending |
| `ClueCard.RemainingEmptyIff` | src/scenes/clue-card/clue-card.scene.ts:558-563 | nobody remains exactly when every player is in the buzz order |
| `ClueCard.RebuzzOrderAsWritten` | src/scenes/clue-card/clue-card.scene.ts:600-605 | as written, `startBuzzing` runs after the buzz order is put back and, by its assumed effect (its code is not part of this model), leaves nobody on the order |
| `ClueCard.EarlierBuzzerReadmittedAsWritten` | src/scenes/clue-card/clue-card.scene.ts:600-605 | as written, a player who already answered wrongly passes both buzz guards again on the rebuzz |
| `ClueCard.RebuzzOrder` | src/scenes/clue-card/clue-card.scene.ts:600-605 | the corrected rebuzz keeps exactly the players who already buzzed on the order |
| `ClueCard.RebuzzKeepsEarlierBuzzersOut` | src/scenes/clue-card/clue-card.scene.ts:600-605 | with the earlier order kept, earlier buzzers fail both buzz guards and the remaining players pass them |
| `ClueCard.KeyPress` | src/scenes/clue-card/clue-card.scene.ts:427-446 | Enter submits the trimmed text iff the timer is held and the text is not blank, releasing the timer; Backspace drops one character; a one-character key is appended only below 50 characters |
| `ClueCard.TypeThenBackspace` | src/scenes/clue-card/clue-card.scene.ts:432-441 | typing a character then Backspace restores the box |
| `ClueCard.AfterKeys` | src/scenes/clue-card/clue-card.scene.ts:427-446 | any run of keys keeps the text within 50 characters and never re-arms a released timer |
| `ClueCard.NoSubmissionAfterRelease` | src/scenes/clue-card/clue-card.scene.ts:428-431 | once the timer is released no key submits |
| `ClueCard.AnswerTimeoutAsWritten` | src/scenes/clue-card/clue-card.scene.ts:481-489 | the timeout as written keeps the typed text and leaves the timer held |
| `ClueCard.LateEnterSubmitsAsWritten` | src/scenes/clue-card/clue-card.scene.ts:481-489 | as written, Enter after the timeout still submits a typed answer |
| `ClueCard.AnswerTimeout` | src/scenes/clue-card/clue-card.scene.ts:481-489 | the corrected timeout releases the timer and keeps the text |
| `ClueCard.LateEnterIgnored` | src/scenes/clue-card/clue-card.scene.ts:481-489 | after the corrected timeout no key sequence submits |
| `ClueCard.DailyDoubleStake` | src/scenes/clue-card/clue-card.scene.ts:521 | an absent or zero wager stakes the price, any other wager stakes itself |
| `ClueCard.ClueCardScene.constructor` | src/scenes/clue-card/clue-card.scene.ts:40-50 | the clue's words are its `split(' ')`, reading starts at word 0 and no buzzing phase is open |
| `ClueCard.ClueCardScene.ReadNextWord` | src/scenes/clue-card/clue-card.scene.ts:96-115 | after k ticks the display shows the first k words joined by spaces; the last word clears it, opens the buzzing phase and hands a Daily Double to the finder |
| `ClueCard.ClueCardScene.StartAnswerPhase` | src/scenes/clue-card/clue-card.scene.ts:357-389 | buzzing ends; a human gets an empty answer box and a live timer |
| `ClueCard.ClueCardScene.HandleHumanBuzz` | src/scenes/clue-card/clue-card.scene.ts:258-287 | each outcome holds exactly when its guard decides it: too early, someone first, already tried, refused by the engine, or answering; all but answering leave the scene unchanged, and answering sets `someoneBuzzed` and opens the answer box |
| `ClueCard.ClueCardScene.HandleAIBuzz` | src/scenes/clue-card/clue-card.scene.ts:289-313 | an AI buzz goes through iff buzzing is active, the phase is open, nobody has buzzed, it has not tried, and the engine accepts |
| `ClueCard.ClueCardScene.HandleBuzzingTimeout` | src/scenes/clue-card/clue-card.scene.ts:239-256 | the countdown closes the phase exactly when nobody buzzed |
| `ClueCard.ClueCardScene.KeyDown` | src/scenes/clue-card/clue-card.scene.ts:427-446 | a key press updates the box as `KeyPress` says |
| `ClueCard.ClueCardScene.HandleAnswerTimeout` | src/scenes/clue-card/clue-card.scene.ts:481-489 | the timeout releases the answer timer and keeps the typed text (the corrected timeout) |
| `ClueCard.ClueCardScene.ProcessAnswer` | src/scenes/clue-card/clue-card.scene.ts:516-580 | Daily Double: only the finder's score moves by the stake, and a right answer keeps their turn. Regular: the answerer's score moves by the price, a right answer gives the turn, a wrong one offers a rebuzz iff someone has not tried. No other record changes |
| `ClueCard.ClueCardScene.AllowRebuzzing` | src/scenes/clue-card/clue-card.scene.ts:582-622 | with nobody left the phase ends; otherwise it reopens with nobody buzzed and the earlier buzzers kept on the order (the corrected rebuzz) |
| `FinalJeopardy.EligiblePlayers` | src/scenes/final-jeopardy/final-jeopardy.scene.ts:47-50 | exactly the indices with a positive score, ascending |
| `FinalJeopardy.EligibleEmptyIff` | src/scenes/final-jeopardy/final-jeopardy.scene.ts:52-56 | nobody is eligible, and play goes to game over, exactly when no score is positive |
| `FinalJeopardy.InitialWagers` | src/scenes/final-jeopardy/final-jeopardy.scene.ts:59-64 | one record per eligible player, in order, with wager 0, empty answer, not answered |
| `FinalJeopardy.HumanWager` | src/scenes/final-jeopardy/final-jeopardy.scene.ts:240 | the clamped wager lies in [0, score]; text that is not a number counts as 0 |
| `FinalJeopardy.HumanWagerOfNumber` | src/scenes/final-jeopardy/final-jeopardy.scene.ts:240 | a typed number in range is taken, above the score it is cut to the score, below 0 it is raised to 0 |
| `FinalJeopardy.Defaulted` | src/scenes/final-jeopardy/final-jeopardy.scene.ts:294-297 | a wager still 0 becomes half the score rounded down; any other wager is kept |
| `FinalJeopardy.DefaultedWithinScore` | src/scenes/final-jeopardy/final-jeopardy.scene.ts:294-297 | a defaulted wager of an eligible player stays in [0, score] |
| `FinalJeopardy.SettledUnrecorded` | src/scenes/final-jeopardy/final-jeopardy.scene.ts:546-556 | a player without a record is untouched by settlement |
| `FinalJeopardy.SettledRecorded` | src/scenes/final-jeopardy/final-jeopardy.scene.ts:546-556 | a recorded player's score moves by exactly plus or minus their own wager |
| `FinalJeopardy.SettleAllEffect` | src/scenes/final-jeopardy/final-jeopardy.scene.ts:546-556 | settling all records moves each recorded player by their own delta and leaves every other player as they were |
| `FinalJeopardy.SettleRecord` | src/scenes/final-jeopardy/final-jeopardy.scene.ts:547-556 | one record adds its wager for a right answer and subtracts it otherwise |
| `FinalJeopardy.UnansweredGainsWager` | src/scenes/final-jeopardy/final-jeopardy.scene.ts:580-586 | an unanswered (empty) record settles as right |
| `FinalJeopardy.AIAnswer` | src/scenes/final-jeopardy/final-jeopardy.scene.ts:496-500 | a right simulation records the clue's answer, which the matcher accepts; a wrong one records "Wrong answer" |
| `FinalJeopardy.WrongSimulationScoredRight` | src/scenes/final-jeopardy/final-jeopardy.scene.ts:496-553 | a wrong simulation is still settled as right exactly when the clue's normalized answer occurs in "wrong answer" or contains it, and then gains the wager |
| `FinalJeopardy.WrongSimulationCreditedForRon` | src/scenes/final-jeopardy/final-jeopardy.scene.ts:496-553 | for the clue answer "Ron" an AI that the simulation calls wrong gains its wager |
| `FinalJeopardy.WinnerIndex` | src/scenes/final-jeopardy/final-jeopardy.scene.ts:606-608 | the winner has the highest score, and everyone after them scores strictly less, so ties go to the later player |
| `FinalJeopardy.WinnerHoldsLead` | src/scenes/final-jeopardy/final-jeopardy.scene.ts:606-608 | the winner's score is the leading score |
| `FinalJeopardy.FinalStandings` | src/scenes/final-jeopardy/final-jeopardy.scene.ts:637-639 | the players array ends sorted by score, highest first, as a permutation of itself |
| `FinalJeopardy.FinalJeopardyScene.constructor` | src/scenes/final-jeopardy/final-jeopardy.scene.ts:43-64 | the eligible players and one fresh record each |
| `FinalJeopardy.FinalJeopardyScene.RecordOf` | src/scenes/final-jeopardy/final-jeopardy.scene.ts:281 | the record of that player, or none exactly when no record has that index |
| `FinalJeopardy.FinalJeopardyScene.SetPlayerWager` | src/scenes/final-jeopardy/final-jeopardy.scene.ts:280-285 | only that player's record changes, and only its wager |
| `FinalJeopardy.FinalJeopardyScene.SetPlayerAnswer` | src/scenes/final-jeopardy/final-jeopardy.scene.ts:503-509 | only that player's record changes: its answer is set and it is marked answered |
| `FinalJeopardy.FinalJeopardyScene.FinishWageringPhase` | src/scenes/final-jeopardy/final-jeopardy.scene.ts:287-298 | every record ends as its defaulted version |
| `FinalJeopardy.FinalJeopardyScene.ShowResults` | src/scenes/final-jeopardy/final-jeopardy.scene.ts:519-556 | the players end as all records settled in turn |
| `DailyDouble.MaxWager` | src/scenes/daily-double/daily-double.scene.ts:24 | the ceiling is the finder's score, never below 1000 |
| `DailyDouble.ParseWagerInput` | src/scenes/daily-double/daily-double.scene.ts:211-226 | blank input reads as not a number |
| `DailyDouble.ParseWagerInputIsParseInt` | src/scenes/daily-double/daily-double.scene.ts:211-226 | the blank check and the trim change nothing: reading a wager is `parseInt` of the raw input |
| `DailyDouble.TypedNumberReadsBack` | src/scenes/daily-double/daily-double.scene.ts:211-226 | a wager typed as an integer's decimal text reads back as that integer |
| `DailyDouble.Validate` | src/scenes/daily-double/daily-double.scene.ts:228-245 | accepted iff a number in [0, max], taken as it is; otherwise exactly one of not a number, negative, over the maximum |
| `DailyDouble.BlankWagerRefused` | src/scenes/daily-double/daily-double.scene.ts:215-217 | blank input is refused as not a number |
| `DailyDouble.TypedWagerAccepted` | src/scenes/daily-double/daily-double.scene.ts:211-245 | every amount in [0, max] typed in decimal is accepted as itself |
| `DailyDouble.AcceptedWagerStake` | src/scenes/daily-double/daily-double.scene.ts:245 | the clue card stakes an accepted wager, except that 0 becomes the clue's price |
| `DailyDouble.DailyDoubleScene.constructor` | src/scenes/daily-double/daily-double.scene.ts:18-24 | the finder is the current player and the ceiling is computed from their score |
| `DailyDouble.DailyDoubleScene.SubmitWager` | src/scenes/daily-double/daily-double.scene.ts:228-245 | a refused wager leaves the recorded wager unchanged; an accepted one is recorded |
| `DailyDouble.DailyDoubleScene.SubmitTypedWager` | src/scenes/daily-double/daily-double.scene.ts:170-182 | the typed text is read and validated |
| `DailyDouble.DailyDoubleScene.SubmitAIWager` | src/scenes/daily-double/daily-double.scene.ts:205-208 | the AI's wager goes through the same validation |
| `DailyDouble.TypedWagerReachesClueCard` | src/scenes/daily-double/daily-double.scene.ts:303-309 | a valid typed amount reaches the clue card as a Daily Double with that wager and the finder |
| `DailyDouble.DailyDoubleScene.HandOff` | src/scenes/daily-double/daily-double.scene.ts:303-309 | the clue card receives the same clue as a Daily Double with the finder, and stakes the recorded wager, or the clue's price for a wager of 0 |
| `ChooseQuestion.LookupIsBankLookup` | src/scenes/choose-question/choose-question.scene.ts:32-35 | a label's lookup is the bank's lookup by category and text |
| `ChooseQuestion.EmptyCategoryClosed` | src/scenes/choose-question/choose-question.scene.ts:29-48 | a category without question labels counts as fully answered |
| `ChooseQuestion.LabelsOf` | src/scenes/choose-question/choose-question.creator.ts:79-91 | one label per question, carrying its category and text |
| `ChooseQuestion.BoardLabelsFound` | src/scenes/choose-question/choose-question.creator.ts:60-93 | every label built from the bank finds its question, so "Question not found" cannot arise |
| `ChooseQuestion.BoardLabelCategories` | src/scenes/choose-question/choose-question.creator.ts:60-93 | every built label belongs to one of the board's categories |
| `ChooseQuestion.ChooseQuestionScene.constructor` | src/scenes/choose-question/choose-question.scene.ts:22-23 | the board starts with no label interactive |
| `ChooseQuestion.ChooseQuestionScene.Create` | src/scenes/choose-question/choose-question.scene.ts:25-49 | fails exactly when a visited label is missing from the bank; otherwise each question label is enabled iff unwon, and a category is disabled iff all its labels are won |
| `ChooseQuestion.ChooseQuestionScene.SetUpCategory` | src/scenes/choose-question/choose-question.scene.ts:29-43 | one category's labels enabled or disabled by their winners, with the all-answered flag |
| `ChooseQuestion.ChooseQuestionScene.SelectQuestion` | src/scenes/choose-question/choose-question.scene.ts:51-53 | the selected question is the label's, and every question label is disabled |
| `ChooseQuestion.CreateBoardFromBank` | src/scenes/choose-question/choose-question.scene.ts:20-49 | on a board built from the bank, a question is open iff it has no winner, and a category is closed iff all its questions are won |
| `StateManager.EventTarget` | src/core/game/game-state-manager.ts:45-63 | mic-enable leads to listening, mic-disable and hub-show to hub, back-button-clicked to full; other events lead nowhere |
| `StateManager.GameStateManager.constructor` | src/core/game/game-state-manager.ts:15-26 | the initial state is full, with listeners attached and no transition in flight |
| `StateManager.GameStateManager.RegisterComponents` | src/core/game/game-state-manager.ts:35-43 | the HUD and the panel are registered and nothing else changes |
| `StateManager.GameStateManager.StartTransition` | src/core/game/game-state-manager.ts:93-159 | the HUD is shown only towards hub, the panel only towards the listening states, leaving them resets the mic, a visible panel is raised by 24 towards listening-hub with the board registered and otherwise keeps its position; the pending transition records the HUD and panel hide animations it must await; the state itself does not change yet |
| `StateManager.StartHud` | src/core/game/game-state-manager.ts:121-134 | the HUD is shown towards hub and hidden otherwise, and the hide animation it then awaits is the one just started (or still running) |
| `StateManager.StartPanel` | src/core/game/game-state-manager.ts:111-156 | the panel is shown towards the listening states and hidden otherwise; its new position is stated in every case: off screen when hidden, raised by 24 towards listening-hub with the board registered, kept when already visible or when `show` is skipped during a hide, level when newly shown; its running hide animation is awaited |
| `StateManager.GameStateManager.TransitionTo` | src/core/game/game-state-manager.ts:69-91 | a transition starts iff the target differs from the current state; otherwise nothing changes |
| `StateManager.GameStateManager.CompleteTransition` | src/core/game/game-state-manager.ts:84-90 | only once the awaited hide animations have finished, the state becomes the target and state-changed {from, to} is emitted; completing one to listening first starts one to listening-hub |
| `StateManager.GameStateManager.HandleEvent` | src/core/game/game-state-manager.ts:45-63 | a listened event starts a transition to its target, while listeners are attached and the target differs |
| `StateManager.GameStateManager.Destroy` | src/core/game/game-state-manager.ts:169-178 | listeners are detached and the panel's pending animation is forgotten; the state, the pending transitions, the registrations and the panel's visibility, position and hide counts are unchanged |
| `StateManager.ManagerSlot.GetInstance` | src/core/game/game-state-manager.ts:28-33 | the first call creates a manager in state full, with no HUD, no panel and no board registered; every later call returns the same one |
| `StateManager.MicEnableSettlesInListeningHub` | src/core/game/game-state-manager.ts:161-166 | after the board starts and the mic is enabled, the state settles in listening-hub with the events full→hub, mic-enable, hub-hidden, hub→listening, hub→listening-hub, the HUD's hide animation finishing before the transition to listening completes |
| `Hud.HudService.constructor` | src/scenes/hud/hud.service.ts:11-16 | the mic is off and the HUD hidden |
| `Hud.HudService.ClickMic` | src/scenes/hud/hud.service.ts:74-82 | the mic flag flips, and mic-enable is emitted iff it is now on |
| `Hud.HudService.ShowHud` | src/scenes/hud/hud.service.ts:85-116 | skipped while shown or animating; otherwise shown at once with nothing pending |
| `Hud.HudService.HideHud` | src/scenes/hud/hud.service.ts:118-148 | skipped while hidden or animating; otherwise hidden with an animation pending, counted as one more started tween |
| `Hud.HudService.FinishHideAnimation` | src/scenes/hud/hud.service.ts:138-142 | only while a tween is running: the oldest completes, is counted as finished, and hub-hidden is emitted |
| `Hud.HudService.ResetMicState` | src/scenes/hud/hud.service.ts:154-156 | the mic is off and nothing else changes |
| `Hud.HudService.Destroy` | src/scenes/hud/hud.service.ts:162-167 | a pending animation is forgotten while the tween itself runs on |
| `Listening.ListeningComponent.constructor` | src/components/listening.ts:7-20 | the panel starts invisible, off screen, nothing pending |
| `Listening.ListeningComponent.Show` | src/components/listening.ts:69-100 | skipped while visible or animating; otherwise visible at once at its resting place |
| `Listening.ListeningComponent.Hide` | src/components/listening.ts:102-131 | skipped while invisible or animating; otherwise invisible and off screen with an animation pending |
| `Listening.ListeningComponent.FinishHideAnimation` | src/components/listening.ts:123-126 | only while a tween is running: the oldest completes, is counted as finished, and nothing else changes |
| `Listening.ListeningComponent.AdjustPosition` | src/components/listening.ts:133-148 | the panel moves to the offset only while visible |
| `Listening.ListeningComponent.Destroy` | src/components/listening.ts:154-158 | a pending animation is forgotten while the tween itself runs on |
| `NumberFormat.SeparatorAtDigits` | src/utils/number.ts:9-12 | in a digit string the pattern matches exactly at inner positions followed by a multiple of three digits |
| `NumberFormat.GroupedDigits` | src/utils/number.ts:9-12 | the regex replacement on digits equals grouping by threes from the right |
| `NumberFormat.HumanizeIntGroupsDigits` | src/utils/number.ts:5-14 | an integer's text is its digits grouped by threes, after a minus sign when negative |
| `NumberFormat.Humanize` | src/utils/number.ts:1-14 | text without a decimal point is exactly its integer part grouped by threes with the chosen separator |
| `NumberFormat.HumanizeIntRoundTrip` | src/utils/number.ts:5-12 | removing every separator from an integer's output gives back its text |
| `NumberFormat.ShortIntUnchanged` | src/utils/number.ts:9-12 | integers with at most three digits are returned unchanged |
| `NumberFormat.GroupDigitsPieces` | src/utils/number.ts:9-12 | after a leading group of one to three digits every separator is followed by exactly three digits |
| `NumberFormat.NoSeparatorAfterMinus` | src/utils/number.ts:10 | no separator follows the minus sign |
| `NumberFormat.GroupDigitsStartsWithDigit` | src/utils/number.ts:9-12 | grouped digits never start with a separator |
| `NumberFormat.DecimalPartKept` | src/utils/number.ts:7-14 | a non-empty decimal part is put back after "." unchanged, behind the grouped integer part |
| `NumberFormat.WithoutGroupDigits` | src/utils/number.ts:9-12 | removing the separators from grouped digits gives the digits back |
| `TextureRelease.TextureManager.Remove` | src/utils/optimization.ts:18 | the key leaves the list and the others keep their order |
| `TextureRelease.ReleaseOne` | src/utils/optimization.ts:10-19 | a key is removed exactly when it is not built in and passes the prefix test |
| `TextureRelease.ReleaseTextures` | src/utils/optimization.ts:3-23 | the list ends as the unselected keys in order, and the count is the number of selected keys |
| `TextureRelease.Advance` | src/utils/optimization.ts:9-21 | each loop step removes the key iff it is selected and counts it |
| `TextureRelease.ReleasedPlusKept` | src/utils/optimization.ts:18-22 | removed and kept keys split the list: the count plus what stays is what was there |
| `TextureRelease.KeptIff` | src/utils/optimization.ts:1-10 | a key stays iff it was there and is not selected; the four built-in textures always stay |
| `TextureRelease.NoPrefixReleasesAllButBuiltIns` | src/utils/optimization.ts:11 | with no prefix or an empty one, only the built-in textures stay |
| `TextureRelease.SinglePrefixReleases` | src/utils/optimization.ts:14-16 | with a string prefix, exactly the non-built-in keys starting with it go |
| `TextureRelease.SeveralPrefixesRelease` | src/utils/optimization.ts:12-13 | with an array of prefixes, a key goes iff it starts with one of them; an empty array releases nothing |

## Left out

- Rendering, layout, tweens' geometry, timers' durations, DOM inputs and console logging are left out. Animations are a pending flag completed by an explicit call. Timers and listeners are method calls made in sequence.
- The turn and buzz engine on `GameCore` is outside the model: `players`, `gameState`, `buzzingState`, `playerBuzz`, `startBuzzing`, `resetBuzzing` and `simulateAIWager` on `GameCore`. Its state and answers come in as parameters, and no contract is written for it.
- Randomness: each draw is a parameter in [0, 1). Distributions are not modelled.
- Floating point: `real` arithmetic replaces IEEE doubles, and integer scores are unbounded.
- Strings are ASCII. `toLowerCase` and `trim` act on ASCII letters and blanks only.
- `NumberFormat.Humanize`: takes the text of `num.toString()` as its input. Exponent forms and the float-to-text conversion are not modelled, so the proved properties are about integers (`HumanizeInt`) and literal decimal suffixes.
- `attachAutoReleaseTexturesEventToScene` (`src/utils/optimization.ts:25-34`) only wires `releaseTextures` to a scene's shutdown event and logs; it is left out. Phaser's texture manager is modelled only as its ordered key list.
- `ChooseQuestion.ChooseQuestionScene.Create`: after "Question not found" the labels already visited keep their new state; the contract says only that the error is raised, not which labels were set before it.
- `StateManager.GameStateManager.StartTransition`: the board services' own animations (`new-game-board.services.ts`) only add to the awaited list and are not modelled; the `await Promise.all` is the separate `CompleteTransition` step, which requires the recorded HUD and panel hide tweens to have finished (show calls return the running hide's promise, so only hides are awaited), so interleavings of concurrent transitions are abstracted to the list of pending transitions.
- The listening panel's sizer lookup is assumed to succeed: `adjustPosition` and `destroy` find it. `Listening.ListeningComponent.Destroy` does not model destroying the sizer (src/components/listening.ts:160-164); the panel keeps its placement.
- The clue card's AI buzz timers (`setupAIBuzzTimers`, `startAIBuzzAttempts`, `startAIBuzzAttemptsForRemainingPlayers`) only schedule `handleAIBuzz` calls with random delays; the calls themselves are modelled by `HandleAIBuzz`, the delays are not.
- `ClueCard.ClueCardScene.AllowRebuzzing`: models the corrected rebuzz, which keeps the earlier buzzers on the order. As written, `startBuzzing` runs right after the restore, and its assumed effect is to clear the buzz order (`RebuzzOrderAsWritten`). The engine's code is not part of this model, so whether earlier buzzers stay out depends on `startBuzzing` keeping the order, which the model does not establish.
- `ClueCard.ClueCardScene.HandleAnswerTimeout`: models the corrected timeout, which releases the answer timer. The program as written leaves `answerTimer` set (`AnswerTimeoutAsWritten`), so the scene model does not show the late second submission of the findings below.
- `ClueCard.ClueCardScene.HandleHumanBuzz`: with no human player `findIndex` gives -1; the program then throws at `GameCore.players[-1].isHuman` (src/scenes/clue-card/clue-card.scene.ts:362-365), while the model hands on `Answering(-1)`. The game always has a human player, so the throw is not modelled.
- `FinalJeopardy.WinnerIndex`: requires at least one player. The game always has players. The `TypeError` that `reduce` without an initial value throws on an empty list is not modelled.
- Final Jeopardy's per-player wagering and answering sequence (`handlePlayerWagering`, `handlePlayerAnswering`) is timer-driven; its effects are the calls `SetPlayerWager` and `SetPlayerAnswer`.

## Findings

| source | as written | input that shows it | evidently intended | confidence | as-written member | corrected member |
|---|---|---|---|---|---|---|
| src/scenes/clue-card/clue-card.scene.ts:481-489 | the answer timeout removes the input's display but neither releases `answerTimer` nor detaches the key listener, so Enter still submits | the human types "x", the 5-second timer fires, then Enter: the answer is scored again after the timeout's wrong answer | a timed-out answer box accepts no further submission | medium; not executed | `ClueCard.LateEnterSubmitsAsWritten` | `ClueCard.LateEnterIgnored` |
| src/scenes/clue-card/clue-card.scene.ts:600-605 | the earlier buzz order is put back, then `startBuzzing` runs, assumed here to clear the buzz order | two players; the human (index 0) answers wrongly, so the order is [0]; on the rebuzz the order is empty again and the human's buzzer passes the `includes` guard | players who already tried stay out of the rebuzz | low; not executed; rests on the assumed effect of `startBuzzing`, whose code is not part of this model | `ClueCard.EarlierBuzzerReadmittedAsWritten` | `ClueCard.RebuzzKeepsEarlierBuzzersOut` |
