# Prompt Wizard: a verified model of the spell-evaluation and battle core

Prompt Wizard is an educational game. The player defeats creatures by writing
natural-language "spells", which a language model judges against the
creature's weakness. This project models the game's core in Dafny and proves
properties of that model:

- **Spell evaluation route** (`POST /api/spells/evaluate`, module `SpellRoutes`).
  It runs the blank-text and length gates, the moderation gate with its
  relevant-category filter and the advice message it builds, and the echo
  of the judgment. It also turns exceptions into 500 responses. The handler is a
  function of the request body and of what the two awaited service calls
  produce. Besides the response, it returns the trace of service calls it made.
- **Evaluation service** (`OpenAIService`). This covers the `Service` class with its
  client flag and `EvaluateSpell`, which post-processes the judge's reply step
  by step: trim, brace-span extraction, parse, field validation, and the random
  demo fallback. It also covers the fail-open `ModerateContent`.
- **Catalogue and stage unlocking** (`Creatures`). The lookups are functions.
  `GetAvailableStages` and `GetAllCreaturesInOrder` are methods with the nested
  loops of the source. The shipped worlds, stages and creatures are data in
  `ShippedCreatures`.
- **World map** (`WorldMap`). This covers stage progress, stage availability,
  world unlocked/mastered, the creature-selectable rule, and the `selectedWorld`
  navigation as a small class.
- **Progress panel** (`ProgressTracker`). These are the folds over the spell
  history (total, rounded mean, maximum), the achievements, and the next
  milestone.
- **Spell input box** (`SpellInput`). This is a class with `spellText` and
  `charCount`, the 500-character cap, and guarded submit-and-clear.
- **Result card** (`BattleResult`). These are the icon, headline and CSS-class
  decision tables, the moderated view, and the tips condition.
- **Battle screen** (`GameInterface`). This is a class with creature health,
  stored result, loading flag and game state, updated by `handleSpellCast` and
  `resetGame`.

Helper modules: `Wrappers` (Option), `JsText` (ECMAScript `trim` and
character search) and `Seqs` (`filter`, `filter(...).length`).

External effects are inputs to the model:

- The chat-completion reply and the moderation reply are datatypes passed in.
- `JSON.parse` is a function parameter `string -> Option<Json>`.
- The three `Math.random()` draws are a `Draw` of reals in [0, 1).
- The browser's `fetch` outcome is a `Fetch` value.
- The API-key check is a constructor parameter.

Facts of the code that the model states and proves:

- The demo fallback's damage is `floor(r * 100)`. That range is 0 to 99, not
  0 to 100 (`FallbackIsBoundedJudgment`, `FallbackCoversRanges`).
- Without an API key, `evaluateSpell` throws before its `try`. A valid spell
  then gets a 500 response, not a fallback judgment (`NoClientValidSpellGets500`).
- A moderation reply with an empty result list makes `moderation.flagged` throw.
  The route answers 500 (`ExceptionsBecome500`).
- A blocked spell's 400 reply is not ok for the browser, so the player sees the
  fixed "Failed to connect" result instead of the moderation advice
  (`BlockedSpellShowsFailure`). The card's moderated branch is never reached
  from the battle screen.
- `relevant_categories` is a plain object literal. A category named after an
  inherited `Object.prototype` property, such as `constructor`, is therefore
  relevant. Flagged true, it blocks the spell with no advice sentence
  (`InheritedCategoryBlocksWithoutAdvice`).
- The code has no healing classification, boss-phase damage accounting,
  counter-attacks, player health, scoring or persistence. `evaluateSpell`
  ignores `isBoss` and `bossPhase`. None of these are modelled.

## Model

| member | source | states |
|---|---|---|
| JsText.Trim | backend/src/services/openaiService.js:65-69 | `trim()` is a contiguous piece of the input with only whitespace removed on either side, and no whitespace at either edge. |
| JsText.TrimEmptyIffAllWhitespace | backend/src/routes/spells.js:16 | `s.trim()` is empty exactly when every character of `s` is whitespace. |
| JsText.TrimIdempotent | frontend/src/components/SpellInput.js:19-20 | Trimming twice gives the same result as trimming once. |
| JsText.FirstIndexOf | backend/src/services/openaiService.js:73 | None exactly when the character is absent. Otherwise it gives the position of the first occurrence. |
| JsText.LastIndexOf | backend/src/services/openaiService.js:73 | None exactly when the character is absent. Otherwise it gives the position of the last occurrence. |
| Seqs.Filter | frontend/src/components/WorldMap.js:24 | At most as long as the input. Every kept element satisfies the predicate, and every element that satisfies it is kept. |
| Seqs.Count | frontend/src/components/WorldMap.js:47-49 | The count is the full length exactly when all elements satisfy the predicate, and positive exactly when some element does. |
| Seqs.FilterLength | frontend/src/components/WorldMap.js:24 | `filter(p).length` equals the number of elements satisfying `p`. |
| OpenAIService.Fields | backend/src/services/openaiService.js:82-89 | A parsed value passes the type check exactly when it is an object with numeric `effectiveness` and `damage`, string `feedback` and boolean `success`. The typed view holds those four values. |
| OpenAIService.HasBraceSpan | backend/src/services/openaiService.js:72-73 | Defined as "the first `{` comes before the last `}`". `HasBraceSpanIff` proves this is when the regex matches. |
| OpenAIService.JsonCandidate | backend/src/services/openaiService.js:72-76 | Defined as the text from the first `{` through the last `}` when there is a match, and all of the text otherwise. Its meaning is proved by `JsonCandidateExact`, `JsonCandidateIsBraced` and `JsonCandidateIsLeftmostLongest`. |
| OpenAIService.HasBraceSpanIff | backend/src/services/openaiService.js:72-73 | `/\{[\s\S]*\}/` matches exactly when some `{` comes before some `}`. |
| OpenAIService.JsonCandidateExact | backend/src/services/openaiService.js:72-76 | With no match the whole trimmed text is parsed. With a match the candidate is exactly `t[i..j+1]`, where `t[i]` is a `{` with none before it and `t[j]` is a `}` with none after it. |
| OpenAIService.JsonCandidateIsBraced | backend/src/services/openaiService.js:72-76 | With a match, the candidate has at least two characters, starts with `{` and ends with `}`. |
| OpenAIService.JsonCandidateIsLeftmostLongest | backend/src/services/openaiService.js:72-76 | With a match, every `{`...`}` span of the text lies between the first `{` and the last `}`. The greedy match therefore contains all of them. |
| OpenAIService.ReplyContent | backend/src/services/openaiService.js:59-63 | Defined as `choices[0].message.content` when the reply has it, and none when the call failed or the structure is missing. `EvaluateSpell` states what each case then leads to. |
| OpenAIService.FallbackJson | backend/src/services/openaiService.js:101-107 | Defined as the demo object built from the three draws. `FallbackIsBoundedJudgment` and `FallbackCoversRanges` state its ranges. |
| OpenAIService.FallbackIsBoundedJudgment | backend/src/services/openaiService.js:101-107 | Every demo fallback passes the type check, with effectiveness in 1..10, damage in 0..99, the fixed feedback text, and success exactly when the third draw exceeds 0.5. |
| OpenAIService.FallbackCoversRanges | backend/src/services/openaiService.js:103-106 | Every effectiveness in 1..10, damage in 0..99 and success value is produced by some draw, so those bounds are exact. |
| OpenAIService.Service.constructor | backend/src/services/openaiService.js:4-14 | The service has a client exactly when an API key is present. |
| OpenAIService.Service.EvaluateSpell | backend/src/services/openaiService.js:16-108 | Without a client it throws the not-initialized error. With a client it always returns a value that passes the type check. That value is the parse of the extracted span when the reply has non-blank content whose parse passes the check, and the demo fallback on every other path. |
| OpenAIService.Service.ModerateContent | backend/src/services/openaiService.js:111-128 | It returns `{flagged: false, categories: {}}` without a client or when the call fails. Otherwise it returns the first result. It is undefined exactly when a client got an empty result list. |
| SpellRoutes.SpellTextError | backend/src/routes/spells.js:16-26 | "Spell text is required" exactly for a missing or all-whitespace spell. "Spell must be 500 characters or less" exactly for a non-blank spell over 500 characters. No error otherwise. |
| SpellRoutes.FlaggedRelevant | backend/src/routes/spells.js:52-54 | The filtered category list is no longer than the category map. |
| SpellRoutes.FlaggedRelevantMembers | backend/src/routes/spells.js:48-54 | A category is listed exactly when it is flagged true and relevant. The list is empty exactly when the `some` check fails. |
| SpellRoutes.FlaggedRelevantKeepsOrder | backend/src/routes/spells.js:52-54 | The filter keeps the key order of the categories. |
| SpellRoutes.IsBlocked | backend/src/routes/spells.js:48 | Defined as `flagged` together with some category that is true and relevant. `ModerationBlocks`, `IrrelevantCategoriesNeverBlock` and `NonBlockingCategories` state its effect. |
| SpellRoutes.IsRelevant | backend/src/routes/spells.js:32-48 | Defined as `relevant_categories[cat]` being truthy: the listed flag, or true for an inherited `Object.prototype` name. `RelevantCategoryNames` states which names are relevant. |
| SpellRoutes.AnyRelevantFlag | backend/src/routes/spells.js:48 | Defined as the `some` test: a category flagged true that is relevant. `FlaggedRelevantMembers` proves it fails exactly when the filtered list is empty. |
| SpellRoutes.RelevantCategoryNames | backend/src/routes/spells.js:32-46 | A name is relevant exactly when it is one of the ten names the advice tests look for, or an inherited `Object.prototype` property. |
| SpellRoutes.Advice | backend/src/routes/spells.js:56-67 | Each of the five sentences (harassment, sexual, hate, self-harm, graphic violence) is chosen exactly when no earlier group is in the list and its own group is. No sentence is chosen exactly when the list holds none of the ten advised names. |
| SpellRoutes.BlockMessage | backend/src/routes/spells.js:56-69 | The message is the fixed prefix, then the advice sentence, then the fixed suffix. |
| SpellRoutes.BlockedSpellAdvice | backend/src/routes/spells.js:48-67 | The message carries an advice sentence exactly when some category flagged true is one of the ten advised names. |
| SpellRoutes.BlockedSpellGetsAdvice | backend/src/routes/spells.js:48-69 | When no category name is an inherited property, a blocking result always produces one of the five advice sentences. |
| SpellRoutes.InheritedCategoryBlocksWithoutAdvice | backend/src/routes/spells.js:32-67 | `{flagged: true, categories: {constructor: true}}` blocks, and its message has no advice sentence. |
| SpellRoutes.HandleEvaluate | backend/src/routes/spells.js:6-101 | A text-gate error gives that 400 with no service calls. A passing text is moderated first. At most two calls are made, and a response that involved the evaluator is never a 400. |
| SpellRoutes.BlankSpellRejectedWithoutCalls | backend/src/routes/spells.js:16-20 | A missing or blank spell gets 400 "Spell text is required" before any call, whatever the services would have said. |
| SpellRoutes.LengthLimit | backend/src/routes/spells.js:22-26 | For a non-blank spell, more than 500 characters gets the length 400 without calls, and 500 or fewer goes on to moderation. |
| SpellRoutes.ModerationBlocks | backend/src/routes/spells.js:30-77 | The moderation-failure body appears exactly when the result blocks. It is then a 400 with the advice message and the flagged relevant categories, and only moderation was called. |
| SpellRoutes.IrrelevantCategoriesNeverBlock | backend/src/routes/spells.js:32-48 | A result whose true categories are all irrelevant never blocks. |
| SpellRoutes.NonBlockingCategories | backend/src/routes/spells.js:30-46 | `illicit`, `illicit/violent` and `violence` never block, and an unflagged result never blocks. |
| SpellRoutes.PassEchoesRequest | backend/src/routes/spells.js:8-14 | A passing spell is evaluated once with the request fields or their defaults. The 200 body echoes them around the evaluator's value. |
| SpellRoutes.ExceptionsBecome500 | backend/src/routes/spells.js:94-100 | A throwing evaluator, or an undefined moderation result, becomes 500 "Failed to evaluate spell" with the error's message. |
| SpellRoutes.NoClientValidSpellGets500 | backend/src/routes/spells.js:94-100 | Against a service without an API key, a valid spell gets a 500 carrying the not-initialized message. |
| SpellRoutes.SuccessCarriesJudgment | backend/src/routes/spells.js:86-92 | When the evaluator's values pass the type check, every 2xx response carries a judgment-shaped evaluation. |
| Creatures.WorldById | frontend/src/data/creatures.js:288 | It gives a world with that id, or none exists. |
| Creatures.FindStage | frontend/src/data/creatures.js:292 | `find` gives a stage with that id, and is undefined exactly when no stage has it. |
| Creatures.FindStageIsFirst | frontend/src/data/creatures.js:292 | The stage `find` returns sits at a position where no earlier stage has the id. |
| Creatures.StageById | frontend/src/data/creatures.js:290-293 | The stage found lies in a world with the given id and has the given stage id. It is undefined exactly when no world has the id, or that world has no stage with the stage id. |
| Creatures.CreaturesOf | frontend/src/data/creatures.js:297 | `ids.map(id => creatures[id])`: same length, and each position holds the entry for that id. |
| Creatures.CreaturesByStage | frontend/src/data/creatures.js:295-298 | `[]` for an unknown world or stage. Otherwise the creature entries of the stage's ids, in order. |
| Creatures.LocateStage | frontend/src/data/creatures.js:301-303 | It finds a stage with the id in some world, or none is found exactly when no world has one. |
| Creatures.LocateStageIsFirst | frontend/src/data/creatures.js:301-303 | The stage found is the first match in the first world that has one: no earlier world has a stage with the id. |
| Creatures.IsStageUnlocked | frontend/src/data/creatures.js:300-308 | Defined as "the located stage's requirements are all completed", and false for an unknown id. `UnlockedIff` and `UnlockMonotone` state its meaning. |
| Creatures.UnlockedIff | frontend/src/data/creatures.js:300-308 | A stage is unlocked exactly when it exists and all its requirements are completed. No requirements means always unlocked; an unknown id is never unlocked. |
| Creatures.UnlockMonotone | frontend/src/data/creatures.js:304 | Completing more stages never locks a stage. |
| Creatures.GetAvailableStages | frontend/src/data/creatures.js:310-326 | The nested loops build exactly the world-then-stage-ordered list of unlocked stages, each tagged as in `AvailableStages`. |
| Creatures.AvailableStagesMembers | frontend/src/data/creatures.js:313-320 | An entry is listed exactly when its world is in the catalogue, its stage is in that world and unlocked, and it is tagged completed exactly when its id is completed. |
| Creatures.GetAllCreaturesInOrder | frontend/src/data/creatures.js:328-340 | The three nested loops collect the creatures world by world, stage by stage, in listed order. There is one entry per listed id. |
| Creatures.AppendWorldCreatures | frontend/src/data/creatures.js:332-336 | It appends to the list the creatures of each stage of one world, in order. |
| Creatures.AppendStageCreatures | frontend/src/data/creatures.js:333-335 | It appends to the list the creature entry of each listed id, in order. |
| ShippedCreatures.BossHealthIsSumOfPhases | frontend/src/data/creatures.js:246-281 | The Ancient Oracle is a boss, and its `maxHealth` of 300 equals the sum of its phase healths. |
| ShippedCreatures.GameCreaturesResolve | frontend/src/data/creatures.js:9-70 | Every creature id a shipped stage lists has an entry, and that entry names the same id, world and stage. |
| WorldMap.IsCreatureDefeated | frontend/src/components/WorldMap.js:14-16 | Defined as `defeatedCreatures.includes(id)`. `StageProgress` counts the stage creatures it holds for. |
| WorldMap.IsStageCompleted | frontend/src/components/WorldMap.js:18-20 | Defined as `completedStages.includes(id)`. `WorldMasteredIff`, `ClickCreature` and `LockedIffNotSelectable` state its effect. |
| WorldMap.StageProgress | frontend/src/components/WorldMap.js:22-26 | `d/n`: n is the number of stage creatures, and d is the number of them that are defeated, so d ≤ n. d = n exactly when all are defeated, and d > 0 exactly when one is. An unknown stage gives 0/0. |
| WorldMap.IsStageAvailable | frontend/src/components/WorldMap.js:28-30 | Defined as "some available stage has this id". `AvailableIffUnlocked` states its meaning. |
| WorldMap.AvailableIffUnlocked | frontend/src/components/WorldMap.js:28-30 | A stage is in the available list exactly when `isStageUnlocked` holds for it. |
| WorldMap.IsWorldUnlocked | frontend/src/components/WorldMap.js:48-49 | Defined as "the filter of available stages is non-empty". `WorldUnlockedIff` states its meaning. |
| WorldMap.WorldUnlockedIff | frontend/src/components/WorldMap.js:48-49 | A world is unlocked exactly when one of its stages is unlocked. |
| WorldMap.IsWorldMastered | frontend/src/components/WorldMap.js:47 | Defined as "the filter of completed stages keeps them all". `WorldMasteredIff` states its meaning. |
| WorldMap.WorldMasteredIff | frontend/src/components/WorldMap.js:47 | A world is mastered exactly when every one of its stages is completed. |
| WorldMap.CanSelectCreature | frontend/src/components/WorldMap.js:141 | Defined as "the stage is available or completed". `ClickCreature` and `LockedIffNotSelectable` state its effect. |
| WorldMap.ShowsLockedOverlay | frontend/src/components/WorldMap.js:140-154 | Defined as "the stage is neither available nor completed". `LockedIffNotSelectable` states its meaning. |
| WorldMap.LockedIffNotSelectable | frontend/src/components/WorldMap.js:121-157 | The locked overlay shows exactly when `isStageUnlocked` fails for the stage and it is not completed. It shows exactly when a click on its creature selects nothing. |
| WorldMap.ClickCreature | frontend/src/components/WorldMap.js:141 | A creature click selects that creature exactly when its stage is unlocked or completed. |
| WorldMap.Screen.constructor | frontend/src/components/WorldMap.js:11 | No world is selected at first. |
| WorldMap.Screen.ClickWorld | frontend/src/components/WorldMap.js:55 | Clicking an unlocked world selects it and shows its details. Clicking a locked world leaves the selection unchanged. |
| WorldMap.Screen.ShowsDetails | frontend/src/components/WorldMap.js:176-177 | Defined as "a world is selected". `ClickWorld` and `Back` state when it holds. |
| WorldMap.Screen.StageCardProgress | frontend/src/components/WorldMap.js:22-26 | The `d/n` a stage card shows: n is the number of stage creatures, and d the number of them in the screen's `defeatedCreatures` prop. |
| WorldMap.Screen.Back | frontend/src/components/WorldMap.js:99-102 | Back clears the selection, so the overview is shown. |
| ProgressTracker.TotalDamage | frontend/src/components/ProgressTracker.js:14 | The damage total of a history with non-negative damages is non-negative. |
| ProgressTracker.EffectivenessSum | frontend/src/components/ProgressTracker.js:11 | Defined as the `reduce` over the effectiveness values. `SumsDistribute` and `EffectivenessSumBounds` state its properties. |
| ProgressTracker.SumsDistribute | frontend/src/components/ProgressTracker.js:14 | The damage and effectiveness totals of a split history are the sums of the part totals. |
| ProgressTracker.EffectivenessSumBounds | frontend/src/components/ProgressTracker.js:11 | Entries in [lo, hi] give a sum in [n·lo, n·hi]. |
| ProgressTracker.JsRound | frontend/src/components/ProgressTracker.js:11 | `Math.round` gives the integer within one half of its argument, halves rounded up. |
| ProgressTracker.AverageEffectiveness | frontend/src/components/ProgressTracker.js:10-12 | 0 for an empty history. Otherwise the integer within one half of the mean. |
| ProgressTracker.AverageInIntegers | frontend/src/components/ProgressTracker.js:10-12 | For a non-empty history the rounded mean is `floor((2·sum + n) / (2·n))`. |
| ProgressTracker.AverageWithinScale | frontend/src/components/ProgressTracker.js:10-12 | Effectiveness values in 1..10 give an average in 1..10. |
| ProgressTracker.HighestDamage | frontend/src/components/ProgressTracker.js:15 | At least 0 and at least every entry's damage. It is one of the damages unless it is 0. |
| ProgressTracker.HighestAtMostTotal | frontend/src/components/ProgressTracker.js:14-15 | With non-negative damages the highest hit is at most the total damage. |
| ProgressTracker.StatsOf | frontend/src/components/ProgressTracker.js:9-15 | Defined as the defeated count, the total, the spell count, the rounded average and the highest hit. `AverageEffectiveness` and `HighestDamage` state what the last two mean. |
| ProgressTracker.Earns | frontend/src/components/ProgressTracker.js:20-25 | Defined as the six thresholds: at least 1 defeated, at least half the total, all of the total, 10 spells, average 7, and a 30-damage hit. `Achievements` proves the list holds exactly the badges it accepts. |
| ProgressTracker.FirstPushesExact | frontend/src/components/ProgressTracker.js:19-25 | After the first k of the six conditional pushes, the list holds exactly the earned badges of rank below k, strictly in rank order. |
| ProgressTracker.Achievements | frontend/src/components/ProgressTracker.js:19-25 | A badge is listed exactly when its threshold holds. The list is strictly in the fixed order, so there are no duplicates. |
| ProgressTracker.HalfWayInIntegers | frontend/src/components/ProgressTracker.js:21 | `d >= total / 2` holds exactly when `2·d >= total`. |
| ProgressTracker.MasterImpliesHalfWay | frontend/src/components/ProgressTracker.js:21-22 | For a non-negative total, Master Wizard implies Half Way. |
| ProgressTracker.NextMilestone | frontend/src/components/ProgressTracker.js:84-88 | The panel shows exactly when d < total. The remaining count is positive and adds up with d to total. The plural `s` appears exactly when more than one remains. |
| ProgressTracker.MilestoneUntilMaster | frontend/src/components/ProgressTracker.js:84 | The milestone panel disappears exactly when Master Wizard is earned. |
| SpellInput.Submission | frontend/src/components/SpellInput.js:29-30 | A submit casts exactly when the text is not blank and the input is neither loading nor disabled, and it casts the trimmed text. |
| SpellInput.CastButtonDisabled | frontend/src/components/SpellInput.js:57 | Defined as "blank text, loading, or disabled". `ButtonEnabledIffSubmits` states its meaning. |
| SpellInput.ButtonEnabledIffSubmits | frontend/src/components/SpellInput.js:57 | The cast button is enabled exactly when a submit would cast. |
| SpellInput.SubmittedSpellPassesGate | frontend/src/components/SpellInput.js:10-20 | A spell cast from the capped box always passes the route's blank and length checks. |
| SpellInput.InputBox.constructor | frontend/src/components/SpellInput.js:4-5 | The box starts empty with count 0. |
| SpellInput.InputBox.HandleInputChange | frontend/src/components/SpellInput.js:8-14 | Text of 500 characters or fewer replaces the box and its count. Longer text changes nothing. The count stays equal to the length, at most 500. |
| SpellInput.InputBox.HandleSubmit | frontend/src/components/SpellInput.js:27-34 | It casts as `Submission` says. After a cast the box is empty with count 0, and otherwise nothing changes. |
| SpellInput.InputBox.HandleKeyDown | frontend/src/components/SpellInput.js:16-25 | Only Enter without Shift is intercepted, and it then submits as the form does. Other keys never cast and change nothing. |
| BattleResult.ResultIcon | frontend/src/components/BattleResult.js:32-38 | Trophy exactly on victory. Otherwise: collision for success with damage > 70, swords for success with 30 < damage ≤ 70, sparkles for other positive damage, and dash for damage ≤ 0. |
| BattleResult.ResultText | frontend/src/components/BattleResult.js:40-46 | The same tiers as the icon, with the headlines "Victory!", "Critical Hit!", "Direct Hit!", "Glancing Blow" and "Spell Fizzled". |
| BattleResult.ResultClass | frontend/src/components/BattleResult.js:48-54 | Victory first. Then critical for success with damage > 50, hit for other successes, weak for failed positive damage, and miss otherwise. |
| BattleResult.IconAndTextAgree | frontend/src/components/BattleResult.js:32-46 | The icon and the headline always name the same tier. |
| BattleResult.ClassAgainstIcon | frontend/src/components/BattleResult.js:32-54 | A critical icon implies the critical class, and swords imply critical or hit. But a success with 1–30 damage shows the weak icon with the hit class. |
| BattleResult.Render | frontend/src/components/BattleResult.js:7-89 | A moderated result renders the blocked view with its feedback. Otherwise the scored view shows the three tables, the effectiveness out of 10, the damage and the feedback, with tips exactly when effectiveness ≤ 3. |
| BattleResult.ShowsTips | frontend/src/components/BattleResult.js:79-80 | Defined as "effectiveness at most 3". `Render` states that the scored view shows the tips exactly then. |
| BattleResult.ModeratedIgnoresScores | frontend/src/components/BattleResult.js:7-30 | Two moderated results with the same feedback render the same whatever the scores and the game state. |
| BattleResult.VictoryFirst | frontend/src/components/BattleResult.js:33-49 | Victory takes precedence in all three tables. |
| GameInterface.Judged | frontend/src/components/GameInterface.js:32-40 | A judgment is read only from an ok reply with an evaluation. A network error or a non-ok status never yields one. An ok reply with an evaluation yields exactly the typed fields of that evaluation. |
| GameInterface.ApplyDamage | frontend/src/components/GameInterface.js:41 | The new health is never negative. It is 0 exactly when damage ≥ health, otherwise health − damage, and never above the old health for a non-negative hit. |
| GameInterface.NextState | frontend/src/components/GameInterface.js:49-54 | Health ≤ 0 gives victory. A surviving zero-damage spell with effectiveness ≤ 3 gives ready. Otherwise the state is unchanged. |
| GameInterface.HealthAfterIsRemaining | frontend/src/components/GameInterface.js:41-46 | Over a series of non-negative hits, the health is the starting health minus the total damage, floored at 0. |
| GameInterface.Game.constructor | frontend/src/components/GameInterface.js:7-13 | The game starts with the Fire Dragon at full health (100), ready, with no result and not loading. |
| GameInterface.Game.ResultCard | frontend/src/components/GameInterface.js:119-124 | The result card is rendered exactly while a result is stored. |
| GameInterface.Game.BeginCast | frontend/src/components/GameInterface.js:15-30 | Loading starts and the result is cleared, with health and state kept. The request names the spell and the creature's name and weakness. |
| GameInterface.Game.FinishCast | frontend/src/components/GameInterface.js:32-68 | A judged reply stores its result, applies `max(0, health − damage)` and steps the state by `NextState`. Any failure stores the fixed no-damage result and keeps health and state. Loading ends on every path. |
| GameInterface.Game.HandleSpellCast | frontend/src/components/GameInterface.js:15-69 | The cast as one step: the request it sends and the state after the reply, as in `BeginCast` and `FinishCast`. |
| GameInterface.Game.ResetGame | frontend/src/components/GameInterface.js:71-78 | Reset gives full health, no result and ready. |
| GameInterface.RejectedReplyShowsFailure | frontend/src/components/GameInterface.js:32-34 | No non-ok reply is ever judged, so it ends as the failure result. |
| GameInterface.BlockedSpellShowsFailure | frontend/src/components/GameInterface.js:32-34 | The route's reply to a blocked spell ends as the failure result in the browser. |
| GameInterface.Game.SpellInputDisabled | frontend/src/components/GameInterface.js:133 | Defined as "the game state is victory". `VictoryBlocksCasting` states its effect. |
| GameInterface.VictoryBlocksCasting | frontend/src/components/GameInterface.js:133 | In victory the input is disabled, so no spell can be cast. |

## Left out

- Network I/O is not modelled: the chat-completion and moderation calls, and the browser's `fetch`. Their outcomes are inputs. Timeouts, retries and API errors are not modelled beyond "the call failed".
- The prompt text and model parameters sent to the judge (backend/src/services/openaiService.js:21-57) are not modelled. They do not affect the post-processing.
- OpenAIService.Service.ModerateContent: `ModerationFailed` also stands for a reply without a `results` array. `response.results[0]` then throws inside the `try`, and the catch gives the same `{flagged: false, categories: {}}`.
- Seqs.Filter: does not state that the kept elements stay in their input order. Every caller (frontend/src/components/WorldMap.js:24,47,48) reads only the length.
- Console logging throughout is not modelled.
- `JSON.parse` is a parameter, so the JSON grammar is not modelled. Objects are maps, so a repeated key keeps one value.
- JSON numbers are integers. Fractional numbers, `NaN` and floating-point rounding in `Math.random() * n`, `Math.round` and the average are not modelled.
- String length counts characters. JavaScript's `length` counts UTF-16 code units, so a spell with characters outside the Basic Multilingual Plane reaches the 500 cap sooner in the source.
- SpellRoutes.HandleEvaluate: request fields have the types the client sends. A non-string `spell`, which would make `trim` throw a 500, is not modelled.
- Moderation categories are a sequence of (name, flag) pairs in key order. The model does not exclude a repeated name, which a JavaScript object cannot have.
- GameInterface.Game.FinishCast: requires that an ok reply carrying an evaluation has the four judgment fields, which `SpellRoutes.SuccessCarriesJudgment` guarantees for this backend. The arithmetic on a malformed evaluation (`undefined` damage giving `NaN` health) is not modelled.
- GameInterface.Game.HandleSpellCast: same requirement as `FinishCast`, for the same reason.
- SpellInput.InputBox.HandleInputChange: takes neither `isLoading` nor `disabled`. The textarea is `disabled={isLoading || disabled}` (frontend/src/components/SpellInput.js:47), so no change event arrives in those states.
- Async interleaving and the stale `currentCreature` closure in `handleSpellCast` are not modelled. A cast is one sequential step, split at the `fetch` into `BeginCast` and `FinishCast`.
- `getCreatureById` (frontend/src/data/creatures.js:285) is a single map lookup, used directly as `cat.creatures[id]`.
- Of the shipped catalogue, only facts about creature resolution and the boss's health are proved. Facts such as "only the first stage starts unlocked" are not.
- Rendering is not modelled: JSX markup, emoji decorations other than the result icons, the decimal "d/n" text, `progressPercentage`, health-bar width and colour (frontend/src/components/GameInterface.js:87-92), and the score display.
- The components CreatureDisplay, SpellHistory, StoryModal, VictoryModal and SpellTips are display copy and are not part of this model.
- The HTTP bootstrap in backend/src/server.js (helmet, CORS, body limit, rate limiter) is not part of this model.
- SpellRoutes.BlockedSpellGetsAdvice: holds only when no category name is an inherited `Object.prototype` property. The moderation API sends no such names. `InheritedCategoryBlocksWithoutAdvice` shows the other case.
- Default parameters are not modelled separately. `totalCreatures = 4` (frontend/src/components/ProgressTracker.js:7) and `completedStages = []` (frontend/src/data/creatures.js:300,310) are ordinary arguments; calling with the default is calling with that value.
- Healing classification, boss phases, counter-attacks, player health, scoring, the ten-entry history cap and persistence are not modelled. They do not exist in the modelled source.
