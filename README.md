# TerraTüftler quiz core in Dafny

TerraTüftler is a geography quiz. Players see an image, pick one of several
answers and collect points on a leaderboard. An admin panel in the browser
edits the question catalogue through an Express server. The catalogue is one
JSON document (`quizData.json`) with up to three category maps:

- `questions`: the unified map.
- `image-based` and `time-limited`: the two legacy quiz modes. Time-limited
  quizzes read their questions from `image-based`.

Every map also carries a synthetic category `"all"`.

This project models the core of that system in Dafny and proves what it
promises. There is one module per source file, plus one shared module.

- `QuizData` (quiz_data.dfy): the values shared by every file.
  - A question record.
  - A JavaScript object with its key order (`OrderedMap`).
  - The quiz document.
  - The "all" key of a question.
  - The structural match used by edits.
  - The case-insensitive test for the name "all".
- `Server` (server.js):
  - the rebuild of "all" (`updateAllCategory`) as a specification function, with its laws;
  - the five editing endpoints as methods of a `Store` class, proved against functions on the document;
  - the duplicate-request guard;
  - image file names and country codes.
- `Leaderboard` (src/js/leaderboardData.js):
  - merging a bucket of entries, dropping duplicates and keeping the best fifty;
  - the ranking order, proved to be a strict weak order;
  - saving an entry and clearing a category or bucket;
  - the metadata counter and the statistics view.
- `Quiz` (src/js/quiz.js): the quiz session as a state machine.
  - Each handler (start, select, check, next, previous, finish) is a function on a snapshot of `quizState`.
  - The `QuizState` class methods are proved against those functions.
- `App` (src/js/app.js):
  - the in-place Fisher–Yates shuffle on an `array`;
  - trimming and storing the player name;
  - the cards of the learning section.
- `Admin` (src/js/admin.js):
  - the checks of the add-category and add-question forms;
  - the structure check run on an imported file;
  - migration of the legacy maps into the unified map;
  - the statistics counters;
  - the category info shown before a delete.

Some behaviours of the code as written are stated as lemmas:

- When the scoreboard is hidden, finishing a quiz always resets the session (`Quiz.Finish`).
- A question locked by moving past it cannot be answered or scored again (`Quiz.LockedQuestionIsFrozen`).
- The score can exceed the number of questions, because a question can be re-submitted after going back (`Quiz.ScoreCanExceedQuestionCount`).
- The add-category form accepts the name `all`, and two different questions can share a key in the "all" rebuild or the migration (`QuizData.AllKeyCollides`, `Admin.MigrationKeyCollides`).
- The legacy image-based and time-limited lists mirror the unified list under add-question, add-category and delete-category. Under edit-question and delete-question they keep mirroring it only while no earlier question of the category has the same answer, image and options; otherwise the wrong copy is changed (`Server.DeleteCanBreakSiblingsAgree`, `Server.EditCanBreakSiblingsAgree`).
- An imported file is never checked under `questions` or any other key (`Admin.OtherKeysIgnored`).
- A time-limited bucket and an untimed category can share a localStorage backup key (`Leaderboard.StorageKeysCanCollide`).

## Model

| member | source | states |
|---|---|---|
| QuizData.OrderedMap.Put | server.js:412-413 | assigning a key keeps an existing key in its place and appends a new one last; the entries become `entries[k := v]`; validity is kept |
| QuizData.OrderedMap.Remove | server.js:727 | `delete` drops the key from the entries and from the key order, and keeps every other key |
| QuizData.PutTwice | server.js:258-270 | writing the same key twice is writing it once with the second value |
| QuizData.RemoveAbsent | server.js:733-735 | deleting a key the object does not hold changes nothing |
| QuizData.DataSourceFor | src/js/admin.js:792-794 | time-limited reads the image-based map; every other mode reads its own |
| QuizData.Lower | server.js:348 | `toLowerCase` keeps the length and lowers each character |
| QuizData.IsAllCategoryExactly | server.js:348-352 | the "all" rejection accepts exactly the four-letter name "all" in any letter case |
| QuizData.OrElse | server.js:303 | `v \|\| fallback`: the value when present and non-empty, else the fallback |
| QuizData.AllKeyCollides | server.js:303 | two questions with different (image, answer) pairs can have the same key `image_answer` |
| QuizData.FirstMatch | server.js:557-561 | `findIndex` gives the first question that matches on answer, image and options; None exactly when none matches |
| Server.DedupByKeyProperties | server.js:300-309 | the deduplicated list has the same key set as its input, no key twice, and only questions from the input |
| Server.DedupKeepsFirstOccurrences | server.js:303-307 | "all" keeps the first question of each key, in the order of first occurrence |
| Server.AllOfIgnoresAll | server.js:301 | whatever "all" holds does not affect its own recomputation |
| Server.PoolCovers | server.js:300-309 | every question of a real category is in the collected pool |
| Server.PoolDrawsFromCategories | server.js:300-309 | every pooled question comes from a real category |
| Server.AllCategoryContents | server.js:280-320 | "all" has no duplicate keys, represents every key of every real category, and holds only questions of real categories |
| Server.SyncedIsInSyncAndIdempotent | server.js:280-320 | after the rebuild the three "all" lists are equal to the unified result; rebuilding twice is rebuilding once |
| Server.SyncedTouchesOnlyAll | server.js:280-320 | the rebuild changes no real category in any map |
| Server.Appended | server.js:407-418 | `map[cat].push(q)` creates a missing list, appends at the end, and leaves every other category alone |
| Server.ReplaceFirstMatch | server.js:551-570 | a sibling map gets only its first structural match replaced; with no match it is unchanged |
| Server.RemoveAt | server.js:641 | `splice(i, 1)` removes exactly position i: the prefix is kept, the suffix shifts down, and the multiset loses that one question |
| Server.RemoveFirstMatch | server.js:645-663 | a sibling map loses at most its first structural match; with no match it is unchanged |
| Server.Ensured | server.js:258-270 | `if (!map[name]) map[name] = []` creates the list only when absent and never replaces one |
| Server.WithCategoryAddedStep | server.js:258-270 | the creation loop over the modes, one mode at a time |
| Server.AddAppendsToAllThreeMaps | server.js:393-422 | add-question appends the question to `cat` in all three maps, keeps the document in sync and touches no other category |
| Server.EditReplacesOneQuestion | server.js:547-573 | edit-question replaces exactly `questions[cat][index]`; each sibling keeps its length and is unchanged without a match |
| Server.EditKeepsOtherCategories | server.js:547-573 | edit-question leaves every other real category of every map as it was |
| Server.DeleteRemovesOneQuestion | server.js:641-666 | delete-question removes exactly the question at `index` from `questions[cat]` and keeps the maps in sync |
| Server.DeleteKeepsOtherCategories | server.js:641-666 | delete-question leaves every other real category as it was |
| Server.DeleteShrinksSiblingsByAtMostOne | server.js:645-663 | each sibling list shrinks by zero or one and keeps only questions it had |
| Server.DeleteCategoryRemovesEverywhere | server.js:702-738 | after delete-category the name is in none of the three maps, and "all" is rebuilt |
| Server.DeleteCategoryKeepsOthers | server.js:702-738 | delete-category leaves every other real category as it was |
| Server.AddCategoryOnlyCreates | server.js:247-277 | add-category never overwrites a list and never touches the time-limited map; it creates the name in image-based exactly when a mode is selected |
| Server.FirstMatchOfOwn | server.js:650-654 | `findIndex` on a question of the list itself returns its own index exactly when no earlier question matches it |
| Server.AddKeepsSiblingsAgree | server.js:400-418 | add-question keeps the legacy lists of every real category equal to the unified list |
| Server.AddCategoryKeepsSiblingsAgree | server.js:247-277 | add-category keeps the legacy lists of every real category equal to the unified list |
| Server.DeleteCategoryKeepsSiblingsAgree | server.js:702-738 | delete-category keeps the legacy lists of every real category equal to the unified list |
| Server.DeleteKeepsSiblingsAgree | server.js:640-663 | delete-question keeps the legacy lists equal to the unified list when no earlier question of the category matches the deleted one |
| Server.DeleteMatchesMirrored | server.js:645-663 | under that condition the first-match delete of the siblings is the same-index delete |
| Server.DeleteCanBreakSiblingsAgree | server.js:645-663 | with two matching questions, deleting the second leaves the unified list holding the first and each sibling holding the second |
| Server.RemoveMirrored | server.js:651-663 | corrected sibling delete: a sibling equal to the unified list loses the same index; any other sibling loses its first match |
| Server.MirroredDeleteKeepsSiblingsAgree | server.js:640-663 | the corrected delete keeps the legacy lists equal to the unified list for every deleted question |
| Server.EditKeepsSiblingsAgree | server.js:546-568 | edit-question keeps the legacy lists equal to the unified list when no earlier question of the category matches the edited one |
| Server.EditMatchesMirrored | server.js:552-568 | under that condition the first-match edit of the siblings is the same-index edit |
| Server.EditCanBreakSiblingsAgree | server.js:552-568 | with two matching questions, editing the second rewrites the first in each sibling |
| Server.ReplaceMirrored | server.js:552-568 | corrected sibling edit: a sibling equal to the unified list is edited at the same index; any other sibling has its first match replaced |
| Server.MirroredEditKeepsSiblingsAgree | server.js:546-568 | the corrected edit keeps the legacy lists equal to the unified list for every edited question |
| Server.Split | server.js:73-77 | `split` gives at least one part, and no part contains the separator |
| Server.JoinSplit | server.js:73-77 | joining the parts of a split with the same separator restores the string |
| Server.FolderNameLength | server.js:71-78 | the folder name is as long as the category name and contains no underscore |
| Server.Extension | server.js:84 | the extension taken after the last dot contains no dot |
| Server.Decimal | server.js:82 | the decimal text of a timestamp is never empty |
| Server.ImageFilenameIgnoresClockWithCountry | server.js:86-92 | with a country code, the file name depends neither on the clock nor on the random suffix |
| Server.ImageFilenameKeepsExtension | server.js:81-93 | every generated file name ends with a dot and the lower-cased extension |
| Server.ExtractCountryCode | server.js:774-822 | a code is found exactly for the country names in the table, and it is that name's code |
| Server.CollectAll | server.js:298-311 | the collection loop yields exactly the deduplicated pool |
| Server.CollectCategory | server.js:302-308 | the inner loop extends the deduplicated list and keeps the seen set equal to its keys |
| Server.DeleteFromMap | server.js:706-728 | deletes the name from one map and counts the questions that went with it |
| Server.DropCategory | server.js:702-735 | deletes from the legacy maps that hold the name, counts their questions, lists the affected modes, then deletes from the unified map |
| Server.Store.constructor | server.js:96 | start-up loads the document, rebuilds "all", and starts with no processed request ids |
| Server.Store.UpdateAllCategory | server.js:280-320 | the stored document becomes the synced document; the request ids are unchanged |
| Server.Store.Commit | server.js:422-442 | on a successful save the edited maps are installed and synced; on a failed save the document read at the start is kept |
| Server.Store.AddQuestion | server.js:323-446 | status cases: Conflict exactly for a repeated id; 400 for a missing field, the "all" category or a malformed payload; 500 exactly when the image or file write fails. Success appends everywhere. Failure changes nothing. The id set follows the keep/drop rule |
| Server.Store.InsertQuestion | server.js:380-431 | succeeds exactly when the image and file writes succeed, and then stores the question with its image path |
| Server.Store.EditQuestion | server.js:449-599 | status cases: Conflict for a repeated id, 400 for missing or invalid input, 404 for an unknown category or index. Success replaces the question; failure changes nothing |
| Server.Store.ReplaceQuestion | server.js:520-588 | succeeds exactly when the writes succeed, and then installs the edited document, keeping the old image when none was uploaded |
| Server.Store.DeleteQuestion | server.js:602-682 | status cases: 400 for missing input, 404 for an unknown category or index, 500 exactly on a failed save. Success removes the question |
| Server.Store.DeleteCategory | server.js:685-771 | status cases: 400 for an empty name, 500 exactly on a failed save. Success removes the name everywhere and reports the deleted count |
| Server.Store.AddCategory | server.js:247-277 | status cases: 400 for a missing name or mode list, 500 exactly on a failed save. Success creates the lists |
| Leaderboard.Normalize | src/js/leaderboardData.js:161-170 | keeps name, scores, mode, category and time limit; the streak defaults to 0; the timestamp falls back to `lastPlayed`, then to the clock |
| Leaderboard.AccuracyByCrossMultiplication | src/js/leaderboardData.js:180-184 | comparing accuracies is comparing the cross products of answers and questions |
| Leaderboard.BeforeIsStrictWeakOrder | src/js/leaderboardData.js:176-189 | the comparator is irreflexive and transitive, and incomparability is transitive |
| Leaderboard.Insert | src/js/leaderboardData.js:176 | inserting adds exactly one occurrence of the entry |
| Leaderboard.SortBy | src/js/leaderboardData.js:176-189 | the stable sort is a permutation |
| Leaderboard.SortBySorted | src/js/leaderboardData.js:176-189 | the sorted list has no later entry ranked strictly before an earlier one |
| Leaderboard.Take | src/js/leaderboardData.js:191 | `slice(0, n)` is the prefix of length `min(n, len)` |
| Leaderboard.TakeOfSorted | src/js/leaderboardData.js:191 | the cut of a sorted list is sorted and drawn from it, and nothing left out ranks before anything kept |
| Leaderboard.MergeRanksAndCuts | src/js/leaderboardData.js:147-192 | the merge holds at most fifty of the gathered entries, ranked, with no left-out entry beating a kept one |
| Leaderboard.AbsorbKeepsExisting | src/js/leaderboardData.js:148-173 | existing entries stay in front unchanged; at most one entry is added per new one |
| Leaderboard.AbsorbAddsOnlyFresh | src/js/leaderboardData.js:150-173 | every added entry is the normalised form of a new entry that nothing before it duplicates |
| Leaderboard.AbsorbAccountsForEveryNew | src/js/leaderboardData.js:150-173 | every new entry was either added (normalised) or has a duplicate among the gathered entries |
| Leaderboard.ResubmissionIsAbsorbed | src/js/leaderboardData.js:152-157 | submitting entries already on the list, with their timestamps, changes nothing |
| Leaderboard.FindDuplicate | src/js/leaderboardData.js:152-157 | the `some` search finds a duplicate exactly when one exists |
| Leaderboard.MergeLeaderboardData | src/js/leaderboardData.js:147-192 | the push loop, sort and cut compute the merge |
| Leaderboard.PutBucketTargetsOne | src/js/leaderboardData.js:238-248 | writing a bucket changes what that bucket reads, and no other bucket |
| Leaderboard.PutTimedBucketReads | src/js/leaderboardData.js:238-242 | a time-limited write is read back under its category and time-limit key |
| Leaderboard.PutFlatBucketReads | src/js/leaderboardData.js:243-248 | a write to any other mode is read back under its category |
| Leaderboard.ShapedAfterPut | src/js/leaderboardData.js:238-248 | writing a bucket keeps the nesting of every mode |
| Leaderboard.ClearEmptiesOnlyTarget | src/js/leaderboardData.js:434-451 | a clear keeps every key and the shape, empties exactly the targeted buckets where they exist, and changes nothing else |
| Leaderboard.EveryBucketIsCounted | src/js/leaderboardData.js:263-289 | every entry `getLeaderboard` can return is among the entries the counters count |
| Leaderboard.CountTable | src/js/leaderboardData.js:277-279 | the category loop counts every entry of a table |
| Leaderboard.CountTimed | src/js/leaderboardData.js:271-275 | the nested loops count every entry of every time limit |
| Leaderboard.CountAll | src/js/leaderboardData.js:263-282 | `totalEntries` is the number of entries in all buckets |
| Leaderboard.NamesAreThePlayers | src/js/leaderboardData.js:390-391 | the player set holds exactly the names that occur |
| Leaderboard.TabulateMaps | src/js/leaderboardData.js:383-404 | the counter map keeps the category keys in order and maps each to its count |
| Leaderboard.TopPerformersAreTheBest | src/js/leaderboardData.js:417-427 | the top performers are at most ten entries, ranked, and no unlisted entry beats a listed one |
| Leaderboard.CategoryStatsPerMode | src/js/leaderboardData.js:377-380 | the category counters hold one map per mode, in the document's order |
| Leaderboard.FlatCategoryCount | src/js/leaderboardData.js:400-403 | in an untimed mode each counter is the length of its bucket |
| Leaderboard.TimedCategoryCount | src/js/leaderboardData.js:381-388 | in the time-limited mode each counter is the total over all time limits |
| Leaderboard.GatherList | src/js/leaderboardData.js:387-396 | the innermost loop appends the list, records its names and counts it |
| Leaderboard.GatherFlat | src/js/leaderboardData.js:400-412 | the loop over an untimed mode gathers its entries and builds its counters |
| Leaderboard.GatherTimed | src/js/leaderboardData.js:383-398 | the loop over the time-limited mode gathers its entries and builds its counters |
| Leaderboard.StorageKeySeparatesTimeLimits | src/js/leaderboardData.js:80-87 | within one time-limited category, different truthy time limits give different backup keys |
| Leaderboard.StorageKeysCanCollide | src/js/leaderboardData.js:80-87 | a timed bucket and an untimed category can share a backup key |
| Leaderboard.LeaderboardStore.constructor | src/js/leaderboardData.js:2 | starts with no modes and zero counters |
| Leaderboard.LeaderboardStore.UpdateMetadata | src/js/leaderboardData.js:263-289 | recounts every entry and stamps the clock, leaving the buckets alone |
| Leaderboard.LeaderboardStore.SaveEntry | src/js/leaderboardData.js:211-260 | saves exactly when name, mode and category are present and the score is non-negative. The target bucket becomes the merge of its entries plus the new one. The counters are recomputed |
| Leaderboard.LeaderboardStore.ClearCategory | src/js/leaderboardData.js:434-451 | an unknown mode changes nothing; otherwise the buckets become the cleared buckets and the counters are recomputed |
| Leaderboard.LeaderboardStore.GetLeaderboardStatistics | src/js/leaderboardData.js:371-431 | reports the statistics of the current buckets |
| Quiz.Reset | src/js/quiz.js:82-117 | an empty, well-formed session with zero score that keeps the time limit |
| Quiz.Max | src/js/quiz.js:549 | `Math.max` is an upper bound equal to one argument |
| Quiz.TotalQuestionsInCategory | src/js/quiz.js:815-833 | the unified list's length when the category is there; otherwise the legacy list of the mode's data source (image-based for time-limited), or 0 when that map or category is missing; equal to the length of the list a quiz would use |
| Quiz.ModeDisplayName | src/js/quiz.js:948-954 | German names for the two modes, the key itself otherwise |
| Quiz.Start | src/js/quiz.js:182-247 | a quiz starts exactly when its list is non-empty; then it holds a shuffled permutation of that list with open questions and no answers; otherwise it is empty |
| Quiz.Select | src/js/quiz.js:416-432 | the option is recorded exactly when the question is open and the submit button shown; locks and score are kept |
| Quiz.Check | src/js/quiz.js:511-585 | nothing happens past the two early returns. A submission marks the question answered, hides the button and adds one point exactly for a correct answer. No lock is undone, and the locked current question keeps the submit button hidden |
| Quiz.LockedQuestionIsFrozen | src/js/quiz.js:304-312 | on a well-formed session whose current question is locked, selecting changes nothing and checking leaves the score, both streaks and the recorded answers unchanged |
| Quiz.Finish | src/js/quiz.js:638-683 | sends an entry exactly for a named, non-anonymous player, with score, streak and count; with the scoreboard hidden the session is reset |
| Quiz.Load | src/js/quiz.js:250-413 | past the end or after the end of the quiz it finishes; otherwise it shows the stored answer |
| Quiz.Next | src/js/quiz.js:588-611 | the current question is locked and stays locked; the quiz advances by one or finishes at the last question |
| Quiz.Previous | src/js/quiz.js:614-635 | steps back and restores the stored answer; does nothing at the first question; never unlocks |
| Quiz.ScoreCanExceedQuestionCount | src/js/quiz.js:511-611 | a run that answers, goes back and answers again scores more points than there are questions |
| Quiz.QuizState.constructor | src/js/quiz.js:10-27 | the initial state: no quiz, a one-second time limit |
| Quiz.QuizState.ResetQuizState | src/js/quiz.js:82-117 | the state becomes the reset session |
| Quiz.QuizState.StartQuiz | src/js/quiz.js:182-247 | the state and the result are those of the start function |
| Quiz.QuizState.HandleAnswerSelection | src/js/quiz.js:416-432 | the state becomes the selection function's result |
| Quiz.QuizState.CheckAnswer | src/js/quiz.js:511-585 | the state becomes the check function's result |
| Quiz.QuizState.FinishQuiz | src/js/quiz.js:638-683 | the state and the submission are those of the finish function |
| Quiz.QuizState.LoadQuestion | src/js/quiz.js:250-413 | the state and the submission are those of the load function |
| Quiz.QuizState.NextQuestion | src/js/quiz.js:588-611 | the state and the submission are those of the next function |
| Quiz.QuizState.PreviousQuestion | src/js/quiz.js:614-635 | the state and the submission are those of the previous function |
| App.ShufflePermutes | src/js/app.js:87-93 | whatever the random choices, the shuffle is a permutation of its input |
| App.ShuffleDownKeepsAbove | src/js/app.js:88-91 | the swaps up to position i never touch a cell above i |
| App.ShuffleSettlesLast | src/js/app.js:88-91 | the last cell receives the element at the first random choice |
| App.ShuffleDownIdentity | src/js/app.js:88-91 | choosing j = i at every step leaves the order unchanged |
| App.ShuffleArray | src/js/app.js:87-93 | the array becomes the shuffle of its old contents for the given choices, a permutation |
| App.TrimStart | src/js/app.js:346 | a suffix of the input, with only white space removed and a non-white first character |
| App.TrimEnd | src/js/app.js:346 | a prefix of the input, with only white space removed and a non-white last character |
| App.Trim | src/js/app.js:346 | the result is no longer than the input and has no white space at either end |
| App.TrimFixes | src/js/app.js:386 | a string with no white space at either end is its own trimmed form |
| App.TrimIdempotent | src/js/app.js:386 | trimming twice is trimming once |
| App.Utf16Length | src/js/app.js:347 | `.length` counts between one and two code units per character |
| App.AnonymousIsWellFormed | src/js/app.js:9 | the default name is a name the handlers would store |
| App.AppState.ConfirmPlayerNameChange | src/js/app.js:343-365 | stores a trimmed name of 1 to 20 units, resets an empty one to "Anonym", keeps the old name for a longer one |
| App.AppState.SavePlayerName | src/js/app.js:384-396 | stores a trimmed name of 1 to 20 units, else keeps the old name |
| App.ItemsOfSelects | src/js/app.js:523-532 | every card comes from a question of the list that has an image, tagged with its category and origin |
| App.ItemsOfComplete | src/js/app.js:523-532 | every question with an image becomes a card |
| App.AllItemsSelect | src/js/app.js:519-535 | the cards for "all" come from real categories other than "all" |
| App.AllItemsComplete | src/js/app.js:519-535 | no question with an image in a real category is left out |
| App.DedupCovers | src/js/app.js:564-574 | the image filter keeps only input cards and every image of the input |
| App.DedupDistinct | src/js/app.js:564-574 | no two kept cards share an image |
| App.DedupKeepsFirst | src/js/app.js:564-574 | a kept card occurs no later than any card with the same image |
| App.LearningContentSelects | src/js/app.js:515-597 | every card has an image and comes from the selected map and categories |
| App.UnifiedContentComplete | src/js/app.js:515-550 | the unified path leaves out no question with an image from the selected categories |
| App.LegacyContentDedups | src/js/app.js:552-597 | the legacy path shows one card per image and covers every image |
| App.LegacyContentKeepsFirst | src/js/app.js:552-597 | the legacy path keeps the first card of each image |
| App.PushItems | src/js/app.js:523-532 | the push loop appends exactly the cards of the list |
| App.PushUnseen | src/js/app.js:564-574 | the push loop with `seenImages` extends the deduplicated cards and keeps the seen set equal to their images |
| App.CollectAllUnified | src/js/app.js:519-535 | the loop over the unified categories yields their cards |
| App.CollectAllLegacy | src/js/app.js:558-579 | the loop over the image-based categories yields their deduplicated cards |
| App.CollectLearningContent | src/js/app.js:515-597 | the cards shown for a category are the learning-content function's |
| Admin.AllCategoryChars | src/js/admin.js:843-846 | true exactly when every character is in `[a-z0-9_]` |
| Admin.IsValidCategoryName | src/js/admin.js:843-846 | true exactly for a non-empty name over `[a-z0-9_]` |
| Admin.ValidNameIsLowerCase | src/js/admin.js:843-846 | a valid name is lower case, so it is "all" in any case exactly when it is "all" |
| Admin.ValidNameIsTrimmed | src/js/admin.js:767 | a valid name has nothing for `trim` to remove |
| Admin.SelectedModes | src/js/admin.js:769-772 | holds exactly the checked modes, and is empty exactly when none is checked |
| Admin.ExistingModes | src/js/admin.js:790-799 | exactly the selected modes whose data source already has the category |
| Admin.AddCategoryOutcomes | src/js/admin.js:766-841 | messages in order: missing name, invalid name, no mode, conflict (exactly when image-based has the name). On success the name gets an empty list in image-based; otherwise the document is unchanged |
| Admin.ExistingModesOfImageBased | src/js/admin.js:790-799 | both modes read image-based: either every selected mode conflicts or none does |
| Admin.CreateCategoryInImageBased | src/js/admin.js:807-816 | every mode writes the same empty list to image-based |
| Admin.AddedCategoryIsEmpty | src/js/admin.js:807-816 | an added name is in image-based with no questions, and every other entry is kept |
| Admin.FindExistingModes | src/js/admin.js:790-799 | the conflict loop computes the existing modes |
| Admin.CreateInSources | src/js/admin.js:807-816 | the creation loop computes the created document |
| Admin.OptionsOfMeans | src/js/admin.js:869-874 | the kept options are non-empty and trimmed, and every input that trims to something is kept |
| Admin.Field | src/js/admin.js:949-951 | an optional field is set exactly for a non-empty text |
| Admin.CheckQuestion | src/js/admin.js:904-956 | each message fires under exactly its condition, in order. An accepted question carries the trimmed options, the answer and the optional fields |
| Admin.QuestionVerdict | src/js/admin.js:1228-1231 | a missing or null question throws; a passing one is an object with at least two options that include its correct answer |
| Admin.Members | src/js/admin.js:1220-1228 | `for...in` visits an object's values in key order and an array's items |
| Admin.ListVerdictPasses | src/js/admin.js:1228-1231 | a category passes exactly when each of its questions passes |
| Admin.CategoriesVerdictPasses | src/js/admin.js:1225-1232 | a mode passes exactly when each of its values is an array of passing questions |
| Admin.ModesVerdictPasses | src/js/admin.js:1220-1233 | an object passes exactly when the value under each legacy-mode key passes |
| Admin.ModesVerdictReadsModesOnly | src/js/admin.js:1221 | two objects that agree on the legacy modes get the same verdict |
| Admin.OtherKeysIgnored | src/js/admin.js:1221 | adding any other top-level key does not change the verdict |
| Admin.QuestionJson | src/js/admin.js:943-956 | a stored question has its options as an array of strings and its correct answer as a string |
| Admin.QuestionJsonPasses | src/js/admin.js:1228-1231 | a question with two or more options that include a non-empty correct answer passes |
| Admin.AcceptedQuestionPassesImport | src/js/admin.js:904-956 | a question the form accepts would pass the import check once saved |
| Admin.CheckQuestions | src/js/admin.js:1228-1231 | the question loop gives the list verdict |
| Admin.Includes | src/js/admin.js:1230 | `includes` finds the value exactly when an item is the same |
| Admin.CheckCategories | src/js/admin.js:1225-1232 | the category loop gives the categories verdict |
| Admin.IsValidQuizDataStructure | src/js/admin.js:1215-1236 | the whole check gives the structure verdict |
| Admin.MigrationKeyCollides | src/js/admin.js:1411 | different questions of different categories can share a migration key |
| Admin.MigrationCounts | src/js/admin.js:1385-1429 | migrated plus duplicates equals the number scanned; the seen set is the set of scanned keys, and its size is the migrated count |
| Admin.MigrationExtends | src/js/admin.js:1398-1429 | the unified map only grows: existing keys keep their order and every list keeps its prefix |
| Admin.MigrateListAppends | src/js/admin.js:1409-1424 | a category gains only questions from its list, with no key seen before and none twice |
| Admin.MigrateKeepsFirst | src/js/admin.js:1413-1421 | the first question of a new key is migrated |
| Admin.MigrationSettles | src/js/admin.js:1445-1460 | once anything is scanned, migration is no longer needed; with nothing scanned the unified map is unchanged |
| Admin.MigrateQuestions | src/js/admin.js:1409-1424 | the question loop computes the list migration |
| Admin.MigrateCategories | src/js/admin.js:1407-1426 | the category loop computes the map migration, skipping "all" |
| Admin.AddCategoryStats | src/js/admin.js:291-314 | after an accepted add-category, the names grow by the new name and the question total is unchanged |
| Admin.MigrationKeepsCategoryNames | src/js/admin.js:291-314 | migration never changes the set of category names |
| Admin.CountCatalog | src/js/admin.js:296-311 | one map's loop counts its names and questions |
| Admin.CountDocument | src/js/admin.js:291-314 | the counters are the distinct category names and the sum of list lengths |
| Admin.ImageCountBounds | src/js/admin.js:2079-2083 | the image count is 0 exactly when no image is local, and the list length exactly when all are |
| Admin.InfoOverMeans | src/js/admin.js:2066-2089 | the listed modes are exactly those that have the category, and there are never more images than questions |
| Admin.GetCategoryInfo | src/js/admin.js:2066-2089 | the loop gives the category info over the three top-level keys |
| Admin.AdminPanel.UpdateAdminStats | src/js/admin.js:291-314 | the counters become the category names and question total of the document |
| Admin.AdminPanel.HandleAddCategory | src/js/admin.js:766-841 | the document and the message are those of the add-category function; the counters refresh exactly on success |
| Admin.AdminPanel.MigrateToUnifiedStructure | src/js/admin.js:1385-1442 | the document becomes the migrated document and the counts are reported; the answer is always success, because the save's boolean result is ignored and the backup catches its own errors |

## Left out

- I/O is never performed. On the server, `Server.Store` keeps the quiz document in its fields in place of reading `quizData.json` at each request, and the outcome of each write (the image file and the JSON file) is a parameter. On the client, `localStorage`, the backend calls, `fetch` and the DOM are parameters or left out. The clock, the random file suffix and the shuffle's random choices are parameters too.
- Server.Store: the fallback of `readJSONFile` (server.js:43-51) is not modelled. A missing or unparsable `quizData.json` reads as `{}` in JavaScript, and a handler that then succeeds saves a document holding only its own change. The model always reads the document the store holds.
- Timers are not modelled: the image-phase timer of the quiz, the hourly clearing of the request-id set and `setTimeout`-based UI steps.
- Sound, feedback messages, modal dialogs and rendering are not modelled; the learning cards stop before their `localeCompare` sort.
- `isValidUrl` (src/js/admin.js:756) depends on the `URL` constructor. Its answer enters the add-question form as a boolean field.
- `formatFileSize` and the drag-and-drop upload handlers of src/js/admin.js are display helpers and are not modelled.
- Server.Store.DeleteQuestion: a `ReferenceError` at server.js:671 turns a saved delete into a 500 after the file is written. The model reports success.
- The local push after add-question (src/js/admin.js:1043-1062) reads an undefined `mode` at 1056 and throws. The model stops after the check and the stored JSON form.
- Leaderboard.LeaderboardStore.SaveEntry: the time-limited map must exist. At src/js/leaderboardData.js:239 the code dereferences it, and the method requires it. It also requires that the mode is not `_metadata`.
- Admin.AdminPanel.UpdateAdminStats: the leaderboard counters it also refreshes are not modelled.
- Admin.AdminPanel.HandleAddCategory: the backend save and the backup are outside the model.
- Admin.AdminPanel.MigrateToUnifiedStructure: the `return false` for a missing `quizData` (src/js/admin.js:1388-1391) is not modelled, because the panel always holds a document. The backend save itself is outside the model; its failure is reported only by a return value the migration ignores, so a failed save still answers true and keeps the migrated in-memory document.
- Inherited object properties are not modelled (`constructor`, `__proto__`, `toString` looked up as keys). For example, the country-code table lookup and `quizData[mode][name]` would find them in JavaScript.
- JSON numbers are integers only, and a stored null and an absent field are both `None`. `NaN` timestamps are not modelled: an entry without a timestamp sorts as time 0.
- The quiz document holds exactly the three known top-level maps, in the order questions, image-based, time-limited. Any other top-level key is not modelled except by the import check, which works on a generic JSON value.
- Quiz.QuizState.HandleAnswerSelection and Quiz.QuizState.CheckAnswer: both require a current question. The DOM only offers these actions while one is shown.
- Setting `selectedTimeLimit` from the time-limit dialog, and the copy of the storage-key helper in src/js/quiz.js:836-842, are not modelled separately.
- Leaderboard.SortBy: `Array.prototype.sort` sorts in place. It is modelled as a stable insertion sort on a sequence, so the in-place update and its aliasing are not captured.
- Loading, initialising and clearing all leaderboard data, migrating localStorage entries and the leaderboard display are I/O and are not modelled.
- Text case mapping covers ASCII letters only. `toLowerCase` on other characters is not modelled.
- Leaderboard.StatisticsOf: the top-performer records leave out the `accuracy` percentage that src/js/leaderboardData.js:394 and 409 attach. The ranking compares the exact ratio of correct answers to questions, which orders the entries as the percentage does.
- QuizData.OrderedMap.Put: keys keep insertion order. JavaScript objects list integer-like keys (such as "123") first, in ascending numeric order, before the other keys. The model therefore differs where that order matters. (1) The "all" category built at server.js:300 can keep a different question when two categories, one named like "abc" and one like "123", hold questions with the same key. (2) The `for...in` walk of the import check at src/js/admin.js:1225-1231 (Admin.Members) can meet a failing key in a different order and so return false where JavaScript throws, or the reverse. (3) The time-limit keys "0.1", "0.5", "1", "2", "3" of src/js/leaderboardData.js:64-68 are listed by JavaScript as "1", "2", "3", "0.1", "0.5", which changes the order of ties in Leaderboard.AllEntries and the top performers.
- Server.Store.EditQuestion: `questionIndex` is a number or absent. The form sends it as text. Text such as "abc", "1.0" or "-0" passes the range check at server.js:497, then fails at server.js:502 on an undefined question. JavaScript answers 500 and releases the request id. This path is not modelled.
- Server.Store.AddQuestion: `questionData` that parses as JSON but is not a question object is not modelled. For `null`, reading its fields throws, so the handler answers 500 and releases the request id (server.js:434-445). Without an upload, a number or a string is stored as it is and answered with 200. The model knows only a missing field, unparsable text and a parsed question.
- Server.Store.DeleteQuestion: a `questionIndex` of `null` is not modelled. It passes the test for `undefined` at server.js:606 and, on a non-empty list, the range check at server.js:620; reading the missing question at server.js:628 then fails with 500. The model treats an absent and a null index alike and answers 400.
- Server.Store.EditQuestion and Server.Store.DeleteQuestion: they update the legacy lists by first structural match, as the code does, not by the corrected Server.RemoveMirrored and Server.ReplaceMirrored (see Findings).
- Server.Store.EditQuestion: its ServerError case is stated as an implication from a failed write, not an equivalence.

## Findings

| source | as written | input that shows it | evidently intended | confidence | as-written member | corrected member |
|---|---|---|---|---|---|---|
| server.js:645-663 | delete-question removes from each legacy list the first question with the same answer, image and options as the deleted one | a category holding `[q1, q2]` in all three maps, where `q1` and `q2` differ only in their explanation; delete index 1 | the legacy lists lose the same question as the unified list and stay equal to it | medium, not executed | Server.DeleteCanBreakSiblingsAgree | Server.MirroredDeleteKeepsSiblingsAgree |
| server.js:552-568 | edit-question rewrites in each legacy list the first question with the same answer, image and options as the edited one | the same category; edit index 1 | the legacy lists are edited at the same question and stay equal to the unified list | medium, not executed | Server.EditCanBreakSiblingsAgree | Server.MirroredEditKeepsSiblingsAgree |
