# Flashcard app — a verified model of its study logic

The flashcard app lets a user import cards from CSV files, browse them in a
library by category and by the difficulty last given, and study a session
of cards. In a session the user flips each card and rates it "easy",
"medium" or "hard". A "hard" card goes back to the end of the session. A
daily-review dialog draws a number of random cards from chosen tags. A
remote card service stores the cards of a signed-in user. It reads them
page by page, writes them in chunks, and picks the cards due for review.

This project models that logic in Dafny and proves what it promises:

| file | module | what it models |
|---|---|---|
| `srs.dfy` | `Srs` | the review-interval rule of the scheduler |
| `text.dfy` | `Text` | the string operations the code relies on: `trim`, `split`, string order |
| `csv.dfy` | `Csv` | the hand-written CSV reader: line selection, delimiter choice, the quote-aware field scanner, row filtering |
| `cards.dfy` | `Cards` | the card record and the category/difficulty filter shared by the library and the session start |
| `library.dfy` | `Library` | the library screen's count, counters and category list |
| `app.dfy` | `App` | the top-level component's state (`class AppState`) and one method per handler, including the in-place Fisher–Yates shuffle |
| `deferred.dfy` | `Deferred` | the cursor moves that `handleNext`/`handlePrev` delay by 150 ms |
| `daily_review.dfy` | `DailyReview` | the daily-review dialog: tag list, tag toggling (`class TagPicker`), eligible cards, the shuffled prefix |
| `card_service.dfy` | `CardService` | the remote service: page loop, tag-to-category mapping, chunked writes, due-card top-up |

## How the outside world enters the model

- **Randomness.**
  - The session shuffle receives its random draws as a sequence of numbers. Draw `k` picks the swap partner `draw % (i + 1)`.
  - The daily-review `sort(() => Math.random() - 0.5)` is an arbitrary reordering, given as an argument. It is required to hold the same cards as the eligible list.
- **Fresh identifiers.** Card ids made from the clock and a random suffix are a given function from the row number to an id.
- **Clock.** "Now" is an integer argument.
- **Dialogs.** The answer to `confirm` is a boolean argument. `alert` only shows a message, so it is not modelled.
- **Embedded data.** The bundled CSV files and the cards found in local storage are arguments of the mount step.
- **The remote backend.** It is an input and is not modelled itself:
  - page reads are a sequence of answers, one per page, each the rows or an error;
  - a page past the given answers is empty;
  - a `null` page counts as empty;
  - the failing requests of a batch are a map from request number to error message;
  - the due query and the new-card query are their full ordered answers, cut to the query's limit by the model.
- **Missing values.** An empty `category` stands for a missing one, as the code treats both alike. A card's `difficulty` is `None` or a string, and "new" means `None` or the empty string.

## Behaviour that differs from what such an app is usually expected to do

The model follows the code in each case.

- **Unknown ratings.** A scheduler is usually expected to reject a rating other than easy, medium or hard. `calculateNextReview` instead keeps its initial interval of 1 (src/utils/srsAlgorithm.js:8). `Srs.NextInterval` returns 1 for such a rating.
- **What rating updates.** One might expect rating a card to call the scheduler and update the interval, next-review date and review count. `handleDifficulty` (src/App.jsx:185-217) does none of that: it only records the difficulty and the time on the library cards with the rated id. `App.AppState.HandleDifficulty` does exactly that.
- **Session persistence.** The app has no code that saves or resumes a study session, so the model has none either. A reload starts from the library.
- **Requeue clamp.** `handleDifficulty` clamps the cursor after a "hard" requeue (src/App.jsx:209-211). The clamp can never fire, because the requeued session has the same length as before. `App.AppState.HandleDifficulty` keeps the statement, and its contract shows the cursor unchanged.
- **Shuffle.** A shuffle is usually meant to be uniform. Uniformity is not a property of the model: any draws are accepted, and only the permutation is proved.

## Model

| member | source | states |
|---|---|---|
| Srs.NextInterval | src/utils/srsAlgorithm.js:8-20 | Always at least 1. "hard" gives 1. "medium" gives the least whole number at least 2 and at least 1.5·c. "easy" gives 4 for c = 0, else the least whole number at least 2.5·c. Any other rating gives 1. |
| Srs.RatingOrder | src/utils/srsAlgorithm.js:10-19 | For the same prior interval: easy ≥ medium ≥ hard. |
| Srs.SuccessNeverShrinks | src/utils/srsAlgorithm.js:13-19 | For a prior interval c > 0, medium gives at least c and easy more than c. |
| Srs.Examples | src/utils/srsAlgorithm.js:10-19 | The worked values: medium 0→2, 1→2, 3→5; easy 0→4, 1→3, 10→25; hard 7→1. |
| Srs.EasyMinimumOnlyForNewCards | src/utils/srsAlgorithm.js:17-19 | The "minimum 4 days" of easy holds only for a new card: a prior interval of 1 gives 3. |
| Text.Trim | src/utils/csvParser.js:18 | The result has no leading or trailing whitespace, is no longer than the input, and uses only the input's characters. Whitespace is JavaScript's set: the space separators, tab, vertical tab, form feed, the byte-order mark and the four line terminators. |
| Text.TrimStartCuts | src/utils/csvParser.js:18 | What the left trim removes is a prefix made only of whitespace. |
| Text.TrimEndCuts | src/utils/csvParser.js:18 | What the right trim removes is a suffix made only of whitespace. |
| Text.TrimIsSlice | src/utils/csvParser.js:18 | The trimmed text is a contiguous slice of the input. |
| Text.TrimOfTrimmed | src/utils/csvParser.js:18 | Trimming text without edge whitespace changes nothing. |
| Text.Split | src/utils/csvParser.js:2 | `split('\n')` gives at least one piece, and no piece contains the separator. |
| Text.JoinSplit | src/utils/csvParser.js:2 | Joining the pieces with the separator gives the text back. |
| Text.Before | src/components/DailyReviewModal.jsx:14 | Defines the default `sort()` order: a proper prefix first, else the first differing character decides. |
| Text.BeforeIrreflexive | src/components/DailyReviewModal.jsx:14 | The sort order never puts a string before itself. |
| Text.BeforeTransitive | src/components/DailyReviewModal.jsx:14 | The sort order is transitive. |
| Text.BeforeTotal | src/components/DailyReviewModal.jsx:14 | Of two different strings, one sorts first. |
| Text.BeforeAsymmetric | src/components/DailyReviewModal.jsx:14 | Of two strings, at most one sorts first. |
| Text.Insert | src/components/DailyReviewModal.jsx:9-14 | Adding a string to a strictly increasing list keeps it strictly increasing, and its elements are the old ones plus the string. |
| Text.SortedDistinctUnique | src/components/DailyReviewModal.jsx:14 | Two strictly increasing lists with the same elements are equal. |
| Csv.NonBlankLines | src/utils/csvParser.js:2 | Defines the lines of the text: split at line feeds, then the blank ones dropped. |
| Csv.KeepNonBlank | src/utils/csvParser.js:2 | A line is kept exactly when it is not blank after trimming. |
| Csv.KeepNonBlankAppend | src/utils/csvParser.js:2 | The filter keeps the lines' order and multiplicity: filtering a concatenation is concatenating the filtered parts. |
| Csv.FirstNonBlank | src/utils/csvParser.js:2 | The first kept line is the first non-blank line, which is where the headers come from. |
| Csv.NonBlankLinesSound | src/utils/csvParser.js:2 | The kept lines are non-blank and contain no newline, and every non-blank line of the text is kept. |
| Csv.Delimiter | src/utils/csvParser.js:6 | The delimiter is ',' exactly when the text contains a comma anywhere, and ';' otherwise. |
| Csv.RawFields | src/utils/csvParser.js:13-24 | Defines the reference splitter: a quote flips the quoting state and is dropped, and a delimiter outside quotes ends a field. It always gives at least one field. |
| Csv.OutsideDelims | src/utils/csvParser.js:15-17 | Defines the number of delimiters that fall outside quotes. |
| Csv.StripEdgeQuotes | src/utils/csvParser.js:18 | Defines `replace(/^"\|"$/g, '')`: one leading and one trailing quote removed. |
| Csv.CleanField | src/utils/csvParser.js:18 | Defines the clean-up of a field: trim, then strip edge quotes. |
| Csv.Fields | src/utils/csvParser.js:8-26 | Defines the fields of a line: the raw fields, each cleaned. |
| Csv.FieldCount | src/utils/csvParser.js:13-24 | A line gives one more field than it has delimiters outside quotes. |
| Csv.NoQuoteInFields | src/utils/csvParser.js:15-16 | A quote character only toggles the quoting state and never reaches a field. |
| Csv.JoinFields | src/utils/csvParser.js:13-24 | Joining the raw fields with the delimiter gives the line without its quotes. No other character is lost, and delimiters inside quotes stay in their field. |
| Csv.CleanIsTrim | src/utils/csvParser.js:18 | On quote-free text, stripping edge quotes after trimming is just trimming. |
| Csv.FieldsClean | src/utils/csvParser.js:18-24 | Every field of a line is quote-free and trimmed. |
| Csv.ParseLine | src/utils/csvParser.js:8-26 | The scanner loop yields the reference fields of the line. Their number is one more than the delimiters outside quotes, and every field is quote-free and trimmed. |
| Csv.DataRows | src/utils/csvParser.js:31-39 | At most one row per line, and every row has the header width. |
| Csv.DataRowsAppend | src/utils/csvParser.js:31-39 | The rows of two runs of lines are the rows of each, in order. |
| Csv.DataRowsMember | src/utils/csvParser.js:31-39 | A row is kept exactly when it has the header width and comes from a non-blank line. |
| Csv.Reading | src/utils/csvParser.js:1-42 | No non-blank line gives empty headers and data. Otherwise the headers are the fields of the first non-blank line, there are fewer data rows than non-blank lines, and each data row has the header width. |
| Csv.CollectRows | src/utils/csvParser.js:29-39 | The row loop, including its skip of blank lines, yields exactly the reference rows. |
| Csv.ParseCsv | src/utils/csvParser.js:1-42 | The parser yields the reference reading of the text. |
| Cards.IsNew | src/App.jsx:137 | Defines `!card.difficulty`: the difficulty is absent or empty. Library.jsx:17 and 35 use the same test. |
| Cards.HasDifficulty | src/App.jsx:138 | Defines `card.difficulty === level`. Library.jsx:18 and 32-34 use the same test. |
| Cards.Matches | src/App.jsx:134-140 | Defines the filter: the category is "all" or equal, and the difficulty bucket is "all", "new" for a card without difficulty, or equal. Library.jsx:14-20 uses the same predicate. |
| Cards.Select | src/App.jsx:134-140 | A card is selected exactly when it is in the library and matches the category and difficulty. A selection never holds a card more often than the library does. |
| Cards.SelectAppend | src/App.jsx:134-140 | Selection keeps the cards' relative order. |
| Cards.SelectAll | src/App.jsx:134-140 | With category and difficulty both "all", every card is selected. |
| Library.FilteredCount | src/components/Library.jsx:13-21 | The count never exceeds the library size. |
| Library.CountIsPoolSize | src/components/Library.jsx:13-21 | The count shown is the number of cards a session start with the same selection would pick. |
| Library.AllSelectionCountsEverything | src/components/Library.jsx:15-16 | With both selections "all", the count is the library size. |
| Library.StartFilter | src/components/Library.jsx:23-28 | A start passes the selected category and difficulty unchanged. |
| Library.CountLevel | src/components/Library.jsx:32-34 | A per-difficulty counter never exceeds the library size. |
| Library.LevelCountIsBucket | src/components/Library.jsx:32-34 | A per-difficulty counter equals the number of cards the filter's bucket for that difficulty selects. |
| Library.CountNew | src/components/Library.jsx:35 | The new-card counter never exceeds the library size. |
| Library.LibraryCounts | src/components/Library.jsx:30-36 | The total is the library size, and each counter is at most the total. |
| Library.NewCountIsNewBucket | src/components/Library.jsx:35 | The new-card counter equals the count of the "new" bucket, unless some card's difficulty is literally "new". |
| Library.CountersPartition | src/components/Library.jsx:30-36 | When every card is new, easy, medium or hard, the four counters add up to the total. |
| Library.DistinctCategories | src/components/Library.jsx:9 | Holds no duplicates, and holds a category exactly when it is non-empty and some card has it. |
| Library.Categories | src/components/Library.jsx:8-11 | "all" comes first, followed by the distinct non-empty categories. |
| Library.CategoriesKeepOrder | src/components/Library.jsx:9 | Categories are listed in order of first occurrence: the list for a prefix of the library is a prefix of the list for the whole. |
| App.Cell | src/App.jsx:117-118 | Defines `row[k] \|\| ''`: the cell, or empty when the index is outside the row. |
| App.CardFromRow | src/App.jsx:115-121 | Front and back are the chosen cells, empty when absent. There is no difficulty and no review time. The category is the chosen cell when a column is chosen and the cell is non-empty, and the fallback otherwise. |
| App.Complete | src/App.jsx:122 | Defines `card.front && card.back`: both sides are non-empty. |
| App.MadeCards | src/App.jsx:115-121 | Defines `data.map(...)`: row `k` becomes its card with id `newId(k)`. Every card has no difficulty and no review time, and its category is never empty when the fallback is not. |
| App.MadeCardsAppend | src/App.jsx:115-121 | The map keeps the rows' order: mapping `a + b` is mapping `a`, then `b` with its rows numbered after `a`'s. |
| App.KeepComplete | src/App.jsx:122 | `filter(card => card.front && card.back)` keeps exactly the complete cards, and never more than it is given. |
| App.KeepCompleteAppend | src/App.jsx:122 | The filter keeps the cards' order and multiplicity: filtering a concatenation is concatenating the filtered parts. |
| App.RowsToCards | src/App.jsx:115-122 | No more cards than rows. Every card has a non-empty front and back and no difficulty. The category is the fallback when no category column is chosen, and never empty with a non-empty fallback. |
| App.RowsToCardsKeepsComplete | src/App.jsx:115-122 | Every row with both sides filled in yields its card. |
| App.RowsToCardsFromRows | src/App.jsx:115-122 | Every card made comes from one of the rows. |
| App.RowsToCardsAppend | src/App.jsx:115-122 | Rows become cards in row order: the cards of `a + b` are those of `a` followed by those of `b`, whose rows are numbered after `a`'s. |
| App.RowsToCardsOne | src/App.jsx:115-122 | A single row gives exactly its card when both sides are filled in, and nothing otherwise. With `App.RowsToCardsAppend`, this means one card per complete row, in row order. |
| App.EmbeddedCards | src/App.jsx:42-62 | The bundled cards are all complete, never rated and categorised. |
| App.FileCards | src/App.jsx:52-59 | The cards of one bundled file are complete, never rated and categorised. |
| App.LoadEmbedded | src/App.jsx:42-62 | The loop over the bundled files yields exactly the reference bundled cards. |
| App.AppState.LoadOnMount | src/App.jsx:64-82 | With no local cards and some bundled ones, the bundled cards are shown in the library. With local cards, the local cards are shown. With neither, the upload screen is shown. The session is untouched. |
| App.Requeue | src/App.jsx:203-206 | Length and cards are unchanged. The requeued card is last, those before it keep their place, and those after move up one. |
| App.RequeueSingle | src/App.jsx:203-206 | A one-card session is unchanged by a requeue. |
| App.RequeueLast | src/App.jsx:203-206 | Requeueing the last card leaves the session unchanged. |
| App.MarkRated | src/App.jsx:189-193 | Only the cards with the rated id change, and they take the new difficulty and review time. All others are unchanged. |
| App.MarkRatedKeepsCards | src/App.jsx:189-193 | Rating keeps every card's id, sides and category. |
| App.SwapPartner | src/App.jsx:149 | The swap partner of position i lies in 0..i. |
| App.Shuffle | src/App.jsx:148-151 | The in-place shuffle permutes the array. |
| App.ShuffledCopy | src/App.jsx:147-151 | The shuffled session has the pool's length and holds exactly the pool's cards. |
| App.StudyDeck | src/App.jsx:134-151 | The session a start would study: as long as the selection, and holding exactly the selected cards. |
| App.AppState.constructor | src/App.jsx:18-24 | The initial state: loading, empty csv data, library and session, cursor 0, unflipped, nothing mastered. |
| App.AppState.HandleFileUpload | src/App.jsx:99-112 | A file with data rows is stored and the mapping screen opens. Otherwise nothing changes. |
| App.AppState.HandleImport | src/App.jsx:114-131 | The complete cards of the mapped rows are appended after the existing ones and the library opens. With none, nothing changes. |
| App.AppState.HandleStartReview | src/App.jsx:133-158 | A session starts exactly when the selection is non-empty. It holds a permutation of the selected cards, at cursor 0, unflipped, with nothing mastered. An empty selection changes nothing. |
| App.AppState.HandleClearData | src/App.jsx:160-164 | The library is emptied and the upload screen opens. |
| App.AppState.HandleNext | src/App.jsx:166-176 | The cursor advances only when a later card exists, and the card is then unflipped. At the last card the cursor stays, and a confirmation returns to the library. |
| App.AppState.HandlePrev | src/App.jsx:178-183 | The cursor steps back only when it is past the first card. Otherwise nothing changes. |
| App.AppState.Flip | src/App.jsx:227-230 | Space or Enter turns the card over. |
| App.AppState.Exit | src/App.jsx:279 | Exit returns to the library. |
| App.AppState.CancelUpload | src/App.jsx:253-256 | Cancelling the upload returns to the library, only when the library holds cards. |
| App.AppState.HandleDifficulty | src/App.jsx:185-217 | The rating is recorded on the library cards with the current card's id. "hard" requeues the card, keeps the cursor (now on the next card) and unflips it. "easy" adds one to the mastered count. Every rating other than "hard" then advances like next. The cursor always stays in the session. |
| App.RatingWalkthroughHard | src/App.jsx:185-217 | First step of an example rating sequence: on [A, B, C] at the first card, hard gives [B, C, A] at position 0 with nothing mastered. |
| App.RatingWalkthroughEasy | src/App.jsx:185-217 | Next step: B rated easy counts one mastered card and moves on to C. |
| App.RatingWalkthroughMedium | src/App.jsx:185-217 | Next step: C rated medium moves on to the last card. |
| App.RatingWalkthroughFinish | src/App.jsx:166-176 | Last step: at the last card, a confirmed next returns to the library. |
| Deferred.PressNext | src/App.jsx:166-169 | A press of next schedules a move only when the shown card is not the last. The shown cursor does not change yet. |
| Deferred.PressPrev | src/App.jsx:178-181 | A press of previous schedules a move only when the shown card is not the first. |
| Deferred.Fire | src/App.jsx:169 | As written, a timer applies its move with no bound check. |
| Deferred.Step | src/App.jsx:166-183 | Defines one event as written: a press of next or previous, or the oldest pending timer firing unchecked. |
| Deferred.Run | src/App.jsx:166-183 | Defines a sequence of events applied in order, as written. |
| Deferred.StepClamped | src/App.jsx:166-183 | Defines one event with the corrected, bound-checking timer. |
| Deferred.RunClamped | src/App.jsx:166-183 | Defines a sequence of events applied in order, with the corrected timer. |
| Deferred.DoubleNextOverruns | src/App.jsx:166-169 | Two quick presses of next on the first of two cards leave the cursor at 2, outside the session. |
| Deferred.DoublePrevUnderruns | src/App.jsx:178-181 | Two quick presses of previous on the second card leave the cursor at -1. |
| Deferred.FireClamped | src/App.jsx:169 | The corrected timer applies a move only when it stays inside the session. |
| Deferred.ClampedStaysInRange | src/App.jsx:166-183 | With the corrected timer, the cursor stays on a card for every sequence of presses and timers. |
| Deferred.ClampedNextIsImmediateNext | src/App.jsx:166-169 | With nothing pending, a press of next and its timer move the cursor as the undelayed next does. |
| DailyReview.TagOf | src/components/DailyReviewModal.jsx:11 | A card's tag is never empty, and is its category when it has one. |
| DailyReview.AvailableTags | src/components/DailyReviewModal.jsx:8-15 | Strictly increasing, with exactly the cards' tags as elements. |
| DailyReview.AvailableTagsUnique | src/components/DailyReviewModal.jsx:8-15 | Any strictly increasing list of the cards' tags is the available-tag list. |
| DailyReview.Tagged | src/components/DailyReviewModal.jsx:39-41 | A card is kept exactly when its tag is selected, and never more often than in the library; order and multiplicity are pinned by TaggedAppend and TaggedOne. |
| DailyReview.Eligible | src/components/DailyReviewModal.jsx:37-42 | No selected tag makes every card eligible. Otherwise a card is eligible exactly when its tag is selected. |
| DailyReview.TaggedAppend | src/components/DailyReviewModal.jsx:39-41 | The tag filter keeps every matching card once per occurrence and in library order: filtering a concatenation filters each part. |
| DailyReview.TaggedOne | src/components/DailyReviewModal.jsx:39-41 | One card is kept exactly when its tag is selected, and dropped otherwise. |
| DailyReview.EligibleAppend | src/components/DailyReviewModal.jsx:37-42 | The eligible cards keep library order and every occurrence, with or without a tag selection. |
| DailyReview.SelectedCardCount | src/components/DailyReviewModal.jsx:18-23 | No selected tag counts every card, and the count never exceeds the library size. |
| DailyReview.CountIsEligibleSize | src/components/DailyReviewModal.jsx:18-42 | The count shown is the number of eligible cards. |
| DailyReview.Toggled | src/components/DailyReviewModal.jsx:25-31 | Toggling a selected tag removes it, and toggling an absent tag appends it. No other tag changes. |
| DailyReview.Without | src/components/DailyReviewModal.jsx:28 | Removes every occurrence of the tag and keeps everything else. |
| DailyReview.WithoutAppend | src/components/DailyReviewModal.jsx:28 | The other tags keep their order and number of occurrences: removing from `a + b` is removing from each part. |
| DailyReview.WithoutAbsent | src/components/DailyReviewModal.jsx:28 | Removing an absent tag changes nothing. |
| DailyReview.WithoutLast | src/components/DailyReviewModal.jsx:28 | Removing a tag from a list that ends with it is the same as removing it from the rest. |
| DailyReview.ToggleTwice | src/components/DailyReviewModal.jsx:25-31 | Toggling twice restores the selected set, and restores the exact list when the tag was absent. |
| DailyReview.AnnouncedCount | src/components/DailyReviewModal.jsx:129 | The number on the start button is the card count or the selection count (at least 1), whichever is smaller. |
| DailyReview.ReviewCards | src/components/DailyReviewModal.jsx:36-51 | No eligible card starts nothing. Otherwise there are min(count, eligible) cards, drawn from the eligible cards without reuse. |
| DailyReview.AnnouncedIsReviewSize | src/components/DailyReviewModal.jsx:129 | The start button announces exactly the number of cards the review holds. |
| DailyReview.ReviewHasNoDuplicates | src/components/DailyReviewModal.jsx:50-51 | A library without repeated cards gives a review without repeated cards. |
| DailyReview.TagPicker.constructor | src/components/DailyReviewModal.jsx:4-5 | Starts with no tag selected and a count of 10. |
| DailyReview.TagPicker.ToggleTag | src/components/DailyReviewModal.jsx:25-31 | The selection becomes the toggled selection. |
| DailyReview.TagPicker.SelectAllTags | src/components/DailyReviewModal.jsx:33 | The selection becomes the available tags. |
| DailyReview.TagPicker.ClearAllTags | src/components/DailyReviewModal.jsx:34 | The selection becomes empty. |
| DailyReview.TagPicker.SetCardCount | src/components/DailyReviewModal.jsx:109 | The typed count, raised to at least 1. |
| DailyReview.TagPicker.StartReview | src/components/DailyReviewModal.jsx:36-55 | With the dialog's own tags and count, the review is `ReviewCards`. When it starts, it holds at least one card, and exactly as many as the button announces. |
| DailyReview.TagPicker.SlideCardCount | src/components/DailyReviewModal.jsx:96-101 | The slider's value becomes the count. |
| DailyReview.AllTagsSelectEverything | src/components/DailyReviewModal.jsx:18-33 | After select-all, the count covers every card. |
| DailyReview.AllTaggedCount | src/components/DailyReviewModal.jsx:18-23 | When every card's tag is selected, the count is the library size. |
| CardService.Normalize | src/services/cardService.js:49-52 | The category is the first tag, or "Uncategorized" without tags, and the row is unchanged. |
| CardService.NormalizeAll | src/services/cardService.js:49-52 | Every row is normalised, in order. |
| CardService.CategoryRoundTrip | src/services/cardService.js:176-178 | A row whose tags were set to [c] by a category update reads back with category c. |
| CardService.Answer | src/services/cardService.js:27-31 | Defines the backend's answer to the page request at `from`: the given answer, or an empty page past the last one. |
| CardService.FetchFrom | src/services/cardService.js:26-46 | A failed read carries the error of one of the pages. |
| CardService.Stop | src/services/cardService.js:34-45 | Reading stops at the first error, empty page or short page. Every page before it is full. |
| CardService.FetchIsPagesInOrder | src/services/cardService.js:26-46 | Reading returns all full pages in order, followed by the page where it stopped. If that page is an error, reading returns its error. |
| CardService.GetCards | src/services/cardService.js:18-53 | No user gives nothing. Otherwise the page loop returns the normalised concatenation of the pages in order, or the first page error. |
| CardService.Chunks | src/services/cardService.js:89-90 | Defines the slices `s[i .. i + n]` for i = 0, n, 2n, … below the length (also lines 161-162 and 174-175). |
| CardService.ChunksFlatten | src/services/cardService.js:89-90 | The chunks, concatenated, give the list back. |
| CardService.ChunkSizes | src/services/cardService.js:89-90 | Every chunk has between 1 and n items, and all but the last have exactly n. |
| CardService.ChunkCount | src/services/cardService.js:161-162 | There are ⌈len/n⌉ chunks. |
| CardService.SendChunks | src/services/cardService.js:89-95 | One request per chunk, in order, stopping at the first failure and reporting it. Done exactly when no request fails. |
| CardService.ToPayload | src/services/cardService.js:79-85 | Each record gets the user, both sides, the tags (default []) and a review count of 0. |
| CardService.AddCard | src/services/cardService.js:55-74 | No user fails with NotLoggedIn and sends nothing. Otherwise the record is sent, and the first row returned or the error comes back. |
| CardService.BatchAddCards | src/services/cardService.js:76-96 | No user fails and sends nothing. Otherwise the records go in order, in chunks of 500. On failure, the last request sent is the one that failed and every earlier one succeeded. |
| CardService.BatchDelete | src/services/cardService.js:157-169 | The ids go in order, in chunks of 50. On failure, the last request sent is the one that failed and every earlier one succeeded. |
| CardService.BatchUpdateCategory | src/services/cardService.js:171-182 | The ids go in chunks of 50, each setting the tags to the single new category. On failure, the last request sent is the one that failed and every earlier one succeeded. |
| CardService.Take | src/services/cardService.js:130 | `.limit(n)` keeps a prefix of at most n rows. |
| CardService.GetDueCards | src/services/cardService.js:119-155 | No user gives nothing, and a failed due query gives its error. Otherwise due cards come first, and at most `limit` cards come back. The top-up with new cards fills only the remaining places, and a failed top-up leaves just the due cards. |

## Findings

| source | as written | input that shows it | evidently intended | confidence | as-written member | corrected member |
|---|---|---|---|---|---|---|
| src/App.jsx:166-183 | `handleNext` and `handlePrev` check the cursor on screen and apply the move 150 ms later with `prev => prev ± 1`, without checking it again | a two-card session at card 1: pressing the right arrow twice within 150 ms puts the cursor at 2, and `studySession[2].front` then fails to render. Pressing left twice on card 2 gives -1 | the cursor stays inside the session | likely (not executed) | Deferred.DoubleNextOverruns | Deferred.ClampedStaysInRange |

`App.AppState` applies each move at once, which matches the corrected timer (`Deferred.ClampedNextIsImmediateNext`), and keeps the cursor inside the session as an invariant.

## Left out

- The date part of `calculateNextReview` is not modelled (src/utils/srsAlgorithm.js:22-29: `Date`, `setDate`, `toISOString`). Only the interval is.
- Srs.NextInterval: `Math.ceil(c * 1.5)` on floating-point numbers is taken as exact. Huge prior intervals, where doubles round, are not modelled.
- Text.Before: orders strings by code point. JavaScript's default `sort` orders by UTF-16 code unit. The two differ only for characters beyond U+FFFF.
- Strings are sequences of characters. UTF-16 surrogate pairs and the JS `length` of astral characters are not modelled.
- App.RowsToCards: the ids come from the `newId` argument. Their uniqueness, which the code hopes for from `Date.now()` and a random suffix, is not modelled.
- Local storage is not modelled: the cards loaded on mount are an argument, and the auto-save effect (src/App.jsx:86-90) is not modelled.
- `FileReader` and the custom `triggerUpload` event are not modelled (src/App.jsx:93-112). The model starts from the file's text.
- The keyboard listener (src/App.jsx:220-241) only dispatches. Its keys map to `HandlePrev`, `HandleNext`, `Flip` and `HandleDifficulty` with "easy", "medium" or "hard".
- `import.meta.glob` is not modelled: the bundled CSV texts are an argument, in the order the bundler gives.
- The 150 ms `setTimeout` is not part of `App.AppState`. `Deferred` models it separately.
- The uniformity of either shuffle is not modelled. Only that each shuffle permutes its cards is proved.
- The per-tag counts on the daily-review chips (src/components/DailyReviewModal.jsx:83) and the slider's displayed position (line 100) are rendering only.
- DailyReview.TagPicker.SetCardCount: takes a whole number. A non-numeric entry, which gives `NaN` in the source, is not modelled.
- DailyReview.TagPicker.SlideCardCount: assumes the browser keeps the slider's value at least at its minimum of 5.
- The dialog's `onStartReview` and `onClose` callbacks are not modelled. `DailyReview.ReviewCards` returns the list that is handed to them.
- The Papa-based `parseCSV` of the card service is not modelled: Papa.parse is not part of this model.
- `updateCard` and `deleteCard` are not modelled (src/services/cardService.js:98-116). They pass one request to the backend and return its answer, with no logic of their own.
- The Supabase queries are not modelled: the `flashcards` table ordering, `next_review_date` and `review_count = 0` are the backend's. Their answers are inputs.
- CardService.GetDueCards: `limit` is a natural number, with 20 as the source's default. A negative limit is not modelled.
- The column mapper's guard that front and back differ is not modelled. `handleImport` itself accepts any columns, and so does the model.
- A category literally named "all" appears twice in `Library.Categories`, once as the "all" choice and once as itself. Choosing it selects every card. The model reproduces this.
- Not part of this model:
  - the relationship graph's force simulation;
  - authentication;
  - `storage.js`;
  - the presentational components: landing page, file upload, controls, flashcard, tag sidebar, column mapper.
