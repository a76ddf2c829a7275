# Christmas tree guest book — a Dafny model of the client logic

The client is a single-page web application. A visitor:

- fills in a two-part survey (name, affiliation, up to three interests, a theme, then a title and a card text);
- watches an envelope animation;
- picks an ornament design whose colour follows the theme;
- hangs the ornament on a shared 3D tree with 18 panels and 7 slots per panel. The tree has one room per affiliation.

The tree screen leads to an interest ranking and a comment board. The client talks to a spreadsheet-backed post
store that only keeps flat posts. An ornament's placement therefore travels inside the post content, after the
separator `|||`.

This project models the rules inside the client's handlers:

- the application step machine and its survey record (`App`);
- the survey forms' interest toggle and validation chains (`SurveyCommon`, `SurveyGrade`, with the shared
  first-failure reading in `Guards`);
- the ornament placement engine, room view and search of the tree (`TreeScene`);
- the content side channel of the post store client (`Api`);
- the interest ranking aggregation (`Ranking`);
- the comment form (`CommentBoard`);
- the design picker (`Customizer`);
- the constant tables (`Constants`) and the shared records (`Types`).

`Text` gives the JavaScript string built-ins the client relies on (`includes`, `indexOf`, `split`, `join`, `trim`,
`toLowerCase`) a precise meaning. `Wrappers` holds `Option` and the `Verdict` of a validation.

State that the source keeps in React state and updates in handlers is a `class` whose methods state the whole
new state: `App.AppState`, `TreeScene.Scene`, `CommentBoard.Board` and `Customizer.OrnamentCustomizer`. Loops in
the source stay loops, proved against specification functions:

- `Api.FetchOrnaments` against `DecodeAll`, which is `Collect` (the ornaments of the posts that yield one, in order) applied to `DecodePost`;
- `Ranking.ProcessRankingData` against `RankingOf`;
- `TreeScene.Find` against `FindFirst`.

Network answers (the post list, the save result, the comments), the random panel choice and generated ids are
parameters or a nondeterministic choice. Each asynchronous handler is one atomic step. A list load is split
into the request and its completion.

## Model

| member | source | states |
|---|---|---|
| Text.IndexOf | utils/api.ts:20-21 | `indexOf`: the result is an occurrence with none before it; `None` means no occurrence at all |
| Text.LastIndexOf | utils/api.ts:21 | `lastIndexOf`: the result is an occurrence with none after it; `None` means no occurrence |
| Text.ContainsIff | utils/api.ts:20 | `includes` holds exactly when `indexOf` finds an occurrence, and any occurrence makes it hold |
| Text.Split | utils/api.ts:21 | `split` for a non-empty separator: joining the pieces gives the text back; there are two or more pieces exactly when the separator occurs; no piece contains it; the first piece ends at the first occurrence (`indexOf`), or is the whole text when there is none |
| Text.JoinAppend | utils/api.ts:79 | `join`: appending a part appends the separator and the part |
| Text.TrimStart | components/SurveyCommon.tsx:37 | the trimmed text is a suffix preceded only by white space and starts with a non-space |
| Text.TrimEnd | components/SurveyCommon.tsx:37 | the trimmed text is a prefix followed only by white space and ends with a non-space |
| Text.TrimEnds | components/TreeScene.tsx:55-58 | `trim` leaves the empty text or one that starts and ends with a non-space character |
| Text.TrimWithin | components/TreeScene.tsx:55-58 | `trim` leaves the part of the text between two white-space margins |
| Text.BlankIffTrimEmpty | components/SurveyCommon.tsx:37 | `!s.trim()` holds exactly for texts made only of white space |
| Text.LowerAscii | components/RankingPage.tsx:34 | `toLowerCase` maps A–Z to a–z and keeps every other character |
| Types.EnumerationSizes | types.ts:1-5 | `Step` has 8 values, `Affiliation` 5, `Theme` 3, each listed once, with distinct labels |
| Types.AffiliationLabelOf | types.ts:3-11 | every affiliation's label is an admissible affiliation, and the empty (unset) text is not |
| Types.ThemeLabelOf | types.ts:5-13 | every theme's label is an admissible theme, and the empty (unset) text is not |
| Constants.OfficialCategoriesWellFormed | constants.ts:25-45 | 8 distinct official categories, "기타" among them; the ranking images are keyed by exactly these |
| Constants.PalettesWellFormed | constants.ts:48-85 | every colour has 6 patterns, with ids plain, dot, star, snow, stripe1 and stripe2 in that order |
| Constants.MapThemeToColorCorrect | constants.ts:88-93 | each theme's label maps to its colour (yellow, red, green); any other text, unset included, maps to yellow |
| Constants.SlotPointsWellFormed | constants.ts:96-104 | 7 slots; no orb coordinate is zero, so `orb \|\| dot` always picks the orb; the orb heights strictly increase; all coordinates lie in [0, 1] |
| Guards.FirstFailure | components/SurveyCommon.tsx:36-42 | an ordered check list lets the visitor proceed exactly when every check passes, and otherwise reports a failing check's error |
| Guards.FirstFailureAt | components/SurveyCommon.tsx:36-42 | a failing check whose predecessors all pass is the one reported, whatever follows it |
| Guards.FirstFailureOfFour | components/CommentBoard.tsx:54-57 | four checks in a row read as an early-return chain |
| SurveyCommon.RemoveAll | components/SurveyCommon.tsx:25 | `filter(i => i !== x)` keeps exactly the other entries, and changes nothing when `x` is absent |
| SurveyCommon.RemoveAllConcat | components/SurveyCommon.tsx:25 | filtering distributes over concatenation, so the kept entries stay in their order, each as often as before |
| SurveyCommon.RemoveAllSingle | components/SurveyCommon.tsx:25 | a single entry is kept exactly when it differs from the removed value |
| SurveyCommon.RemoveAllDistinct | components/SurveyCommon.tsx:25 | filtering keeps a repetition-free list repetition-free |
| SurveyCommon.RemoveAllAppended | components/SurveyCommon.tsx:24-31 | filtering out a value just appended, and absent before, gives the list back |
| SurveyCommon.ToggleInterest | components/SurveyCommon.tsx:22-34 | a selected interest is removed by the order-keeping filter `RemoveAll`; a new one is refused exactly when 3 are selected, and otherwise appended at the end |
| SurveyCommon.ToggleFlipsMembership | components/SurveyCommon.tsx:22-34 | an accepted toggle flips the membership of the toggled interest and of no other |
| SurveyCommon.ToggleKeepsBound | components/SurveyCommon.tsx:23-33 | starting from at most 3 interests, no toggle leads to more than 3, and a list without repetitions stays so |
| SurveyCommon.AddThenRemoveRestores | components/SurveyCommon.tsx:24-31 | adding an absent interest under capacity and toggling it again restores the original list |
| SurveyCommon.ValidateCommon | components/SurveyCommon.tsx:36-42 | the first form proceeds exactly when the trimmed name is non-empty, an affiliation and a theme are set, and an interest is chosen |
| SurveyCommon.ValidateCommonIsFirstFailure | components/SurveyCommon.tsx:37-41 | the chain reports the first failure of the checks name, affiliation, interests, theme, in that order |
| SurveyGrade.ValidateGrade | components/SurveyGrade.tsx:13-17 | the second form proceeds exactly when title and content are both non-blank |
| SurveyGrade.ValidateGradeIsFirstFailure | components/SurveyGrade.tsx:14-15 | the title is checked before the content, so with both blank only the title is reported |
| SurveyGrade.TrimmedEmptyBlocks | components/SurveyGrade.tsx:14-15 | a title or content that trims to nothing blocks the form |
| App.MergeOverridesExactly | App.tsx:26-28 | `{...prev, ...data}` overrides exactly the supplied fields with the supplied values and keeps the others |
| App.MergeLaws | App.tsx:26-28 | the empty patch changes nothing, a patch applied twice acts once, and two patches in a row act as their combination |
| App.AppState.constructor | App.tsx:12-24 | the application starts on the main screen with the initial record and no design |
| App.AppState.UpdateUserData | App.tsx:26-28 | the record becomes the merge of the old record and the patch; screen and design are kept |
| App.AppState.ResetAndHome | App.tsx:31-35 | the record is the initial one, the design is cleared and the main screen is shown |
| App.AppState.Start | App.tsx:40-44 | starting clears the record and opens the first form |
| App.AppState.ChangeInterest | components/SurveyCommon.tsx:22-34 | the interests are replaced by the toggled list when the toggle is accepted; a refused toggle changes nothing |
| App.AppState.SubmitCommon | App.tsx:51 | the second form opens exactly when the first form's checks pass, and the verdict is theirs |
| App.AppState.SubmitGrade | App.tsx:61 | the animation starts exactly when the second form's checks pass |
| App.AppState.BackToCommon | App.tsx:62 | back from the second form to the first, answers kept |
| App.AppState.AnimationComplete | App.tsx:70 | the end of the animation opens the design picker |
| App.AppState.ConfirmDesign | App.tsx:78-81 | the confirmed design is recorded and the tree is shown, which it is only with a design |
| App.AppState.GoRanking | App.tsx:91 | the tree and the comment board lead to the ranking, keeping the design |
| App.AppState.GoComments | App.tsx:92 | the tree leads to the comment board, keeping the design |
| App.AppState.BackToTree | App.tsx:97-107 | back from the ranking or comments: the tree when a design exists, otherwise a full reset to the main screen |
| App.AppState.NewCard | App.tsx:109-112 | "new card" ends on the first form with the initial record and no design |
| App.ForwardChain | App.tsx:40-81 | answers that pass both forms lead from the main screen through the forms, the animation and the picker to the tree, with the design recorded |
| CommentBoard.ValidateSend | components/CommentBoard.tsx:53-57 | a comment is sent exactly when a post is open, the trimmed nickname is non-empty, an affiliation is set and the trimmed text is non-empty |
| CommentBoard.ValidateSendIsFirstFailure | components/CommentBoard.tsx:54-57 | the checks run in the order post, nickname, affiliation, text, and the first failure is reported |
| CommentBoard.Board.constructor | components/CommentBoard.tsx:13-24 | the board opens loading, with no post open and an empty form |
| CommentBoard.Board.PostsLoaded | components/CommentBoard.tsx:32-37 | the loaded posts are shown and loading ends; nothing else changes |
| CommentBoard.Board.SelectPost | components/CommentBoard.tsx:39-47 | opening a post clears its comments, the nickname, affiliation, text and status, and starts loading comments |
| CommentBoard.Board.CommentsLoaded | components/CommentBoard.tsx:48-50 | the fetched comments are shown and comment loading ends |
| CommentBoard.Board.ClosePost | components/CommentBoard.tsx:141 | closing leaves no post open and changes nothing else |
| CommentBoard.Board.SendComment | components/CommentBoard.tsx:53-76 | a refused comment changes nothing. A sent one shows "전송 완료!", clears the text, keeps nickname and affiliation and refreshes the comments. A failed one shows "전송 실패" and keeps the text. The board is not left sending |
| Customizer.OrnamentCustomizer.constructor | components/OrnamentCustomizer.tsx:11-13 | the picker starts yellow, with the yellow palette and its "plain" pattern |
| Customizer.OrnamentCustomizer.ThemeEffect | components/OrnamentCustomizer.tsx:15-21 | the colour follows the theme, the palette is the colour's, and its first ("plain") pattern is selected |
| Customizer.OrnamentCustomizer.PatternClick | components/OrnamentCustomizer.tsx:67-70 | a thumbnail click selects that pattern of the shown palette; the selection stays in the palette of the current colour |
| Customizer.OrnamentCustomizer.Confirm | components/OrnamentCustomizer.tsx:23-25 | confirming hands over the current selection unchanged, a pattern of the current colour's palette |
| TreeScene.OccupiedPanels | components/TreeScene.tsx:88-97 | a panel is occupied exactly when an ornament of the visitor's own room sits at the slot on it: by equal slot number, or, for a record without one, by height within 0.05 |
| TreeScene.AvailableBelow | components/TreeScene.tsx:99 | the unoccupied panel numbers below the bound, in increasing order |
| TreeScene.AvailablePanels | components/TreeScene.tsx:37-99 | a panel is free exactly when it is one of the 18 panels and not occupied |
| TreeScene.TreeFullNeedsEighteen | components/TreeScene.tsx:99-104 | the limit notice can only open when at least 18 ornaments are on the tree |
| TreeScene.LegacyAtSlotHeightMatchesOneSlot | components/TreeScene.tsx:90-95 | a record without a slot number that hangs exactly at a slot's height is counted at that slot and no other |
| TreeScene.Visible | components/TreeScene.tsx:160 | the room view holds exactly the ornaments of the viewed room |
| TreeScene.VisibleAppend | components/TreeScene.tsx:160 | the room view keeps list order: it distributes over concatenation |
| TreeScene.VisibleIdempotent | components/TreeScene.tsx:160 | filtering a room view by its room again changes nothing |
| TreeScene.PanelOrnaments | components/TreeScene.tsx:392 | a panel shows exactly the room's ornaments with its panel number |
| TreeScene.PanelsPartitionView | components/TreeScene.tsx:379-392 | with every panel number in 0..17, the 18 panels together show each ornament of the room exactly once |
| TreeScene.FindFirst | components/TreeScene.tsx:58 | `find`: the position of an ornament whose owner's name or id equals the term, with none before it; `None` when none matches |
| TreeScene.Find | components/TreeScene.tsx:58 | the scan returns the ornament `FindFirst` points to |
| TreeScene.PlacementTakesPanel | components/TreeScene.tsx:119-131 | a new ornament on a free panel is well formed, and afterwards its panel is no longer free at that slot in that room |
| TreeScene.Scene.constructor | components/TreeScene.tsx:18-30 | the scene opens on the visitor's own room at rotation 20, loading, with nothing placed or saving |
| TreeScene.Scene.OrnamentsLoaded | components/TreeScene.tsx:46-51 | the loaded ornaments replace the list and loading ends |
| TreeScene.Scene.SetSearchTerm | components/TreeScene.tsx:186 | the search box holds the typed text |
| TreeScene.Scene.Search | components/TreeScene.tsx:53-73 | a blank term changes nothing. Otherwise the first ornament matching the trimmed term by name or id is found; its room is shown, its panel is turned to the front and the term is cleared. A miss changes nothing |
| TreeScene.Scene.SlotClick | components/TreeScene.tsx:75-143 | see below the table |
| TreeScene.Scene.CloseLimitModal | components/TreeScene.tsx:436-441 | the limit notice closes and nothing else changes |
| TreeScene.Scene.Rotate | components/TreeScene.tsx:230-231 | the arrows turn the tree by 30 degrees either way |
| TreeScene.Scene.SelectRoom | components/TreeScene.tsx:211-214 | a room tab shows that room |
| Api.SplitContentAsWritten | utils/api.ts:20-22 | the client's split: present exactly when the content holds `\|\|\|`; the message is the content up to the first occurrence (`indexOf`); the metadata text runs from after it to the next occurrence or the end |
| Api.ContentRoundTripAsWritten | utils/api.ts:21-24 | the client's split recovers message and metadata text when the message cannot form a separator with the one appended (`message + "\|\|"` holds none) and the metadata text is separator-free |
| Api.ContentCutShortAsWritten | utils/api.ts:21-22 | the converse: when `message + "\|\|"` holds the separator, the message read back is a strict prefix of the one written |
| Api.FirstSeparatorCutsTrailingBar | utils/api.ts:21-22 | counterexample: the message "a\|" is read back as "a" with metadata text "\|{}" |
| Api.SplitContent | utils/api.ts:21-24 | corrected split at the last separator: present exactly when the content holds one; the content is the encoding of the two parts; the metadata text is separator-free |
| Api.ContentRoundTrip | utils/api.ts:73 | any message, separators included, comes back from its encoding when the metadata text is separator-free and does not start with `\|` |
| Api.SplitsAgreeOnSingleSeparator | utils/api.ts:21-22 | where the client's split does round-trip, the corrected split gives the same parts |
| Api.DecodePostCases | utils/api.ts:18-43 | a post yields an ornament exactly when its content is non-empty, holds the separator, and its metadata text parses with both `x` and `y`; otherwise it is dropped; the ornament's design, panel, slot and coordinates are the parsed metadata's, its message the text before the metadata; it takes the post's id, its name as user id and name, and its affiliation |
| Api.DecodePostAsWrittenCases | utils/api.ts:18-43 | the same cases for the client as written, with message and metadata text from the first-separator split |
| Api.CollectAppend | utils/api.ts:18-45 | decoding a list distributes over concatenation, so a dropped post does not disturb the others and order is kept |
| Api.CollectLength | utils/api.ts:18-45 | there are never more ornaments than posts |
| Api.CollectKeeps | utils/api.ts:27-39 | every decodable post contributes its ornament |
| Api.CollectFrom | utils/api.ts:28-39 | every decoded ornament is the decoding of some post |
| Api.CollectNone | utils/api.ts:18-45 | posts that yield nothing contribute nothing |
| Api.PlainPostsYieldNothing | utils/api.ts:20 | posts without the separator yield no ornament |
| Api.FetchOrnaments | utils/api.ts:15-47 | the push loop over the posts builds exactly the decoded list |
| Api.StripContent | utils/api.ts:122-126 | content without the separator is kept; otherwise the result is the message of the content's encoding |
| Api.StripContentAsWritten | utils/api.ts:123-125 | the client's strip: the content is cut at the first occurrence of the separator (`indexOf`), so the result holds none |
| Api.StripRecoversMessage | utils/api.ts:122-126 | with the corrected split, stripping an ornament post's content gives back the message it was written with |
| Api.StripRecoversMessageAsWritten | utils/api.ts:122-126 | with the client's strip, the message comes back exactly when `message + "\|\|"` holds no separator |
| Api.StripPostContents | utils/api.ts:122-127 | every post is kept, in order, with only its content stripped |
| Api.SaveThenDecode | utils/api.ts:64-83 | with the corrected split, a saved placement, listed back, decodes to the placed ornament with the survey content as message |
| Api.SaveThenDecodeAsWritten | utils/api.ts:18-83 | with the client's decoder, a saved placement comes back as the placed ornament exactly when `content + "\|\|"` holds no separator |
| Api.InterestsJoined | utils/api.ts:79 | interests are sent as one text: the first interest, then each further one after ", " |
| Ranking.Normalize | components/RankingPage.tsx:34 | the cleaned name is no longer than the raw one and holds no white space, no '/' and no upper-case ASCII letter |
| Ranking.NormalizeConcat | components/RankingPage.tsx:34 | cleaning works character by character |
| Ranking.NormalizeIdempotent | components/RankingPage.tsx:34 | a cleaned name stays as it is when cleaned again |
| Ranking.CategoriesListed | components/RankingPage.tsx:29 | every category is listed, once |
| Ranking.CategoriesAreOfficial | components/RankingPage.tsx:29 | the categories' labels are the official list, item for item |
| Ranking.ClassifyFollowsRules | components/RankingPage.tsx:36-45 | the if-chain is the first-match reading of the keyword table |
| Ranking.FirstMatchIn | components/RankingPage.tsx:36-45 | the first-match reading gives "기타" or one of the rules' categories |
| Ranking.FirstMatchNone | components/RankingPage.tsx:45 | "기타" exactly when no rule's keyword occurs |
| Ranking.FirstMatchIsFirst | components/RankingPage.tsx:36-44 | a rule's category is chosen exactly when one of its keywords occurs and no earlier rule's does |
| Ranking.ClassifyPicksFirstMatchingRule | components/RankingPage.tsx:34-45 | every item falls into exactly one category: the first matching rule's in priority order, or "기타" |
| Ranking.InitialCounts | components/RankingPage.tsx:28-29 | every official category starts at zero |
| Ranking.CountsOf | components/RankingPage.tsx:32-49 | every category stays a key, so the guard never drops an item's count |
| Ranking.EtcNames | components/RankingPage.tsx:30-53 | the "기타" names are listed without repetition |
| Ranking.CountsOfSnoc | components/RankingPage.tsx:47-49 | each item adds its count to its own category |
| Ranking.EtcNamesSnoc | components/RankingPage.tsx:51-53 | each "기타" item adds its raw name when it is not yet listed |
| Ranking.EtcNamesMembers | components/RankingPage.tsx:51-53 | a name is listed under "기타" exactly when some item with that raw name falls there |
| Ranking.CountsConserveTotalOver | components/RankingPage.tsx:47-49 | over any repetition-free list of all categories, the counts add up to the items' counts |
| Ranking.CountsConserveTotal | components/RankingPage.tsx:47-49 | the category counts add up to the sum of the items' counts |
| Ranking.CountsNonNegative | components/RankingPage.tsx:47-49 | non-negative item counts give non-negative category counts |
| Ranking.Entries | components/RankingPage.tsx:56-61 | one row per category in list order, with its label, its count, and the "기타" names joined with ", " only on the "기타" row |
| Ranking.SumOfEntries | components/RankingPage.tsx:56-61 | the rows' counts add up to the categories' total |
| Ranking.KeepPositive | components/RankingPage.tsx:62 | exactly the rows with a positive count are kept |
| Ranking.KeepPositiveSum | components/RankingPage.tsx:62 | dropping rows whose count is zero keeps the sum |
| Ranking.InsertPermutes | components/RankingPage.tsx:63 | insertion adds exactly the new row: the result is a permutation of the old rows and the new one |
| Ranking.InsertSorted | components/RankingPage.tsx:63 | inserting into a list ordered by count keeps it ordered |
| Ranking.InsertSum | components/RankingPage.tsx:63 | insertion adds the row's count to the sum |
| Ranking.SortByCountDesc | components/RankingPage.tsx:63 | the sort orders rows by count, highest first, and is a permutation |
| Ranking.SortKeepsSum | components/RankingPage.tsx:63 | sorting keeps the sum |
| Ranking.TallyStep | components/RankingPage.tsx:32-53 | the counts and "기타" names after one more item are those before it, updated by that item alone |
| Ranking.ZeroCounts | components/RankingPage.tsx:28-29 | the first loop leaves exactly the official categories as keys, each at zero |
| Ranking.TallyItem | components/RankingPage.tsx:33-53 | the loop body adds the item's count to its category when that category is a key, and files the raw name under "기타" only the first time it falls there |
| Ranking.Tally | components/RankingPage.tsx:28-54 | after the second loop the counts and "기타" names are those of all the items |
| Ranking.ProcessRankingData | components/RankingPage.tsx:27-66 | the two loops and the final map, filter and sort compute exactly the ranking of the items |
| Ranking.RankingSortedPositive | components/RankingPage.tsx:62-63 | the rows are ordered by count, highest first, and every count is positive |
| Ranking.RowOfCategory | components/RankingPage.tsx:56-62 | a category has a row exactly when its count is positive |
| Ranking.RowsAreCategoryRows | components/RankingPage.tsx:56-62 | every row is the row of a category with a positive count |
| Ranking.RankingRows | components/RankingPage.tsx:56-62 | the rows are exactly the rows of the categories with a positive count |
| Ranking.RankingInterestsDistinct | components/RankingPage.tsx:29-58 | every row's label is an official category, no label appears twice, and there are at most 8 rows |
| Ranking.RankingLength | components/RankingPage.tsx:56-62 | there are at most as many rows as categories |
| Ranking.RankingNoDuplicateRows | components/RankingPage.tsx:56-63 | the rows are pairwise different |
| Ranking.RankingConservesTotal | components/RankingPage.tsx:47-62 | with non-negative counts, the rows' counts add up to the sum of the items' counts |

What `TreeScene.Scene.SlotClick` states:

- After the visit's ornament is placed, or while a save runs, a click changes nothing. The outcome is
  AlreadyPlaced exactly in the first case and Busy exactly in the second.
- The limit notice opens exactly when no panel of the visitor's own room is free at that slot. Nothing else
  changes then.
- Otherwise the chosen panel is one of the 18 panels and is not occupied.
- A successful save appends exactly the new ornament. It has:
  - that panel and the slot;
  - the slot's orb position;
  - the card text as its message.

  The save also marks the visit as placed and turns that panel to the front.
- A failed save changes nothing and reports SaveFailed; SaveFailed is reported exactly then.
- A click that passes the first two gates never leaves the scene saving.

## Left out

- HTTP, JSON and the post store: the answers of `fetch` (the post list, the save result, the comments) are
  parameters. `JSON.parse` and `JSON.stringify` are the function parameters `parse` and `stringify` of
  `Api.DecodePost` and `Api.SaveThenDecode`. The catch-to-empty and catch-to-false paths are not modelled.
- `getInterestRanking`, `getComments` and `saveComment` themselves are not modelled beyond their answers.
- Randomness and clocks:
  - `Math.random` in the panel choice is a nondeterministic choice from the free panels.
  - The `temp-` id from `Date.now` is the opaque parameter `tempId`.
  - The random fallback id of a post without `ID` is not modelled: `Api.DecodePost` always uses the post's id.
- Api.DecodePost, Api.FetchOrnaments, Api.StripContent, Api.StripPostContents, Api.StripRecoversMessage and
  Api.SaveThenDecode: these use the corrected split at
  the last separator, not the client's first-separator split. The client's behaviour is kept in
  `Api.SplitContentAsWritten`, `Api.StripContentAsWritten` and `Api.DecodePostAsWritten`, whose round trips are
  `Api.StripRecoversMessageAsWritten` and `Api.SaveThenDecodeAsWritten` (see Findings).
- Floating point: coordinates are `real`. The 0.05 tolerance test is exact, not IEEE rounding.
- Unicode: `trim` uses the JavaScript white-space set, and `toLowerCase` maps ASCII letters only. Hangul is
  unaffected by it. No other case mapping or normalisation is modelled.
- Text.IsBlank is defined as "only white space". Its equivalence with the client's `!s.trim()` is the lemma
  `Text.BlankIffTrimEmpty`.
- Browser side effects:
  - `alert` messages are reduced to the `Verdict` / `SlotOutcome` results.
  - `window.innerWidth`, the focus side and the ornament detail card (`focusedOrnament`) are not modelled.
- Timers: the hint timeout, the status-clear timeout after a sent comment, and the envelope animation.
  - App.AppState.NewCard: the `setTimeout(..., 0)` that opens the first form after the reset is modelled as
    immediate.
- Concurrency: the interleaving of asynchronous handlers and the cross-session race on slot occupancy. Each
  handler is one atomic step, with the outcome of its request passed in.
- Rendering: JSX/CSS, the ranking's circle layout, the slot buttons shown only while nothing is placed or saving
  (the handler's own gates are modelled), and components/SnowEffect.tsx, components/MainPage.tsx and
  components/EnvelopeAnimation.tsx.
- Form inputs that only copy a typed value into state (the survey fields, the comment nickname, affiliation and
  text) are covered by `App.AppState.UpdateUserData`; the comment-form setters are not written out.
- Ranking categories are the datatype `Ranking.Category`; its `Label()` gives the official strings, and
  `Ranking.CategoriesAreOfficial` ties the two.
- App.AppState.BackToTree: under `App.AppState.Valid` (a design exists on the tree, ranking and comment screens)
  the reset branch cannot be taken. The method still models it, because the source has it.

## Findings

| source | as written | input that shows it | evidently intended | confidence | as-written member | corrected member |
|---|---|---|---|---|---|---|
| utils/api.ts:21-24 | an ornament post is read with `split("\|\|\|")`, taking the text before the FIRST separator as the message and the next piece as the metadata | a card text ending in `\|`, such as "a\|": it is saved as "a\|\|\|\|{…}" and read back as message "a" with metadata text "\|{…}", which does not parse, so the ornament silently disappears (the same cut happens to the comment board's stripped content, utils/api.ts:123-125) | the message is everything before the separator that was appended, so any card text comes back | not executed | Api.FirstSeparatorCutsTrailingBar, Api.ContentCutShortAsWritten, Api.SaveThenDecodeAsWritten (Api.SplitContentAsWritten) | Api.ContentRoundTrip (Api.SplitContent) |
