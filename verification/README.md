# Proofs about Raydar's resume renderers, navigation and Applicants page

A Dafny 4.11 project that models five parts of the repository and proves what they are for.
`dafny verify dfyconfig.toml` checks all of it.

## What is modelled

**The resume layout engine** (`resume-renderer-v2/app.py`). A validated tree is word-wrapped (`Text`), laid out in two
columns over at most two pages (`Column`, `ResumeLayout`), measured (`Occupancy`), inspected (`Preflight`) and retried
over a fixed schedule of densities (`Render`). `Column` says as functions what the typesetter does; `ResumeLayout` is
the class with its pages, cursor and page index updated in place, proved equal to those functions; `Reading` says which
words a reader finds on wrapped lines, `Masthead` sets the name, headline and contact line; `Geometry`, `Layout`,
`Content`, `Keeping`, `Density`, `Pages` and `Ats` prove what the functions promise, `Erasure` and `NameParity` what
deleting the name from text and pages does, and `PlainFont`, `SampleColumn`, `LongLink`, `LongName` and `LeftBehind` hold
resumes for which a promise fails. `AstRules`, `AstValidation` and `AstContext` are `validate_ast`: the checks, what passing
them amounts to, and the walk with its mutable context.

**The in-app back protocol** (`nav-history.js`). `NavHistory` is a transition system: the owner's stack, the browser's
entries, closers in every frame, messages and traversals in flight, in any order. `NavUnwinding` proves what a back
undoes, `NavTabs` that entries and tabs agree. `NavPage` has the handlers as methods, each proved to take the system's step.

**The Applicants client** (`applicants.html`). `Feed` and `Applicants` are the decision overlay, the numbered list
requests and the appended pages as a transition system that includes the server's record; `Overlay` and `Paging` prove
its safety over whole runs; `ApplicantsPage` has the handlers as methods. `VirtualList` is the windowed list and its
self-tuning row height.

**The fact pipeline** (`resume-renderer/app.py`). `Facts`, `ResumeLines`, `Tailoring` and `Grounding`: facts of the
history and of the resume's lines, the check on an untrusted selection, and the document.

**The Master Inbox address** (`master-inbox-route.js`). `Utf8` and `Urlencoded` follow the Encoding Standard, section
8.1.1, and the URL Standard, sections 5.1 and 5.2; `InboxRoute`, `LongAddress` and `CutAddress` are the route printer and
parser, within the address limit and over it.

## What the proofs found

- The words of the page are those of the extracted text exactly when no word is wider than its column
  (`Ats.AtsParity`). A longer one, such as an address in the sidebar, is cut: the text has it as one word, the page as
  several. `LongLink.LongLinkBreaksParity` is a resume that fits one page and fails this way; the renderer re-raises that
  failure without trying another candidate.
- Cuts are not the only way that check fails. It deletes the candidate's name from text and pages by a pattern with plain
  blanks. A name that is set on two lines, at the head of page one or where page two repeats it, is deleted from the text
  and left on the page. With the name deleted the words agree exactly when no word is cut and the name takes one line
  wherever it stands (`NameParity.ParityWithoutName`); `LongName.LongNameBreaksParity` is a resume in which no word is cut
  and the check fails all the same.
- A section heading reserves 6 points under its lines and uses 10 (lines 811, 828 and 834 of the layout engine). Its first
  entry stays with it exactly when the 4 missing points are free too (`Keeping.HeadingAndFirstEntry`). In
  `LeftBehind.HeadingIsLeftBehind`, a resume that overflows one page at every density, the first two-page candidate sets a
  heading alone at the foot of page one. A heading of metric cards reserves 49 points for a first row that can need more,
  and is then left behind without a continuation heading (`Keeping.MetricsHeadingAndFirstRow`; a row of 67 points in
  `LeftBehind.CardsHeadingIsLeftBehind`).
- An entry that fits a page, but not under a continuation heading, overflows the layout wherever it does not fit below
  the cursor, although the next page could hold it (`Keeping.FittingEntryOverflows`); as the first of its section it can
  be impossible to place at all (`Keeping.FirstEntryTooTallForItsHeading`; such a resume in
  `LeftBehind.FittingEntryIsRefused`).
- The minimum of 40 per cent on page two is compared after rounding to four places, so a page passes from 39.995 per cent
  on (`Preflight.FortyPercent`).
- Two guards of the layout engine never act: the cap of occupancy at 1.0 (`Occupancy.AtMostPrintable`) and the skip of a
  two-page candidate that came out one page long (`Pages.SecondPageIsUsed`).
- Smaller type can take more lines once a word has to be cut (`Text.CutWordsMayGrow`, a bullet at 9.2 and 8.8 points).
- Picking a tab while a screen is open breaks the next in-app back: it lands one entry short and the screen stays on
  the stack (`NavUnwinding.PickedTabBreaksBack`, `NavUnwinding.PickedTabRun`). Seeding while a screen is open makes the
  entry dishonest (`NavHistory.SeedingComesFirst`, `NavHistory.LateSeedingRun`).
- A second in-app back asked for before the first one's traversal has landed counts the same screens again and overshoots
  (`NavUnwinding.BackBehindOthers`): two screens closed in a row leave the page one entry below the list they were
  opened from (`NavUnwinding.TwoBacksRun`).
- A page that is reloaded on a screen's entry has nothing open, and its entry says otherwise until tabs are registered, a
  screen is rebuilt or a traversal lands (`NavHistory.LoadedExactly`, `NavHistory.LoadedIsRepaired`; a run that ends there
  in `NavHistory.ReloadedRun`).
- A row height that grows by a single pixel is adopted without putting the reader back, so the row at the top drifts
  (`VirtualList.ReaderStaysExactly`; by ten pixels in `VirtualList.OnePixelDrifts`). The comment above the code says that
  the reader is kept on the same row.
- A list that shrinks so far that the browser pulls the offset back can be painted without its topmost visible rows until
  the next scroll event (`VirtualList.PaintedWindowCovers`; in `VirtualList.WindowCanMissRow` the reader is half way down a
  list of forty rows when twenty of them go).
- A selector answer with a row that is not an object passes the first gate and then raises an error that fails the whole
  request with a 500, instead of degrading to the plain order (`Grounding.FailsExactly`); every history with a job has
  such an answer (`Grounding.NumberBehindRowsFails`).
- A search text cut at 1000 units can lose half a surrogate pair, and then its address does not read back
  (`InboxRoute.CutCanSplitPair`, `InboxRoute.RoundTripExactly`). An address over 2000 units loses its conversation id
  (`LongAddress.LongAddressLosesId`, `LongAddress.SlashesLoseId`). Without an id the cut falls into the search text, and
  the address reads back only if the broken end happens to read as what was lost, which takes a U+FFFD or a percent sign
  there (`CutAddress.SearchRoundTripExactly`, `CutAddress.SearchIsLost`, `CutAddress.ReplacementMends`).

## Assumptions

- Layout: a glyph is at most four times as wide as the type size, so each fits the narrowest column; widths add up and
  scale with the size. Lengths are exact reals.
- Extracted text: a reader of the PDF finds the runs of a line one after the other, and lines apart. Capitals fold to
  what the word itself folds to (not so for the dotless i), leave blanks where they are, and the headline in capitals and
  the joined contact line render as themselves.
- Deleting the name: it renders as its words with single blanks between them and is not empty; a letter matches itself
  whatever its case; and the name stands nowhere else in the resume.
- Rendering: the PDF checks raise neither the underfilled code nor the page-limit code themselves.
- Overlay: request ids are never reused; the server keeps what it recorded until this page's undo is served while its
  request is in flight; a saved reply means that the decision was recorded; nobody else undoes; a list answer carries the
  server's decision for every row it lists. Paging: the server answers in pages, and marks rows with their generation.
- Navigation: closers do not call back into the navigation code, and messages between one frame and the owner arrive in
  the order they were sent.
- Grounding: job ids are unique where the statement says so.

## Model

| member | source | states |
|---|---|---|
| Text.SplitLongWord | resume-renderer-v2/app.py:526-540 | The loop cuts a word into exactly the pieces `SplitPieces` describes: greedily, one character at a time, opening a new piece when the next character would cross the width |
| Text.SplitPiecesCorrect | resume-renderer-v2/app.py:526-540 | Cutting loses no character, yields no empty piece, and every piece fits the width whenever each glyph does |
| Text.WrapNode | resume-renderer-v2/app.py:543-573 | The loop's lines are those of the placement fold, word by word and piece by piece, with its running width, separators and the cut of over-long words |
| Text.WrappedCorrect | resume-renderer-v2/app.py:543-573 | For every node: the lines hold the node's characters in order once separators are removed, the running width is always the open line's width, no line begins with a separator, and each line is at most the column plus a hundredth of a point |
| Text.WrappedShrinks | resume-renderer-v2/app.py:543-573 | When no word is wider than the column, a smaller type size never takes more lines |
| Text.CutWordsMayGrow | resume-renderer-v2/app.py:493-573 | The condition on long words is needed: in a bullet of the main column, a text that takes two lines at 9.2 points and three at 8.8 |
| Reading.WrappedReads | resume-renderer-v2/app.py:526-573 | For every node: the blank-separated words read off its lines are the pieces of its words in order, so no two words run together and none is split but by a cut |
| Reading.PiecesExactly | resume-renderer-v2/app.py:526-540 | Those pieces are the words themselves if no word is wider than the column; otherwise there are more of them than words |
| Geometry.FlowColumnDescends | resume-renderer-v2/app.py:760-993 | A whole column, over all its pages, draws downwards: each draw's ink stays inside the column and the content area and clear of what was drawn before on its page, for reservation and drawing done with their different arithmetic |
| Geometry.FlowCardsDescends | resume-renderer-v2/app.py:943-993 | The two-column metric grid: each row's cards stay inside the column and beside, above or below one another, never across |
| Geometry.PlaceEntryDescends | resume-renderer-v2/app.py:841-874 | One entry, with or without its continuation heading, keeps the column descending |
| Geometry.RowsAlike | resume-renderer-v2/app.py:943-993 | Metric cards are set the same at every density and page count |
| Layout.ColumnsPassPreflight | resume-renderer-v2/app.py:604-635 | For every well-formed resume, each density and page count: every text box the columns draw lies inside its column and between the bottom of the content area and the page's content top, and no two of them overlap |
| Layout.DrawBoxesApart | resume-renderer-v2/app.py:1110-1114 | Two draws of a column that stay clear of each other have no overlapping boxes under the tolerance of `boxes_overlap` |
| Content.NothingLost | resume-renderer-v2/app.py:730-758 | If layout does not overflow, the columns draw exactly their scripts: profile, every section title, header and body node once and in order, wrapped in its style. The words read off the lines are each block's pieces, and they are the resume's own words if and only if no word is wider than its column. Everything drawn is on a page that is kept |
| Content.ColumnNamed | resume-renderer-v2/app.py:760-900 | The script of a column holds every title and node once, in document order, with all its words |
| Content.FlowColumnDraws | resume-renderer-v2/app.py:760-875 | One column draws the blocks of its script exactly once, in document order, and ends on content |
| Content.DrawCardDraws | resume-renderer-v2/app.py:943-993 | Cutting a card's labels to two drops nothing of a card that passed validation |
| Content.HeadingsPrecedeContent | resume-renderer-v2/app.py:807-861 | After every heading and continuation heading there is content of its column on the same or a later page, so trimming pages never leaves a heading behind |
| Masthead.SetName | resume-renderer-v2/app.py:667-682 | The loop over the sizes sets the name at the largest whole size from 29 down to 21 points at which it takes one line, and at 21 when it takes more at each of them |
| Ats.AtsParity | resume-renderer-v2/app.py:1141-1152 | Up to case, the bag of words of `ats_text`, name, headline and contact line included, is the bag of words read off the lines drawn, without continuation headings, plus the bars and dashes the text adds, if and only if no word is wider than the column it is set in |
| Ats.JoinReads | resume-renderer-v2/app.py:689-691 | Texts joined by a bar read the same with one blank or with two on either side of it |
| LongLink.LongLinkBreaksParity | resume-renderer-v2/app.py:1255-1259 | A well-formed resume with an address of forty characters in the sidebar: it fits one page at the first density tried, and its page and its text disagree |
| Erasure.LinesOfText | resume-renderer-v2/app.py:543-573 | The lines of a node are stretches of its text: the whole of it when there is one line, each shorter than it when there are more |
| Erasure.OwnLinesExactly | resume-renderer-v2/app.py:1164-1165 | Deleting a node's text from its own lines deletes all of it when it takes one line, and nothing when it takes more |
| NameParity.ParityWithoutName | resume-renderer-v2/app.py:1155-1176 | After the name has been deleted from text and pages, the bags of their words agree, up to case and the marks of the text, if and only if no word is cut and the name takes one line at the head of page one and, where page two is used, on page two |
| LongName.LongNameBreaksParity | resume-renderer-v2/app.py:1155-1165 | A well-formed resume whose name takes two lines at 21 points: it is laid out on one page at the first density tried, no word is cut, and yet text and page disagree once the name is deleted |
| Keeping.EveryEntryKept | resume-renderer-v2/app.py:902-941 | Every entry: its header and first bullet share a page, and an entry whose total height fits a page is not split |
| Keeping.HeadingAndFirstEntry | resume-renderer-v2/app.py:807-875 | A heading reserves 6 points under its lines and consumes 10: where the reservation puts it, its first entry is on the heading's page if and only if the other 4 points are free as well; otherwise the entry opens the next page under a continuation heading |
| Keeping.MetricsHeadingAndFirstRow | resume-renderer-v2/app.py:807-845 | The first row of metric cards is on its heading's page if and only if the row and 10 points fit under the heading's lines; otherwise it opens the next page under no heading |
| Keeping.FittingEntryOverflows | resume-renderer-v2/app.py:841-873 | An entry that fits a page overflows the layout if and only if it fits neither below the cursor nor on the next page under a continuation heading |
| Keeping.FirstEntryTooTallForItsHeading | resume-renderer-v2/app.py:807-873 | A section whose first entry fits a page, but neither with the section's heading nor with the continuation heading, overflows from every cursor |
| LeftBehind.HeadingIsLeftBehind | resume-renderer-v2/app.py:807-861 | A well-formed resume that overflows one page at all four densities; the first two-page candidate lays it out with a section heading at the foot of page one and a continuation heading next |
| LeftBehind.CardsHeadingIsLeftBehind | resume-renderer-v2/app.py:807-845 | The same for a heading of metric cards, whose first row opens page two under no heading |
| LeftBehind.FittingEntryIsRefused | resume-renderer-v2/app.py:807-873 | A well-formed resume that overflows one page at all four densities, with an entry that fits a page but not under a heading: the first two-page candidate overflows as well |
| Keeping.PlaceEntryKept | resume-renderer-v2/app.py:841-873 | The entry loop draws an entry together, after at most one continuation heading on the same page |
| Density.OnePageEntry | resume-renderer-v2/app.py:841-873 | On one page an entry is placed exactly when its whole height and two points fit: reserving the mere minimum never helps |
| Density.FitsOnePageFromHereOn | resume-renderer-v2/app.py:493-498 | If no word is wider than its column, a resume that fits one page at some density fits one page at every later density |
| Pages.EmptySecondPage | resume-renderer-v2/app.py:730-758 | A two-page layout that leaves the second page empty draws exactly what the one-page layout draws |
| Pages.SecondPageIsUsed | resume-renderer-v2/app.py:1279-1284 | After a one-page overflow a two-page layout always uses its second page, so the guard that skips a candidate by its page count never acts |
| Occupancy.Merge | resume-renderer-v2/app.py:1092-1107 | The merge loop over sorted intervals computes the fold `Merged` |
| Occupancy.IntervalsOccupancy | resume-renderer-v2/app.py:1092-1107 | The result is the measure of the union of the clamped real boxes over the printable height |
| Occupancy.MeasureOfSorted | resume-renderer-v2/app.py:1092-1107 | Sorting and merging measures the union on every grid, whatever the order and nesting of the boxes |
| Occupancy.OnAnyGrid | resume-renderer-v2/app.py:1092-1107 | The reference measure does not depend on the grid it is taken on |
| Occupancy.CellsAreUniform | resume-renderer-v2/app.py:1092-1107 | No interval begins or ends inside a cell of its grid, so each cell is covered wholly or not at all: the reason why the reference sum is a measure |
| Occupancy.AtMostPrintable | resume-renderer-v2/app.py:1104-1107 | The cap at 1.0 never changes the result |
| Occupancy.MoreBoxesMoreOccupied | resume-renderer-v2/app.py:1092-1107 | Adding boxes never lowers occupancy, order does not matter, and it is at most one |
| Preflight.FindOverlap | resume-renderer-v2/app.py:1117-1138 | The nested loops find an overlap of two real boxes exactly when there is one |
| Preflight.GeometryPreflight | resume-renderer-v2/app.py:1117-1138 | Counts, clipping, overlap and per-page occupancy of the report are those of the pages |
| Preflight.OnlyHeadersFail | resume-renderer-v2/app.py:1117-1138 | With the columns' boxes on the page, every clipped box and one of any two overlapping boxes belongs to the page header |
| Preflight.FortyPercent | resume-renderer-v2/app.py:1260-1265 | The comparison of the occupancy rounded to four places succeeds exactly from 39.995 per cent on, a little below the forty it names |
| ResumeLayout.PageLayout.AddLines | resume-renderer-v2/app.py:604-635 | Appends one box for each line at its baseline, and returns how far the lines reach down |
| ResumeLayout.Measure | resume-renderer-v2/app.py:543-573 | Wrapping a node into a block with the size and leading given |
| ResumeLayout.HeaderMeasurements | resume-renderer-v2/app.py:877-894 | The blocks of an entry's header, with the styles of its section kind and column |
| ResumeLayout.BodyMeasurements | resume-renderer-v2/app.py:896-900 | The blocks of an entry's body |
| ResumeLayout.MetricSize | resume-renderer-v2/app.py:943-993 | The size loop of the metric: quarter points down until its words fit or the floor is reached |
| ResumeLayout.MeasureCard | resume-renderer-v2/app.py:943-993 | A card's metric and labels as measured |
| ResumeLayout.ResumeLayout.Draw | resume-renderer-v2/app.py:604-635 | One draw appends exactly its boxes to its page and leaves every other page alone |
| ResumeLayout.ResumeLayout.AdvanceTo | resume-renderer-v2/app.py:767-780 | Reservation: this page, the next one, or overflow, as `Advance` says |
| ResumeLayout.ResumeLayout.DrawEntry | resume-renderer-v2/app.py:917-941 | Drawing an entry, page break by page break, does what `PlaceEntry`'s drawing part specifies, and to no other box |
| ResumeLayout.ResumeLayout.DrawMetricRow | resume-renderer-v2/app.py:943-993 | One row of the grid is reserved and drawn as specified |
| ResumeLayout.ResumeLayout.DrawMetricGrid | resume-renderer-v2/app.py:943-993 | The grid loop, two cards at a time, does what `FlowCards` specifies |
| ResumeLayout.ResumeLayout.DrawNextEntry | resume-renderer-v2/app.py:841-875 | One turn of the entry loop, continuation heading included, does what `PlaceEntry` specifies |
| ResumeLayout.ResumeLayout.LayoutEntries | resume-renderer-v2/app.py:841-875 | The entry loop does what `FlowEntries` specifies |
| ResumeLayout.ResumeLayout.LayoutSection | resume-renderer-v2/app.py:807-840 | Heading, rule and body of a section as `FlowSection` specifies |
| ResumeLayout.ResumeLayout.LayoutSections | resume-renderer-v2/app.py:807-875 | The loop over the sections does what `FlowSections` specifies |
| ResumeLayout.ResumeLayout.LayoutColumn | resume-renderer-v2/app.py:760-875 | A column, its cursor and page index updated in place, does what `FlowColumn` specifies, overflow included |
| ResumeLayout.ResumeLayout.KeepPages | resume-renderer-v2/app.py:746-758 | Keeps the pages up to the last with real content, and always the first |
| ResumeLayout.ResumeLayout.Layout | resume-renderer-v2/app.py:730-758 | Both columns and the trim: the pages returned are those `LayoutOf` and `KeptPages` describe, or the layout overflows exactly when they do |
| Render.Inspect | resume-renderer-v2/app.py:1208-1266 | The verdict on finished pages, with the PDF checks as a given error |
| Render.Try | resume-renderer-v2/app.py:1269-1307 | One candidate: laid out, overflowed, skipped, underfilled, failed or accepted, as `Attempted` says |
| Render.RenderResume | resume-renderer-v2/app.py:1269-1307 | The loop over the six candidates returns the first attempt that is not retried, and otherwise underfilled in preference to the page limit |
| Render.TwoPagesNeverSkipped | resume-renderer-v2/app.py:1279-1284 | No two-page candidate that is reached is skipped by its page count |
| Render.TwoPageResult | resume-renderer-v2/app.py:1260-1307 | A two-page result implies that all four one-page layouts overflowed, and its second page is at least forty per cent occupied up to rounding |
| Render.OnePageResult | resume-renderer-v2/app.py:1269-1307 | A one-page result is the loosest density that fits; without over-long words every tighter one fits as well |
| Render.WhyItFailed | resume-renderer-v2/app.py:1298-1307 | Whatever the PDF checks object to: underfilled is raised exactly when some two-page candidate was underfilled and all were retried, none accepted and none rejected, the page limit exactly when all overflowed |
| Render.RenderedIsWhole | resume-renderer-v2/app.py:1269-1307 | The pages returned are all the pages of the candidate's layout, and every line of everything its two columns draw stands on its page |
| AstRules.FirstFrom | resume-renderer-v2/app.py:263-263 | The place `str.index` finds: the first occurrence, or none at all |
| AstRules.RunExactly | resume-renderer-v2/app.py:230-279 | Recording a document item by item succeeds exactly when its ids differ, no copy repeats but for one employer and one school, and the size limits hold; the counters are then the sums over the document |
| AstRules.PermittedExactly | resume-renderer-v2/app.py:221-227 | A repeat is permitted exactly when the two occurrences are one employer and one school label |
| AstContext.SortRanges | resume-renderer-v2/app.py:263-263 | Sorting the emphasis ranges by start and end keeps which of them overlap |
| AstContext.NeighboursApart | resume-renderer-v2/app.py:263-265 | Comparing neighbours of the sorted ranges finds an overlap exactly when any two ranges overlap |
| AstContext.CheckEmphasis | resume-renderer-v2/app.py:258-265 | Accepts emphasis exactly when it is at most three distinct, disjoint spans of the text |
| AstContext.Walker.TakeId | resume-renderer-v2/app.py:312-315 | Takes the id of a section or entry, or refuses a repeat |
| AstContext.Walker.RecordCopy | resume-renderer-v2/app.py:266-278 | Takes a node's copy, claims, emphasis and size into the context, or refuses a repeat or a tree too large |
| AstContext.Walker.ContentNode | resume-renderer-v2/app.py:230-279 | Accepts a node exactly when it is good by itself and the record takes it, and updates every field of the context by it |
| AstContext.Walker.ContentNodes | resume-renderer-v2/app.py:300-303 | A list of nodes, in order, with the label on the first only |
| AstContext.Walker.CheckEntry | resume-renderer-v2/app.py:324-351 | An entry, in order: id, header, body |
| AstContext.Walker.CheckEntries | resume-renderer-v2/app.py:323-351 | All entries of a section, stopped by the first that is refused |
| AstContext.Walker.CheckSection | resume-renderer-v2/app.py:310-377 | A section with its kind, placement, and the rules for experience entries and metric cards |
| AstContext.Walker.CheckSections | resume-renderer-v2/app.py:308-377 | All sections, stopped by the first that is refused |
| AstContext.ValidateAst | resume-renderer-v2/app.py:282-401 | The walk with one mutable context computes `Validated` |
| AstValidation.AcceptedExactly | resume-renderer-v2/app.py:282-401 | A tree is accepted if and only if its parts are good one by one and the document-wide rules hold: all node, section and entry ids distinct, copies once or as employer and school, size and emphasis limits, all validated claims used |
| AstValidation.AcceptedIsWellFormed | resume-renderer-v2/app.py:306-379 | An accepted tree meets what layout relies on, the two-label metric cards included |
| AstValidation.ClaimsAreExact | resume-renderer-v2/app.py:388-394 | The union of the claim ids over all nodes of an accepted tree is exactly the validated set |
| NavHistory.PopTo | nav-history.js:137-140 | Popping leaves the stack cut to the depth and touches no entry, tab or pending traversal |
| NavHistory.ApplyKeeps | nav-history.js:86-228 | Every action, in every state: the current entry's depth is the stack length, no screen is on the stack twice, every registered closer is on the stack or announced in a message in flight, no registration runs twice |
| NavHistory.RunsKeepInv | nav-history.js:86-228 | The same in every run from a consistent page, whatever history it was loaded on, of opens, closes, messages, traversals, tabs, hash changes and reloads of frames and page, in any interleaving |
| NavHistory.LoadedExactly | nav-history.js:169-228 | A page just loaded, or loaded again, over any history is consistent if and only if the entry it is on records no open screen |
| NavHistory.LoadedIsRepaired | nav-history.js:137-228 | On whatever entry it loaded, the first registration of tabs, rebuilding of a screen, traversal or typed address makes it consistent |
| NavHistory.ReloadedRun | nav-history.js:169-228 | A run that opens a screen and reloads the page ends on an entry that records a screen that is not there |
| NavHistory.LateSeedingRun | nav-history.js:169-182 | A run from a new page that opens a screen before the tabs are registered ends with a dishonest entry |
| NavHistory.QuietMeansKnown | nav-history.js:147-158 | Once no message is in flight, the owner's stack has every open screen |
| NavHistory.SeedingComesFirst | nav-history.js:169-182 | Seeding keeps the current entry honest exactly when no screen is open yet |
| NavHistory.OnPopStateKeeps | nav-history.js:137-145 | Wherever a traversal landed, the handler leaves the entry's depth equal to the stack length |
| NavUnwinding.PopToCloses | nav-history.js:137-139 | Popping closes exactly the screens above the depth, innermost first |
| NavUnwinding.PopToDismisses | nav-history.js:130-135 | Each popped screen's closer is gone or its frame has been told; no other closer runs |
| NavUnwinding.BackClosesExactly | nav-history.js:121-128 | The traversal of an in-app back closes exactly the screen and those above it if and only if the entry it lands on records the screen's stack index |
| NavUnwinding.BackUnwinds | nav-history.js:121-145 | While each open screen has its own entry, back by name lands on the entry whose depth is the screen's stack index and closes that screen and those above it, innermost first, and no other |
| NavUnwinding.RunStaysAligned | nav-history.js:107-145 | Each open screen keeps an entry of its own through every run without tab pushes, typed or claimed addresses, seeding and traversals out of the screens' entries. Traversals of several pending in-app backs can leave those entries: `NavUnwinding.PendingBacksLand` and `NavUnwinding.BackBehindOthers` say where |
| NavUnwinding.PendingBacksLand | nav-history.js:121-145 | However many in-app backs are pending, taken in order they land at the sum of their deltas, and the page stays aligned as long as that is at its base or above |
| NavUnwinding.BackBehindOthers | nav-history.js:121-128 | A back asked for behind others lands at its screen's entry plus the sum of theirs, so beneath its screen if and only if none is pending |
| NavUnwinding.TwoBacksRun | nav-history.js:121-128 | A run from a new page: two screens opened, both closed from within before a traversal lands, and the page is one entry below the list entry it started from |
| NavUnwinding.PickedTabBreaksBack | nav-history.js:183-186 | After a tab is picked with screens open, back lands one entry short and its screen stays on the stack |
| NavUnwinding.PickedTabRun | nav-history.js:183-186 | A run from a new page that gets there |
| NavTabs.PopStateShowsTab | nav-history.js:137-145 | Landing on an entry shows the tab it asks for, its own or else the address's, and stamps the entry as ours |
| NavTabs.RunsShowTheirTab | nav-history.js:86-228 | In every run, an entry of ours on screen that names a tab names the tab shown, as long as registering the tabs again does not change it |
| NavPage.Page.RunCloser | nav-history.js:100-105 | Removes the closer before it runs, or does nothing |
| NavPage.Page.OwnerOpen | nav-history.js:107-119 | Pushes the screen and its entry, or claims the entry; a known screen changes nothing |
| NavPage.Page.OwnerBack | nav-history.js:121-128 | The loop from the top asks for the traversal to beneath the topmost match |
| NavPage.Page.CloseScreen | nav-history.js:130-135 | Runs the owner's closer or sends the frame its message |
| NavPage.Page.PopStack | nav-history.js:139-139 | The while loop pops and closes as `PopTo` specifies |
| NavPage.Page.OnPopState | nav-history.js:137-145 | The whole handler: pop, show the tab, make the entry honest |
| NavPage.Page.OnHashChange | nav-history.js:86-92 | A new hash that names another tab is adopted in place |
| NavPage.Page.OnMessage | nav-history.js:147-158 | Delivery of one message, to the owner or to a frame |
| NavPage.Page.Open | nav-history.js:187-193 | Registers the closer; only a new screen is announced |
| NavPage.Page.Back | nav-history.js:199-205 | Closes at once, unwinds behind; answers whether the screen was registered |
| NavPage.Page.Tab | nav-history.js:183-186 | Pushes an entry of the current depth |
| NavPage.Page.Tabs | nav-history.js:169-182 | First registration seeds or stamps the entry, later ones only replace the tabs |
| NavPage.Page.Restore | nav-history.js:216-228 | Seeds once |
| Feed.PagedKeeps | applicants.html:3272-3303 | An accepted page leaves the list of one generation, without repeated application ids, and `loaded` equal to the rows held |
| Feed.AppendedIsDistinct | applicants.html:3278-3289 | Joining three lists pairwise repeats no id when the page's ids are new |
| Applicants.OneCurrentKept | applicants.html:3310-3325 | Every action keeps `loading` on exactly while one list request in flight carries the current number |
| Applicants.RunsKeepOneCurrent | applicants.html:3372-3429 | The same in every run |
| Applicants.ReadsFollowServer | applicants.html:3374-3380 | In every run, an answer that is applied was given by the server after the one applied before it, and it was the only current request |
| Overlay.ApplyKeeps | applicants.html:702-719 | Every action keeps what protects a clicked row: an overlay entry, or a server that has its decision and lists that show it |
| Overlay.ArriveKeeps | applicants.html:702-709 | An overlay entry that `reconcileLocal` drops is one the row no longer needs |
| Overlay.ClickedRowStaysDecided | applicants.html:2533-2601 | From a Pass or Interview click until its own request fails or undo is clicked, in every run of polls, pages, replies and other people's decisions, the row is decided wherever it is listed |
| Overlay.AliveIsDecided | applicants.html:710-719 | A row with a click that still counts has an effective decision |
| Paging.ListIsCoherent | applicants.html:3272-3305 | With a server that answers in pages, in every run: all held rows are of the current generation, no application appears twice, `loaded` is their number |
| Paging.RejectedPageChangesNothing | applicants.html:3273-3284 | A page of another generation, or with a repeated or missing id, changes no row, decision or count |
| Paging.FailureKeepsPagedList | applicants.html:3414-3421 | A paged list outlives every failed refresh |
| ApplicantsPage.Page.ReconcileLocal | applicants.html:702-709 | The loop deletes exactly the overlay entries the server has caught up with |
| ApplicantsPage.Page.Decide | applicants.html:2539-2557 | Up to the request: nothing while one is on its way, otherwise the new overlay entry and the one it replaces |
| ApplicantsPage.Page.DecisionReplied | applicants.html:2577-2600 | A saved decision replaces the overlay entry when the reply brings one |
| ApplicantsPage.Page.DecisionRefused | applicants.html:2590-2600 | A failed one restores the overlay entry from before |
| ApplicantsPage.Page.CheckIds | applicants.html:3278-3284 | The loop accepts the page's ids exactly when none is empty or repeated |
| ApplicantsPage.Page.ApplyPagedFeed | applicants.html:3272-3307 | Takes a page as `Paged` says, or rejects it before anything changes |
| ApplicantsPage.Page.MarkFeedUnavailable | applicants.html:3344-3370 | Discards every server-rendered row and decision |
| ApplicantsPage.Page.LoadFeed | applicants.html:3372-3377 | A new number supersedes all requests in flight |
| ApplicantsPage.Page.FeedArrived | applicants.html:3378-3428 | What a feed answer, an error or a sign-out does, and that a superseded answer does nothing |
| ApplicantsPage.Page.LoadMore | applicants.html:3310-3316 | Asks for the next page under the current number, when its guard allows |
| ApplicantsPage.Page.PageArrived | applicants.html:3319-3325 | What a page answer does, and that a superseded answer does nothing |
| VirtualList.WindowCovers | applicants.html:2156-2166 | The window holds every row that intersects the viewport, and four more on either side |
| VirtualList.PaintedWindowCovers | applicants.html:2156-2170 | After the browser has pulled the offset back into a shorter list, the painted window still holds every visible row if and only if the offset was within the new list or past its end, or the window computed for it begins at the top or below a row that ends above the furthest offset |
| VirtualList.WindowCanMissRow | applicants.html:2156-2170 | A list of forty rows that a rendering leaves as it is, and its rendering after it has shrunk to twenty: a row in view is not in the document |
| VirtualList.HeightOnlyGrows | applicants.html:2110-2123 | Within one breakpoint the measured height never shrinks and stays within its bounds |
| VirtualList.HeightFitsPainted | applicants.html:2084-2098 | No painted row is taller than the height adopted unless that is the upper bound |
| VirtualList.PaintsAtMostThrice | applicants.html:2110-2148 | One rendering paints at most three times, again only for a change of two pixels, a third time only when scrolled |
| VirtualList.TuningStops | applicants.html:2105-2148 | Within one population and breakpoint, from any list, measured or not: the list repaints for its first measurement, and after that at most once for every two pixels its height can still grow |
| VirtualList.FreshPopulationSettles | applicants.html:2105-2148 | So a population is repainted at most once more than half the span between the bounds of its height, however it is scrolled |
| VirtualList.TunedOffset | applicants.html:2137-2144 | After a change the offset asked for is the anchor row's, rounded to the pixel, cut to what the list allows |
| VirtualList.ReaderStaysExactly | applicants.html:2119-2146 | When the list is long enough, the reader's row moves by at most half a pixel if and only if the height moved by two pixels or more, by none, or the list stood at its top |
| VirtualList.OnePixelDrifts | applicants.html:2119-2146 | A painted list of a hundred rows, read from the tenth on, that measures one pixel more than it took its rows to be: the row at the top moves by ten pixels |
| VirtualList.Scroller.MeasureVirtualRowHeight | applicants.html:2084-2098 | The tallest painted row within the bounds, or nothing when no row has content |
| VirtualList.Scroller.TuneVirtualRowHeight | applicants.html:2110-2148 | Adopts, repaints and puts the reader back as `Tune` says; nothing while tuning |
| VirtualList.Scroller.RenderVirtual | applicants.html:2156-2174 | Paints the window and tunes; inside a tuning it only paints |
| VirtualList.Scroller.Reset | applicants.html:2067-2078 | A new filter measures from scratch and reads from the top |
| Facts.FactIdInjective | resume-renderer/app.py:192-192 | A fact id determines its job id and number |
| Facts.LineIdIsNoFactId | resume-renderer/app.py:230-230 | Ids made from resume lines and from jobs never coincide |
| Facts.HistoryFactRows | resume-renderer/app.py:169-196 | The nested loops build the facts and jobs that `HistoryFacts` and `Jobs` describe, skipping entries and statements as the source does |
| Facts.HistoryIsOwned | resume-renderer/app.py:169-196 | With unique job ids, each job lists exactly the facts filed under it, in order, and no two facts share an id |
| ResumeLines.FindJob | resume-renderer/app.py:207-217 | The loop finds the first job of the highest score, when that is a match |
| ResumeLines.BestJob | resume-renderer/app.py:207-217 | No job scores higher, none before it as high; none is chosen only when none matches |
| ResumeLines.ResumeFactRows | resume-renderer/app.py:199-238 | The loop with its in-place inserts files lines as `FileLine` describes |
| ResumeLines.FiledTidily | resume-renderer/app.py:230-237 | With unique job ids, the resume's facts are its usable lines in order, and each job lists its lines, in line order, before the facts it came with |
| Tailoring.Choose | resume-renderer/app.py:320-325 | All ids are taken exactly when each is allowed and none is repeated |
| Tailoring.ValidateSelection | resume-renderer/app.py:308-333 | The loops compute `Validate`: accepted, rejected, or an error that fails the request |
| Tailoring.PlainSelection | resume-renderer/app.py:336-345 | The first three facts of each job, and the first three of all of those as summary |
| Tailoring.MakeDocument | resume-renderer/app.py:348-424 | The tailoring part of the pipeline computes `Made` |
| Tailoring.AcceptedIsKnown | resume-renderer/app.py:308-333 | An accepted selection names only ids that have a text, so no lookup fails |
| Grounding.SourcesAreExact | resume-renderer/app.py:169-238 | Each job's facts are its resume facts in line order followed by its facts of the history; all fact ids differ |
| Grounding.EveryDocumentIsGrounded | resume-renderer/app.py:402-424 | For every selector answer: the document lists every job of the history once and in order, and the bullets of a job are the texts of at most three distinct facts of that job |
| Grounding.SummaryIsStated | resume-renderer/app.py:402-413 | For every selector answer: the document's summary is the texts of at most three distinct facts |
| Grounding.TakenExactly | resume-renderer/app.py:308-333 | A selection is used if and only if its rows name every job and no other, each row chooses distinct facts of its job, and the summary distinct facts |
| Grounding.FailsExactly | resume-renderer/app.py:314-318 | The pipeline raises, so that the request fails with a 500, if and only if the named jobs match and the first unusable row is not an object |
| Grounding.NumberBehindRowsFails | resume-renderer/app.py:314-318 | For every history with a job: an answer with a row for each job and a number behind them makes it fail |
| Utf8.RepairedText | master-inbox-route.js:48-57 | Replacing lone surrogates keeps the length and changes nothing exactly when there are none |
| Utf8.DecodeInvertsEncode | master-inbox-route.js:50-55 | UTF-8 decoding gives an encoded text back, lone surrogates replaced |
| Urlencoded.ParseInvertsPrint | master-inbox-route.js:50-67 | Reading a printed list of pairs gives it back, whatever the names and values, lone surrogates replaced |
| InboxRoute.NormalizeIdempotent | master-inbox-route.js:36-46 | Normalizing twice is normalizing once |
| InboxRoute.SerializedIsRead | master-inbox-route.js:48-68 | An address within 2000 units reads back to the normalized route, lone surrogates replaced |
| InboxRoute.RoundTripExactly | master-inbox-route.js:48-68 | Within 2000 units, reading an address gives the normalized route if and only if that route has no lone surrogate |
| InboxRoute.SameRouteExactly | master-inbox-route.js:70-72 | Two routes have the same address if and only if they normalize to the same route up to lone surrogates; without any, to equal routes |
| InboxRoute.CutCanSplitPair | master-inbox-route.js:43-43 | A well-formed search text cut at its limit can lose half a surrogate pair |
| LongAddress.LongAddressLosesId | master-inbox-route.js:60-60 | An address over the limit is read without its conversation id |
| LongAddress.SlashesLoseId | master-inbox-route.js:48-68 | For every conversation id: with a search for a thousand slashes the address is over the limit and reads back without the id |
| LongAddress.ConversationRoundTripExactly | master-inbox-route.js:48-68 | A route that names a conversation reads back if and only if its address is within the limit and it has no lone surrogate |
| CutAddress.CutIsRead | master-inbox-route.js:60-66 | A text's printed form cut anywhere reads as its whole scalar values, one U+FFFD for one that breaks off, and the beginning of an escape as it stands |
| CutAddress.SearchRoundTripExactly | master-inbox-route.js:48-68 | An address over the limit that names no conversation reads back if and only if the route has no lone surrogate and what the cut leaves of the search text mends: it ends in a broken U+FFFD or percent sign that reads as exactly the units that were lost |
| CutAddress.SearchIsLost | master-inbox-route.js:48-68 | So a search text without U+FFFD and percent sign is never read back from an address over the limit |
| CutAddress.ReplacementMends | master-inbox-route.js:48-68 | And some are: a U+FFFD behind ASCII that is printed in 1985 units reads back from an address over the limit |

## Left out

- Floating point: lengths, sizes and occupancies are reals, so rounding in the last bit is not modelled; the rounding to
  four places is.
- Fonts: a table of glyph widths is a parameter, as are the styled words and rendered texts of a node, bold spans and Unicode
  normalization included.
- Where page one's name, headline and contact line stand, and the page furniture: their boxes are given, and the preflight
  is proved to blame them for every overlap it reports. Their words and the size of the name are modelled.
- Lines, circles, cards' backgrounds and colours: drawing operations other than text boxes.
- The PDF itself: writing it, reading it back, its fonts and the parity checks on it are one given error per candidate.
- `token_bag`: its other deletions (the continuation labels and the page furniture, "Earlier experience" in a bullet
  among them) and its tokens inside words. Parity is stated for blank-separated words, continuation headings aside. The
  blank lines `ats_text` drops hold no words.
- ParityWithoutName: a name that also stands elsewhere in the resume, where it may be broken across lines as well.
- `validate_ast`: which of several errors is raised first, and the checks that a value is an object with exactly the
  expected keys. The casefolded text, Unicode normalization and the banned patterns are given functions.
- Navigation: screen addresses beyond whether an opening screen claims the entry, links, and frame addresses.
- Applicants: acknowledgements, photos, cards, profiles, counts, toasts, sign-in, local storage, and the check for
  updates except for the message it leaves. Retried interview requests are clicks like others.
- Applicants: a row the server leaves out of a page is not listed, and nothing is claimed about it.
- The virtual list: marking clipped rows, rich cards and the call near the end. Row heights by themselves are given.
- The fact pipeline: the request to the selector, the scores and the rule for a usable line (given functions), the
  splitting of descriptions, education, skills and the manifest's list of allowed texts.
- The fact pipeline with repeated job ids: which of two jobs a fact belongs to is then not determined by its id.
- Route fields are texts; a caller's numbers and objects are converted to text before anything else happens.
- `submissions-v2.js`, the calls, email and activity pages, authentication and middleware are not part of this model.
