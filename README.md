# js-modules widgets, modelled in Dafny

A model of the logic inside a set of framework-free browser widgets: a code
block with two syntax highlighters, a paged and filterable list, a JSON
schema checker, an indexing data library, a tree view of object graphs, a
plain-text reader and a tabbed view. The DOM is replaced by values: a
rendered row, span, layer or element is a datatype, and an element whose
state the source changes in place is a class whose fields are that state.

| file | models |
|---|---|
| `wrappers.dfy` | an Option type |
| `strings.dfy` | the JavaScript string operations the widgets use (indexOf, substring, split, trim, startsWith, replace, integer to string) and UTF-16 code units for `length`, `slice` and string order |
| `json.dfy` | JSON-shaped values: `typeof`, truthiness, property reads that throw on null or undefined, `Object.keys` order |
| `simple_highlighter.dfy` | the quote-splitting lexer of the code block |
| `css_highlighter.dfy` | the CSS lexer of the code block, its span builder and its comment links |
| `code_block.dfy` | the code block element: cutting content into rows, the `data-matchlinks` setting, highlighter selection, the `value` setter and `appendContent` |
| `multipage_list.dfy` | the multipage list: page arithmetic, the filter store, filtering, sorting, row formatting and the page track |
| `schema_validator.dfy` | the schema checker: schema well-formedness, validation and construction |
| `mod_library.dfy` | `Shelf` (flatten, getKeys, the lazy getters) and `Library.addMappedGetter` |
| `tree_view.dfy` | the tree view: type tags, leaves, layers with and without the cycle check, `setSource` |
| `reader_view.dfy` | the reader view: `setSource`, `clear` and `CreateElement` |
| `tab_view.dfy` | the tab view: `addTab`, `removeTab`, `findView`, the `value` setter and view-box connection |

Strings are sequences of Unicode characters. Where the source counts or
orders UTF-16 code units (`length`, `slice`, the default sort order) the
model computes the code units (`Strings.Units`).

The loops of the code block, both highlighters, the multipage list
(`update`, `setRows`, the page track), the tree view, the reader view and the
tab view are methods, each proved against a function that specifies it. The
schema checker and `Shelf`'s `flatten` and `getKeys` are recursive in the
source and are recursive functions here. The lemmas relate those functions
to the promises of each widget: text is kept, throws happen exactly when
they should, an invariant is preserved, a result is ordered or a
permutation, a loop is bounded.

The code does not always reproduce its input. In the CSS highlighter, a `{`
or `}` outside a comment clears the pending token after emitting only the
brace, so at-rule text read before the brace is lost
(`CssHighlight.AtRuleCurlyDropsToken`, `CssHighlight.AtRuleTextDropped`). A
lone carriage return makes the row pattern skip the text before it
(`CodeBlockWidget.LoneReturnSkipsText`). The round-trip results are
therefore stated for the inputs where they hold:
`CssHighlight.SelectorSpanText`, `CssHighlight.ValueSpanText`,
`CssHighlight.LinksFromText`, `SimpleHighlight.SimpleRoundTrip` and
`CodeBlockWidget.RowsCoverContent`.

## Model

| member | source | states |
|---|---|---|
| SimpleHighlight.SimpleHighlighter.constructor | code-block/code-block-highlighter.js:15-43 | a new highlighter holds an empty token and null current and previous modes; Base is only recorded as the initial state |
| SimpleHighlight.SimpleHighlighter.Reset | code-block/code-block-highlighter.js:29-33 | reset empties the token and sets current and previous mode to Base |
| SimpleHighlight.SimpleHighlighter.Parse | code-block/code-block-highlighter.js:49-115 | the character loop, the final flush and the leftover-token check produce exactly the pieces, new state and error of ParseChunk |
| SimpleHighlight.StepKeepsText | code-block/code-block-highlighter.js:67-104 | every transition that does not throw keeps the emitted text plus the pending token equal to what was read: a quote flushes the buffer and starts a new one, a matching quote closes one span, any other character is buffered |
| SimpleHighlight.SimpleRoundTrip | code-block/code-block-highlighter.js:59-115 | for a chunk that parses without an error, the emitted texts concatenate, in order, to the earlier pending token followed by the chunk, and no token is left |
| SimpleHighlight.SimpleTokenErrorIff | code-block/code-block-highlighter.js:49-114 | "simple token is not 0" is thrown exactly when the last character is read in a quote mode and is not its closing quote; otherwise the token is empty afterwards; an opening `"` as last character is flushed as plain text and DoubleQuote carries over with an empty token |
| SimpleHighlight.SimpleSingleQuoteThrows | code-block/code-block-highlighter.js:74-78 | a `'` read in Base mode before any `"` always ends the parse with the ReferenceError on `targetNode` |
| SimpleHighlight.NeverSingleQuote | code-block/code-block-highlighter.js:74-93 | the SingleQuote mode is never reached, because the branch that would enter it throws first |
| CssHighlight.CssHighlighter.constructor | code-block/code-block-highlighter.js:124-131 | a new CSS highlighter has null modes, an empty token, no curly flag, nesting level 0 and link generation off |
| CssHighlight.CssHighlighter.Reset | code-block/code-block-highlighter.js:133-137 | reset empties the token, sets both modes to Selector, clears the curly flag and the nesting level and keeps the link settings; the invariant holds afterwards |
| CssHighlight.CssHighlighter.Set | code-block/code-block-highlighter.js:21-25 | `set` makes the current mode the previous one |
| CssHighlight.Emit | code-block/code-block-highlighter.js:305-372 | an empty token without an explicit character emits nothing; otherwise exactly one span of the given kind is emitted and the token is cleared; only a null kind or a comment with an unset generator throws |
| CssHighlight.CssHighlighter.CreateElementFromToken | code-block/code-block-highlighter.js:305-372 | the span appended and the new state are those of Emit |
| CssHighlight.SelectorSplitConcat | code-block/code-block-highlighter.js:314 | the selector split with its capturing pattern loses nothing: the pieces concatenate to the token |
| CssHighlight.SelectorSpanText | code-block/code-block-highlighter.js:314-333 | a selector span shows its token unchanged: empty pieces are skipped and pieces starting with `:#[.` become classed inner spans |
| CssHighlight.ValueSpanText | code-block/code-block-highlighter.js:346-360 | a value token without `!` is shown as it is; one ending in `!important` shows the text before `!`, then `!important`, then `;` whatever follows |
| CssHighlight.ValueNodesLongTail | code-block/code-block-highlighter.js:347-358 | a token whose first `!` starts at least 10 more characters shows the text before `!`, the `!important` tag and `;` |
| CssHighlight.ImportantText | code-block/code-block-highlighter.js:351-358 | the text of an important value's nodes is the text before `!`, then `!important;` |
| CssHighlight.LinksFromText | code-block/code-block-highlighter.js:373-390 | when each match first occurs after the previous match, the literal and link pieces reproduce the comment |
| CssHighlight.LinksRepeatDuplicate | code-block/code-block-highlighter.js:377-388 | a match reported twice is searched from the start of the token both times, so the fragment shows the match three times |
| CssHighlight.CreateLinksFromMatchingToken | code-block/code-block-highlighter.js:373-390 | the loop over the matches builds exactly the fragment LinksFrom: link i has match i as text and generated href i |
| CssHighlight.Enter | code-block/code-block-highlighter.js:168-172 | a `{` or `}` outside a comment sets the curly flag and is not added to the token; every other character is appended |
| CssHighlight.AfterSwitch | code-block/code-block-highlighter.js:276-279 | one character is consumed, two when a comment closes |
| CssHighlight.StepAt | code-block/code-block-highlighter.js:165-280 | an iteration that does not throw consumes one or two characters and stays inside the content |
| CssHighlight.DispatchKeepsCurly | code-block/code-block-highlighter.js:169-278 | the mode switch never changes the curly flag set at the start of the iteration |
| CssHighlight.CssHighlighter.SelectorCase | code-block/code-block-highlighter.js:175-198 | the Selector case: state and spans are those of OnSelector |
| CssHighlight.CssHighlighter.CommentCase | code-block/code-block-highlighter.js:200-210 | the Comment case: state and spans are those of OnComment |
| CssHighlight.CssHighlighter.PropertyCase | code-block/code-block-highlighter.js:212-227 | the Property case: state and spans are those of OnProperty |
| CssHighlight.CssHighlighter.ValueCase | code-block/code-block-highlighter.js:228-243 | the Value case: state and spans are those of OnValue |
| CssHighlight.CssHighlighter.AtCase | code-block/code-block-highlighter.js:244-258 | the AtRule and AtValue cases: state and spans are those of OnAt |
| CssHighlight.CssHighlighter.FunctionCase | code-block/code-block-highlighter.js:259-272 | the Function case: state and spans are those of OnFunction |
| CssHighlight.CssHighlighter.Switch | code-block/code-block-highlighter.js:173-275 | the switch on the mode gives the state and spans of Dispatch and leaves the curly flag alone |
| CssHighlight.CssHighlighter.EndStep | code-block/code-block-highlighter.js:276-279 | after the switch a flagged brace gets its own span, and the width is that of AfterSwitch |
| CssHighlight.CssHighlighter.Step | code-block/code-block-highlighter.js:165-280 | one loop iteration gives the state, spans and width of StepAt |
| CssHighlight.CssHighlighter.ScanContent | code-block/code-block-highlighter.js:163-280 | the character loop gives the state, spans and last mode of ScanFrom |
| CssHighlight.CssHighlighter.Parse | code-block/code-block-highlighter.js:139-147 | parse gives the spans, state and error of ParseChunk |
| CssHighlight.ParseKeepsInv | code-block/code-block-highlighter.js:238-272 | a chunk keeps the invariant: the nesting level is 1 exactly in Function mode and 0 otherwise, and a comment returns to Selector or Property |
| CssHighlight.ParseNeverLeavesToken | code-block/code-block-highlighter.js:139-147 | "CSS token is not 0" fires only for an empty chunk that arrives with a token left by an earlier throw; after a parse without error the token is empty |
| CssHighlight.CommentEntry | code-block/code-block-highlighter.js:173-218 | Comment mode is entered only from Selector or Property, and only on `/` followed by `*` |
| CssHighlight.CurlySpan | code-block/code-block-highlighter.js:169-278 | a brace outside a comment ends its iteration with a curly span holding exactly that brace and no pending token |
| CssHighlight.CommentClose | code-block/code-block-highlighter.js:200-210 | `*/` in a comment consumes both characters, emits one comment span with the whole token and returns to the pre-comment mode |
| CssHighlight.FunctionCloseSeedsValue | code-block/code-block-highlighter.js:259-266 | in a function the first `)` (a nested `(` does not raise the level) emits the function text without that `)`, returns to Value mode and leaves `)` as the next token |
| CssHighlight.PropertyCommentKeepsToken | code-block/code-block-highlighter.js:212-217 | `/*` in Property mode emits nothing: the pending property text and `/` begin the comment token |
| CssHighlight.CommentOpenFlushesSelector | code-block/code-block-highlighter.js:177-186 | `/*` in Selector mode first emits the earlier text as a selector span, so the comment token starts with `/` |
| CssHighlight.AtRuleCurlyDropsToken | code-block/code-block-highlighter.js:244-278 | in an at-rule `{` emits only itself and clears the token, so the at-rule text read so far is never emitted |
| CssHighlight.AtRuleTextDropped | code-block/code-block-highlighter.js:244-283 | the chunk `@a{` yields just the curly span: its at-rule text is lost |
| CssHighlight.SlashStarSlashIsComment | code-block/code-block-highlighter.js:177-210 | `/*/` is already a complete comment |
| CodeBlockWidget.NextLine | code-block/code-block.js:182 | one `exec` of the global pattern `.*\r?\n` from lastIndex: a match starts at or after lastIndex and ends in "\n" inside the content; none when no terminator pair is left |
| CodeBlockWidget.ChunkShape | code-block/code-block.js:182 | a matched row ends in "\n" and holds no other line terminator except a "\r" right before it |
| CodeBlockWidget.Chunks | code-block/code-block.js:190-213 | the loop makes at most 10000 rows from matches |
| CodeBlockWidget.FirstTerminator | code-block/code-block.js:182 | the position where `.*` stops: the first line terminator at or after lastIndex, or the end |
| CodeBlockWidget.NextLineContiguous | code-block/code-block.js:182 | without lone terminators each match starts exactly where the previous one ended |
| CodeBlockWidget.ChunksCover | code-block/code-block.js:204-211 | without lone terminators the matched rows concatenate to the content up to where the loop stopped |
| CodeBlockWidget.ChunksExhaust | code-block/code-block.js:204-216 | for content ending in "\n", a loop that stays under the limit consumes everything, so the tail row stays empty |
| CodeBlockWidget.PlainParseKeepsText | code-block/code-block.js:228-237 | a plain row never throws and shows its text |
| CodeBlockWidget.SimpleParseKeepsText | code-block/code-block.js:205-209 | a simple-highlighted row that throws nothing shows its text unchanged and leaves the lexer with no pending token |
| CodeBlockWidget.SimpleParseSettles | code-block/code-block.js:204-213 | the same for every lexer state and row text at once |
| CodeBlockWidget.RowsCoverContent | code-block/code-block.js:204-238 | for content whose terminators are all "\n" or "\r\n", the matched rows followed by the tail row concatenate to the content |
| CodeBlockWidget.LoneReturnSkipsText | code-block/code-block.js:224-238 | a lone "\r" makes the text before it vanish: "ab\rcd\n" gives the single row "cd\n" and an empty tail |
| CodeBlockWidget.TailEmptyAfterNewline | code-block/code-block.js:214-238 | content ending in "\n" with fewer than 10000 rows leaves the tail row empty |
| CodeBlockWidget.LoopRows | code-block/code-block.js:204-222 | the loop appends one row per match plus the tail row, or stops early after the row whose parse threw |
| CodeBlockWidget.LoopText | code-block/code-block.js:204-222 | when every parse that does not throw shows its text, the rows of a run without a throw show the matches followed by the tail |
| CodeBlockWidget.PlainRowsCount | code-block/code-block.js:223-239 | without a highlighter there is one row per match and one tail row, at most 10001 rows |
| CodeBlockWidget.PlainRowsText | code-block/code-block.js:223-239 | without a highlighter the rows show the matched rows followed by the rest of the content |
| CodeBlockWidget.PlainRowsCover | code-block/code-block.js:223-239 | without a highlighter, content without lone terminators is shown entirely |
| CodeBlockWidget.SimpleConsumeText | code-block/code-block.js:192-222 | with the simple highlighter, a run without a throw shows the matched rows followed by the tail |
| CodeBlockWidget.SimpleConsumeCover | code-block/code-block.js:192-222 | with the simple highlighter, a run without a throw over content without lone terminators shows the whole content |
| CodeBlockWidget.CssConsumeRows | code-block/code-block.js:192-222 | with the CSS highlighter there is one row per match plus the tail row unless a parse throws, and the highlighter's invariant holds afterwards |
| CodeBlockWidget.MatchLinksSettings | code-block/code-block.js:44-57 | links are configured only by an attribute that splits into exactly two " -> " parts; an invalid pattern clears both settings; the generator replaces the first "%s" of the second part with the match |
| CodeBlockWidget.GeneratorInsertsMatch | code-block/code-block.js:50 | a match without "$" is put literally in place of the first "%s" |
| CodeBlockWidget.Coerce | code-block/code-block.js:248-267 | a string is used as content, an object with `content` as it is, an object without it through its string form, and a non-object throws |
| CodeBlockWidget.ContentText | code-block/code-block.js:183-185 | a `content` that is null or undefined throws; any other is used through its string form |
| CodeBlockWidget.CodeBlock.constructor | code-block/code-block.js:3-21 | a new block has no rows, no highlighter (not ready, not waiting, empty) and no links |
| CodeBlockWidget.CodeBlock.ConsumePlain | code-block/code-block.js:223-239 | the rows appended are PlainRows of the content |
| CodeBlockWidget.CodeBlock.SimpleRowParse | code-block/code-block.js:205-209 | one row parsed by the simple highlighter, as SimpleParse says |
| CodeBlockWidget.CodeBlock.ConsumeSimple | code-block/code-block.js:192-222 | the rows appended, the highlighter state and the outcome are those of SimpleConsume |
| CodeBlockWidget.CodeBlock.CssRowParse | code-block/code-block.js:205-209 | one row parsed by the CSS highlighter with the element's link settings, as CssParse says |
| CodeBlockWidget.CodeBlock.CssLine | code-block/code-block.js:204-213 | one loop round: the next match becomes a row and lastIndex moves to its end |
| CodeBlockWidget.CodeBlock.CssLines | code-block/code-block.js:201-213 | the loop stops at the first throw, at the row cap or when no match is left |
| CodeBlockWidget.CodeBlock.ConsumeCss | code-block/code-block.js:192-222 | the rows appended, the highlighter state and the outcome are those of CssConsume |
| CodeBlockWidget.CodeBlock.ConsumeData | code-block/code-block.js:181-240 | null or undefined content throws before anything changes; otherwise the element's own text is cleared and the rows appended are those of the ready highlighter of the selected type (SimpleConsume, CssConsume), or PlainRows; that highlighter's state is then the one SimpleConsume or CssConsume ends in, the other highlighter and every other field stay |
| CodeBlockWidget.CodeBlock.DetermineAndLoadContent | code-block/code-block.js:23-30 | the fetched file, or else the element's own text, is consumed: its rows are appended and the highlighter states left as PlainRows, SimpleConsume or CssConsume say; only rows, the element's text and the highlighter that parsed change |
| CodeBlockWidget.CodeBlock.SetValue | code-block/code-block.js:248-257 | the rows are cleared, then the coerced value is consumed, plain or by the ready highlighter, whose new state is stated; a throw leaves no rows; the settings and highlighter selection stay |
| CodeBlockWidget.CodeBlock.AppendContent | code-block/code-block.js:259-267 | like the setter but the new rows follow the existing ones; a throw keeps them; the settings and highlighter selection stay |
| CodeBlockWidget.CodeBlock.AddHighlighterTo | code-block/code-block.js:79-92 | "css" and "simple" select that type and wait for the module; any other value loads plain content; the block is no longer empty; nothing but the selection, waiting and empty changes |
| CodeBlockWidget.CodeBlock.HighlighterLoaded | code-block/code-block.js:93-105 | once the module is loaded a fresh highlighter of the selected type exists, it is ready, no longer waiting, and content loading follows; rows, text and settings stay |
| CodeBlockWidget.CodeBlock.ConnectedCallback | code-block/code-block.js:40-73 | runs once per connected element: reads the link settings, takes a non-empty name as caption, then sets up the highlighter type and waits for it while none was set up, or loads the content |
| MultipageList.ToInt32 | multipage-list/multipage-list.js:347-349 | `x \| 0` gives a signed 32-bit value congruent to x modulo 2^32 |
| MultipageList.ToInt32InRange | multipage-list/multipage-list.js:347-349 | truncation leaves a 32-bit value unchanged, so applying it twice is the same as once |
| MultipageList.PageCount | multipage-list/multipage-list.js:340 | `pageCount` is always at least 1 |
| MultipageList.PageCountLeast | multipage-list/multipage-list.js:340 | `pageCount` is the fewest pages of max(size, 1) rows that hold every item, and at least 1 |
| MultipageList.ClampPage | multipage-list/multipage-list.js:427-430 | `setView` keeps the page in [1, pageCount]: a page inside stays, one below goes to 1, one above to the count |
| MultipageList.WindowStart | multipage-list/multipage-list.js:433-434 | the first shown item index is never negative |
| MultipageList.WindowInside | multipage-list/multipage-list.js:433-447 | the min(size, len) formatted rows read items start + i inside the view |
| MultipageList.WindowFullPage | multipage-list/multipage-list.js:433-434 | a page filled completely starts at (page - 1) * size |
| MultipageList.WindowShortLastPage | multipage-list/multipage-list.js:433-434 | a short last page is shifted back to end at the last item, overlapping the page before |
| MultipageList.MapSetLookup | multipage-list/multipage-list.js:398 | after `store.set` the key holds the new filter and every other key is unchanged |
| MultipageList.MapSetUnique | multipage-list/multipage-list.js:398 | `store.set` adds its key and keeps the keys unique |
| MultipageList.MapDeleteLookup | multipage-list/multipage-list.js:386-401 | after `store.delete` the key is gone and every other key is unchanged |
| MultipageList.MapDeleteUnique | multipage-list/multipage-list.js:386-401 | `store.delete` removes its key and keeps the keys unique |
| MultipageList.AcceptsEvery | multipage-list/multipage-list.js:371-378 | `filterFn` accepts an item exactly when every enabled filter accepts it |
| MultipageList.FilterSeq | multipage-list/multipage-list.js:383 | the filtered view is never longer than the data |
| MultipageList.FilterSeqAppend | multipage-list/multipage-list.js:383 | filtering keeps the order of the data |
| MultipageList.FilterSeqMembers | multipage-list/multipage-list.js:383 | an item is in the view exactly when it is in the data and accepted |
| MultipageList.FilterSeqAll | multipage-list/multipage-list.js:383 | when every item is accepted the view is the data |
| MultipageList.FilterKey | multipage-list/multipage-list.js:398 | `def.id \|\| "default"` is never empty and is the id when that is truthy |
| MultipageList.AddStoresOrDeletes | multipage-list/multipage-list.js:396-402 | `add` with a function stores it under its key; without one it deletes `def.id`, or "default" without a def; keys stay unique and other keys are unchanged |
| MultipageList.SetLeavesOne | multipage-list/multipage-list.js:408-416 | after `set` the store holds at most one filter, the new one when `def.fn` is a function |
| MultipageList.FilteredView | multipage-list/multipage-list.js:381-384 | `execFilters` throws exactly when a filter exists and the data is null |
| MultipageList.Insert | multipage-list/multipage-list.js:421-424 | inserting adds exactly the one element |
| MultipageList.SortBy | multipage-list/multipage-list.js:421-424 | sorting is a permutation of the view |
| MultipageList.SortByOrdered | multipage-list/multipage-list.js:421-424 | with an antisymmetric comparator the sorted view has no adjacent pair out of order |
| MultipageList.SortBySorted | multipage-list/multipage-list.js:421-424 | with a consistent comparator the sorted view is sorted pairwise |
| MultipageList.Comparison | multipage-list/multipage-list.js:421-424 | `sort` compares with the given function, or by default by the items' string forms in code-unit order; any other comparator throws |
| MultipageList.DefaultOrderConsistent | multipage-list/multipage-list.js:421-424 | the default order is antisymmetric and transitive, so sorting without a comparator gives a pairwise sorted view |
| Strings.CompareUnitsAntisymmetric | multipage-list/multipage-list.js:421-424 | comparing strings by code units the other way round flips the sign, and only equal strings compare equal |
| Strings.CompareUnitsTransitive | multipage-list/multipage-list.js:421-424 | "at most" in code-unit order is transitive |
| MultipageList.AfterLimits | multipage-list/multipage-list.js:49-65 | `setViewLimits` truncates both bounds, does nothing when a > b or nothing changes, otherwise takes the new bounds; the selection is untouched |
| MultipageList.LimitsApplied | multipage-list/multipage-list.js:49-65 | when the limits change, buttons[0] shows 1, buttons[6] the maximum, both ellipses hide below a span of 7, the redraw is needed and the middle buttons are untouched |
| MultipageList.StartValue | multipage-list/multipage-list.js:93-105 | the first middle value is above the minimum |
| MultipageList.AfterSelected | multipage-list/multipage-list.js:76-123 | `setSelected` returns at once when the redraw can be skipped; otherwise it records n and keeps the limits |
| MultipageList.SelectedPageShown | multipage-list/multipage-list.js:93-122 | a page strictly between the limits appears among buttons[1..5], shown and selected |
| MultipageList.SelectedNodes | multipage-list/multipage-list.js:93-122 | each walked node gets a value above the minimum and is hidden exactly when the value exceeds max - 1; buttons[0] is selected exactly on the first page and buttons[6] exactly on a different last page |
| MultipageList.PageTrack.constructor | multipage-list/multipage-list.js:45-74 | a new track has limits 1 and 1, page 1 selected and needs a redraw |
| MultipageList.PageTrack.SetViewLimits | multipage-list/multipage-list.js:49-65 | the new track state is AfterLimits of the old one |
| MultipageList.PageTrack.SetSelected | multipage-list/multipage-list.js:76-123 | the new track state is AfterSelected of the old one |
| MultipageList.UnselectButtons | multipage-list/multipage-list.js:88-90 | the loop removes "selected" from all seven buttons and nothing else |
| MultipageList.WalkValues | multipage-list/multipage-list.js:107-122 | the value loop gives the walked nodes the values start, start + 1, ..., hidden exactly above max - 1 |
| MultipageList.Viewer.constructor | multipage-list/multipage-list.js:284-288 | a new viewer has no data, no filter, size 10 and page 1 |
| MultipageList.Viewer.Update | multipage-list/multipage-list.js:432-453 | Shown: the track is AfterSelected of AfterLimits [1, pageCount] with the page, and the rows show the window of the current page |
| MultipageList.Viewer.SetView | multipage-list/multipage-list.js:427-430 | the page is clamped into [1, pageCount], then track and rows are as `update` leaves them |
| MultipageList.Viewer.Next | multipage-list/multipage-list.js:359-361 | the page becomes page + 1 clamped into [1, pageCount]; track and rows are as `update` leaves them |
| MultipageList.Viewer.Previous | multipage-list/multipage-list.js:363-365 | the page becomes page - 1 clamped into [1, pageCount]; track and rows are as `update` leaves them |
| MultipageList.Viewer.ForData | multipage-list/multipage-list.js:342-345 | a non-array becomes [], the filtered view is not recomputed, and the page returns to 1 with track and rows as `update` leaves them |
| MultipageList.Viewer.SetRows | multipage-list/multipage-list.js:346-357 | the size becomes the truncated n unless that is negative, the `rows` attribute the truncated n; every row is removed, then page 1 is shown from no rows |
| MultipageList.Viewer.ExecFilters | multipage-list/multipage-list.js:381-384 | `filtered` becomes null without filters, else the filtered data; null data with a filter throws and changes nothing |
| MultipageList.Viewer.FilterAdd | multipage-list/multipage-list.js:396-406 | the store is StoreAfterAdd; it throws exactly when a filter exists over null data, leaving view, page, rows and track; otherwise the view is recomputed and page 1 shown |
| MultipageList.Viewer.FilterClear | multipage-list/multipage-list.js:386-394 | a truthy id removes that filter, otherwise all; a throw leaves view, page, rows and track; otherwise the view is recomputed and page 1 shown |
| MultipageList.Viewer.FilterSet | multipage-list/multipage-list.js:408-416 | the store holds at most the new filter; a throw leaves view, page, rows and track; otherwise the view is recomputed and page 1 shown |
| MultipageList.Viewer.Sort | multipage-list/multipage-list.js:421-424 | a comparator that is not a function throws and changes nothing; otherwise the current view (the filtered copy when there is one, else the data) is sorted by Comparison and page 1 shown |
| MultipageList.FormatRows | multipage-list/multipage-list.js:437-451 | rows below min(size, len) show the window and missing rows are appended; the rest up to size are hidden; later rows stay |
| MultipageList.UpdateShowsWindow | multipage-list/multipage-list.js:432-451 | after `update` the first min(size, len) rows show exactly the window's items and the others are hidden |
| MultipageList.UpdateTrackLimits | multipage-list/multipage-list.js:435-436 | after any `update` the track's limits are 1 and the page count |
| SchemaValidator.Message | schema-validator/schema-validator.js:107-112 | a ValidationError's message is "Schema validation failed: " followed by the text; an InvalidError's is the text |
| SchemaValidator.Prop | schema-validator/schema-validator.js:20 | reading a property throws exactly when the holder is undefined or null |
| SchemaValidator.Iterate | schema-validator/schema-validator.js:31 | `for...of` walks an array's items or a string's characters, and throws on anything else |
| SchemaValidator.MatchAgainst | schema-validator/schema-validator.js:19-60 | validation never throws an InvalidError; a pass under an array schema means an array, any other pass means the schema type equals `typeof`, and a pass under a string pattern means the pattern matched |
| SchemaValidator.MatchItems | schema-validator/schema-validator.js:21-23 | the item loop throws only validation or type errors |
| SchemaValidator.MatchObject | schema-validator/schema-validator.js:29-52 | the object branch throws only validation or type errors |
| SchemaValidator.CheckRequired | schema-validator/schema-validator.js:30-36 | a pass means every required property is truthy in the value |
| SchemaValidator.EntryOutcome | schema-validator/schema-validator.js:37-50 | one entry's check throws only validation or type errors |
| SchemaValidator.MatchEntries | schema-validator/schema-validator.js:37-50 | the entry loop throws only validation or type errors |
| SchemaValidator.MatchItemsAll | schema-validator/schema-validator.js:21-23 | the item loop passes exactly when every remaining item passes |
| SchemaValidator.ArraySchemaIff | schema-validator/schema-validator.js:20-23 | an array schema passes an array exactly when every item passes `items` |
| SchemaValidator.NonArrayNeverArray | schema-validator/schema-validator.js:25-28 | a non-array value under an array schema throws "Expected array but found <typeof>" |
| SchemaValidator.MatchEntriesAll | schema-validator/schema-validator.js:37-50 | the entry loop passes exactly when every remaining entry passes |
| SchemaValidator.ObjectSchemaIff | schema-validator/schema-validator.js:29-52 | an object schema passes an object or array exactly when the required properties are truthy and every entry is acceptable, with unknown keys skipped only under `additionalProperties === true` |
| SchemaValidator.RequiredIff | schema-validator/schema-validator.js:30-36 | the required loop passes exactly when every listed property is truthy |
| SchemaValidator.NullAgainstObject | schema-validator/schema-validator.js:25-44 | null passes the `typeof` test of an object schema but then throws a TypeError |
| SchemaValidator.FalsyRequiredIsMissing | schema-validator/schema-validator.js:32-33 | a required property holding false, 0 or "" is reported missing |
| SchemaValidator.ArrayIsObject | schema-validator/schema-validator.js:25-42 | an array passes an object schema that has no known keys and allows additional properties |
| SchemaValidator.TestSchema | schema-validator/schema-validator.js:94-106 | a well-formed schema is an object whose type is array, object, string, boolean or number; schema checking never throws a ValidationError |
| SchemaValidator.CheckRequiredSchemas | schema-validator/schema-validator.js:68-73 | the required-property loop throws only invalid or type errors |
| SchemaValidator.RequiredSchemasAll | schema-validator/schema-validator.js:61-75 | the loop passes exactly when every required property names a truthy, well-formed schema |
| SchemaValidator.ArraySchemaShape | schema-validator/schema-validator.js:76-84 | a well-formed array schema has an object `items` that is itself well formed |
| SchemaValidator.ObjectSchemaShape | schema-validator/schema-validator.js:61-75 | a well-formed object schema has an object `properties`, and every required property's schema is truthy and well formed |
| SchemaValidator.UnrequiredPropertyNotChecked | schema-validator/schema-validator.js:68-73 | the schema of a property that is not required is not checked: a malformed one passes |
| SchemaValidator.Construct | schema-validator/schema-validator.js:6-14 | construction succeeds exactly with the safe token or a well-formed schema, stores the schema unchanged and never throws a ValidationError |
| SchemaValidator.Validate | schema-validator/schema-validator.js:15-17 | `validate` throws only type errors or errors whose message starts with "Schema validation failed: " |
| ModLibrary.Flatten | mod-library/mod-library.js:61-79 | `flatten` returns an array unchanged, and nothing for a value with no keys to walk |
| ModLibrary.FieldsParentFree | mod-library/mod-library.js:66-77 | the field loop depends only on the fields, not on the object that holds them |
| ModLibrary.FieldsAppend | mod-library/mod-library.js:66-78 | the field loop over two runs of fields is the concatenation of the two loops |
| ModLibrary.FlattenAppend | mod-library/mod-library.js:66-78 | flattening an object is flattening its first fields and then the rest, in key order |
| ModLibrary.FlattenOneArray | mod-library/mod-library.js:67-70 | without a key, or under the key itself, a field holding an array contributes all its elements |
| ModLibrary.FlattenSkipsOtherArray | mod-library/mod-library.js:74 | with a key, an array stored under another name is skipped |
| ModLibrary.FieldsNoArrayNamed | mod-library/mod-library.js:66-78 | the keyed field loop collects nothing when no array is stored under the key |
| ModLibrary.FlattenNoArrayNamed | mod-library/mod-library.js:61-79 | a keyed flatten of a non-array collects nothing when no array is stored under the key at any depth |
| ModLibrary.FieldsKeyedWithin | mod-library/mod-library.js:66-78 | the keyed field loop collects a sub-multiset of what the unkeyed loop collects |
| ModLibrary.FlattenKeyedWithin | mod-library/mod-library.js:61-79 | a keyed flatten collects nothing the unkeyed flatten does not, and nothing more often |
| ModLibrary.Child | mod-library/mod-library.js:56 | the value under an object's i-th own key is that field's value |
| ModLibrary.GetKeys | mod-library/mod-library.js:49-59 | `getKeys` gives nothing below depth 1 or for an array |
| ModLibrary.GetKeysFromShallow | mod-library/mod-library.js:54-58 | once the depth is 1 or less the loop lists the remaining own keys and nothing beneath them |
| ModLibrary.GetKeysDepthOne | mod-library/mod-library.js:49-59 | at depth 1 the keys are exactly the value's own keys |
| ModLibrary.GetKeysDepthTwo | mod-library/mod-library.js:49-59 | at the default depth 2 the shared `--depth` makes only the first key's value contribute its own keys; the other keys come alone |
| ModLibrary.OwnKeysListedFrom | mod-library/mod-library.js:54-58 | every own key from the loop's position on is listed |
| ModLibrary.OwnKeysListed | mod-library/mod-library.js:49-59 | from depth 1 on, every own key of a non-array value is listed |
| ModLibrary.Getters | mod-library/mod-library.js:4-33 | the constructor defines a getter for each key that is not already a member; it reads `data[key]` directly exactly when that is truthy; members already there are kept |
| ModLibrary.Shelf.constructor | mod-library/mod-library.js:2-35 | a new Shelf holds the data, has no cached values and has the getters Getters defines |
| ModLibrary.Shelf.Read | mod-library/mod-library.js:9-31 | a key's getter yields `flatten(data[key])` when that was truthy, else `flatten(data, key)`, and caches it in `_key` |
| ModLibrary.Shelf.Any | mod-library/mod-library.js:35-41 | `any` yields `flatten(data)` and keeps it in `_any` |
| ModLibrary.MappedKey | mod-library/mod-library.js:192-198 | an item is stored under `mapper(item)` when there is a mapper, else under `item[key]` |
| ModLibrary.LastIndex | mod-library/mod-library.js:192-198 | the last item whose mapped key is q, or -1 when no item maps to q |
| ModLibrary.IndexedLast | mod-library/mod-library.js:187-198 | the built Map answers q with the last item that maps to q, and has no answer when none does |
| ModLibrary.Precheck | mod-library/mod-library.js:174-202 | indexing starts only with a property, a name, an array shelf, and either a mapper function or a string key |
| ModLibrary.Library.constructor | mod-library/mod-library.js:85-87 | a new library has an empty `data` Map and no lookups |
| ModLibrary.Library.Index | mod-library/mod-library.js:187-198 | the indexing loop builds Indexed's Map, and fails exactly when reading some item's key throws |
| ModLibrary.Library.AddMappedGetter | mod-library/mod-library.js:173-207 | a failed check throws its message and changes nothing; otherwise the Map is stored under `def.id` or a fresh Symbol and a lookup named `def.name` is defined over it, unless that name already exists, which throws a TypeError after the Map is stored |
| ModLibrary.IndexedNoneGrows | mod-library/mod-library.js:192-198 | once reading an item's key has thrown, indexing more items still throws |
| ModLibrary.MappedLookupIsLast | mod-library/mod-library.js:187-205 | a lookup that answers returns the last item with that mapped key |
| TreeViewWidget.TypeOf | tree-view/tree-view.js:188-212 | `getTypeOf` gives a container type exactly for objects and arrays, array exactly for arrays, null for null, string, number and function for those, and undefined for undefined and for booleans |
| TreeViewWidget.LayerKeysAreEntries | tree-view/tree-view.js:120-130 | after an array's "length" is popped, the key list names the entries one for one, an array's being exactly its indices |
| TreeViewWidget.Shown | tree-view/tree-view.js:101 | a leaf never shows a reference, and shows any other value as it is |
| TreeViewWidget.LeafOf | tree-view/tree-view.js:91-118 | a leaf has the given name and its type's class, carries a `data-label` exactly for strings and numbers, and has class "string" exactly for strings |
| TreeViewWidget.StringLabelBounded | tree-view/tree-view.js:101-107 | a string's label has at most 20 code units: the string itself exactly when it fits, else a prefix of it and "..." of 19 or 20 code units; without characters beyond U+FFFF, the first 17 characters and "..." |
| Strings.Utf16PrefixLength | tree-view/tree-view.js:103-104 | `slice(0, n)` of whole characters has at most n code units, is the whole string when that fits, and falls short of n by at most one |
| Strings.Utf16PrefixBmp | tree-view/tree-view.js:103-104 | without characters beyond U+FFFF, `slice(0, n)` is the first n characters |
| TreeViewWidget.BooleanShownUndefined | tree-view/tree-view.js:109-112 | a boolean falls to the undefined type and is shown as "undefined" with no label |
| TreeViewWidget.BaseLayer | tree-view/tree-view.js:120-130 | a layer's summary has the container's type as class and a `data-label` exactly for arrays |
| TreeViewWidget.Shrink | tree-view/tree-view.js:156-157 | putting an unvisited object on the path leaves one fewer object to visit |
| TreeViewWidget.LayerOf | tree-view/tree-view.js:152-186 | a layer is marked circular exactly when its object is already on the path, and then has no children; otherwise it has one child per entry |
| TreeViewWidget.Items | tree-view/tree-view.js:158-169 | the loop makes one child per entry, named by that entry's key |
| TreeViewWidget.Item | tree-view/tree-view.js:159-168 | an entry becomes a layer exactly when its value is an object or array, else a leaf, under the entry's key |
| TreeViewWidget.LayerHeight | tree-view/tree-view.js:152-186 | the `refSet` check bounds the depth of a rendered layer by the number of objects not yet on the path, plus one |
| TreeViewWidget.ItemsHeight | tree-view/tree-view.js:158-169 | every child in the loop obeys the same depth bound |
| TreeViewWidget.SafeLayerOf | tree-view/tree-view.js:132-150 | a safe layer that does not overflow has the given name and is never marked circular |
| TreeViewWidget.SafeItems | tree-view/tree-view.js:137-148 | without an overflow the safe loop makes one child per entry |
| TreeViewWidget.SafeItem | tree-view/tree-view.js:138-147 | a non-container entry becomes its leaf |
| TreeViewWidget.ItemsStep | tree-view/tree-view.js:158-169 | each pass of the loop appends one child |
| TreeViewWidget.SafeItemsStep | tree-view/tree-view.js:137-148 | each pass of the safe loop appends one child, or the overflow propagates |
| TreeViewWidget.SafeItemsNone | tree-view/tree-view.js:137-148 | an overflow in any entry makes the whole safe loop overflow |
| TreeViewWidget.SafeSelfLoop | tree-view/tree-view.js:132-150 | an object that holds itself overflows `createSafeLayer` however deep the stack is |
| TreeViewWidget.SafeNoCircular | tree-view/tree-view.js:132-150 | a safe layer never carries a circular mark at any depth |
| TreeViewWidget.SafeItemsNoCircular | tree-view/tree-view.js:137-148 | no child of a safe loop carries a circular mark |
| TreeViewWidget.SafeAgreesWithLayer | tree-view/tree-view.js:132-186 | where the checked layer finds no cycle and the safe layer does not overflow, the two render the same tree |
| TreeViewWidget.SafeItemsAgree | tree-view/tree-view.js:137-169 | the safe and the checked loops agree under the same conditions |
| TreeViewWidget.RootItem | tree-view/tree-view.js:77-85 | a root entry is rendered by the checked layer, or by the safe layer in JSON mode |
| TreeViewWidget.RootItems | tree-view/tree-view.js:68-89 | without an overflow the root gets one child per entry |
| TreeViewWidget.RootItemsNone | tree-view/tree-view.js:76-86 | once a root entry overflows, the whole root overflows |
| TreeViewWidget.RootItemsStep | tree-view/tree-view.js:76-86 | each pass of the root loop appends one child, or the overflow propagates |
| TreeViewWidget.RootItemsChecked | tree-view/tree-view.js:68-89 | outside JSON mode the root never overflows, and its children are the checked layer's items without the root on the path |
| TreeViewWidget.RootBackReferenceExpandedOnce | tree-view/tree-view.js:68-89 | the root is not put in `refSet`, so `root = {self: root}` expands `self` once and only the inner `self` is marked circular |
| TreeViewWidget.SharedObjectExpandedTwice | tree-view/tree-view.js:152-186 | `refSet` is the path and not the visited set: an object reached twice, never through itself, is expanded both times |
| TreeViewWidget.TreeView.constructor | tree-view/tree-view.js:2-16 | a new view has an empty `refSet`, no content, no label and a summary without a class |
| TreeViewWidget.TreeView.CreateLayer | tree-view/tree-view.js:152-186 | `createLayer` renders LayerOf with the current `refSet` as the path, and leaves `refSet` as it found it |
| TreeViewWidget.TreeView.RenderItem | tree-view/tree-view.js:158-169 | one pass renders Item and leaves `refSet` as it found it |
| TreeViewWidget.TreeView.CreateSafeLayer | tree-view/tree-view.js:132-150 | `createSafeLayer` renders SafeLayerOf, or overflows |
| TreeViewWidget.TreeView.RenderSafeItem | tree-view/tree-view.js:137-148 | one pass of the safe loop renders SafeItem |
| TreeViewWidget.TreeView.CreateRootLayer | tree-view/tree-view.js:68-89 | `createRootLayer` renders RootItems and leaves `refSet` as it found it |
| TreeViewWidget.TreeView.SetSource | tree-view/tree-view.js:214-240 | the root summary takes the value's type, and an array's label is the decimal text of its length; a primitive leaves no content; a container's content is RootItems; only JSON mode can overflow; `refSet` is empty afterwards |
| ReaderViewWidget.Attributes | reader-view/reader-view.js:291-301 | no more attributes are set than there are properties |
| ReaderViewWidget.AttributesIff | reader-view/reader-view.js:291-301 | an attribute (key, value) is set exactly when some truthy property other than "text" has that key and value |
| ReaderViewWidget.NoFalsyAttribute | reader-view/reader-view.js:291-301 | "text" never becomes an attribute, and properties that are all falsy leave no attribute and no text |
| ReaderViewWidget.Trimmed | reader-view/reader-view.js:19-21 | trimming keeps one line per line |
| ReaderViewWidget.Step | reader-view/reader-view.js:20-44 | an empty line gives no block and any other line one; the title run goes on exactly when the line became a title, which needs the run to be going on |
| ReaderViewWidget.Classify | reader-view/reader-view.js:16-45 | the loop makes no more blocks than lines |
| ReaderViewWidget.Sources | reader-view/reader-view.js:16-45 | every block comes from one line |
| ReaderViewWidget.SourcesAppend | reader-view/reader-view.js:20-44 | the lines behind two runs of blocks are those behind each run, in order |
| ReaderViewWidget.OneBlockPerLine | reader-view/reader-view.js:16-45 | each non-empty trimmed line becomes exactly one block, in order, and its text is the line less its one leading "#" for a heading |
| ReaderViewWidget.BlockShapes | reader-view/reader-view.js:26-43 | a paragraph never starts with "#", and a title line is shorter than 50 code units |
| ReaderViewWidget.TitlesFirst | reader-view/reader-view.js:18-34 | every title precedes every subheading and paragraph |
| ReaderViewWidget.NoTitleAfterRun | reader-view/reader-view.js:22-34 | once the title run has ended no line becomes a title |
| ReaderViewWidget.EmptyLineEndsTitles | reader-view/reader-view.js:22-38 | an empty line ends the title run, so a later "#"-line is a subheading |
| ReaderViewWidget.LastTitle | reader-view/reader-view.js:27-28 | the document title left is the last title among the blocks, or the old one when there is none |
| ReaderViewWidget.LastTitleAppend | reader-view/reader-view.js:20-44 | the last title of two runs is the second run's, starting from the first run's |
| ReaderViewWidget.RenderAll | reader-view/reader-view.js:29-42 | one element is appended per block |
| ReaderViewWidget.RenderAllAppend | reader-view/reader-view.js:20-44 | rendering two runs appends the first run's elements, then the second's |
| ReaderViewWidget.LoopStep | reader-view/reader-view.js:20-44 | one pass of the loop appends its line's block and hands the rest of the lines the title run it leaves |
| ReaderViewWidget.BareHashTitle | reader-view/reader-view.js:26-31 | a bare "#" title becomes an h1 with no text, since the empty title is falsy and skipped |
| ReaderViewWidget.ReaderView.constructor | reader-view/reader-view.js:2-9 | a new element has no light-DOM children |
| ReaderViewWidget.ReaderView.CreateElement | reader-view/reader-view.js:289-308 | the element is ElementOf: truthy "text" as text content, the other truthy properties as attributes in order, and the children only when they form an array |
| ReaderViewWidget.ReaderView.Clear | reader-view/reader-view.js:10-14 | `clear` leaves no children and the document title unchanged |
| ReaderViewWidget.ReaderView.AddLine | reader-view/reader-view.js:21-43 | one pass appends the line's rendered block, updates the title run, and sets the document title for a title |
| ReaderViewWidget.ReaderView.SetSource | reader-view/reader-view.js:16-45 | the children become exactly the rendered classification of the trimmed lines, and the document title is the last title, or the old one |
| TabViewWidget.NamedIndex | tab-view/tab-view.js:117-127 | the first child named `name`, or none exactly when no child has that name |
| TabViewWidget.ActiveIndex | tab-view/tab-view.js:129-131 | the first view whose tab is selected, or none exactly when no tab is selected |
| TabViewWidget.Activate | tab-view/tab-view.js:141-148 | the setter keeps every view's name and `selected` attribute, and shows view i with its tab selected |
| TabViewWidget.Assign | tab-view/tab-view.js:137-150 | an unknown name changes nothing; a known name becomes the value |
| TabViewWidget.ActivateOnly | tab-view/tab-view.js:141-148 | in a consistent state, after activation every other view is hidden with its tab unselected |
| TabViewWidget.AssignKnown | tab-view/tab-view.js:137-150 | setting a known name in a consistent state shows that view alone, selects its tab alone, and keeps the state consistent |
| TabViewWidget.AssignCoherent | tab-view/tab-view.js:137-150 | the setter keeps the state consistent whatever the name: at most one tab selected, exactly the selected tab's view shown |
| TabViewWidget.AutoName | tab-view/tab-view.js:14-16 | a view box without `data-name` gets "tab-" and the child count, itself included |
| TabViewWidget.Connected | tab-view/tab-view.js:8-36 | a connected box is appended hidden under its name; a later box without `selected` changes nothing else; the first box or one marked `selected` goes through the setter |
| TabViewWidget.ConnectedCoherent | tab-view/tab-view.js:8-36 | connecting a box keeps a consistent state consistent |
| TabViewWidget.FirstBoxShown | tab-view/tab-view.js:30-31 | the first box connected into an empty tab view is shown, its tab selected and its name the value |
| TabViewWidget.AutoNameRepeats | tab-view/tab-view.js:14-16 | the automatic name can repeat one already given: after removal the next box is again "tab-2", and the setter finds the older box with that name |
| TabViewWidget.Without | tab-view/tab-view.js:108-115 | removing view i keeps the other views in order |
| TabViewWidget.WithoutCoherent | tab-view/tab-view.js:108-115 | removing a view keeps the state consistent; the value stays as it was even when that view was shown |
| TabViewWidget.TabView.constructor | tab-view/tab-view.js:70-78 | a new tab view has no registered names, no views and no value |
| TabViewWidget.TabView.FindView | tab-view/tab-view.js:117-127 | the loop returns the first child named `name`, or none |
| TabViewWidget.TabView.SetValue | tab-view/tab-view.js:137-150 | the new views and value are what Assign gives |
| TabViewWidget.TabView.ConnectViewBox | tab-view/tab-view.js:8-36 | the box's name is registered, and the views and value are what Connected gives |
| TabViewWidget.TabView.AddTab | tab-view/tab-view.js:83-94 | `addTab` throws exactly for an empty or already registered name, and then changes nothing; otherwise the name is registered and a box with it is connected without `selected` |
| TabViewWidget.TabView.RemoveTab | tab-view/tab-view.js:108-115 | the first view with that name is removed, if there is one; the name is unregistered and the value is kept |

## Left out

- Fetching, `async` loading, `Promise` plumbing and timers are not modelled. This covers `CodeBlock` source loading, `Library.from`, `loadData`, `fetchAsJSON`, `resolveOnReady`, `SchemaValidator.forSchemaFile`, `TreeView.loadSourceAsJSON` and the reader view's `src` setter. A loaded file is a parameter.
- The code block's dynamic `import` of a highlighter is modelled as its success (`CodeBlockWidget.CodeBlock.HighlighterLoaded`). The failure path, which refers to an undefined variable, is not modelled.
- Shadow roots, templates, `cloneNode`, CSS classes used only for styling, event listeners (clicks, `toggle`, drag and drop, keyboard, touch, the `Animator`) and the clipboard are not modelled.
- Regular expressions supplied at run time are abstract. The link matcher of `data-matchlinks` and the validity of its pattern are parameters (`CodeBlockWidget.RegexEngine`). A schema `pattern` test is also a parameter, and an invalid schema pattern is not modelled. The fixed patterns of the source are written out concretely: the row pattern `.*\r?\n`, the selector split and `!important`.
- Numbers are integers: JSON values, list items and labels. Floating point, `NaN` and number formatting beyond integers are left out.
- JSON objects with duplicate keys, inherited (prototype) properties and `Object.keys`' ordering of integer-like keys before other keys are not modelled. Keys keep their insertion order.
- `ModLibrary.Flatten`: the source throws on null and never ends on a non-empty string, whose characters are strings again. Both are excluded by its precondition rather than modelled.
- `ModLibrary.GetKeys`: a walk that would reach null, where `Object.keys` throws, is excluded by its precondition rather than modelled as a throw.
- `ModLibrary.Shelf.Read`: a getter's `_key` cache is kept apart from the other getters, so a key named like another key's cache field (`_x` beside `x`) is not modelled.
- `ModLibrary.Library.AddMappedGetter`: a lookup named "data", which would collide with the library's own `data` field, is excluded. The mapper is a total function, so a mapper that throws is not modelled. Map keys compare by value, so the identity of object keys is not modelled.
- `Library.from`'s `transform` handling and its property definitions are not modelled; the constructor takes the loaded properties as given.
- `TreeViewWidget.TypeOf`: `getTypeOf(obj, "")` looks at `obj` itself, because an empty key is falsy. Object graphs with an empty key are not modelled.
- `TreeViewWidget.Shown`: a reference outside the heap renders as undefined. Real object graphs have no such reference.
- `TreeViewWidget.SafeLayerOf`: the JavaScript call stack is a `fuel` bound, and running out of fuel stands for the stack overflow a cyclic JSON-mode graph causes. The real stack depth is not modelled.
- The tree view's `open` attribute (which details start open), `createTargetIdFor`'s random ids, the focus animation on circular layers and function `toString` text are not modelled. A function is shown by a given source text.
- The reader view's display settings (text size, themes, columns, the settings form) are not modelled.
- `TabViewWidget.TabView.ConnectViewBox`: the tab view is assumed connected with its tab box present, and every child is assumed to be a view box. Re-connecting a moved view box is not modelled; the source never sets `initialized` on a view box.
- `TabViewWidget.TabView.AddTab`: the `node` content appended to the new view box is not modelled.
- A tab's `linkedView` is taken to be its own view box. The click handler (`Tab.setSelected`) and `Tab.connectedCallback`, which resolve the view by name and so reach the first box with a repeated name, are not modelled (see `TabViewWidget.AutoNameRepeats`).
- `MultipageList.PageTrack.SetSelected`: the page track is assumed to have the template's nine nodes (first, ellipsis, five middle buttons, ellipsis, last). The nodes' initial attributes from the template are not modelled.
- The multipage list's row formatter is a parameter, and its DOM updates are modelled only through the item each row holds and its hidden flag.
- `MultipageList.Viewer.ForData`: the source keeps the caller's array itself, so the list and the caller share it. Here the data is a value: changes the caller makes to the array afterwards (aliasing) are not captured.
- `MultipageList.Viewer.Sort`: the sort reorders a value, so the caller's array that `forData` received is not reordered with it. The comparator returns integers; `NaN` and other non-integer results are not modelled. Undefined items and holes, which the default order puts last, are not modelled. For a comparator that is not consistent the engine's order is implementation-defined; the model gives the insertion-sort order.
- `TreeViewWidget.LeafOf`: when the 17th code unit of a long string is the first half of a surrogate pair, the source's label keeps that lone half. A model string holds whole characters only, so its label ends before that character. Lone surrogates in general are not modelled.
