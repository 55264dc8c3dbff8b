# MergeTool core, modelled in Dafny

MergeTool resolves merge conflicts in C and C++ files. A conflicted file is
read as an alternation of *file bits* (text that merged cleanly) and
*conflicts* (regions between `<<<<<<<`, `|||||||`, `=======` and `>>>>>>>`
marker lines). Each conflict is resolved by choosing `left`, `right` or
`both`. The resolved file is the bits with each conflict's chosen text between
them. Before resolving, the tool can move lines across the boundary between a
bit and a conflict, so that a conflict covers whole syntax blocks. A
cyclic `Index` walks the user through the conflicts that are left.

The repository holds two generations of the merge classes:
- `merge/choice.py`, `merge/file_bit.py`, `merge/conflict.py` and
  `merge/file_merge.py` are the current one. It has a `Choice` enum, three-way
  and two-way conflicts with line anchors in the marked-up file and in each
  branch, and a four-state parser.
- `merge/Conflict.py` and `merge/FileMerge.py` are the older one. A conflict
  stores a snapshot of the chosen text, and the parser has three states and
  uses three-character markers.

Both generations are modelled.

## Layout

| file | module | models |
|---|---|---|
| wrappers.dfy | `Wrappers` | `Option`, for operations that raise instead of returning |
| strings.dfy | `Strings` | '\n'-only lines: `splitlines(keepends=True)`, `"".join`, `count('\n')`, and the bit/conflict alternation `Composed` |
| choice.dfy | `Choices` | merge/choice.py |
| file_bit.dfy | `FileBits` | merge/file_bit.py |
| conflict.dfy | `Conflicts` | merge/conflict.py (`Conflict3Way`, `Conflict2Way`, `ConflictBuilder`) |
| file_merge.dfy | `FileMerges` | merge/file_merge.py |
| realign.dfy | `Realignment` | the bit/conflict boundary moves of merge/file_bit.py with merge/conflict.py |
| legacy_conflict.dfy | `LegacyConflicts` | merge/Conflict.py |
| legacy_file_merge.dfy | `LegacyFileMerges` | merge/FileMerge.py |
| block.dfy | `Blocks` | merge/block.py |
| index.dfy | `Indexes` | ui/index.py |

**Classes and snapshots.** Each object the source updates in place is a
`class` with the source's fields:
- `FileBit`, `Conflict`, `ConflictBuilder`, `FileMerge`;
- the older `Conflict` and `FileMerge`;
- `Index`.

Each class has a datatype snapshot `Value()`. Every method states its new
state as a pure function of the old snapshot, for example
`Value() == old(Value()).ExtendedTopUp(chunk)`. The properties are lemmas
about those functions.

**Parsers.** Both `parse` methods are loops over the lines. Each is proved
equal to a fold of a pure one-line step over the input (`Run`/`Step`, and
`LegacyRun`/`LegacyStep`). The round trip, shape and anchor lemmas are proved
on the fold.

**Where the source and the design part ways.**
- `merge/file_merge.py` cannot run as written. It imports a `Diff3Conflict`
  that does not exist (line 6). It calls `Conflict` constructors with
  arguments that `merge/conflict.py` does not accept (lines 76 and 81). It
  stores the marker line as a bit's line number (line 65). It writes the old
  separator names (lines 78, 83, 90 and 97).
- The model keeps the routing of lines at lines 59-104. It builds conflicts
  with the field layout of `ConflictBuilder` (merge/conflict.py:159-187):
  - `<<<<<<<` goes to `sep1`;
  - `|||||||` goes to `sep2` and sets `has_base`;
  - `=======` goes to `sep3`;
  - `>>>>>>>` goes to `sep4`.
- Anchors are 1-based, as in the expected objects of
  test/merge/test_file_merge.py:214-247 and the docstring at
  merge/conflict.py:18-32:
  - a bit is anchored at the line after the previous `>>>>>>>` line, or at 1;
  - a conflict's `line_number` is its `<<<<<<<` line;
  - `line_num_left` and `line_num_right` are the lines where its text starts
    in the left-only and right-only files.

  For that test's input, `ParseAnchors` gives bits at 1, 14 and 26, and
  conflicts at (8, 8, 8) and (19, 15, 14), matching the expected objects.
- The older parser works as written: its parts fit together. Its anchors are 0-based line indexes
  (merge/FileMerge.py:66,84).

## Model

| member | source | states |
|---|---|---|
| Choices.Choice.Ordinal | merge/choice.py:4-8 | every member's value is one of 0..3 |
| Choices.FromOrdinal | merge/choice.py:4-8 | `Choice(n)` exists exactly for 0 <= n < 4, and its value is `n` |
| Choices.OrdinalsNumberTheMembers | merge/choice.py:4-8 | the four members have four distinct values, and `Choice(value)` gives the member back |
| Choices.OnlyUndecidedIsUnresolved | merge/choice.py:10-11 | `is_resolved` is false for `undecided` and true for `left`, `right` and `both`, so exactly one member is unresolved |
| FileBits.FileBitValue.ShrunkTopDown | merge/file_bit.py:11-19 | requires 1 <= n <= number of lines. The returned chunk is the first n lines, and chunk + new text == old text. The text loses exactly n lines, so shrinking every line leaves "". `line_number` grows by n |
| FileBits.FileBitValue.ShrunkBottomUp | merge/file_bit.py:21-28 | requires 1 <= n <= number of lines. The returned chunk is the last n lines, and new text + chunk == old text. The text loses exactly n lines. `line_number` is unchanged. The chunk ends with a line break when the text did |
| FileBits.FileBit.Equals | merge/file_bit.py:6-9 | two bits are equal exactly when their line numbers and texts are |
| FileBits.FileBit.ShrinkTopDown | merge/file_bit.py:11-19 | the new state and the returned chunk are `ShrunkTopDown` of the old state |
| FileBits.FileBit.ShrinkBottomUp | merge/file_bit.py:21-28 | the new state and the returned chunk are `ShrunkBottomUp` of the old state |
| Conflicts.ResolvedResults | merge/conflict.py:86-91 | `result(left)` is left and `result(right)` is right. `result(both)` is their concatenation. No resolved result is anything else, so `base` never appears |
| Conflicts.UndecidedResult | merge/conflict.py:139-145 | the undecided text (what `result` at lines 84-85 returns before a decision) is sep1+left+sep2+base+sep3+right+sep4 for a three-way conflict, and sep1+left+sep3+right+sep4 for a two-way one |
| Conflicts.StartEndDomain | merge/conflict.py:112-121 | `start(c)` answers exactly for left and right (`None` where the source raises). `end(c)` answers exactly where `start` does, and `end(c) - start(c)` is the line count of `result(c)` |
| Conflicts.ExtendTopUpKeepsEnds | merge/conflict.py:98-105 | for a chunk of whole lines, both branches gain the chunk in front. The three anchors drop by its line count, and both branch ends, as `start` and `end` at lines 112-121 compute them, stay where they were |
| Conflicts.ExtendBottomDownKeepsStarts | merge/conflict.py:107-110 | both branches gain the chunk at their end and every anchor stays. A branch that is empty or ends with a line break ends that many lines later (ends as lines 112-121 compute them) |
| Conflicts.Conflict.Conflict3Way | merge/conflict.py:34-63 | a new conflict holds the given anchors, texts and separators and is undecided |
| Conflicts.Conflict.Conflict2Way | merge/conflict.py:131-137 | a new two-way conflict has base "NOSTR", an empty `sep2`, and is undecided |
| Conflicts.Conflict.IsResolved | merge/conflict.py:75-76 | resolved exactly when the stored choice is not `undecided` |
| Conflicts.Conflict.Select | merge/conflict.py:78-79 | only the stored choice changes |
| Conflicts.Conflict.Result | merge/conflict.py:81-93 | with no argument the stored choice decides; with one, the given choice |
| Conflicts.Conflict.ExtendTopUp | merge/conflict.py:98-105 | the new state is `ExtendedTopUp(chunk)` of the old: the chunk is prepended to left, base and right, the anchors drop by its '\n' count, and the separators and choice stay |
| Conflicts.Conflict.ExtendBottomDown | merge/conflict.py:107-110 | the new state is `ExtendedBottomDown(chunk)` of the old: the chunk is appended to left, base and right, and nothing else changes |
| Conflicts.Conflict.Equals | merge/conflict.py:65-73 | equal conflicts agree on `start` and `end` for every choice. Equal conflicts of the same class agree on every result |
| Conflicts.Draft.Build | merge/conflict.py:181-187 | the conflict is three-way exactly when a base was seen. It is undecided and keeps the anchors. Its resolved texts are the collected left and right, and its undecided text is the collected separators and texts in order. The two-way form has base "NOSTR" and no `sep2` |
| Conflicts.ConflictBuilder.constructor | merge/conflict.py:165-179 | no base, anchors -1, empty texts, and each separator its marker plus a line break |
| Conflicts.ConflictBuilder.Build | merge/conflict.py:181-187 | a fresh conflict whose state is `Build()` of the builder's fields |
| Conflicts.Construct | merge/conflict.py:181-187 | a fresh conflict object of the class `Build()` picks, holding its state |
| FileMerges.FileMerge.IsResolved | merge/file_merge.py:20-21 | resolved exactly when every conflict's choice is not `undecided` |
| FileMerges.Unresolved | merge/file_merge.py:21 | the list comprehension keeps only unresolved conflicts of the merge, and is empty exactly when all are resolved |
| FileMerges.FileMerge.SelectAll | merge/file_merge.py:23-25 | every conflict gets choice `c`; nothing else in the merge changes |
| FileMerges.SelectAllResolves | merge/file_merge.py:23-37 | after `select_all(c)` with a resolving `c`, the merge is resolved and the bits are unchanged. The text is the file resolved to `c`, and for `left` that is the bits with each conflict's left text between them |
| FileMerges.FileMerge.Result | merge/file_merge.py:27-37 | requires the bits and conflicts to alternate (one more bit, or as many). The popping loop returns bit 0, conflict 0's current result, bit 1, and so on |
| FileMerges.FileMerge.Parse | merge/file_merge.py:59-107 | the loop builds exactly the bits and conflicts of the one-line-step fold `Parsed` |
| FileMerges.ParseRoundTrip | merge/file_merge.py:59-107 | for input that ends outside a conflict, there is one more bit than conflicts and every conflict is undecided. `result()` gives the input back, markers and all |
| FileMerges.ParsedUndecided | merge/conflict.py:63 | every conflict the parse builds is undecided, since each starts undecided and the parse never selects, so the parse is resolved exactly when it has no conflict |
| FileMerges.RunMarks | merge/file_merge.py:59-104 | every parsed conflict is undecided. Each separator starts with its marker, and a two-way conflict has base "NOSTR" and no `sep2` |
| FileMerges.ParseAnchors | merge/file_merge.py:59-107 | for input of whole lines, a conflict's `line_number` is 1 + the marked-up lines before it. `line_num_left` and `line_num_right` are 1 + the lines of the left-only and right-only file before it. Every bit is anchored at 1 + the marked-up lines before it |
| FileMerges.ParseDropsOpenConflict | merge/file_merge.py:106-109 | for input that ends inside a conflict, the open conflict is dropped and an empty bit is still appended. There are then two more bits than conflicts, so `result()` cannot walk the merge. The closed pieces and the dropped text, which starts with the `<<<<<<<` line, make up the input |
| FileMerges.ParsedCheckedRoundTrip | merge/file_merge.py:106-109 | the checked parse fails exactly when the unchecked one yields a merge `result()` cannot walk. What it returns reproduces the input |
| FileMerges.FileMerge.ParseChecked | merge/file_merge.py:40-109 | `None` exactly for input that ends inside a conflict. Otherwise it returns a fresh merge equal to `Parsed`, with one more bit than conflicts, whose text is the input |
| Realignment.ShrinkBottomUpThenExtendTopUp | merge/file_bit.py:21-28 | after `shrink_bottom_up(n)` on the bit above, then `extend_top_up` with the returned chunk, bit text + `result(left)` and bit text + `result(right)` are unchanged. The bit keeps its anchor. For a bit of whole lines, the conflict's anchors drop by n and its branch ends stay |
| Realignment.ShrinkTopDownThenExtendBottomDown | merge/file_bit.py:11-19 | after `shrink_top_down(n)` on the bit below, then `extend_bottom_down`, `result(left)` + bit text and `result(right)` + bit text are unchanged. The bit moves n lines down and the branch starts stay. A branch that is empty or of whole lines ends n lines later |
| Realignment.MarkedUpTextChanges | merge/conflict.py:98-105 | the moved lines are copied into every branch, so for an undecided conflict the marked-up text is not preserved (a concrete bit and conflict) |
| LegacyConflicts.NewConflictUnresolved | merge/Conflict.py:2-16 | a new conflict has no snapshot, and its result is "<<<\n" + left + "===\n" + right + ">>>\n" |
| LegacyConflicts.LegacyConflictValue.Selected | merge/Conflict.py:18-25 | a select stores a snapshot of the left text, the right text, or both, and changes nothing else |
| LegacyConflicts.SelectedResult | merge/Conflict.py:18-31 | selecting is idempotent. A non-empty snapshot is the result, and later edits of `left` and `right` do not change it |
| LegacyConflicts.EmptySelectionShowsMarkers | merge/Conflict.py:27-31 | selecting an empty left text marks the conflict resolved, yet `result()` still gives the separators and the right text |
| LegacyConflicts.IntendedResultIsSelection | merge/Conflict.py:15-31 | the corrected result is the snapshot whenever one is stored, and ignores later edits. It agrees with `result()` when nothing is selected or the snapshot is non-empty |
| LegacyConflicts.LegacyConflict.constructor | merge/Conflict.py:2-13 | default separators "<<<\n", "===\n" and ">>>\n", and no snapshot |
| LegacyConflicts.LegacyConflict.WithSeparators | merge/Conflict.py:2-13 | the given separators, and no snapshot |
| LegacyConflicts.LegacyConflict.SelectLeft | merge/Conflict.py:18-19 | the new state is `Selected(PickLeft)` of the old |
| LegacyConflicts.LegacyConflict.SelectRight | merge/Conflict.py:21-22 | the new state is `Selected(PickRight)` of the old |
| LegacyConflicts.LegacyConflict.SelectBoth | merge/Conflict.py:24-25 | the new state is `Selected(PickBoth)` of the old |
| LegacyConflicts.LegacyConflict.Result | merge/Conflict.py:27-31 | the result as written: the snapshot when it is non-empty, the marked-up region otherwise |
| LegacyFileMerges.LegacyFileMerge.IsResolved | merge/FileMerge.py:14-15 | resolved exactly when every conflict has a snapshot |
| LegacyFileMerges.LegacyUnresolved | merge/FileMerge.py:15 | the list comprehension keeps only conflicts without a snapshot, and is empty exactly when all have one |
| LegacyFileMerges.LegacyFileMerge.SelectAll | merge/FileMerge.py:17-27 | every conflict takes the same select; nothing else changes |
| LegacyFileMerges.LegacyFileMerge.SelectAllLeft | merge/FileMerge.py:17-19 | the new state is `SelectedAll(PickLeft)` of the old |
| LegacyFileMerges.LegacyFileMerge.SelectAllRight | merge/FileMerge.py:21-23 | the new state is `SelectedAll(PickRight)` of the old |
| LegacyFileMerges.LegacyFileMerge.SelectAllBoth | merge/FileMerge.py:25-27 | the new state is `SelectedAll(PickBoth)` of the old |
| LegacyFileMerges.SelectAllResolvesLegacy | merge/FileMerge.py:17-39 | after `select_all_*` the merge is resolved and its bits are unchanged. When no chosen text is empty, the result is the bits with each chosen text between them |
| LegacyFileMerges.LegacyFileMerge.Result | merge/FileMerge.py:29-39 | requires the bits and conflicts to alternate. The popping loop returns bit 0, conflict 0's result, bit 1, and so on |
| LegacyFileMerges.LegacyFileMerge.Parse | merge/FileMerge.py:58-93 | the loop builds exactly the bits and conflicts of the one-line-step fold `LegacyParsed` |
| LegacyFileMerges.LegacyParseRoundTrip | merge/FileMerge.py:58-93 | for input that ends outside a conflict, there is one more bit than conflicts and no conflict has a snapshot. `result()` gives the input back |
| LegacyFileMerges.LegacyParsedUnselected | merge/Conflict.py:13 | no conflict the parse builds has a snapshot, since each starts without one and the parse never selects, so the parse is resolved exactly when it has no conflict |
| LegacyFileMerges.LegacyParseAnchors | merge/FileMerge.py:62-84 | for input of whole lines, the first bit is at 0. A conflict is at the 0-based index of its `<<<` line, and a later bit is one past its `>>>` line. Each is the number of marked-up lines before it |
| LegacyFileMerges.LegacyParseDropsOpenConflict | merge/FileMerge.py:91-93 | for input that ends inside a conflict, the open conflict is dropped and an empty bit is still appended. There are then two more bits than conflicts, and the closed pieces and the dropped text make up the input |
| LegacyFileMerges.LegacyParsedCheckedRoundTrip | merge/FileMerge.py:91-93 | the checked old parse fails exactly when the unchecked one yields a merge `result()` cannot walk. What it returns reproduces the input |
| Blocks.FromNode | merge/block.py:12-14 | the block has the node's start and end |
| Blocks.StructureOfIf | merge/block.py:16-42 | requires an `if` node with at least two children. The result always holds `Block(if.start, then.end)`, and also `Block(if.start, else.end)` when there is an else branch |
| Blocks.StructureOfIfIsStructure | merge/block.py:23-42 | the six-way case split equals, in order: the compound branches' own extents (then before else), then `Block(if.start, then.end)`, then `Block(if.start, else.end)` when there is an else branch |
| Blocks.StructureOfIfSize | merge/block.py:23-42 | 4, 3, 3 or 2 blocks with an else branch, and 2 or 1 without |
| Blocks.CompoundBranchesOnly | merge/block.py:26-42 | a branch contributes its own extent exactly when it is compound (for branches that start after the `if` and in order) |
| Blocks.StructureOfIfBounds | merge/block.py:26-42 | every block starts where the `if` or one of its branches starts, and ends where a branch ends |
| Indexes.Fresh | ui/index.py:2-6 | a new index has cursor 0 and every position left, and keeps the invariant |
| Indexes.Cursor.Next | ui/index.py:8-11 | a no-op when empty. Otherwise one step forward, wrapping from the last position to 0; the positions left do not change |
| Indexes.Cursor.Prev | ui/index.py:13-16 | a no-op when empty. Otherwise one step back, wrapping from 0 to the last position; the positions left do not change |
| Indexes.NextPrevInverse | ui/index.py:8-16 | `next` and `prev` keep the invariant and undo each other |
| Indexes.Cursor.Delete | ui/index.py:24-33 | `None` exactly when empty. Otherwise the current position is removed, one fewer is left, and the cursor stays or wraps to 0 |
| Indexes.DeleteValid | ui/index.py:24-33 | `delete` keeps the invariant: the cursor stays in range (0 when empty), and positions stay strictly increasing and within the values |
| Indexes.DeleteRemovesCurrent | ui/index.py:28 | `delete` removes exactly the current position: the rest stay, as a multiset, and it is gone |
| Indexes.DeleteMovesToFollower | ui/index.py:28-33 | after `delete` the cursor is on the position that followed the deleted one, or on the first when it was the last |
| Indexes.Current | ui/index.py:18-22 | `None` exactly when empty. Otherwise one of the values |
| Indexes.Index.constructor | ui/index.py:2-6 | `values` as given, cursor 0, and positions 0 .. len(values)-1 |
| Indexes.Index.SizeLeft | ui/index.py:35-36 | the number of positions left |
| Indexes.Index.IsEmpty | ui/index.py:41-42 | empty exactly when no positions are left |
| Indexes.Index.Next | ui/index.py:8-11 | the new cursor is `Next()` of the old, and the invariant holds |
| Indexes.Index.Prev | ui/index.py:13-16 | the new cursor is `Prev()` of the old, and the invariant holds |
| Indexes.Index.CurrentValue | ui/index.py:18-22 | `None` exactly when empty. Otherwise `values[_left_indices[_index]]` |
| Indexes.Index.Delete | ui/index.py:24-33 | when empty, `false` and no change. Otherwise `true`, the new cursor is `Delete()` of the old, and the invariant holds |

## Left out

- Reading files: both `parse` methods open a path with latin-1 encoding
  (merge/file_merge.py:47, merge/FileMerge.py:48). The model takes the list
  `readlines()` would return.
- Line breaks: '\n' is the only line break. Python's `splitlines` also splits
  on '\r', '\x0b', '\x0c', '\x1c'-'\x1e', '\x85', U+2028 and U+2029, but
  `extend_top_up` counts only '\n'.
- The anchor lemmas (`FileMerges.ParseAnchors`, `LegacyFileMerges.LegacyParseAnchors`)
  assume every line ends with a line break (`AllEnded`). A final line without
  one does not change the parsed pieces, only the line count.
- Failure paths:
  - The assertions in `shrink_top_down` and `shrink_bottom_up` are
    preconditions. `shrink_top_down` raises its `line_number` before asserting;
    that half-done state is not modelled.
  - `ValueError` from `start`/`end` is `None`.
  - `ValueError` from `Index.value`/`Index.delete` is `None` or `false`.
  - The `IndexError` of `result()` on a merge whose pieces do not alternate is
    a precondition of `Result`.
- `FileMerges.FileMerge.Parse`: it follows the evident design, not the broken
  constructor calls and names listed above (see "Where the source and the
  design part ways"). `line_number` is a 1-based line number, never the
  marker string.
- `description()` in merge/conflict.py is string formatting.
- `Index.values_left` (ui/index.py:38-39) indexes a list with a list and
  always raises `TypeError`.
- `Conflicts.Conflict.Equals`: the source's `__eq__` checks the class of
  `self` instead of `other` (merge/conflict.py:66). The model compares fields
  only, and its contract states what equal fields imply.
- The `isinstance` check of `FileBit.__eq__` is implied by the model's types.
- merge/FileBit.py, which merge/FileMerge.py imports, is not part of this
  model. The older merge uses the `FileBit` of merge/file_bit.py.
- The realignment driver and its helpers (`refactor_syntax_blocks`,
  `abstract_syntax_tree`, `extract_children`, `can_parse`) are not part of this
  model. Only the shrink and extend primitives and the boundary property are
  modelled.
- Syntax nodes are an abstract datatype with `start`, `end`, `is_compound` and
  children. The clang bindings (merge/cursor_utils.py,
  merge/external_parser_setup.py) are not modelled. The kind check of
  `structure_of_IF` is a precondition.
- merge/project_merge.py, the command-line loop, argument parsing and the
  entry points are file-system and console work outside the core.
- Python's `%` floors. For `Index.prev` the divisor is positive, so Dafny's
  Euclidean `%` gives the same wrap-around from 0 to the last position.
- `delete` tests `not self.is_empty() > 0`, which parses as
  `not (self.is_empty() > 0)`. That equals `not self.is_empty()`, so the model
  uses it as such.

## Findings

| source | as written | input that shows it | evidently intended | confidence | as-written member | corrected member |
|---|---|---|---|---|---|---|
| merge/file_merge.py:106-109 | a conflict left open at the end of the input is dropped, and an empty bit is still appended | the lines `["a\n", "<<<<<<<\n", "b\n"]` give two bits and no conflict, and `result()` then pops a conflict from an empty list | reject input that ends inside a conflict | not executed | FileMerges.ParseDropsOpenConflict | FileMerges.ParsedCheckedRoundTrip |
| merge/FileMerge.py:91-93 | the same in the older parser | the lines `["a\n", "<<<\n"]` give two bits and no conflict | reject input that ends inside a conflict | not executed | LegacyFileMerges.LegacyParseDropsOpenConflict | LegacyFileMerges.LegacyParsedCheckedRoundTrip |
| merge/Conflict.py:27-31 | `if self._select:` treats an empty snapshot as no selection | `select_left()` on a conflict whose left text is "" is resolved, yet `result()` is the marked-up region | return the snapshot whenever `_select is not None`, as `is_resolved` does | not executed | LegacyConflicts.EmptySelectionShowsMarkers | LegacyConflicts.IntendedResultIsSelection |
