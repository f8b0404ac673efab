# espada: the diff pipeline and its neighbours, in Dafny

espada asks a language model to edit a code base. It sends the files to the
model as numbered lines, reads back a reply holding unified diffs, repairs
those diffs against the files they claim to edit and applies them. This
project models that pipeline and the helpers around it, and proves
properties of the model.

**Lines and similarity.** A file becomes a map from 1-based line numbers to
lines (`file_to_lines_dict`). Two lines are compared with `count_ratio`,
which is the character-multiset overlap of the two lines without spaces and
in lower case, divided by the longer length. Two lines are similar when that
ratio is at least 0.9.

**Hunks.** A `Hunk` keeps its four header numbers, its tagged lines (RETAIN,
ADD or REMOVE) and a count per tag. `validate_and_correct` first finds where
the hunk starts in the file (`find_start_line`), then walks the hunk and the
file side by side (`validate_lines`). Along the way it relabels comment lines
as ADD, inserts lines the model skipped, drops lines the model invented, or
gives up with a problem message. A `Diff` runs this on each of its hunks
against a map cut after the previous hunk. It removes the hunks that fail and
renumbers the rest.

**Parsing.** `parse_diff_block` turns a fenced block into `Diff` objects
keyed by their post-edit name, and `parse_hunk_header` reads the `@@` line.
`parse_diffs` keeps the first diff for each name. `chat_to_files_dict` reads
"path, then fenced code" pairs and cleans the paths.

**Applying.** `apply_diffs` replays each hunk onto the line map of its file.
ADD lines are glued to the line before them, and REMOVE lines are marked with
a flag and dropped at the end. A new file is the concatenation of its hunks'
lines. `FilesDict` renders files for the chat (numbered) and for the log.

**Around the pipeline.** The model also covers:

- the message helpers of the AI wrapper;
- the token-usage log and its cost;
- the project configuration's dictionary round trip;
- the MBPP problem's starting code;
- the CLI file selector: merging file lists, the listing and sorting of
  project files, the comment marks of the selection file, the linting
  switch, and the tree display of paths.

Each module is written in the form of the code it models:

- **Pure code** is modelled as functions and datatypes. This covers
  similarity, header parsing, rendering, the specification functions of
  validation, and applying.
- **Objects whose methods change their fields** are modelled as classes whose
  methods are proved equal to those specification functions:
  - `Hunks.Hunk` and `Diffs.Diff`;
  - `FilesDicts.FilesDict`;
  - `TokenUsage.TokenUsageLog`;
  - `FileSelection.FileSelector` and `FileSelection.FileTable`;
  - `DisplayTree.DisplayablePath`.
- **Loops** are modelled as methods with invariants. This covers the loops of
  `validate_lines`, `Diff.validate_and_correct`, `parse_diff_block`,
  `apply_diffs`, `merge_file_lists` and `get_current_files`.

Python dictionaries are modelled as sequences of key–value pairs in insertion
order (`LineMaps`), because the source depends on that order.

Python's `str` operations (`split`, `join`, `strip`, `startswith`, `lower`)
are modelled in `PyStr`.

A Python crash (`KeyError`, `IndexError`) becomes a `requires` where every
caller of the source avoids it. Where a caller can reach it, it becomes `None`
instead.

`find_start_line` and `validate_and_correct` call each other, and in the
source nothing bounds that recursion. The model bounds it with fuel:
`RetryDepth` nested calls, which is more than any hunk that terminates needs
(`HunkLemmas.FuelSuffices`). Running out of fuel stands for the
`RecursionError` Python raises once the unbounded mutual recursion reaches the
interpreter's recursion limit; `salvage_correct_hunks` does not catch it, so
the step fails (`HunkLemmas.DivergentNeverFinishes`).

`Diff.validate_and_correct` removes failed hunks from the list it is
iterating over. As a result, the hunk after a removed one is never checked and
keeps its numbers. The model reproduces this (`DiffSpec.RemovalPassesOverNext`)
and proves that the index-based loop equals a front-to-back sweep
(`DiffSpec.WalkMatchesSweep`).

## Model

| member | source | states |
|---|---|---|
| Similarity.Normalize | espada/core/diff.py:331 | the normalised string has no space and is no longer than the input |
| Similarity.CountRatioRange | espada/core/diff.py:329-339 | the ratio is between 0 and 1 |
| Similarity.CountRatioSymmetric | espada/core/diff.py:324-339 | the ratio and similarity do not depend on the order of the two strings |
| Similarity.SimilarSelf | espada/core/diff.py:324-339 | every string, the empty one included, is similar to itself |
| Similarity.CountRatioSelf | espada/core/diff.py:329-339 | a string's ratio with itself is exactly 1 |
| Similarity.FullOverlap | espada/core/diff.py:333-339 | overlapping in every character of the longer string gives ratio 1 |
| Similarity.CountRatioBothBlank | espada/core/diff.py:336-337 | two strings of spaces only (two empty strings too) have ratio 1, the `longer_length == 0` branch |
| Similarity.IsSimilarMeansRatio | espada/core/diff.py:324-326 | similar exactly when the ratio reaches 0.9 |
| Similarity.CountRatioOrderInsensitive | espada/core/diff.py:331-339 | scrambling the characters of a string does not change its ratio with any other |
| LineMaps.Find | espada/core/diff.py:83 | the position of a key is its first occurrence, and -1 means absent |
| LineMaps.Put | espada/core/chat_to_files.py:65-71 | after `m[k] = v` the key is present with value `v` |
| LineMaps.PutOther | espada/core/chat_to_files.py:65-71 | `m[k] = v` leaves every other key in place with its value |
| LineMaps.PutShape | espada/core/chat_to_files.py:65-71 | an existing key keeps its position; a new key is appended at the end |
| LineMaps.Values | espada/core/chat_to_files.py:81 | `values()` lists the values in insertion order |
| LineMaps.Enumerate | espada/core/files_dict.py:53-59 | `enumerate(xs, start)` numbers the items consecutively from `start` |
| LineMaps.KeepFrom | espada/core/diff.py:295-297 | the dictionary comprehension that keeps keys `>= c` never grows the map |
| LineMaps.ContiguousFind | espada/core/diff.py:162-166 | in a map whose keys are consecutive, key `k` is present iff it lies between the least and the greatest key, at offset `k - Lo` |
| LineMaps.KeepFromContiguous | espada/core/diff.py:295-297 | cutting a consecutive map below `c` drops a prefix, so the rest is still consecutive |
| LineMaps.LinesDictKeys | espada/core/files_dict.py:50-60 | `file_to_lines_dict` has the keys 1..n+1, where n is the number of newlines |
| LineMaps.LinesDictRoundTrip | espada/core/files_dict.py:50-60 | joining the values with newlines gives back the file |
| LineMaps.LinesDictOfEmpty | espada/core/files_dict.py:50-60 | the empty file is one empty line numbered 1 |
| LineMaps.LinesDictNoNewline | espada/core/files_dict.py:50-60 | no line of the map holds a newline |
| HunkSpec.NewHunk | espada/core/diff.py:14-34 | a built hunk holds exactly the lines it was given |
| HunkSpec.At | espada/core/diff.py:166 | `lines_dict[k]` for a key in the consecutive range is that key's value |
| HunkSpec.Window | espada/core/diff.py:173-184 | the forward code block holds the lines from `f` up to, but not including, `min(f + 10, max key)`, in order |
| HunkSpec.InsertAt | espada/core/diff.py:36-39 | `insert` grows the list by one, with the new line at the index |
| HunkSpec.RemoveAt | espada/core/diff.py:48-52 | `pop` shrinks the list by one |
| HunkSpec.ValidateStep | espada/core/diff.py:162-231 | each turn of the `validate_lines` loop keeps the cursors in range, and it either moves the file cursor on by at most one or shrinks the number of lines still to check |
| HunkSpec.ValidateLinesFrom | espada/core/diff.py:156-242 | `validate_lines` succeeds iff it reports no problem; it reports at most one problem and changes only the lines of the hunk |
| HunkSpec.RunLoop | espada/core/diff.py:162-231 | one loop turn and the turns after it succeed iff no problem is reported; at most one problem is reported and only the lines change |
| HunkSpec.FirstSimilar | espada/core/diff.py:123-149 | the first key whose line is similar to the text, with no earlier similar key; or -1 when no key is similar |
| HunkSpec.FirstSimilarFromFound | espada/core/diff.py:99-103 | a position the scan returns holds a similar line, and every position it passed over does not |
| HunkSpec.FirstSimilarFromNone | espada/core/diff.py:99-105 | a scan that finds nothing passed over no similar line |
| HunkSpec.FirstNonAdd | espada/core/diff.py:97-98 | the first line not tagged ADD, with every earlier line tagged ADD |
| HunkSpec.FirstSimilarUnique | espada/core/diff.py:141-149 | a scan that stops at the first similar key finds the key `index(True)` picks |
| HunkSpec.FirstSimilarNone | espada/core/diff.py:126-127 | when no key is similar, the sum of matches is zero |
| HunkSpec.FirstNonAddUnique | espada/core/diff.py:97-98 | the first non-ADD index is determined by its defining property |
| HunkSpec.PlaceStart | espada/core/diff.py:111-122 | once the line before the match is known it becomes the start, and the hunk keeps its new-file flag and has a line |
| HunkSpec.Locate | espada/core/diff.py:93-153 | the body of `find_start_line` keeps the new-file flag; a found start is a key of the map, and only the start changed |
| HunkSpec.Resume | espada/core/diff.py:113-154 | after localising, success iff no problem, at most one problem, and a successful hunk starts at a key of the map |
| HunkSpec.FindStart | espada/core/diff.py:89-154 | `find_start_line` succeeds iff no problem; it keeps the new-file flag, and a successful hunk starts at a key of the map |
| HunkSpec.ValidateAndCorrect | espada/core/diff.py:244-260 | `Hunk.validate_and_correct` succeeds iff no problem is reported, reports at most one, keeps the new-file flag, and leaves an existing-file hunk starting at a key of the map |
| HunkLemmas.CountsPartition | espada/core/diff.py:7-34 | every line carries exactly one of the three tags, so the three counts add up to the number of lines |
| HunkLemmas.NewHunkFlag | espada/core/diff.py:31-34 | a hunk is built as a new file iff all of its lines are ADD |
| HunkLemmas.CountAfterInsert | espada/core/diff.py:36-39 | inserting a line adds one to the count of its tag only |
| HunkLemmas.CountAfterRemove | espada/core/diff.py:48-52 | popping a line takes one from the count of its tag only |
| HunkLemmas.CountAfterRelabel | espada/core/diff.py:41-46 | relabelling moves one unit from the old tag's count to the new tag's |
| HunkLemmas.TallyAfterInsert | espada/core/diff.py:36-39 | the kept counts after `add_retained_line` are the counts of the new lines |
| HunkLemmas.TallyAfterRemove | espada/core/diff.py:48-52 | the count of a popped line's tag is positive (the assertion holds), and one is taken from it |
| HunkLemmas.TallyAfterRelabel | espada/core/diff.py:41-46 | the kept counts after `relabel_line` are the counts of the relabelled lines |
| HunkLemmas.TallyAfterAppend | espada/core/diff.py:54-58 | the kept counts after `add_lines` are the counts of the appended lines |
| HunkLemmas.NewHunkFromTally | espada/core/diff.py:26-34 | the flag read off the kept counts is the flag defined from the lines |
| HunkLemmas.ExactLinesAccepted | espada/core/diff.py:156-242 | a hunk that matches the file line for line passes validation unchanged and reports nothing |
| HunkLemmas.ExactAdvance | espada/core/diff.py:162-231 | one turn over an exactly matching line moves both cursors past it and edits nothing |
| HunkLemmas.AddsAfterLastLineRejected | espada/core/diff.py:156-241 | the end check counts lines, not unchecked lines: every hunk whose non-ADD lines are similar to the file through its last line, followed by two or more ADD lines, fails validation with the "stopped before" problem, so no hunk can append two or more lines at the end of a file |
| HunkLemmas.TwoAddsAfterLastLineRejected | espada/core/diff.py:233-241 | the end check counts lines, not unchecked lines: keeping the one-line file "a" and adding two lines after it is rejected, an instance of `AddsAfterLastLineRejected` |
| HunkLemmas.StepOnAdd | espada/core/diff.py:163-165 | an ADD line is skipped and the file cursor stays put |
| HunkLemmas.StepOnSimilar | espada/core/diff.py:229-231 | a similar line moves both cursors on |
| HunkLemmas.StepOnComment | espada/core/diff.py:166-170 | a dissimilar line holding `#` is relabelled ADD and the cursors stay put |
| HunkLemmas.StepOnMismatch | espada/core/diff.py:172-227 | a dissimilar line without `#` gives a mismatch when the original block scores best; otherwise the file line is inserted when the missing-line score beats the false-line score, and otherwise the line is popped |
| HunkLemmas.StepOnEnd | espada/core/diff.py:233-242 | when a cursor runs out, validation fails iff two or more hunk lines remain |
| HunkLemmas.RunAfterStep | espada/core/diff.py:162-231 | a turn that carries on leaves the rest of the run to the new cursors |
| HunkLemmas.RunStops | espada/core/diff.py:214-217 | a turn that stops ends the run with its verdict |
| HunkLemmas.RunAtEnd | espada/core/diff.py:233-242 | once either cursor runs out, the run fails iff two or more hunk lines are left |
| HunkLemmas.LocateNoPriorLine | espada/core/diff.py:99-109 | when the first non-ADD line is blank or similar to no file line, the start cannot be found |
| HunkLemmas.LocatePriorLine | espada/core/diff.py:97-122 | otherwise the line before the first similar line becomes the start |
| HunkLemmas.LocateFromFirstLine | espada/core/diff.py:123-154 | without a leading ADD run, the first similar key is the start; with none, a comment is relabelled ADD and retried, and any other line fails |
| HunkLemmas.StepKeepsAdds | espada/core/diff.py:162-231 | one loop turn never drops or reorders an ADD line, and keeps the ADD lines exactly when no comment is left to relabel |
| HunkLemmas.EditKeepsAdds | espada/core/diff.py:219-227 | the insertion and the pop that fix a mismatch keep the ADD lines exactly |
| HunkLemmas.InsertKeepsAdds | espada/core/diff.py:220 | inserting a retained line keeps the ADD lines exactly |
| HunkLemmas.RemoveKeepsAdds | espada/core/diff.py:227 | popping a non-ADD line keeps the ADD lines exactly |
| HunkLemmas.ValidateLinesKeepsAdds | espada/core/diff.py:156-242 | `validate_lines` never drops or reorders an ADD line, and keeps them exactly when no line still to check is a comment |
| HunkLemmas.FindStartPicksFirstSimilar | espada/core/diff.py:123-154 | without a leading ADD run, `find_start_line` picks the first similar key in map order, and its closing assertion holds |
| HunkLemmas.ExactHunkAccepted | espada/core/diff.py:244-260 | a hunk that matches the file exactly from the first similar key is accepted unchanged except for its start |
| HunkLemmas.DivergentNeverFinishes | espada/core/diff.py:89-260 | on a divergent hunk the mutual recursion never ends, whatever the fuel |
| HunkLemmas.DivergentRestarts | espada/core/diff.py:129-133 | a divergent hunk restarts as itself with its first line relabelled ADD, and is divergent again |
| HunkLemmas.RestartWithoutResult | espada/core/diff.py:113-133 | a restart whose nested call does not finish leaves the outer call without a result |
| HunkLemmas.RestartResult | espada/core/diff.py:113-133 | after a restart, `find_start_line` returns what the nested `validate_and_correct` returns |
| HunkLemmas.RetainedStartFound | espada/core/diff.py:123-150 | a hunk opening with a retained copy of a file line is localised at once |
| HunkLemmas.AddFirstRestartsOnce | espada/core/diff.py:111-117 | an ADD-first hunk restarts at most once, and is then localised at once |
| HunkLemmas.AddFirstRestartFound | espada/core/diff.py:113-117 | after the retained line is put in front, the restarted hunk is localised at once |
| HunkLemmas.FuelSuffices | espada/core/diff.py:89-260 | every hunk that is not divergent is decided within `RetryDepth` nested calls |
| HunkLemmas.LocateKeepsAdds | espada/core/diff.py:93-154 | localising never drops or reorders an ADD line |
| HunkLemmas.ValidateAndCorrectKeepsAdds | espada/core/diff.py:244-260 | localisation and validation together never drop or reorder an ADD line |
| HunkLemmas.FindStartKeepsAdds | espada/core/diff.py:89-154 | `find_start_line`, with its recursion, never drops or reorders an ADD line |
| HunkLemmas.ResumeKeepsAdds | espada/core/diff.py:113-154 | re-validation keeps whatever ADD lines the localised hunk kept |
| HunkLemmas.RestartKeepsAdds | espada/core/diff.py:113-133 | a restart keeps whatever ADD lines the localised hunk kept |
| Hunks.Hunk.constructor | espada/core/diff.py:14-34 | the counts start at zero and follow the added lines, and the new-file flag is set iff no line is RETAIN or REMOVE |
| Hunks.Hunk.AddRetainedLine | espada/core/diff.py:36-39 | a RETAIN line is inserted where `list.insert` puts it, and the counts stay right |
| Hunks.Hunk.RelabelLine | espada/core/diff.py:41-46 | the line at the Python index changes tag only, and the counts stay right |
| Hunks.Hunk.PopLine | espada/core/diff.py:48-52 | the line at the Python index is removed, and the counts stay right |
| Hunks.Hunk.AddLines | espada/core/diff.py:54-58 | the lines are appended in order and counted |
| Hunks.Hunk.HunkToString | espada/core/diff.py:60-68 | the text is the header line, then one prefixed line per entry |
| Hunks.Hunk.CheckStartLine | espada/core/diff.py:78-87 | true exactly for a new-file hunk: every other path returns `None` |
| Hunks.Hunk.ValidateOneLine | espada/core/diff.py:163-231 | one pass of the loop body does what `ValidateStep` says and edits only the lines |
| Hunks.Hunk.ValidateLines | espada/core/diff.py:156-242 | the cursor loop ends in the verdict and the hunk that `ValidateLinesFrom` computes |
| Hunks.Hunk.ValidationEnd | espada/core/diff.py:233-242 | the end check accepts unless two or more lines were never reached |
| Hunks.Hunk.FirstNonAddIndex | espada/core/diff.py:97-98 | the scan finds the first line that is not ADD |
| Hunks.Hunk.NotFoundMessage | espada/core/diff.py:105-108 | the problem text when no line is similar to the first non-ADD line |
| Hunks.Hunk.MissingStartMessage | espada/core/diff.py:119-138 | the problem text when the start line is not in the file |
| Hunks.Hunk.LocateAfterAdds | espada/core/diff.py:93-122 | the ADD-first branch restarts with a retained line in front, or reports its problem, as `Locate` says |
| Hunks.Hunk.LocateStart | espada/core/diff.py:93-153 | the body of `find_start_line` finds the start, reports a problem, or edits the hunk and restarts, as `Locate` says |
| Hunks.Hunk.FindStartLine | espada/core/diff.py:89-154 | `find_start_line` with its recursion ends in the state `FindStart` computes |
| Hunks.Hunk.ValidateAndCorrect | espada/core/diff.py:244-260 | `validate_and_correct` ends in the state the specification function computes |
| HeaderParse.DigitRun | espada/core/chat_to_files.py:170 | the longest run of ASCII digits at the front |
| HeaderParse.Field | espada/core/chat_to_files.py:170 | a `\d{1,}` field followed by the separator: non-empty digits, and the line is the digits, the separator and the rest |
| HeaderParse.ScanHeader | espada/core/chat_to_files.py:170-172 | a match is a well-formed header line, with at most one final newline |
| HeaderParse.ScanHeaderComplete | espada/core/chat_to_files.py:170-172 | every well-formed header line, with or without a final newline, matches and gives back its fields |
| HeaderParse.ParseHunkHeaderMatches | espada/core/chat_to_files.py:168-184 | a well-formed header reads as its four decimal numbers |
| HeaderParse.ParseHunkHeaderDefault | espada/core/chat_to_files.py:172-174 | any other line gives (0, 0, 0, 0) |
| HeaderParse.HeaderTextFields | espada/core/diff.py:62 | the header line `hunk_to_string` writes, field by field |
| HeaderParse.HeaderLineReads | espada/core/chat_to_files.py:168-184 | a written header with no negative number reads back as its four numbers, with or without the newline |
| HeaderParse.HeaderRoundTrip | espada/core/chat_to_files.py:168-184 | `parse_hunk_header` reads back the numbers `hunk_to_string` writes, when none is negative |
| HeaderParse.NegativeHeaderRejected | espada/core/chat_to_files.py:170-174 | a header written with a negative number does not read back: it parses as (0, 0, 0, 0) |
| DiffSpec.HunksTextOpens | espada/core/diff.py:60-68 | the text of one or more hunks opens with `@@` |
| DiffSpec.DiffTextKeepsHeader | espada/core/diff.py:276-281 | a diff with hunks renders as its two name lines followed by `@@`, which `strip` leaves alone |
| DiffSpec.StripKeepsPrefix | espada/core/diff.py:281 | stripping keeps a front that opens with a non-blank |
| DiffSpec.Renumber | espada/core/diff.py:304-319 | the lengths are recounted from the lines, and the post-edit start is the pre-edit start for the first hunk and shifted by the previous hunk's offset after it; nothing else changes |
| DiffSpec.Cut | espada/core/diff.py:289-297 | the cut map keeps a consecutive run of keys, all at least the smaller of the previous hunk's end and this hunk's start |
| DiffSpec.CheckHunk | espada/core/diff.py:298 | the check on a hunk the walk hands it is `Hunk.validate_and_correct` with the default depth |
| DiffSpec.CheckHunkAnswers | espada/core/diff.py:298-302 | the real check succeeds iff it reports no problem, and reports at most one |
| DiffSpec.VisitHunk | espada/core/diff.py:288-320 | the loop body cuts the map, checks the hunk and renumbers the checked hunk |
| DiffSpec.VisitAnswers | espada/core/diff.py:298-302 | a kept hunk adds no problem, and a removed one adds exactly one after the earlier ones |
| DiffSpec.Turn | espada/core/diff.py:288-320 | a turn moves the position on by one, even after a removal, and never grows the list |
| DiffSpec.WalkFrom | espada/core/diff.py:288 | the loop ends once the position passes the end of the list |
| DiffSpec.WalkOn | espada/core/diff.py:288-320 | a turn and the rest of the run end past the end of the list |
| DiffSpec.Sweep | espada/core/diff.py:288-320 | the front-to-back reading never grows the list |
| DiffSpec.SweepVisit | espada/core/diff.py:288-320 | visiting the first hunk and sweeping the rest never grows the list |
| DiffSpec.WalkTurn | espada/core/diff.py:288-320 | a finished walk finishes from where its first turn leaves it |
| DiffSpec.WalkChecks | espada/core/diff.py:298 | a finished walk can check the hunk it is at |
| DiffSpec.Next | espada/core/diff.py:298-320 | after a turn the position is one on, the problems are extended and the renumbered hunk becomes the past one |
| DiffSpec.NextParts | espada/core/diff.py:298-320 | a turn assembled from its parts (check, remove or replace, renumber) is `Next` |
| DiffSpec.TurnOnCheck | espada/core/diff.py:288-320 | a turn with the real check is `Next` of its verdict |
| DiffSpec.WalkAdvance | espada/core/diff.py:288-320 | the walk from a turn's result is the whole walk |
| DiffSpec.VisitStep | espada/core/diff.py:288-320 | the loop body's in-place removal or renumbering continues the same walk |
| DiffSpec.WalkMatchesSweep | espada/core/diff.py:283-321 | the index-based loop and the front-to-back reading give the same hunks and problems |
| DiffSpec.KeptMatches | espada/core/diff.py:298-320 | the walk and the sweep agree after a kept hunk |
| DiffSpec.RemovedMatches | espada/core/diff.py:299-302 | the walk and the sweep agree after a removed hunk, which passes over the next one |
| DiffSpec.ValidateDiffIsSweep | espada/core/diff.py:283-321 | `Diff.validate_and_correct` is the sweep over all hunks from the full map |
| DiffSpec.SweepCountsRemovals | espada/core/diff.py:298-302 | problems only grow, and the number of hunks lost is the number of new problems |
| DiffSpec.SweepRecounts | espada/core/diff.py:299-319 | every resulting hunk is recounted or is an original hunk passed over unchanged |
| DiffSpec.SweepAllAccepted | espada/core/diff.py:283-321 | when nothing is reported, no hunk is dropped or passed over, every hunk is recounted, and the post-edit starts are chained by the offset rule |
| DiffSpec.AcceptedCons | espada/core/diff.py:310-320 | recounted, chained hunks stay chained with one more in front |
| DiffSpec.RemovalPassesOverNext | espada/core/diff.py:288-302 | after a removed hunk the next one is never checked and comes out exactly as it went in |
| Diffs.Diff.constructor | espada/core/diff.py:265-268 | a diff starts with its two names and no hunks |
| Diffs.Diff.AddHunk | espada/core/chat_to_files.py:140-163 | a new hunk built from the header and the lines is appended |
| Diffs.Diff.IsNewFile | espada/core/diff.py:270-274 | a new file iff the old name is `/dev/null` or some hunk is a new-file hunk |
| Diffs.Diff.DiffToString | espada/core/diff.py:276-281 | the two name lines, each hunk's text, stripped |
| Diffs.Diff.ValidateAndCorrect | espada/core/diff.py:283-321 | the loop that removes hunks from the list it iterates over ends in the hunks and problems `ValidateDiff` computes |
| Diffs.Diff.VisitAt | espada/core/diff.py:289-320 | the loop body on the hunk at a position continues the same walk from the next position |
| Diffs.Diff.FinishAt | espada/core/diff.py:299-319 | the hunk is removed when it failed and a problem was reported, and renumbered in any case |
| Diffs.Diff.CheckAt | espada/core/diff.py:289-298 | the map is cut after the previous hunk and the hunk is checked against it |
| Diffs.Diff.RemoveAt | espada/core/diff.py:302 | `remove` takes out the one listed object equal to the hunk |
| Diffs.Diff.RenumberHunk | espada/core/diff.py:304-319 | the hunk, listed or removed, is renumbered after the previous one |
| Diffs.CutAndCheck | espada/core/diff.py:289-298 | the cut map and the checked hunk are what `Cut` and `CheckHunk` give |
| Diffs.RenumberAfter | espada/core/diff.py:304-319 | the lengths come from the counts and the post-edit start follows the previous hunk, as `Renumber` says |
| BlockParse.Attach | espada/core/chat_to_files.py:140-141 | appending the pending hunk keeps the parser's bookkeeping consistent |
| BlockParse.Feed | espada/core/chat_to_files.py:129-159 | one turn of the loop keeps the parser's bookkeeping consistent |
| BlockParse.FeedAll | espada/core/chat_to_files.py:129-159 | the whole loop keeps the parser's bookkeeping consistent |
| BlockParse.FeedOn | espada/core/chat_to_files.py:129-159 | one turn and the rest of the loop keep the bookkeeping consistent |
| BlockParse.FeedAllAppend | espada/core/chat_to_files.py:129-159 | the loop over two runs of lines is the loop over the first, then over the second |
| BlockParse.FeedStep | espada/core/chat_to_files.py:129-159 | the loop from line `i` on is the turn on line `i`, then the loop from `i + 1` on |
| BlockParse.FeedPreLine | espada/core/chat_to_files.py:130-132 | a `--- ` line only records the pre-edit name |
| BlockParse.FeedPostLine | espada/core/chat_to_files.py:133-144 | the first `+++ ` line opens a `Diff` with the two names and no hunks, stored under the post-edit name |
| BlockParse.ClassifyReads | espada/core/chat_to_files.py:151-159 | a rendered hunk line is neither a name line nor a header, and is read back as the same tagged line |
| BlockParse.FeedBody | espada/core/chat_to_files.py:151-159 | hunk body lines only add to the pending lines, in order |
| BlockParse.FinishInside | espada/core/chat_to_files.py:161-165 | after the loop, the pending hunk is attached and the dict holds the one diff |
| BlockParse.FeedHeader | espada/core/chat_to_files.py:145-150 | an `@@ ` line attaches the pending hunk and records the new header numbers |
| BlockParse.FeedHunk | espada/core/chat_to_files.py:145-159 | the lines of one hunk move the parser from one pending hunk to the next |
| BlockParse.FeedHunks | espada/core/chat_to_files.py:129-165 | feeding the lines of several hunks attaches each, as written, to the diff |
| BlockParse.ParseLinesRoundTrip | espada/core/chat_to_files.py:129-165 | reading back the lines of a diff gives that diff, keyed by its post-edit name |
| BlockParse.DiffTextTerminated | espada/core/diff.py:276-281 | the text `diff_to_string` strips is its lines, each followed by a newline |
| BlockParse.FencedSplit | espada/core/chat_to_files.py:121 | a fenced text splits back into the fence, the lines and the fence |
| BlockParse.DiffTextJoin | espada/core/diff.py:276-281 | `diff_to_string` is the diff's lines joined by newlines whenever the last line ends in a character `strip()` keeps |
| BlockParse.FencedBlock | espada/core/chat_to_files.py:121 | stripping, splitting and dropping the first and last line of a fenced block gives back its lines |
| BlockParse.DiffLinesSingle | espada/core/diff.py:276-281 | no line of a writable diff holds a newline |
| BlockParse.ParseBlockRoundTrip | espada/core/chat_to_files.py:119-165 | `parse_diff_block` of a fenced `diff_to_string` gives back the diff, keyed by its post-edit name |
| DiffMerge.MergeFirstStep | espada/core/chat_to_files.py:100-107 | the merge from entry `j` on is entry `j`'s turn, then the merge from `j + 1` on |
| DiffMerge.MergeAllStep | espada/core/chat_to_files.py:95-107 | the merge from block `b` on is block `b`'s merge, then the merge from `b + 1` on |
| DiffMerge.MergeFirstKeeps | espada/core/chat_to_files.py:100-107 | merging one block keeps the earlier entries in place, and a name is in the result iff it was there or in the block; names stay unique |
| DiffMerge.MergeFirstValue | espada/core/chat_to_files.py:101-107 | a name already there keeps its value and place; a new name takes its first value in the block |
| DiffMerge.MergeAllFirst | espada/core/chat_to_files.py:95-107 | across blocks, a name takes its value from the first block that holds it |
| DiffMerge.MergeAllKeeps | espada/core/chat_to_files.py:101-107 | a name already in the dict keeps its place and value through later blocks |
| DiffMerge.MergeAllKeys | espada/core/chat_to_files.py:95-107 | the merged dict has exactly the names of all blocks, each once |
| ChatToFiles.PutPlace | espada/core/chat_to_files.py:144 | `diffs[name] = diff` overwrites an existing key in place or appends a new one |
| ChatToFiles.AttachTo | espada/core/chat_to_files.py:140-163 | appending the pending hunk changes the current `Diff` object as `Attach` says, and no other object |
| ChatToFiles.MirrorsPut | espada/core/chat_to_files.py:143-144 | storing a new `Diff` object under a name keeps the objects in step with the values and makes the name lead to the new object |
| ChatToFiles.Turn | espada/core/chat_to_files.py:129-159 | one loop turn does to the variables and the objects what `Feed` does to the parser's value |
| ChatToFiles.OpenDiff | espada/core/chat_to_files.py:133-144 | the `+++ ` branch attaches the pending hunk when there is a header and stores a fresh `Diff` under the post-edit name |
| ChatToFiles.FeedLines | espada/core/chat_to_files.py:129-159 | the loop leaves the variables and fresh objects as `FeedAll` leaves the parser's value |
| ChatToFiles.ParseDiffBlock | espada/core/chat_to_files.py:119-165 | `parse_diff_block` gives fresh, distinct `Diff` objects whose names and hunks are those `ParseBlock` computes |
| ChatToFiles.ParsedBlocks | espada/core/chat_to_files.py:95-99 | each found block is parsed in order |
| ChatToFiles.ParseReplyFirstWins | espada/core/chat_to_files.py:100-107 | when several blocks name the same file, the first of them wins |
| ChatToFiles.ParseReplyKeys | espada/core/chat_to_files.py:85-116 | the result has exactly the names of all blocks, each once |
| ChatToFiles.MirrorsMerge | espada/core/chat_to_files.py:100-107 | merging a block's objects, first wins, mirrors merging their values |
| ChatToFiles.MergeBlock | espada/core/chat_to_files.py:100-107 | the inner loop adds each object under its name unless the name is already there |
| ChatToFiles.MergeParsed | espada/core/chat_to_files.py:99-107 | one turn of the outer loop parses the block and merges its objects, first wins |
| ChatToFiles.ParseDiffs | espada/core/chat_to_files.py:93-107 | the merge loop of `parse_diffs` leaves objects that mirror `ParseReply` |
| FilesDicts.FilesDict.constructor | espada/core/chat_to_files.py:42 | a new dict holds the given entries, in order |
| FilesDicts.FilesDict.SetItem | espada/core/files_dict.py:12-21 | a key that is neither `str` nor `Path` is refused first, then a non-`str` value, and the dict is unchanged; otherwise the entry is stored as `dict` stores it |
| FilesDicts.FilesDict.ToChat | espada/core/files_dict.py:23-36 | the loops build the fenced chat text |
| FilesDicts.FilesDict.ToLog | espada/core/files_dict.py:38-47 | the loop builds the log text |
| FilesDicts.FileChat | espada/core/files_dict.py:29-35 | one file's block is its `File:` line, its numbered lines and a blank line |
| FilesDicts.NumberedLinesOf | espada/core/files_dict.py:29-34 | a file's chat lines are its lines numbered from 1, one more than its newlines, in order |
| FilesDicts.LogTextAppend | espada/core/files_dict.py:42-46 | the log of one more file is the old log, then that file's name line, content and newline |
| FilesDicts.ChatTextAppend | espada/core/files_dict.py:26-36 | the chat text of one more file has that file's block inserted before the closing fence |
| FilesDicts.SetItemReads | espada/core/files_dict.py:21 | after a successful assignment the key reads back the value, every other key keeps its value and place, and a new key goes last |
| ApplySpec.Texts | espada/core/chat_to_files.py:47-49 | the texts of the lines, in order |
| ApplySpec.ApplyDiffWrites | espada/core/chat_to_files.py:44-81 | a diff writes only its post-edit name; other files keep content and place, a new name goes last, and `KeyError` happens exactly when an existing file is edited that is not there |
| ApplySpec.NewFileIgnoresTags | espada/core/chat_to_files.py:45-49 | a new file is the join of its lines' texts whatever their tags |
| ApplySpec.HunkTextsCount | espada/core/chat_to_files.py:47-49 | a new file has one line per hunk line |
| ApplySpec.RetainOnlyKeepsMap | espada/core/chat_to_files.py:56-57 | RETAIN lines only move the cursor |
| ApplySpec.DropNothing | espada/core/chat_to_files.py:75-79 | no line is dropped when none holds the flag |
| ApplySpec.RetainOnlyUnchanged | espada/core/chat_to_files.py:51-81 | hunks of RETAIN lines only leave a file unchanged |
| ApplySpec.RetainOnlyHunks | espada/core/chat_to_files.py:53-57 | hunks of RETAIN lines only leave the line map unchanged |
| ApplySpec.ApplyOne | espada/core/chat_to_files.py:55-72 | one line applied alone is that line's step |
| ApplySpec.ReplaceInPlace | espada/core/chat_to_files.py:58-72 | `-old` then `+new` at line `c` writes the new text over line `c`, in its place |
| ApplySpec.ReplaceLine | espada/core/chat_to_files.py:51-81 | a hunk removing line `c` and adding a text gives the file with line `c` replaced by that text |
| ApplySpec.AddAtTopGoesLast | espada/core/chat_to_files.py:58-68 | an ADD at the top of a file writes key 0, which goes to the end of the dict, so the text lands after the last line |
| ApplySpec.AddAtTopMap | espada/core/chat_to_files.py:58-68 | on a map numbered from 1, an ADD at cursor 1 appends key 0 at the end |
| ApplyDiffs.ApplyHunk | espada/core/chat_to_files.py:54-72 | the inner loop leaves the line map `ApplyLines` computes |
| ApplyDiffs.EditLines | espada/core/chat_to_files.py:51-81 | the `else` branch computes the edited text the specification gives |
| ApplyDiffs.DiffResult | espada/core/chat_to_files.py:45-52 | one diff's text and whether the pre-edit file exists, as `ApplyDiff` says |
| ApplyDiffs.ApplyAt | espada/core/chat_to_files.py:44-81 | one loop turn applies the diff at position `k` as `ApplyDiff` says |
| ApplyDiffs.Apply | espada/core/chat_to_files.py:40-82 | `apply_diffs` applies the diffs in dict order to a copy, leaving the given files unchanged, as `ApplyAll` says |
| PathClean.DeleteForbidden | espada/core/chat_to_files.py:26 | the substitution removes every forbidden character and adds no white space |
| PathClean.StripSlice | espada/core/chat_to_files.py:35 | `strip()` only removes characters from the two ends |
| PathClean.CleanPathSafe | espada/core/chat_to_files.py:26-35 | a cleaned name holds none of `: < > " \| ? *` and has no white space at either end |
| PathClean.CleanPathPlain | espada/core/chat_to_files.py:26-35 | a plain name is kept as it is |
| PathClean.UnwrapPlain | espada/core/chat_to_files.py:26-28 | a plain name between two allowed characters loses just those two |
| PathClean.CleanPathUnwraps | espada/core/chat_to_files.py:27-28 | a plain name in square brackets or backticks is unwrapped to it |
| Messages.ExtractContent | espada/core/ai.py:68-76 | a `str` content is returned as is; a non-empty list gives its first part's `"text"` when that part has one; anything else gives `""` |
| Messages.Group | espada/core/ai.py:87-99 | the messages from a pending run on: at least one, and the first has the run's type |
| Messages.CollapseTextMessages | espada/core/ai.py:78-100 | the loop with `previous_message` and `combined_content` computes `Collapse` |
| Messages.GroupKinds | espada/core/ai.py:87-99 | the types a run outputs are the deduplicated types of the run and the rest |
| Messages.CollapseKinds | espada/core/ai.py:78-100 | the output types are the input types with consecutive duplicates collapsed; the output is no longer than the input, and empty iff the input is |
| Messages.GroupAlternates | espada/core/ai.py:87-99 | no two neighbours in a run's output share a type |
| Messages.CollapseAlternates | espada/core/ai.py:78-100 | no two adjacent output messages share a type |
| Messages.GroupSameKind | espada/core/ai.py:88-91 | a run extended by messages of its own type joins their texts to it with blank lines |
| Messages.CollapseOneRun | espada/core/ai.py:78-100 | messages of one type collapse into one message holding their texts joined with blank lines |
| Messages.CollapseSplits | espada/core/ai.py:87-99 | where the type changes, the collapse of `a + b` is the collapse of `a` followed by that of `b` |
| Messages.GroupSplits | espada/core/ai.py:92-97 | a run followed by messages of another type closes before them |
| Messages.SerializeAppend | espada/core/ai.py:232-234 | serializing one more message adds a blank line, its type, a newline and its text at the end |
| TokenUsage.ImageTokens | espada/core/token_usage.py:57-92 | a low-detail image costs 85 tokens, and any other the high-detail cost |
| TokenUsage.NumTokensFromMessages | espada/core/token_usage.py:94-118 | the two counting loops compute `MessagesTokens` |
| TokenUsage.MessagesTokensAppend | espada/core/token_usage.py:94-118 | the tokens of two prompts in a row are the sum of their tokens |
| TokenUsage.StrMessagesTokens | espada/core/token_usage.py:94-118 | a prompt of `str` messages costs their texts' tokens plus 4 + 2 framing tokens per message |
| TokenUsage.MessagesTokensAtLeast | espada/core/token_usage.py:97-118 | every message costs at least its six framing tokens |
| TokenUsage.RunningMonotone | espada/core/token_usage.py:140-153 | in the log the running totals never decrease, and each total is its prompt plus its completion |
| TokenUsage.RunningSums | espada/core/token_usage.py:133-154 | the counters are the sums of the steps' tokens, and the total is prompt plus completion |
| TokenUsage.CsvTextAppend | espada/core/token_usage.py:164-165 | one more entry adds its CSV line at the end |
| TokenUsage.CsvTextHeader | espada/core/token_usage.py:163 | the CSV text starts with the header, and an empty log is the header alone |
| TokenUsage.IsOpenAiNameCaseless | espada/core/token_usage.py:168-170 | the test does not depend on the case of the name |
| TokenUsage.IsOpenAiNamePrefix | espada/core/token_usage.py:168-170 | a name starting with `gpt`, in any case, is an OpenAI model |
| TokenUsage.CumulativeCostOvercharges | espada/core/token_usage.py:184-190 | pricing the running totals charges earlier steps again: two steps of ten prompt tokens at one unit per token cost 30, not 20 |
| TokenUsage.StepCostIsCounterCost | espada/core/token_usage.py:176-194 | for a price proportional to tokens, the steps' prices add up to the price of the counters |
| TokenUsage.TokenUsageLog.constructor | espada/core/token_usage.py:124-131 | the counters start at zero and the log is empty |
| TokenUsage.TokenUsageLog.UpdateLog | espada/core/token_usage.py:133-154 | the step's prompt and answer tokens are added to the counters, and one entry with the step counts and the new counters is appended |
| TokenUsage.TokenUsageLog.Log | espada/core/token_usage.py:156-158 | the entries in recording order, whose running totals end at the counters |
| TokenUsage.TokenUsageLog.FormatLog | espada/core/token_usage.py:160-166 | the loop builds the CSV text, header first, one line per entry |
| TokenUsage.TokenUsageLog.TotalTokens | espada/core/token_usage.py:172-174 | the total is prompt plus completion tokens and the sum of the steps' totals |
| TokenUsage.TokenUsageLog.UsageCost | espada/core/token_usage.py:176-194 | as written: `None` for a non-OpenAI model, otherwise the prices of every entry's running totals, summed |
| TokenUsage.TokenUsageLog.StepUsageCost | espada/core/token_usage.py:176-194 | as intended: the prices of each entry's own step tokens, which for a proportional price is the price of the final counters |
| ProjectConfig.FilterNone | espada/core/project_config.py:50-60 | filtering never grows a dict |
| ProjectConfig.FilterNoneClean | espada/core/project_config.py:50-60 | the output holds no `None` and no empty dict, however deeply nested |
| ProjectConfig.FilterNoneOfClean | espada/core/project_config.py:50-60 | an already clean dict is left as it is |
| ProjectConfig.FilterNoneIdempotent | espada/core/project_config.py:50-60 | filtering twice is filtering once |
| ProjectConfig.FilterNoneKeeps | espada/core/project_config.py:55-59 | a value that is neither `None` nor a dict is kept, with its key, iff it was there |
| ProjectConfig.FilterNoneKeys | espada/core/project_config.py:52-60 | the output keys are some of the input keys, in input order |
| ProjectConfig.FilterNoneGet | espada/core/project_config.py:50-60 | key by key, exactly the keys whose pruned values survive are kept, with those values |
| ProjectConfig.FilterNoneEmpty | espada/core/project_config.py:50-60 | a dict none of whose values survives filters to the empty dict |
| ProjectConfig.Fields | espada/core/project_config.py:80-81 | `Dataclass(**section)` succeeds iff the section is a dict of known fields; each field takes the section's value or `None` |
| ProjectConfig.Urls | espada/core/project_config.py:93-96 | one `url` per `openapi` element, in order |
| ProjectConfig.AppSection | espada/core/project_config.py:84-98 | an absent or falsy section gives no app; a non-empty dict without `project_id` fails the assertion; an app never has an empty `openapi` list |
| ProjectConfig.FromDict | espada/core/project_config.py:78-100 | `from_dict` fails the assertion on an app section without `project_id`; without the section there is no app; an app never has an empty `openapi` list |
| ProjectConfig.Without | espada/core/project_config.py:104 | `pop` never grows the dict |
| ProjectConfig.ToDictDefault | espada/core/project_config.py:102-111 | the default configuration is written as the empty dict |
| ProjectConfig.SectionRoundTrip | espada/core/project_config.py:78-111 | a filtered section of flat field values reads back as those values |
| ProjectConfig.ToDictShape | espada/core/project_config.py:102-111 | `to_dict` filters the top-level dict with the app moved to the end under `espada-app` |
| ProjectConfig.SectionLookup | espada/core/project_config.py:78-111 | a section `to_dict` wrote reads back as its filtered entries |
| ProjectConfig.RunSection | espada/core/project_config.py:31-36 | the `run` section `asdict` writes holds each field under its name |
| ProjectConfig.PathsSection | espada/core/project_config.py:25-28 | the `paths` section `asdict` writes holds each field under its name |
| ProjectConfig.RunRoundTrip | espada/core/project_config.py:80-111 | the `run` section of a well-typed configuration reads back as its fields |
| ProjectConfig.PathsRoundTrip | espada/core/project_config.py:81-111 | the `paths` section of a well-typed configuration reads back as its fields |
| ProjectConfig.AppEntries | espada/core/project_config.py:103-109 | an app's filtered dict is non-empty and holds its `project_id` and `openapi` |
| ProjectConfig.AppLookup | espada/core/project_config.py:84-109 | `from_dict` finds nothing for no app, and otherwise the filtered app dict |
| ProjectConfig.AppSectionOf | espada/core/project_config.py:86-98 | an app's filtered dict reads back as that app |
| ProjectConfig.AppRoundTrip | espada/core/project_config.py:84-109 | the app section `to_dict` wrote reads back as the same app |
| ProjectConfig.FromDictToDict | espada/core/project_config.py:78-111 | a well-typed configuration survives `to_dict` then `from_dict` |
| MbppProblem.FirstDef | espada/benchmark/benchmarks/mbpp/problem.py:18-23 | the first line starting with `def `, with none before it; the number of lines when none does |
| MbppProblem.StartingCode | espada/benchmark/benchmarks/mbpp/problem.py:14-25 | the loop that stops at the first `def` line computes `Stub` |
| MbppProblem.StubWithoutDef | espada/benchmark/benchmarks/mbpp/problem.py:14-25 | code without a `def` line is its own starting code |
| MbppProblem.StubWithDef | espada/benchmark/benchmarks/mbpp/problem.py:14-25 | with a `def` line, the starting code is the code up to the end of its first `def` line, unchanged, then a newline and the placeholder once |
| DisplayTree.DisplayablePath.constructor | espada/applications/cli/file_selector.py:293-302 | a node's depth is 0 at the root and one more than its parent's below it, so every node is well formed |
| DisplayTree.DisplayablePath.DisplayName | espada/applications/cli/file_selector.py:304-309 | a directory's name gets a trailing `/`, and a file's name is left as is |
| DisplayTree.DisplayablePath.Displayable | espada/applications/cli/file_selector.py:339-361 | the walk up the parent chain builds the line `Displayed` defines, and the root shows its bare display name |
| DisplayTree.Segment | espada/applications/cli/file_selector.py:354-358 | each ancestor contributes four characters: blank when it is a last child, a bar otherwise |
| DisplayTree.Ancestor | espada/applications/cli/file_selector.py:352-359 | the parent chain reaches a well-formed ancestor at every depth |
| DisplayTree.IndentLength | espada/applications/cli/file_selector.py:352-359 | the indent of a node at depth `d` is `4 * d` characters long |
| DisplayTree.IndentSegments | espada/applications/cli/file_selector.py:352-361 | the `k`-th four characters of the indent are the segment of the ancestor at depth `k`, outermost first |
| DisplayTree.DisplayedTail | espada/applications/cli/file_selector.py:344-361 | a non-root line is `depth - 1` segments, then the last-child or middle-child branch, a space and the display name |
| DisplayTree.DisplayedSegment | espada/applications/cli/file_selector.py:352-361 | in a node's line, the `k`-th segment is blank when the ancestor at depth `k` is a last child and a bar otherwise |
| FileSelection.FileTable.constructor | espada/applications/cli/file_selector.py:238 | a table holds the given entries, in order |
| FileSelection.MergeFileListsKeys | espada/applications/cli/file_selector.py:237-247 | the merged files are those of both tables; an existing file keeps its properties; a new one takes those of its first entry in `new_files`; the existing entries stay first, in order |
| FileSelection.FileSelector.constructor | espada/applications/cli/file_selector.py:28-29 | a selector starts with linting on and the commented linting section |
| FileSelection.FileSelector.MergeFileLists | espada/applications/cli/file_selector.py:237-247 | every new file missing from `existing_files` is added to it in place, and that same table is returned |
| FileSelection.FileSelector.GetFilesFromToml | espada/applications/cli/file_selector.py:183-208 | the linting flag follows the `[linting]` table; no `[files]` table is a `KeyError`, an empty one is refused, and otherwise the file names come back in order |
| FileSelection.FileSelector.ReadLintingStatus | espada/applications/cli/file_selector.py:104-113 | linting set to `off` in any case turns the flag off and uncomments the linting section; anything else changes nothing |
| FileSelection.FileNames | espada/applications/cli/file_selector.py:201-202 | the names of the `[files]` entries, in order |
| FileSelection.LintingOffCaseless | espada/applications/cli/file_selector.py:191-194 | linting is off iff the `[linting]` table's `linting` entry reads `off` in any case; without the table it is on |
| FileSelection.CommentSelectedLines | espada/applications/cli/file_selector.py:86-92 | the marked file has the original's lines, as many, with each line ending in ` = "selected"` commented out and the rest unchanged |
| FileSelection.UncommentCommentSelected | espada/applications/cli/file_selector.py:86-92 | the marking loses nothing: removing the marks gives back the original text |
| FileSelection.Before | espada/applications/cli/file_selector.py:123 | `line.split(" = ")[0]` is a prefix of the line |
| FileSelection.StripChar | espada/applications/cli/file_selector.py:123 | `strip('"')` removes every leading and trailing quote and nothing else |
| FileSelection.MarkLines | espada/applications/cli/file_selector.py:118-127 | the first line is kept, and every later line is marked on its own |
| FileSelection.MarkSelectedLines | espada/applications/cli/file_selector.py:118-127 | the header line is kept; a later line is kept iff the file it names was selected before, and is commented out otherwise |
| FileSelection.ListedFiles | espada/applications/cli/file_selector.py:265-278 | the listing keeps at most the walked files |
| FileSelection.ListedFilesMembers | espada/applications/cli/file_selector.py:267-278 | a name is listed iff some walked file passes the hidden, ignored-folder and `prompt` checks and has that text |
| FileSelection.LessEqTotal | espada/applications/cli/file_selector.py:283 | any two paths are ordered one way or the other |
| FileSelection.LessEqTrans | espada/applications/cli/file_selector.py:283 | the order of paths is transitive |
| FileSelection.Insert | espada/applications/cli/file_selector.py:283 | inserting adds exactly one element and keeps a sorted list sorted |
| FileSelection.Sort | espada/applications/cli/file_selector.py:283 | `sorted` returns a sorted permutation of its input |
| FileSelection.GetCurrentFiles | espada/applications/cli/file_selector.py:258-283 | the loop lists the walked files that pass the filter, filters them through `.gitignore` in a git repository outside `projects`, and sorts them |
| FileSelection.CurrentFilesListed | espada/applications/cli/file_selector.py:258-283 | outside a git repository the result is sorted, and a name is in it iff some walked file has it and passes the filter |

## Left out

- The regular expression that finds diff blocks in a reply, and its timeout (espada/core/chat_to_files.py:88-95, 108-109): `parse_diffs` is modelled from the list of blocks found. The messages printed when nothing is found or names repeat are left out.
- The regular expression of `chat_to_files_dict` that splits a reply into path and code pairs (espada/core/chat_to_files.py:20-24, 32): the path cleaning and the stripping are modelled (`PathClean`), the matching is not.
- Printing and logging everywhere (the invalid-hunk report of `Diff.validate_and_correct`, the warning about several start candidates, the CLI messages).
- `lower()` and `\d` are modelled for ASCII only; Unicode case mapping and Unicode digits are not.
- `HeaderParse.ParseHunkHeaderMatches`: the header numbers are read as decimal digits without the `int()` acceptance of signs and underscores, which the regular expression already excludes; Unicode decimal digits, which Python's `\d` (a `str` pattern without `re.ASCII`) and `int()` both accept, are not read by the model, so such a header gives (0,0,0,0) in the model and its numbers in Python.
- A `--- ` line is read as text, so a pre-edit name `None` written by `diff_to_string` for a diff with no `--- ` line reads back as the name `"None"`; the round trips are stated for diffs with a pre-edit name.
- `BlockParse.ParseBlockRoundTrip`: stated for any fence line without a newline and without white space at its ends, rather than only for the literal three backticks.
- `FilesDict` keys are stored as their text: a `str` key and a `Path` key with the same text are one entry in the model and two in Python.
- The language-model calls, retries and clipboard I/O of espada/core/ai.py; `deserialize_messages` and the JSON form of `serialize_messages`. Only `ClipboardAI.serialize_messages` is modelled, and only for messages whose content is a `str`.
- `Messages.ExtractContent`: a list content whose first part lacks a `"text"` key gives `""` as in the source; parts that are not dictionaries are not modelled.
- Token counting by `tiktoken` is a parameter `count`; the high-detail image cost (image decoding and tile arithmetic) is a parameter `highCost`; the dollar prices of `get_openai_token_cost_for_model` are a parameter `price` over integers, not floats; the exception branch of `usage_cost` is left out.
- `from_toml`, `to_toml` and `read_config` (file and TOML I/O) are not part of this model; the configuration is modelled as dictionaries.
- `HunkSpec.ValidateAndCorrect`: `find_start_line` and `validate_and_correct` call each other without bound in the source; the model takes a fuel bound, and a result of `None` stands for the `RecursionError` Python raises when that recursion reaches the interpreter's recursion limit.
- `make_forward_block` and the forward code block are modelled only as far as the three scores they feed into `count_ratio` (`HunkSpec.Window`, `HunkLemmas.StepOnMismatch`).
- `check_start_line` computes a similarity that it throws away; the model keeps only its result.
- In the file selector, the following are not part of this model: walking the file system (`glob`, `is_file`, `is_dir`, `iterdir`); reading and writing TOML files; opening the editor; `is_utf8`; reading file contents in `ask_for_files`; the generator `make_tree`; printing the selected tree (espada/applications/cli/file_selector.py:210-232). `Path.name` and `is_dir()` are given to `DisplayablePath` as values.
- `filter_by_gitignore` and `is_git_repo` are parameters of `GetCurrentFiles`; `should_filter_file` (`fnmatch`) is not part of this model.
- `FileSelection.FileSelector.GetFilesFromToml`: a `linting` value that is not a string is not modelled, and the `KeyError` for a missing `[files]` table and the exception for an empty one are returned as `Failed` values.
- `FileSelection.Sort`: `sorted` with the key `Path(x).as_posix()` is modelled as sorting the path texts, which is the same on POSIX systems.
- `TokenUsage.TokenUsageLog.FormatLog`: the header line is written first, as in the source; the numbers are written in decimal by the model's own conversion.

## Findings

| source | as written | input that shows it | evidently intended | confidence | as-written member | corrected member |
|---|---|---|---|---|---|---|
| espada/core/token_usage.py:184-190 | `usage_cost` prices each log entry's running totals (`total_prompt_tokens`, `total_completion_tokens`) and adds them up, so every step is charged again in each later entry | two steps of 10 prompt tokens each, at 1 unit per prompt token: charged 10 + 20 = 30 | price each entry's own step tokens (`in_step_prompt_tokens`, `in_step_completion_tokens`), or only the last running totals: 20 | not executed | TokenUsage.TokenUsageLog.UsageCost | TokenUsage.TokenUsageLog.StepUsageCost |
