# Edge-list loader model

A Dafny model of `load_edges_file` in `DGLgraph/edges.py`. It covers the part
that reads a whitespace- or comma-separated edge-list file into three parallel
lists (`edges`, `weights`, `timestamps`). That part:

- lets `%` comment lines containing "asym" or "sym" switch the graph between
  directed and undirected;
- mirrors every data row when the graph is undirected;
- checks at the end that each attribute list is empty or as long as the edge
  list.

The model has two layers:

- **Specification functions** (`EdgeList.Step`, `Parse`, `Finish`,
  `LoadEdges`) state what one iteration, the whole loop and the code after the
  loop compute. Their value is a `ParseState`, which records the loop's local
  variables. Exceptions (`ValueError` from `float`, `UnboundLocalError`, the two
  `AssertionError`s) are `LoadError` values.
- **An imperative loader** (`EdgeList.EdgeListLoader`) keeps those variables
  as fields and updates them in place, line by line, as the Python does. The
  method `LoadEdgesFile` runs it over the lines of a file. Each method is
  proved against the specification function for the same code.

The Python string operations the loop uses are modelled in `PyText`: `strip()`,
`split(sep)`, `split()`, `lower()` and `in`. `WhitespaceSplit` states how the
pieces of `split()` sit in the text. `line.startswith('%')` is
`EdgeList.IsCommentLine`. What `float()` accepts is modelled in `FloatSyntax`
as a scanner over the token. The lemmas in
`EdgeListProperties` state what the loader does to whole files: how the
direction is decided, which rows are mirrored, when the length check passes,
and how stale loop variables leak into later rows.

Files: `wrappers.dfy` (Option, Result), `py_text.dfy`, `whitespace_split.dfy`,
`float_syntax.dfy`, `edge_list.dfy`, `edge_list_properties.dfy`.

Where the code and a plain reading of the format disagree, the model follows
the code:

- A data row with fewer than two or more than four fields is not rejected.
  In directed mode it is skipped. In undirected mode the mirror step still
  runs with the `src`, `dst`, `weight` and `timestamp` left over from the last
  good row, so the file gains a second copy of that row's reverse edge. If no
  row has set `dst` yet, the mirror step raises `UnboundLocalError`.
- The default applied after the loop (`is_directed = True` when no comment
  line was found) never changes anything: only comment lines change the
  direction, and they also set `found_comment_line`.

## Model

| member | source | states |
|---|---|---|
| EdgeList.Step | DGLgraph/edges.py:22-67 | One iteration keeps the loop's invariant (`Consistent`) and only extends the state: lists grow by appending, and the flags `has_weight`, `has_timestamp` and `found_comment_line` are only ever switched on |
| EdgeList.Parse | DGLgraph/edges.py:13-67 | The loop over all lines, stopping at the first exception; every state it reaches is consistent |
| EdgeList.ReadRow | DGLgraph/edges.py:45-59 | Two to four fields set `src` and `dst` to the first two fields; any other count leaves the state exactly as it was; the direction is untouched |
| EdgeList.Mirror | DGLgraph/edges.py:62-67 | The mirror step fails exactly when the graph is undirected and no row has yet assigned `dst`; otherwise it only appends and keeps the direction |
| EdgeList.Finish | DGLgraph/edges.py:69-95 | Succeeds exactly when both attribute lists are empty or as long as the edge list. The weight check is reported before the timestamp check. The graph keeps the edge list. It is directed unless a comment line set undirected mode. An attribute is attached exactly when its flag is set, and then has one entry per edge |
| EdgeList.LoadEdges | DGLgraph/edges.py:5-97 | On success, every attached attribute has one entry per edge, the edge list is then non-empty, and a timestamp attribute implies a weight attribute |
| EdgeList.CommentLineStartsWithPercent | DGLgraph/edges.py:24-28 | A line is a comment line exactly when it has the prefix `%`, and a comment line is never blank, so the blank-line test before it never hides a comment |
| EdgeList.AsymContainsSym | DGLgraph/edges.py:31-35 | Every text containing "asym" also contains "sym", which is why the code looks for "asym" first |
| EdgeList.CommentDirectionByMarker | DGLgraph/edges.py:31-35 | A comment whose lower-cased text contains "sym" makes the graph directed exactly when it also contains "asym"; one that does not contain "sym" keeps the direction |
| EdgeList.TokenizeFields | DGLgraph/edges.py:39-42 | With a comma, the fields are comma-free and rejoin with commas to the stripped line. Without one, every field is a non-empty run of non-whitespace, and the stripped line is exactly the fields in order with whitespace-only runs around them and at least one whitespace character between each two. There is at least one field exactly when the line has a comma or is not blank |
| EdgeList.ParseFailurePersists | DGLgraph/edges.py:21-67 | Once a prefix of the file raises, the whole file raises the same error |
| EdgeList.EdgeListLoader.constructor | DGLgraph/edges.py:13-19 | The fields start as the Python's initial values |
| EdgeList.EdgeListLoader.Feed | DGLgraph/edges.py:22-67 | One loop body in place: succeeds exactly when `Step` does and then leaves `Step`'s state; on an exception it reports `Step`'s error and changes nothing |
| EdgeList.EdgeListLoader.ReadComment | DGLgraph/edges.py:28-36 | A `%` line sets `found_comment_line` and the direction `CommentDirection` gives, and nothing else |
| EdgeList.EdgeListLoader.ReadRowInPlace | DGLgraph/edges.py:45-59 | The field-count dispatch in place, equal to `ReadRow` on success and on failure |
| EdgeList.EdgeListLoader.ReadWeightedRow | DGLgraph/edges.py:48-52 | A non-numeric third field raises and changes nothing; otherwise `src`, `dst` and `weight` are assigned, one edge and one weight are appended, and `has_weight` is set |
| EdgeList.EdgeListLoader.ReadTimedRow | DGLgraph/edges.py:53-59 | The third field is checked before the fourth, and either failing changes nothing; otherwise all four variables are assigned, one edge, weight and timestamp are appended, and both flags are set |
| EdgeList.EdgeListLoader.MirrorInPlace | DGLgraph/edges.py:62-67 | The mirror step in place, equal to `Mirror` on success and on failure |
| EdgeList.EdgeListLoader.Finalize | DGLgraph/edges.py:69-95 | The code after the loop returns exactly `Finish` of the fields |
| EdgeList.LoadEdgesFile | DGLgraph/edges.py:5-97 | Running the loader over the lines and finishing returns exactly `LoadEdges` of the lines |
| PyText.TrimStart | DGLgraph/edges.py:24 | `lstrip` keeps a suffix that is empty or starts with a non-whitespace character |
| PyText.TrimStartDropsSpace | DGLgraph/edges.py:24 | What `lstrip` removes is whitespace |
| PyText.TrimEnd | DGLgraph/edges.py:24 | `rstrip` keeps a prefix that is empty or ends with a non-whitespace character |
| PyText.TrimEndDropsSpace | DGLgraph/edges.py:24 | What `rstrip` removes is whitespace |
| PyText.StripKeepsMiddle | DGLgraph/edges.py:24 | `strip()` returns a slice of the line with only whitespace around it |
| PyText.StripEnds | DGLgraph/edges.py:24 | What `strip()` returns is no longer than the line and neither starts nor ends with whitespace |
| PyText.BlankIsAllSpace | DGLgraph/edges.py:24-25 | `not line.strip()` holds exactly when the line is whitespace only |
| PyText.IndexOf | DGLgraph/edges.py:40 | The first occurrence of the separator, or the length when there is none |
| PyText.Split | DGLgraph/edges.py:40 | `split(sep)` never returns an empty list |
| PyText.SplitPiecesLackSep | DGLgraph/edges.py:40 | No piece of `split(sep)` holds the separator |
| PyText.JoinSplit | DGLgraph/edges.py:40 | Joining the pieces of `split(sep)` with `sep` gives back the text |
| PyText.SplitJoin | DGLgraph/edges.py:40 | Splitting separator-free pieces joined by `sep` gives back the pieces |
| PyText.WordEnd | DGLgraph/edges.py:42 | The index of the first whitespace character, with none before it |
| PyText.SplitWhitespaceNone | DGLgraph/edges.py:42 | `split()` returns no pieces exactly when the text is whitespace only |
| PyText.SplitWhitespaceWords | DGLgraph/edges.py:42 | Every piece of `split()` is non-empty and holds no whitespace |
| WhitespaceSplit.SplitWhitespaceCovers | DGLgraph/edges.py:42 | The text is the pieces of `split()` in order, with whitespace-only runs before, between and after them, and a non-empty run between each two pieces |
| PyText.SplitWhitespaceJoinWords | DGLgraph/edges.py:42 | Splitting words joined by single spaces gives back the words |
| PyText.SplitWhitespaceSpaceFirst | DGLgraph/edges.py:42 | Leading whitespace does not change what `split()` returns |
| PyText.ContainsOccurs | DGLgraph/edges.py:31-34 | `sub in s` holds exactly when `sub` occurs at some index of `s` |
| PyText.Lower | DGLgraph/edges.py:31-34 | `lower()` keeps the length |
| PyText.LowerChars | DGLgraph/edges.py:31-34 | `lower()` maps each character on its own |
| PyText.LowerAppend | DGLgraph/edges.py:31-34 | `lower()` of a concatenation is the concatenation of the lowered parts |
| FloatSyntax.IsNumeric | DGLgraph/edges.py:49 | `float` rejects the empty token |
| FloatSyntax.ScanAppend | DGLgraph/edges.py:49 | Scanning a token in two parts, one after the other, ends where scanning it whole does |
| FloatSyntax.DigitsAreNumeric | DGLgraph/edges.py:49 | Any non-empty run of decimal digits is accepted by `float` |
| FloatSyntax.LeadingSpaceIgnored | DGLgraph/edges.py:49 | Whitespace before a token does not change whether `float` accepts it |
| FloatSyntax.DecimalLiterals | DGLgraph/edges.py:49 | `0.5` and `-1e-3` are accepted; the empty token and `1e` are not |
| FloatSyntax.DotLiterals | DGLgraph/edges.py:49 | `7.` and `.5` are accepted; `.` and `1.2.3` are not |
| FloatSyntax.UnderscoreLiterals | DGLgraph/edges.py:49 | `1E1_0` is accepted; `1__0` and `1_` are not |
| FloatSyntax.SpacedLiteral | DGLgraph/edges.py:54 | ` 1_000 ` (with spaces around it, as a comma-separated field can be) is accepted |
| FloatSyntax.InfLiteral | DGLgraph/edges.py:54 | `-iNf` is accepted |
| FloatSyntax.ScanLetters | DGLgraph/edges.py:49 | Letters that, lower-cased, continue `inf`, `infinity` or `nan` keep the scanner reading that spelling |
| FloatSyntax.TrailingSpaceAccepted | DGLgraph/edges.py:49 | Whitespace after an accepted literal keeps it accepted |
| FloatSyntax.SpecialSpellingNumeric | DGLgraph/edges.py:49-54 | `inf`, `infinity` and `nan` in any letter case are accepted, with optional whitespace before, an optional sign, and optional whitespace after |
| FloatSyntax.InfinityLiteral | DGLgraph/edges.py:54 | `InFiNiTy` lower-cases to `infinity`, so `SpecialSpellingNumeric` applies to it |
| FloatSyntax.NanLiteral | DGLgraph/edges.py:54 | `nan` is accepted |
| FloatSyntax.WordsRejected | DGLgraph/edges.py:54 | `infi` and `abc` are rejected |
| EdgeListProperties.BlankLineKeepsState | DGLgraph/edges.py:24-25 | A blank line leaves the whole state unchanged |
| EdgeListProperties.CommentLineEffect | DGLgraph/edges.py:28-36 | A `%` line only sets `found_comment_line` and the direction |
| EdgeListProperties.DataRowEffect | DGLgraph/edges.py:45-67 | A well-formed row appends its edge, and in undirected mode the reversed edge. A third or fourth field appends that value, twice when undirected. In undirected mode, a row without a weight (or timestamp) still appends the last row's weight (or timestamp) for the mirror once the flag is set |
| EdgeListProperties.DataRowVariables | DGLgraph/edges.py:45-59 | After a row, `src` and `dst` are its first two fields. `weight` and `timestamp` change only when the row has them, and the flags are set by a third and a fourth field |
| EdgeListProperties.ReadRowThenMirror | DGLgraph/edges.py:45-67 | Reading a well-formed row and then mirroring it cannot fail, and appends as `DataRowEffect` states |
| EdgeListProperties.OtherFieldCountEffect | DGLgraph/edges.py:45-67 | A row with another number of fields does nothing when directed. When undirected it raises `UnboundLocalError` if no row has set `dst` yet; otherwise it appends the previous row's reverse edge and that row's weight and timestamp |
| EdgeListProperties.NonNumericFieldFails | DGLgraph/edges.py:49-54 | A non-numeric third field, or else fourth field, raises `ValueError` naming that field |
| EdgeListProperties.StepDirection | DGLgraph/edges.py:28-36 | Only comment lines change the direction or `found_comment_line` |
| EdgeListProperties.ParseExtendsPrefix | DGLgraph/edges.py:22-67 | Nothing a prefix of the file produced is ever taken back |
| EdgeListProperties.DirectionFollowsLastMarker | DGLgraph/edges.py:16-36 | After the loop the graph is directed exactly when the last comment mentioning "sym" said "asym", or when there is no such comment; `found_comment_line` says whether any `%` line occurred |
| EdgeListProperties.LastMarkerSnoc | DGLgraph/edges.py:28-36 | The last marker of a file is the one the last line gives when it is a comment, and otherwise that of the lines before |
| EdgeListProperties.HasCommentLineSnoc | DGLgraph/edges.py:28-29 | A file has a comment line exactly when the lines before its last one have one or the last line is one |
| EdgeListProperties.NoCommentMeansDirected | DGLgraph/edges.py:69-71 | Without comment lines the graph is directed, so the default after the loop never changes the direction |
| EdgeListProperties.NoCommentNoMarker | DGLgraph/edges.py:16 | Without comment lines the direction keeps its initial value |
| EdgeListProperties.DirectedFileKeepsRows | DGLgraph/edges.py:45-63 | In a directed file of well-formed rows the edges are exactly the rows' `(src, dst)` pairs in file order, the weights exactly the third fields of the rows that have one, and the timestamps exactly the fourth fields, in file order |
| EdgeListProperties.SymFileMirrorsEveryRow | DGLgraph/edges.py:28-63 | Once the lines read so far leave the graph undirected, and no later comment says "asym", the edges are those of those lines followed by each later well-formed row's edge and then its reverse, in file order |
| EdgeListProperties.SymFileDoublesAttributes | DGLgraph/edges.py:48-67 | In the same setting, when every later row has three fields (or four), the weights are those of the lines before followed by each row's weight twice, for the edge and its reverse; with four fields the timestamps likewise |
| EdgeListProperties.SymAttributeStep | DGLgraph/edges.py:48-67 | In undirected mode a data line with three or four fields appends its weight twice (and with four fields its timestamp twice); a blank or comment line appends neither |
| EdgeListProperties.SymStep | DGLgraph/edges.py:62-63 | In undirected mode a data line adds its edge and the reverse; any other line adds no edge and keeps undirected mode |
| EdgeListProperties.MirroredSnoc | DGLgraph/edges.py:63 | Mirroring one more edge appends it and its reverse |
| EdgeListProperties.UniformRowsAlign | DGLgraph/edges.py:86-87 | When all data rows have the same number of well-formed fields, there is one weight per edge for three or four fields and none otherwise, and one timestamp per edge for four fields and none otherwise, whatever the direction; so the final check passes |
| EdgeListProperties.ForwardEdgesCount | DGLgraph/edges.py:45-59 | Well-formed rows give one forward edge per data line |
| EdgeListProperties.TwoColumnFile | DGLgraph/edges.py:45-80 | A two-column file without comments loads as a directed graph with one edge per data line, in order, and no attributes |
| EdgeListProperties.MixedRowsMismatch | DGLgraph/edges.py:86 | A directed file with a weighted row and then an unweighted row fails the weight check with one weight for two edges |
| EdgeListProperties.MarkerFirst | DGLgraph/edges.py:28-35 | A file that starts with a "sym" comment is undirected after that line, and nothing else has changed but `found_comment_line` |
| EdgeListProperties.SymWeightedRow | DGLgraph/edges.py:28-65 | A "sym" comment then a weighted row leaves the row and its reverse, each with the row's weight, and the row's variables |
| EdgeListProperties.WeightedRowAfterMarker | DGLgraph/edges.py:48-65 | The state a weighted row leaves right after a "sym" comment |
| EdgeListProperties.StaleWeightMismatch | DGLgraph/edges.py:62-86 | In an undirected file with weights, a final row without a weight appends a stale weight for its mirror only, and the weight check fails by one |
| EdgeListProperties.StaleWeightStep | DGLgraph/edges.py:45-87 | From any undirected state whose weights match its edges, a row with only two fields adds two edges but one weight, so the weight check fails with counts n + 1 and n + 2 |
| EdgeListProperties.StaleWeightExample | DGLgraph/edges.py:62-86 | A "sym" comment, a weighted row and an unweighted row fail the weight check with three weights for four edges |
| EdgeListProperties.StrayRowMirrorsPrevious | DGLgraph/edges.py:45-67 | In undirected mode, a final row with another number of fields appends the previous row's reverse edge again, with its weight and timestamp |
| EdgeListProperties.StrayRowExample | DGLgraph/edges.py:45-95 | A "sym" comment, a weighted row and a five-field row load as that edge, its reverse, and its reverse again, each with the weight |
| EdgeListProperties.StrayRowExampleState | DGLgraph/edges.py:45-67 | The loop's whole state after those three lines: three edges, three copies of the weight, no timestamps, undirected, and the weighted row's `src`, `dst` and `weight` |
| EdgeListProperties.StrayAfterWeightedRow | DGLgraph/edges.py:45-67 | After a weighted row in undirected mode, a row with more than four fields appends that row's reverse edge and its weight once more |

## Left out

- File access (`open`, iterating over the file) is not modelled: the file is the sequence of its lines, each line with or without its newline.
- Building the graph is not modelled (lines 73-83 and 89-95 beyond their effect on the result). The networkx `MultiDiGraph`, the conversion to DGL and its renumbering of vertex labels are left out. The model's graph is the edge list, and the edge count is its length, as a multigraph keeps parallel edges.
- The direction flag is part of the model's result only. The source's DGL graph carries no direction: it builds a `MultiDiGraph` in both branches of line 74, so the flag changes nothing in what it returns.
- Edge order in the DGL graph is not modelled. `dgl.from_networkx` numbers the edges in networkx's adjacency order (grouped by source vertex), not in file order, while lines 91 and 95 attach the weights and timestamps in file order. So in the source, `weight[i]` need not belong to the file's `i`-th edge. The model keeps file order and pairs the two lists by position.
- `torch.tensor(..., dtype=torch.float32)` is not modelled: a weight or timestamp is kept as the text `float` accepted, and no arithmetic or rounding is modelled.
- FloatSyntax.IsNumeric: `float` also accepts non-ASCII decimal digits and whitespace; the scanner accepts ASCII digits only, together with Python's whitespace set.
- PyText.Lower: lower-cases only `A`-`Z`. Python's full Unicode case mapping is not modelled, and it does not change whether a line contains "sym" or "asym".
- The other loaders and scripts of the repository, including the matrix-file loader `DGLgraph/mtx.py`, are not part of this model.
