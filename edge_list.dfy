/**
 * The parse loop of `load_edges_file` (DGLgraph/edges.py): one forward pass
 * over the lines of an edge-list file that grows the `edges`, `weights` and
 * `timestamps` lists, switches the direction on `%` comment lines, mirrors
 * each data row when the graph is undirected, and ends with the check that
 * every attribute list is empty or as long as the edge list.
 *
 * The pure functions (Step, Parse, Finish, LoadEdges) say what the loop
 * computes; the class EdgeListLoader does it in place, as the Python does,
 * and is proved against them.
 */
module EdgeList {
  import opened Wrappers
  import opened PyText
  import opened FloatSyntax
  import opened WhitespaceSplit

  /** One `(src, dst)` tuple of the `edges` list; vertex labels stay strings. */
  datatype Edge = Edge(src: string, dst: string)

  /** The exceptions that abort a load. */
  datatype LoadError =
    | NotAFloat(token: string)                          // ValueError from float(token)
    | UnboundLocal(name: string)                        // UnboundLocalError at the mirror step
    | WeightCountMismatch(weights: nat, edges: nat)     // the assertion on weights
    | TimestampCountMismatch(timestamps: nat, edges: nat) // the assertion on timestamps

  /** The local variables of the loop. `src`, `dst`, `weight` and `timestamp`
    * are `None` until a row first assigns them, and keep their values from
    * one line to the next afterwards. */
  datatype ParseState = ParseState(
    edges: seq<Edge>,
    weights: seq<Float>,
    timestamps: seq<Float>,
    isDirected: bool,
    foundCommentLine: bool,
    hasWeight: bool,
    hasTimestamp: bool,
    src: Option<string>,
    dst: Option<string>,
    weight: Option<Float>,
    timestamp: Option<Float>)

  /** The state before the first line. */
  const Start := ParseState([], [], [], true, false, false, false, None, None, None, None)

  /** What holds of every state the loop reaches. */
  predicate Consistent(st: ParseState) {
    && (st.src.Some? <==> st.dst.Some?)
    && (st.hasWeight <==> st.weights != [])
    && (st.hasTimestamp <==> st.timestamps != [])
    && (st.hasTimestamp ==> st.hasWeight)
    && (st.hasWeight ==> st.weight.Some? && st.src.Some?)
    && (st.hasTimestamp ==> st.timestamp.Some?)
  }

  /** `after` only grows `before`: each list is extended, each flag only switched on. */
  predicate Extends(before: ParseState, after: ParseState) {
    && before.edges <= after.edges
    && before.weights <= after.weights
    && before.timestamps <= after.timestamps
    && (before.hasWeight ==> after.hasWeight)
    && (before.hasTimestamp ==> after.hasTimestamp)
    && (before.foundCommentLine ==> after.foundCommentLine)
  }

  /** `line.startswith('%')`. */
  predicate IsCommentLine(line: string) {
    |line| > 0 && line[0] == '%'
  }

  /** A comment line is one with the prefix `%`, and it is never blank, so
    * the order of the two tests in the loop does not matter. */
  lemma CommentLineStartsWithPercent(line: string)
    ensures IsCommentLine(line) <==> "%" <= line
    ensures IsCommentLine(line) ==> !IsBlank(line)
  {
    BlankIsAllSpace(line);
  }

  /** Every text containing "asym" also contains "sym". */
  lemma AsymContainsSym(s: string)
    ensures Contains(s, "asym") ==> Contains(s, "sym")
  {
    if Contains(s, "asym") {
      ContainsOccurs(s, "asym");
      ContainsOccurs(s, "sym");
      var i :| OccursAt(s, "asym", i);
      assert s[i + 1..i + 4] == s[i..i + 4][1..];
      assert OccursAt(s, "sym", i + 1);
    }
  }

  /** The direction after the comment line `line`: "asym" is looked for
    * first, then "sym"; otherwise the direction is left as it was. */
  function CommentDirection(line: string, isDirected: bool): bool {
    var lowered := Lower(line);
    if Contains(lowered, "asym") then true
    else if Contains(lowered, "sym") then false
    else isDirected
  }

  /** A comment that mentions "sym" sets the direction to whether it says
    * "asym"; one that does not leaves the direction alone. */
  lemma CommentDirectionByMarker(line: string, isDirected: bool)
    ensures var lowered := Lower(line);
      CommentDirection(line, isDirected) ==
        if Contains(lowered, "sym") then Contains(lowered, "asym") else isDirected
  {
    AsymContainsSym(Lower(line));
  }

  /** The fields of a data line: split on commas when the line has one,
    * otherwise on runs of whitespace, after stripping. */
  function Tokenize(line: string): seq<string> {
    if ',' in line then Split(Strip(line), ',') else SplitWhitespace(Strip(line))
  }

  /** With a comma, the fields are the comma-free pieces that rejoin to the
    * stripped line. Without one, they are the non-empty runs of
    * non-whitespace of the stripped line, in order, with whitespace between
    * each two. There is at least one field exactly when the line has a
    * comma or is not blank. */
  lemma TokenizeFields(line: string)
    ensures var parts := Tokenize(line);
      && (',' in line ==> Join(parts, ',') == Strip(line))
      && (',' in line ==> forall i :: 0 <= i < |parts| ==> ',' !in parts[i])
      && (',' !in line ==> forall i :: 0 <= i < |parts| ==> IsWord(parts[i]))
      && (',' !in line ==> SpacedWords(Strip(line), Gaps(Strip(line)), parts))
      && (|parts| >= 1 <==> ',' in line || !IsBlank(line))
  {
    if ',' in line {
      JoinSplit(Strip(line), ',');
      SplitPiecesLackSep(Strip(line), ',');
    } else {
      SplitWhitespaceWords(Strip(line));
      SplitWhitespaceCovers(Strip(line));
    }
  }

  /** The row step: two, three or four fields add an edge (and a weight, and a
    * timestamp); any other number of fields adds nothing. */
  function ReadRow(st: ParseState, parts: seq<string>): (r: Result<ParseState, LoadError>)
    requires Consistent(st)
    ensures r.Success? ==> Consistent(r.value) && Extends(st, r.value)
    ensures r.Success? ==> r.value.isDirected == st.isDirected && r.value.foundCommentLine == st.foundCommentLine
    ensures r.Success? && 2 <= |parts| <= 4 ==>
              r.value.src == Some(parts[0]) && r.value.dst == Some(parts[1])
    ensures !(2 <= |parts| <= 4) ==> r == Success(st)
  {
    if |parts| == 2 then
      Success(st.(src := Some(parts[0]), dst := Some(parts[1]),
                  edges := st.edges + [Edge(parts[0], parts[1])]))
    else if |parts| == 3 then
      if !IsNumeric(parts[2]) then Failure(NotAFloat(parts[2]))
      else
        var w := ToFloat(parts[2]);
        Success(st.(src := Some(parts[0]), dst := Some(parts[1]), weight := Some(w),
                    edges := st.edges + [Edge(parts[0], parts[1])],
                    weights := st.weights + [w], hasWeight := true))
    else if |parts| == 4 then
      if !IsNumeric(parts[2]) then Failure(NotAFloat(parts[2]))
      else if !IsNumeric(parts[3]) then Failure(NotAFloat(parts[3]))
      else
        var w, t := ToFloat(parts[2]), ToFloat(parts[3]);
        Success(st.(src := Some(parts[0]), dst := Some(parts[1]), weight := Some(w), timestamp := Some(t),
                    edges := st.edges + [Edge(parts[0], parts[1])],
                    weights := st.weights + [w], timestamps := st.timestamps + [t],
                    hasWeight := true, hasTimestamp := true))
    else
      Success(st)
  }

  /** The mirror step: in undirected mode, append `(dst, src)` with the current
    * `weight` and `timestamp` when their flags are set. `dst` is read first,
    * so a file with no earlier data row fails on it. */
  function Mirror(st: ParseState): (r: Result<ParseState, LoadError>)
    requires Consistent(st)
    ensures r.Success? ==> Consistent(r.value) && Extends(st, r.value)
    ensures r.Success? ==> r.value.isDirected == st.isDirected && r.value.foundCommentLine == st.foundCommentLine
    ensures r.Failure? <==> !st.isDirected && st.dst.None?
  {
    if st.isDirected then
      Success(st)
    else if st.dst.None? then
      Failure(UnboundLocal("dst"))
    else
      Success(st.(edges := st.edges + [Edge(st.dst.value, st.src.value)],
                  weights := if st.hasWeight then st.weights + [st.weight.value] else st.weights,
                  timestamps := if st.hasTimestamp then st.timestamps + [st.timestamp.value] else st.timestamps))
  }

  /** One iteration of the loop. */
  function Step(st: ParseState, line: string): (r: Result<ParseState, LoadError>)
    requires Consistent(st)
    ensures r.Success? ==> Consistent(r.value) && Extends(st, r.value)
  {
    if IsBlank(line) then
      Success(st)
    else if IsCommentLine(line) then
      Success(st.(foundCommentLine := true, isDirected := CommentDirection(line, st.isDirected)))
    else
      match ReadRow(st, Tokenize(line))
      case Failure(e) => Failure(e)
      case Success(row) => Mirror(row)
  }

  /** The whole loop over `lines`, stopping at the first exception. */
  function Parse(lines: seq<string>): (r: Result<ParseState, LoadError>)
    ensures r.Success? ==> Consistent(r.value)
    decreases |lines|
  {
    if lines == [] then
      Success(Start)
    else
      match Parse(lines[..|lines| - 1])
      case Failure(e) => Failure(e)
      case Success(st) => Step(st, lines[|lines| - 1])
  }

  /** The loaded graph: the edge list in insertion order, the direction the
    * file declared, and the attribute lists that were filled. */
  datatype Graph = Graph(
    edges: seq<Edge>,
    isDirected: bool,
    weight: Option<seq<Float>>,
    timestamp: Option<seq<Float>>)

  /** An attribute list passes the final check: empty, or one entry per edge. */
  predicate Aligned(attribute: seq<Float>, edges: seq<Edge>) {
    |attribute| == 0 || |attribute| == |edges|
  }

  /** After the loop: the direction default, the two length assertions (weights
    * first), and the attributes attached when their flag is set. The edge
    * count of the multigraph is the length of the edge list. */
  function Finish(st: ParseState): (r: Result<Graph, LoadError>)
    requires Consistent(st)
    ensures r.Success? <==> Aligned(st.weights, st.edges) && Aligned(st.timestamps, st.edges)
    ensures !Aligned(st.weights, st.edges) ==> r == Failure(WeightCountMismatch(|st.weights|, |st.edges|))
    ensures Aligned(st.weights, st.edges) && !Aligned(st.timestamps, st.edges) ==>
              r == Failure(TimestampCountMismatch(|st.timestamps|, |st.edges|))
    ensures r.Success? ==> r.value.edges == st.edges
    ensures r.Success? ==> r.value.isDirected == (st.isDirected || !st.foundCommentLine)
    ensures r.Success? ==> (r.value.weight.Some? <==> st.hasWeight)
    ensures r.Success? ==> (r.value.timestamp.Some? <==> st.hasTimestamp)
    ensures r.Success? && r.value.weight.Some? ==>
              r.value.weight.value == st.weights && |st.weights| == |st.edges|
    ensures r.Success? && r.value.timestamp.Some? ==>
              r.value.timestamp.value == st.timestamps && |st.timestamps| == |st.edges|
  {
    var isDirected := if !st.foundCommentLine then true else st.isDirected;
    if !Aligned(st.weights, st.edges) then
      Failure(WeightCountMismatch(|st.weights|, |st.edges|))
    else if !Aligned(st.timestamps, st.edges) then
      Failure(TimestampCountMismatch(|st.timestamps|, |st.edges|))
    else
      Success(Graph(st.edges, isDirected,
                    if st.hasWeight then Some(st.weights) else None,
                    if st.hasTimestamp then Some(st.timestamps) else None))
  }

  /** `load_edges_file` on a file whose lines are `lines`. */
  function LoadEdges(lines: seq<string>): (r: Result<Graph, LoadError>)
    ensures r.Success? && r.value.weight.Some? ==> |r.value.weight.value| == |r.value.edges| > 0
    ensures r.Success? && r.value.timestamp.Some? ==> |r.value.timestamp.value| == |r.value.edges| > 0
    ensures r.Success? && r.value.timestamp.Some? ==> r.value.weight.Some?
  {
    match Parse(lines)
    case Failure(e) => Failure(e)
    case Success(st) => Finish(st)
  }

  /** Dropping the last element keeps every shorter prefix. */
  lemma DropLastPrefix<T>(s: seq<T>, k: nat)
    requires k < |s|
    ensures s[..|s| - 1][..k] == s[..k]
  {
  }

  /** Dropping the last element keeps the others in place. */
  lemma DropLastElements<T>(s: seq<T>)
    requires s != []
    ensures forall i :: 0 <= i < |s| - 1 ==> s[..|s| - 1][i] == s[i]
  {
  }

  /** The line after a successful prefix is one more `Step`. */
  lemma ParsePrefixStep(lines: seq<string>, i: nat)
    requires i < |lines| && Parse(lines[..i]).Success?
    ensures Parse(lines[..i + 1]) == Step(Parse(lines[..i]).value, lines[i])
  {
    assert lines[..i + 1][..i] == lines[..i];
  }

  /** Once the loop has raised, later lines do not matter. */
  lemma {:induction false} ParseFailurePersists(lines: seq<string>, k: nat)
    requires k <= |lines|
    requires Parse(lines[..k]).Failure?
    ensures Parse(lines) == Parse(lines[..k])
    decreases |lines|
  {
    if k < |lines| {
      var init := lines[..|lines| - 1];
      DropLastPrefix(lines, k);
      ParseFailurePersists(init, k);
    } else {
      assert lines[..k] == lines;
    }
  }

  /** The loader's variables, updated in place line by line. */
  class EdgeListLoader {
    var edges: seq<Edge>
    var weights: seq<Float>
    var timestamps: seq<Float>
    var isDirected: bool
    var foundCommentLine: bool
    var hasWeight: bool
    var hasTimestamp: bool
    var src: Option<string>
    var dst: Option<string>
    var weight: Option<Float>
    var timestamp: Option<Float>

    /** The variables as a value. */
    function State(): ParseState
      reads this
    {
      ParseState(edges, weights, timestamps, isDirected, foundCommentLine,
                 hasWeight, hasTimestamp, src, dst, weight, timestamp)
    }

    /** The initialisations before the `with open(...)` block. */
    constructor ()
      ensures State() == Start
    {
      edges, weights, timestamps := [], [], [];
      isDirected, foundCommentLine, hasWeight, hasTimestamp := true, false, false, false;
      src, dst, weight, timestamp := None, None, None, None;
    }

    /** The body of `for line in f`. On an exception nothing has been changed. */
    method Feed(line: string) returns (error: Option<LoadError>)
      requires Consistent(State())
      modifies this
      ensures error.None? <==> Step(old(State()), line).Success?
      ensures error.None? ==> State() == Step(old(State()), line).value
      ensures error.Some? ==> Step(old(State()), line) == Failure(error.value)
      ensures error.Some? ==> State() == old(State())
    {
      if IsBlank(line) {
        return None;
      }
      if IsCommentLine(line) {
        ReadComment(line);
        return None;
      }
      var parts := Tokenize(line);
      error := ReadRowInPlace(parts);
      if error.None? {
        error := MirrorInPlace();
      }
    }

    /** A `%` line: note it, and let "asym" or "sym" set the direction. */
    method ReadComment(line: string)
      modifies this
      ensures State() == old(State()).(foundCommentLine := true,
                                       isDirected := CommentDirection(line, old(isDirected)))
    {
      foundCommentLine := true;
      var lowered := Lower(line);
      if Contains(lowered, "asym") {
        isDirected := true;
      } else if Contains(lowered, "sym") {
        isDirected := false;
      }
    }

    /** The `if len(parts) == ...` chain. */
    method ReadRowInPlace(parts: seq<string>) returns (error: Option<LoadError>)
      requires Consistent(State())
      modifies this
      ensures error.None? <==> ReadRow(old(State()), parts).Success?
      ensures error.None? ==> State() == ReadRow(old(State()), parts).value
      ensures error.Some? ==> ReadRow(old(State()), parts) == Failure(error.value)
      ensures error.Some? ==> State() == old(State())
    {
      error := None;
      if |parts| == 2 {
        src, dst := Some(parts[0]), Some(parts[1]);
        edges := edges + [Edge(parts[0], parts[1])];
      } else if |parts| == 3 {
        error := ReadWeightedRow(parts);
      } else if |parts| == 4 {
        error := ReadTimedRow(parts);
      }
    }

    /** `src, dst, weight = parts[0], parts[1], float(parts[2])` and the appends. */
    method ReadWeightedRow(parts: seq<string>) returns (error: Option<LoadError>)
      requires |parts| == 3
      modifies this
      ensures !IsNumeric(parts[2]) ==> error == Some(NotAFloat(parts[2])) && State() == old(State())
      ensures IsNumeric(parts[2]) ==> error == None && State() == old(State()).(
                src := Some(parts[0]), dst := Some(parts[1]), weight := Some(ToFloat(parts[2])),
                edges := old(edges) + [Edge(parts[0], parts[1])],
                weights := old(weights) + [ToFloat(parts[2])], hasWeight := true)
    {
      if !IsNumeric(parts[2]) {
        return Some(NotAFloat(parts[2]));
      }
      error := None;
      src, dst, weight := Some(parts[0]), Some(parts[1]), Some(ToFloat(parts[2]));
      edges := edges + [Edge(parts[0], parts[1])];
      weights := weights + [weight.value];
      hasWeight := true;
    }

    /** `src, dst, weight, timestamp = parts[0], parts[1], float(parts[2]), float(parts[3])`
      * and the appends. */
    method ReadTimedRow(parts: seq<string>) returns (error: Option<LoadError>)
      requires |parts| == 4
      modifies this
      ensures !IsNumeric(parts[2]) ==> error == Some(NotAFloat(parts[2])) && State() == old(State())
      ensures IsNumeric(parts[2]) && !IsNumeric(parts[3]) ==>
                error == Some(NotAFloat(parts[3])) && State() == old(State())
      ensures IsNumeric(parts[2]) && IsNumeric(parts[3]) ==> error == None && State() == old(State()).(
                src := Some(parts[0]), dst := Some(parts[1]),
                weight := Some(ToFloat(parts[2])), timestamp := Some(ToFloat(parts[3])),
                edges := old(edges) + [Edge(parts[0], parts[1])],
                weights := old(weights) + [ToFloat(parts[2])],
                timestamps := old(timestamps) + [ToFloat(parts[3])],
                hasWeight := true, hasTimestamp := true)
    {
      if !IsNumeric(parts[2]) {
        return Some(NotAFloat(parts[2]));
      }
      if !IsNumeric(parts[3]) {
        return Some(NotAFloat(parts[3]));
      }
      error := None;
      src, dst := Some(parts[0]), Some(parts[1]);
      weight, timestamp := Some(ToFloat(parts[2])), Some(ToFloat(parts[3]));
      edges := edges + [Edge(parts[0], parts[1])];
      weights := weights + [weight.value];
      timestamps := timestamps + [timestamp.value];
      hasWeight, hasTimestamp := true, true;
    }

    /** The `if not is_directed` block. */
    method MirrorInPlace() returns (error: Option<LoadError>)
      requires Consistent(State())
      modifies this
      ensures error.None? <==> Mirror(old(State())).Success?
      ensures error.None? ==> State() == Mirror(old(State())).value
      ensures error.Some? ==> Mirror(old(State())) == Failure(error.value)
      ensures error.Some? ==> State() == old(State())
    {
      error := None;
      if !isDirected {
        if dst.None? {
          return Some(UnboundLocal("dst"));
        }
        edges := edges + [Edge(dst.value, src.value)];
        if hasWeight {
          weights := weights + [weight.value];
        }
        if hasTimestamp {
          timestamps := timestamps + [timestamp.value];
        }
      }
    }

    /** The code after the loop: the direction default and the two assertions. */
    method Finalize() returns (result: Result<Graph, LoadError>)
      requires Consistent(State())
      ensures result == Finish(State())
    {
      var directed := isDirected;
      if !foundCommentLine {
        directed := true;
      }
      if !(|weights| == 0 || |weights| == |edges|) {
        return Failure(WeightCountMismatch(|weights|, |edges|));
      }
      if !(|timestamps| == 0 || |timestamps| == |edges|) {
        return Failure(TimestampCountMismatch(|timestamps|, |edges|));
      }
      var w := if hasWeight then Some(weights) else None;
      var t := if hasTimestamp then Some(timestamps) else None;
      result := Success(Graph(edges, directed, w, t));
    }
  }

  /** `load_edges_file`, run over the lines of the file. */
  method LoadEdgesFile(lines: seq<string>) returns (result: Result<Graph, LoadError>)
    ensures result == LoadEdges(lines)
  {
    var loader := new EdgeListLoader();
    var i := 0;
    while i < |lines|
      invariant 0 <= i <= |lines|
      invariant Parse(lines[..i]) == Success(loader.State())
    {
      ParsePrefixStep(lines, i);
      var error := loader.Feed(lines[i]);
      if error.Some? {
        ParseFailurePersists(lines, i + 1);
        return Failure(error.value);
      }
      i := i + 1;
    }
    assert lines[..i] == lines;
    result := loader.Finalize();
  }
}
