/**
 * Properties of the edge-list parse loop: what one line does to the state,
 * how the direction is decided, how rows are mirrored, and when the final
 * length check passes.
 */
module EdgeListProperties {
  import opened Wrappers
  import opened PyText
  import opened FloatSyntax
  import opened EdgeList

  /** A line that is neither blank nor a `%` comment. */
  predicate IsDataLine(line: string) {
    !IsBlank(line) && !IsCommentLine(line)
  }

  /** A data line with two, three or four fields whose attribute fields `float` accepts. */
  predicate WellFormedRow(line: string) {
    var parts := Tokenize(line);
    && 2 <= |parts| <= 4
    && (|parts| >= 3 ==> IsNumeric(parts[2]))
    && (|parts| == 4 ==> IsNumeric(parts[3]))
  }

  function Reverse(e: Edge): Edge {
    Edge(e.dst, e.src)
  }

  /** The `(parts[0], parts[1])` of every data line with two to four fields, in file order. */
  function ForwardEdges(lines: seq<string>): seq<Edge>
    decreases |lines|
  {
    if lines == [] then []
    else
      var line := lines[|lines| - 1];
      var parts := Tokenize(line);
      if IsDataLine(line) && 2 <= |parts| <= 4 then
        ForwardEdges(lines[..|lines| - 1]) + [Edge(parts[0], parts[1])]
      else
        ForwardEdges(lines[..|lines| - 1])
  }

  /** Each edge followed by its reverse. */
  function Mirrored(edges: seq<Edge>): seq<Edge>
    decreases |edges|
  {
    if edges == [] then []
    else Mirrored(edges[..|edges| - 1]) + [edges[|edges| - 1], Reverse(edges[|edges| - 1])]
  }

  /** The third field of every data line with three or four fields that
    * `float` accepts, in file order: the weights a directed load collects. */
  function ForwardWeights(lines: seq<string>): seq<Float>
    decreases |lines|
  {
    if lines == [] then []
    else
      var line := lines[|lines| - 1];
      var parts := Tokenize(line);
      if IsDataLine(line) && 3 <= |parts| <= 4 && IsNumeric(parts[2]) then
        ForwardWeights(lines[..|lines| - 1]) + [ToFloat(parts[2])]
      else
        ForwardWeights(lines[..|lines| - 1])
  }

  /** The fourth field of every data line with four fields that `float`
    * accepts, in file order: the timestamps a directed load collects. */
  function ForwardTimestamps(lines: seq<string>): seq<Float>
    decreases |lines|
  {
    if lines == [] then []
    else
      var line := lines[|lines| - 1];
      var parts := Tokenize(line);
      if IsDataLine(line) && |parts| == 4 && IsNumeric(parts[3]) then
        ForwardTimestamps(lines[..|lines| - 1]) + [ToFloat(parts[3])]
      else
        ForwardTimestamps(lines[..|lines| - 1])
  }

  /** Each value twice in a row: the attribute of an edge and of its reverse. */
  function Doubled(values: seq<Float>): seq<Float>
    decreases |values|
  {
    if values == [] then []
    else Doubled(values[..|values| - 1]) + [values[|values| - 1], values[|values| - 1]]
  }

  /** The number of data lines. */
  function DataLineCount(lines: seq<string>): nat
    decreases |lines|
  {
    if lines == [] then 0
    else DataLineCount(lines[..|lines| - 1]) + if IsDataLine(lines[|lines| - 1]) then 1 else 0
  }

  predicate HasCommentLine(lines: seq<string>) {
    exists i :: 0 <= i < |lines| && IsCommentLine(lines[i])
  }

  /** The direction declared by the last comment line that mentions "sym"
    * (directed if it says "asym"), or directed when there is none. */
  function LastMarker(lines: seq<string>): bool
    decreases |lines|
  {
    if lines == [] then true
    else
      var line := lines[|lines| - 1];
      var lowered := Lower(line);
      if IsCommentLine(line) && Contains(lowered, "sym") then Contains(lowered, "asym")
      else LastMarker(lines[..|lines| - 1])
  }

  // ---------------------------------------------------------------------------
  // One line

  /** A blank line leaves the whole state as it was. */
  lemma BlankLineKeepsState(st: ParseState, line: string)
    requires Consistent(st) && IsBlank(line)
    ensures Step(st, line) == Success(st)
  {
  }

  /** A `%` line adds no edge, weight or timestamp; it records that a comment
    * was seen and may change the direction. */
  lemma CommentLineEffect(st: ParseState, line: string)
    requires Consistent(st) && IsCommentLine(line)
    ensures Step(st, line) == Success(st.(foundCommentLine := true,
                                          isDirected := CommentDirection(line, st.isDirected)))
  {
    BlankIsAllSpace(line);
  }

  /** A well-formed data row appends its edge, then (undirected) the reversed
    * edge; a third and fourth field append a weight and a timestamp for each
    * edge. A two-field row in undirected mode still gives its mirror the
    * weight and timestamp left over from an earlier row when those flags are set. */
  lemma DataRowEffect(st: ParseState, line: string)
    requires Consistent(st) && IsDataLine(line) && WellFormedRow(line)
    ensures Step(st, line).Success?
    ensures RowAppends(st, Tokenize(line), Step(st, line).value)
  {
    DataLineStep(st, line);
    ReadRowThenMirror(st, Tokenize(line));
  }

  /** A data line is read as a row and then mirrored. */
  lemma DataLineStep(st: ParseState, line: string)
    requires Consistent(st) && IsDataLine(line)
    ensures Step(st, line) == match ReadRow(st, Tokenize(line))
                              case Failure(e) => Failure(e)
                              case Success(row) => Mirror(row)
  {
  }

  /** The state after one well-formed row, as `DataRowEffect` states it. */
  predicate RowAppends(st: ParseState, parts: seq<string>, after: ParseState)
    requires 2 <= |parts| <= 4
    requires |parts| >= 3 ==> IsNumeric(parts[2])
    requires |parts| == 4 ==> IsNumeric(parts[3])
    requires Consistent(st)
  {
    var forward, mirror := Edge(parts[0], parts[1]), !st.isDirected;
    && after.edges == st.edges + [forward] + (if mirror then [Reverse(forward)] else [])
    && after.weights == st.weights +
         (if |parts| >= 3 then [ToFloat(parts[2])] + (if mirror then [ToFloat(parts[2])] else [])
          else if mirror && st.hasWeight then [st.weight.value] else [])
    && after.timestamps == st.timestamps +
         (if |parts| == 4 then [ToFloat(parts[3])] + (if mirror then [ToFloat(parts[3])] else [])
          else if mirror && st.hasTimestamp then [st.timestamp.value] else [])
    && after.isDirected == st.isDirected
    && after.foundCommentLine == st.foundCommentLine
  }

  /** The variables a well-formed row leaves behind for the next line:
    * `src` and `dst` always, `weight` and `timestamp` when the row has them,
    * and the flags switched on by a third and a fourth field. */
  lemma DataRowVariables(st: ParseState, line: string)
    requires Consistent(st) && IsDataLine(line) && WellFormedRow(line)
    ensures Step(st, line).Success?
    ensures var parts, after := Tokenize(line), Step(st, line).value;
      && after.hasWeight == (st.hasWeight || |parts| >= 3)
      && after.hasTimestamp == (st.hasTimestamp || |parts| == 4)
      && after.src == Some(parts[0]) && after.dst == Some(parts[1])
      && after.weight == (if |parts| >= 3 then Some(ToFloat(parts[2])) else st.weight)
      && after.timestamp == (if |parts| == 4 then Some(ToFloat(parts[3])) else st.timestamp)
  {
    DataLineStep(st, line);
    ReadRowThenMirror(st, Tokenize(line));
  }

  lemma ReadRowThenMirror(st: ParseState, parts: seq<string>)
    requires Consistent(st)
    requires 2 <= |parts| <= 4
    requires |parts| >= 3 ==> IsNumeric(parts[2])
    requires |parts| == 4 ==> IsNumeric(parts[3])
    ensures ReadRow(st, parts).Success?
    ensures Mirror(ReadRow(st, parts).value).Success?
    ensures RowAppends(st, parts, Mirror(ReadRow(st, parts).value).value)
  {
    var row := ReadRow(st, parts).value;
    if |parts| == 2 {
      assert row.edges == st.edges + [Edge(parts[0], parts[1])];
    }
  }

  /** A data row with a number of fields other than two, three or four is not
    * rejected: it adds nothing in directed mode, and in undirected mode the
    * mirror step reuses `src` and `dst` from an earlier row, or fails when no
    * row has set them. */
  lemma OtherFieldCountEffect(st: ParseState, line: string)
    requires Consistent(st) && IsDataLine(line)
    requires !(2 <= |Tokenize(line)| <= 4)
    ensures st.isDirected ==> Step(st, line) == Success(st)
    ensures !st.isDirected && st.dst.None? ==> Step(st, line) == Failure(UnboundLocal("dst"))
    ensures !st.isDirected && st.dst.Some? ==>
              Step(st, line) ==
                Success(st.(edges := st.edges + [Edge(st.dst.value, st.src.value)],
                            weights := st.weights + if st.hasWeight then [st.weight.value] else [],
                            timestamps := st.timestamps + if st.hasTimestamp then [st.timestamp.value] else []))
  {
    DataLineStep(st, line);
    assert st.weights + [] == st.weights;
    assert st.timestamps + [] == st.timestamps;
  }

  /** `float` rejecting the third or fourth field aborts the load. */
  lemma NonNumericFieldFails(st: ParseState, line: string)
    requires Consistent(st) && IsDataLine(line)
    requires var parts := Tokenize(line);
      (|parts| == 3 || |parts| == 4) && !(IsNumeric(parts[2]) && (|parts| == 4 ==> IsNumeric(parts[3])))
    ensures var parts := Tokenize(line);
      Step(st, line) == Failure(NotAFloat(if !IsNumeric(parts[2]) then parts[2] else parts[3]))
  {
  }

  // ---------------------------------------------------------------------------
  // Whole files

  /** The loop stops at the first failure, so a successful parse has a
    * successful parse of every line but the last. */
  lemma ParseSucceedsBefore(lines: seq<string>)
    requires lines != [] && Parse(lines).Success?
    ensures Parse(lines[..|lines| - 1]).Success?
  {
  }

  /** After a successful prefix, the last line is one more `Step`. */
  lemma ParseSnoc(lines: seq<string>)
    requires lines != [] && Parse(lines[..|lines| - 1]).Success?
    ensures Parse(lines) == Step(Parse(lines[..|lines| - 1]).value, lines[|lines| - 1])
  {
  }

  /** The same, for a file given as its lines so far and one more line. */
  lemma ParseAppend(init: seq<string>, line: string)
    requires Parse(init).Success?
    ensures Parse(init + [line]) == Step(Parse(init).value, line)
  {
    var lines := init + [line];
    assert lines[..|lines| - 1] == init;
  }

  /** A two-line file whose first line leaves `st` and whose second line
    * takes `st` to `after`. */
  lemma ParseSecondLine(first: string, line: string, st: ParseState, after: ParseState)
    requires Parse([first]) == Success(st)
    requires Step(st, line) == Success(after)
    ensures Parse([first, line]) == Success(after)
  {
    ParseAppend([first], line);
    DisplaySnoc2(first, line);
  }

  /** The same for a third line. */
  lemma ParseThirdLine(first: string, second: string, line: string, st: ParseState, after: ParseState)
    requires Parse([first, second]) == Success(st)
    requires Step(st, line) == Success(after)
    ensures Parse([first, second, line]) == Success(after)
  {
    ParseAppend([first, second], line);
    DisplaySnoc3(first, second, line);
  }

  lemma DisplaySnoc2<T>(a: T, b: T)
    ensures [a] + [b] == [a, b]
  {
  }

  lemma DisplaySnoc3<T>(a: T, b: T, c: T)
    ensures [a, b] + [c] == [a, b, c]
  {
  }

  lemma ExtendsTransitive(a: ParseState, b: ParseState, c: ParseState)
    requires Extends(a, b) && Extends(b, c)
    ensures Extends(a, c)
  {
  }

  /** Nothing is ever taken back: every prefix of the file leaves a state
    * that the whole file only extends. */
  lemma {:induction false} ParseExtendsPrefix(lines: seq<string>, k: nat)
    requires k <= |lines|
    requires Parse(lines).Success?
    ensures Parse(lines[..k]).Success?
    ensures Extends(Parse(lines[..k]).value, Parse(lines).value)
    decreases |lines|
  {
    if k == |lines| {
      assert lines[..k] == lines;
    } else {
      var init := lines[..|lines| - 1];
      DropLastPrefix(lines, k);
      ParseSucceedsBefore(lines);
      ParseSnoc(lines);
      ParseExtendsPrefix(init, k);
      ExtendsTransitive(Parse(lines[..k]).value, Parse(init).value, Parse(lines).value);
    }
  }

  /** The direction after the loop is the one the last "sym"/"asym" comment
    * declared, and `found_comment_line` says whether any `%` line occurred. */
  lemma {:induction false} DirectionFollowsLastMarker(lines: seq<string>)
    requires Parse(lines).Success?
    ensures Parse(lines).value.isDirected == LastMarker(lines)
    ensures Parse(lines).value.foundCommentLine == HasCommentLine(lines)
    decreases |lines|
  {
    if lines != [] {
      var init, line := lines[..|lines| - 1], lines[|lines| - 1];
      DirectionFollowsLastMarker(init);
      StepDirection(Parse(init).value, line);
      LastMarkerSnoc(lines);
      HasCommentLineSnoc(lines);
    }
  }

  /** How one line moves the two direction variables. */
  lemma StepDirection(st: ParseState, line: string)
    requires Consistent(st) && Step(st, line).Success?
    ensures Step(st, line).value.isDirected ==
              if IsCommentLine(line) then CommentDirection(line, st.isDirected) else st.isDirected
    ensures Step(st, line).value.foundCommentLine == (st.foundCommentLine || IsCommentLine(line))
  {
    if IsCommentLine(line) {
      CommentLineEffect(st, line);
    } else if IsBlank(line) {
      BlankLineKeepsState(st, line);
    } else {
      DataLineStep(st, line);
    }
  }

  lemma LastMarkerSnoc(lines: seq<string>)
    requires lines != []
    ensures var line := lines[|lines| - 1];
      LastMarker(lines) ==
        if IsCommentLine(line) then CommentDirection(line, LastMarker(lines[..|lines| - 1]))
        else LastMarker(lines[..|lines| - 1])
  {
    CommentDirectionByMarker(lines[|lines| - 1], LastMarker(lines[..|lines| - 1]));
  }

  lemma HasCommentLineSnoc(lines: seq<string>)
    requires lines != []
    ensures HasCommentLine(lines) <==>
              HasCommentLine(lines[..|lines| - 1]) || IsCommentLine(lines[|lines| - 1])
  {
    var init := lines[..|lines| - 1];
    DropLastElements(lines);
    if HasCommentLine(lines) && !IsCommentLine(lines[|lines| - 1]) {
      var i :| 0 <= i < |lines| && IsCommentLine(lines[i]);
      assert i < |init|;
    }
  }

  /** With no `%` line at all the graph is directed, and the fallback at the
    * end is not what makes it so: the loop already left it directed. */
  lemma NoCommentMeansDirected(lines: seq<string>)
    requires !HasCommentLine(lines)
    requires Parse(lines).Success?
    ensures Parse(lines).value.isDirected
    ensures LoadEdges(lines).Success? ==> LoadEdges(lines).value.isDirected
  {
    DirectionFollowsLastMarker(lines);
    NoCommentNoMarker(lines);
  }

  lemma {:induction false} NoCommentNoMarker(lines: seq<string>)
    requires !HasCommentLine(lines)
    ensures LastMarker(lines)
    decreases |lines|
  {
    if lines != [] {
      var init := lines[..|lines| - 1];
      DropLastElements(lines);
      assert !IsCommentLine(lines[|lines| - 1]);
      NoCommentNoMarker(init);
    }
  }

  /** A file that never switches to undirected mode and whose data rows are
    * all well formed keeps exactly one edge per row, in order, with the
    * rows' third fields as weights and fourth fields as timestamps. */
  lemma {:induction false} DirectedFileKeepsRows(lines: seq<string>)
    requires forall i :: 0 <= i < |lines| && IsDataLine(lines[i]) ==> WellFormedRow(lines[i])
    requires forall i :: 0 <= i < |lines| && IsCommentLine(lines[i]) ==> CommentDirection(lines[i], true)
    ensures Parse(lines).Success?
    ensures Parse(lines).value.isDirected
    ensures Parse(lines).value.edges == ForwardEdges(lines)
    ensures Parse(lines).value.weights == ForwardWeights(lines)
    ensures Parse(lines).value.timestamps == ForwardTimestamps(lines)
    decreases |lines|
  {
    if lines != [] {
      var init, line := lines[..|lines| - 1], lines[|lines| - 1];
      DropLastElements(lines);
      DirectedFileKeepsRows(init);
      var st := Parse(init).value;
      if IsBlank(line) {
      } else if IsCommentLine(line) {
        CommentLineEffect(st, line);
      } else {
        DataRowEffect(st, line);
      }
    }
  }

  /** Once the lines read so far have left the loader in undirected mode,
    * and no later comment sets it back, every well-formed row after them
    * contributes its edge followed by the reversed edge. */
  lemma {:induction false} SymFileMirrorsEveryRow(pre: seq<string>, post: seq<string>)
    requires Parse(pre).Success? && !Parse(pre).value.isDirected
    requires forall i :: 0 <= i < |post| && IsDataLine(post[i]) ==> WellFormedRow(post[i])
    requires forall i :: 0 <= i < |post| && IsCommentLine(post[i]) ==> !CommentDirection(post[i], false)
    ensures Parse(pre + post).Success?
    ensures !Parse(pre + post).value.isDirected
    ensures Parse(pre + post).value.edges == Parse(pre).value.edges + Mirrored(ForwardEdges(post))
    decreases |post|
  {
    if post == [] {
      assert pre + post == pre;
    } else {
      var init, line := post[..|post| - 1], post[|post| - 1];
      DropLastElements(post);
      SymFileMirrorsEveryRow(pre, init);
      SymSnoc(pre + init, line);
      AppendLast(pre, post);
      ForwardSnoc(init, line);
      var before, mirrored := Parse(pre).value.edges, Mirrored(ForwardEdges(init));
      if IsDataLine(line) {
        var parts := Tokenize(line);
        var e := Edge(parts[0], parts[1]);
        MirroredSnoc(ForwardEdges(init), e);
        ConcatAssoc(before, mirrored, [e, Reverse(e)]);
      } else {
        ConcatEmpty(ForwardEdges(init));
        ConcatEmpty(before + mirrored);
      }
    }
  }

  /** One more line after lines that left the loader in undirected mode. */
  lemma SymSnoc(lines: seq<string>, line: string)
    requires Parse(lines).Success? && !Parse(lines).value.isDirected
    requires IsDataLine(line) ==> WellFormedRow(line)
    requires IsCommentLine(line) ==> !CommentDirection(line, false)
    ensures Parse(lines + [line]).Success? && !Parse(lines + [line]).value.isDirected
    ensures Parse(lines + [line]).value.edges ==
              Parse(lines).value.edges + if IsDataLine(line)
                                         then var parts := Tokenize(line); [Edge(parts[0], parts[1]), Edge(parts[1], parts[0])]
                                         else []
  {
    var all := lines + [line];
    assert all[..|all| - 1] == lines;
    ParseSnoc(all);
    SymStep(Parse(lines).value, line);
  }

  /** The edge a line adds to `ForwardEdges`. */
  lemma ForwardSnoc(lines: seq<string>, line: string)
    ensures ForwardEdges(lines + [line]) ==
              ForwardEdges(lines) + if IsDataLine(line) && 2 <= |Tokenize(line)| <= 4
                                    then var parts := Tokenize(line); [Edge(parts[0], parts[1])]
                                    else []
  {
    assert (lines + [line])[..|lines|] == lines;
  }

  lemma ConcatAssoc<T>(a: seq<T>, b: seq<T>, c: seq<T>)
    ensures (a + b) + c == a + (b + c)
  {
  }

  lemma ConcatEmpty<T>(a: seq<T>)
    ensures a + [] == a
  {
  }

  /** A non-empty sequence is its prefix and its last element, also behind
    * another sequence. */
  lemma AppendLast<T>(pre: seq<T>, post: seq<T>)
    requires post != []
    ensures post == post[..|post| - 1] + [post[|post| - 1]]
    ensures pre + post == (pre + post[..|post| - 1]) + [post[|post| - 1]]
  {
  }

  /** In the same setting, when every row after the prefix has `n` fields
    * (three or four), each row's weight is recorded twice, once for the edge
    * and once for its reverse; with four fields so is its timestamp. */
  lemma {:induction false} SymFileDoublesAttributes(pre: seq<string>, post: seq<string>, n: nat)
    requires n == 3 || n == 4
    requires Parse(pre).Success? && !Parse(pre).value.isDirected
    requires forall i :: 0 <= i < |post| && IsDataLine(post[i]) ==>
               WellFormedRow(post[i]) && |Tokenize(post[i])| == n
    requires forall i :: 0 <= i < |post| && IsCommentLine(post[i]) ==> !CommentDirection(post[i], false)
    ensures Parse(pre + post).Success?
    ensures !Parse(pre + post).value.isDirected
    ensures Parse(pre + post).value.weights == Parse(pre).value.weights + Doubled(ForwardWeights(post))
    ensures n == 4 ==>
              Parse(pre + post).value.timestamps == Parse(pre).value.timestamps + Doubled(ForwardTimestamps(post))
    decreases |post|
  {
    if post == [] {
      assert pre + post == pre;
    } else {
      var init, line := post[..|post| - 1], post[|post| - 1];
      DropLastElements(post);
      SymFileDoublesAttributes(pre, init, n);
      SymAttributeSnoc(pre + init, line, n);
      AppendLast(pre, post);
      AttributeSnoc(init, line);
      var weights, timestamps := Parse(pre).value.weights, Parse(pre).value.timestamps;
      var doubledW, doubledT := Doubled(ForwardWeights(init)), Doubled(ForwardTimestamps(init));
      if IsDataLine(line) {
        var parts := Tokenize(line);
        var w := ToFloat(parts[2]);
        DoubledSnoc(ForwardWeights(init), w);
        ConcatAssoc(weights, doubledW, [w, w]);
        if n == 4 {
          var t := ToFloat(parts[3]);
          DoubledSnoc(ForwardTimestamps(init), t);
          ConcatAssoc(timestamps, doubledT, [t, t]);
        }
      } else {
        ConcatEmpty(ForwardWeights(init));
        ConcatEmpty(ForwardTimestamps(init));
        ConcatEmpty(weights + doubledW);
        ConcatEmpty(timestamps + doubledT);
      }
    }
  }

  /** One more line after lines that left the loader in undirected mode,
    * when every data row has `n` fields. */
  lemma SymAttributeSnoc(lines: seq<string>, line: string, n: nat)
    requires n == 3 || n == 4
    requires Parse(lines).Success? && !Parse(lines).value.isDirected
    requires IsDataLine(line) ==> WellFormedRow(line) && |Tokenize(line)| == n
    requires IsCommentLine(line) ==> !CommentDirection(line, false)
    ensures Parse(lines + [line]).Success? && !Parse(lines + [line]).value.isDirected
    ensures Parse(lines + [line]).value.weights ==
              Parse(lines).value.weights + if IsDataLine(line) then var w := ToFloat(Tokenize(line)[2]); [w, w] else []
    ensures n == 4 ==>
              (Parse(lines + [line]).value.timestamps ==
                 Parse(lines).value.timestamps + if IsDataLine(line) then var t := ToFloat(Tokenize(line)[3]); [t, t] else [])
  {
    var all := lines + [line];
    assert all[..|all| - 1] == lines;
    ParseSnoc(all);
    SymAttributeStep(Parse(lines).value, line, n);
  }

  /** The weight and timestamp a line adds to `ForwardWeights` and `ForwardTimestamps`. */
  lemma AttributeSnoc(lines: seq<string>, line: string)
    ensures var parts := Tokenize(line);
      ForwardWeights(lines + [line]) ==
        ForwardWeights(lines) + if IsDataLine(line) && 3 <= |parts| <= 4 && IsNumeric(parts[2])
                                then [ToFloat(parts[2])] else []
    ensures var parts := Tokenize(line);
      ForwardTimestamps(lines + [line]) ==
        ForwardTimestamps(lines) + if IsDataLine(line) && |parts| == 4 && IsNumeric(parts[3])
                                   then [ToFloat(parts[3])] else []
  {
    assert (lines + [line])[..|lines|] == lines;
  }

  /** One line of such a file: a data line records its weight twice (and,
    * with four fields, its timestamp twice); any other line records nothing. */
  lemma SymAttributeStep(st: ParseState, line: string, n: nat)
    requires Consistent(st) && !st.isDirected
    requires n == 3 || n == 4
    requires IsDataLine(line) ==> WellFormedRow(line) && |Tokenize(line)| == n
    requires IsCommentLine(line) ==> !CommentDirection(line, false)
    ensures Step(st, line).Success? && !Step(st, line).value.isDirected
    ensures Step(st, line).value.weights ==
              st.weights + if IsDataLine(line) then var w := ToFloat(Tokenize(line)[2]); [w, w] else []
    ensures n == 4 ==>
              (Step(st, line).value.timestamps ==
                 st.timestamps + if IsDataLine(line) then var t := ToFloat(Tokenize(line)[3]); [t, t] else [])
  {
    if IsCommentLine(line) {
      CommentLineEffect(st, line);
    } else if IsBlank(line) {
      BlankLineKeepsState(st, line);
    } else {
      DataRowEffect(st, line);
      var parts := Tokenize(line);
      DisplaySnoc2(ToFloat(parts[2]), ToFloat(parts[2]));
      if n == 4 {
        DisplaySnoc2(ToFloat(parts[3]), ToFloat(parts[3]));
      }
    }
  }

  lemma DoubledSnoc(values: seq<Float>, x: Float)
    ensures Doubled(values + [x]) == Doubled(values) + [x, x]
  {
    assert (values + [x])[..|values|] == values;
  }

  /** One line of such a file: a data line adds its edge and the reverse,
    * any other line adds nothing and keeps undirected mode. */
  lemma SymStep(st: ParseState, line: string)
    requires Consistent(st) && !st.isDirected
    requires IsDataLine(line) ==> WellFormedRow(line)
    requires IsCommentLine(line) ==> !CommentDirection(line, false)
    ensures Step(st, line).Success? && !Step(st, line).value.isDirected
    ensures Step(st, line).value.edges ==
              st.edges + if IsDataLine(line)
                         then var parts := Tokenize(line); [Edge(parts[0], parts[1]), Edge(parts[1], parts[0])]
                         else []
  {
    if IsCommentLine(line) {
      CommentLineEffect(st, line);
    } else if IsBlank(line) {
      BlankLineKeepsState(st, line);
    } else {
      DataRowEffect(st, line);
    }
  }

  lemma MirroredSnoc(edges: seq<Edge>, e: Edge)
    ensures Mirrored(edges + [e]) == Mirrored(edges) + [e, Reverse(e)]
  {
    assert (edges + [e])[..|edges|] == edges;
  }

  /** A file whose data rows all have the same number `n` of fields (and whose
    * attribute fields parse) passes the final check: there is one weight per
    * edge when `n` is 3 or 4 and none otherwise, and one timestamp per edge
    * when `n` is 4 and none otherwise, whatever the comments do to the direction. */
  lemma {:induction false} UniformRowsAlign(lines: seq<string>, n: nat)
    requires 2 <= n <= 4
    requires forall i :: 0 <= i < |lines| && IsDataLine(lines[i]) ==>
               WellFormedRow(lines[i]) && |Tokenize(lines[i])| == n
    ensures Parse(lines).Success?
    ensures |Parse(lines).value.weights| == if n >= 3 then |Parse(lines).value.edges| else 0
    ensures |Parse(lines).value.timestamps| == if n == 4 then |Parse(lines).value.edges| else 0
    ensures LoadEdges(lines).Success?
    decreases |lines|
  {
    if lines != [] {
      var init, line := lines[..|lines| - 1], lines[|lines| - 1];
      DropLastElements(lines);
      UniformRowsAlign(init, n);
      ParseSnoc(lines);
      var st := Parse(init).value;
      if IsBlank(line) {
      } else if IsCommentLine(line) {
        CommentLineEffect(st, line);
      } else {
        DataRowEffect(st, line);
      }
    }
  }

  lemma {:induction false} ForwardEdgesCount(lines: seq<string>)
    requires forall i :: 0 <= i < |lines| && IsDataLine(lines[i]) ==> WellFormedRow(lines[i])
    ensures |ForwardEdges(lines)| == DataLineCount(lines)
    decreases |lines|
  {
    if lines != [] {
      var init := lines[..|lines| - 1];
      DropLastElements(lines);
      ForwardEdgesCount(init);
    }
  }

  /** A file of two-field rows without comment lines loads as a directed graph
    * with one edge per data line, in order, and no attributes. */
  lemma TwoColumnFile(lines: seq<string>)
    requires !HasCommentLine(lines)
    requires forall i :: 0 <= i < |lines| && IsDataLine(lines[i]) ==> |Tokenize(lines[i])| == 2
    ensures LoadEdges(lines) == Success(Graph(ForwardEdges(lines), true, None, None))
    ensures |ForwardEdges(lines)| == DataLineCount(lines)
  {
    assert forall i :: 0 <= i < |lines| ==> !IsCommentLine(lines[i]);
    DirectedFileKeepsRows(lines);
    UniformRowsAlign(lines, 2);
    ForwardEdgesCount(lines);
  }

  // ---------------------------------------------------------------------------
  // Small files

  /** The state after the first line of a file. */
  lemma ParseFirst(line: string)
    ensures Parse([line]) == Step(Start, line)
  {
    assert [line][..0] == [];
  }

  /** In a directed file, a weighted row followed by an unweighted one leaves
    * one weight for two edges, and the weight assertion fails. */
  lemma MixedRowsMismatch(row3: string, row2: string)
    requires IsDataLine(row3) && WellFormedRow(row3) && |Tokenize(row3)| == 3
    requires IsDataLine(row2) && |Tokenize(row2)| == 2
    ensures LoadEdges([row3, row2]) == Failure(WeightCountMismatch(1, 2))
  {
    ParseFirst(row3);
    DataRowEffect(Start, row3);
    var lines := [row3, row2];
    assert lines[..1] == [row3];
    ParseSnoc(lines);
    var st := Parse([row3]).value;
    assert |st.edges| == 1 && |st.weights| == 1 && st.isDirected;
    DataRowEffect(st, row2);
    var after := Parse(lines).value;
    assert |after.edges| == 2 && |after.weights| == 1 && after.timestamps == [];
  }

  /** An undirected marker followed by one weighted row: the row and its
    * reverse, each with the row's weight. */
  lemma SymWeightedRow(marker: string, row: string)
    requires IsCommentLine(marker) && !CommentDirection(marker, true)
    requires IsDataLine(row) && WellFormedRow(row) && |Tokenize(row)| == 3
    ensures var parts := Tokenize(row);
      var forward, w := Edge(parts[0], parts[1]), ToFloat(parts[2]);
      Parse([marker, row]) ==
        Success(ParseState([forward, Reverse(forward)], [w, w], [], false, true, true, false,
                           Some(parts[0]), Some(parts[1]), Some(w), None))
  {
    MarkerFirst(marker);
    WeightedRowAfterMarker(row);
    var parts := Tokenize(row);
    var forward, w := Edge(parts[0], parts[1]), ToFloat(parts[2]);
    ParseSecondLine(marker, row, Start.(foundCommentLine := true, isDirected := false),
                    ParseState([forward, Reverse(forward)], [w, w], [], false, true, true, false,
                               Some(parts[0]), Some(parts[1]), Some(w), None));
  }

  /** A file that starts with an undirected marker is undirected after it. */
  lemma MarkerFirst(marker: string)
    requires IsCommentLine(marker) && !CommentDirection(marker, true)
    ensures Parse([marker]) == Success(Start.(foundCommentLine := true, isDirected := false))
  {
    ParseFirst(marker);
    CommentLineEffect(Start, marker);
  }

  /** The state `SymWeightedRow` describes, one step after the marker. */
  lemma WeightedRowAfterMarker(row: string)
    requires IsDataLine(row) && WellFormedRow(row) && |Tokenize(row)| == 3
    ensures var parts := Tokenize(row);
      var forward, w := Edge(parts[0], parts[1]), ToFloat(parts[2]);
      Step(Start.(foundCommentLine := true, isDirected := false), row) ==
        Success(ParseState([forward, Reverse(forward)], [w, w], [], false, true, true, false,
                           Some(parts[0]), Some(parts[1]), Some(w), None))
  {
    var st := Start.(foundCommentLine := true, isDirected := false);
    DataRowEffect(st, row);
    DataRowVariables(st, row);
    var parts := Tokenize(row);
    var forward, w := Edge(parts[0], parts[1]), ToFloat(parts[2]);
    var after := Step(st, row).value;
    assert after.edges == [forward, Reverse(forward)] by {
      assert after.edges == [] + [forward] + [Reverse(forward)];
    }
    assert after.weights == [w, w] by {
      assert after.weights == [] + ([w] + [w]);
    }
    assert after.timestamps == [] by {
      assert after.timestamps == [] + [];
    }
  }

  /** In an undirected file that has weights, a last row without a weight
    * still mirrors the weight of the row before it: one weight for its
    * forward edge is missing, and the weight assertion fails. */
  lemma StaleWeightMismatch(lines: seq<string>)
    requires lines != [] && Parse(lines[..|lines| - 1]).Success?
    requires var st := Parse(lines[..|lines| - 1]).value;
      !st.isDirected && st.hasWeight && !st.hasTimestamp && |st.weights| == |st.edges|
    requires IsDataLine(lines[|lines| - 1]) && |Tokenize(lines[|lines| - 1])| == 2
    ensures var n := |Parse(lines[..|lines| - 1]).value.edges|;
      LoadEdges(lines) == Failure(WeightCountMismatch(n + 1, n + 2))
  {
    ParseSnoc(lines);
    StaleWeightStep(Parse(lines[..|lines| - 1]).value, lines[|lines| - 1]);
  }

  /** The same, one step at a time: the state after such a row fails the
    * weight check by one. */
  lemma StaleWeightStep(st: ParseState, line: string)
    requires Consistent(st)
    requires !st.isDirected && st.hasWeight && !st.hasTimestamp && |st.weights| == |st.edges|
    requires IsDataLine(line) && |Tokenize(line)| == 2
    ensures Step(st, line).Success?
    ensures Finish(Step(st, line).value) == Failure(WeightCountMismatch(|st.edges| + 1, |st.edges| + 2))
  {
    DataRowEffect(st, line);
    var after := Step(st, line).value;
    assert |after.edges| == |st.edges| + 2 && |after.weights| == |st.weights| + 1;
    assert after.timestamps == st.timestamps;
  }

  /** For instance: a `% sym` line, a weighted row and an unweighted row. */
  lemma StaleWeightExample(marker: string, row3: string, row2: string)
    requires IsCommentLine(marker) && !CommentDirection(marker, true)
    requires IsDataLine(row3) && WellFormedRow(row3) && |Tokenize(row3)| == 3
    requires IsDataLine(row2) && |Tokenize(row2)| == 2
    ensures LoadEdges([marker, row3, row2]) == Failure(WeightCountMismatch(3, 4))
  {
    SymWeightedRow(marker, row3);
    assert [marker, row3, row2][..2] == [marker, row3];
    StaleWeightMismatch([marker, row3, row2]);
  }

  /** In an undirected file, a last row with a number of fields other than
    * two, three or four, after some row has set `src` and `dst`, adds the
    * reverse of that earlier row once more, with its weight and timestamp. */
  lemma StrayRowMirrorsPrevious(lines: seq<string>)
    requires lines != [] && Parse(lines[..|lines| - 1]).Success?
    requires var st := Parse(lines[..|lines| - 1]).value; !st.isDirected && st.dst.Some?
    requires IsDataLine(lines[|lines| - 1]) && !(2 <= |Tokenize(lines[|lines| - 1])| <= 4)
    ensures var st := Parse(lines[..|lines| - 1]).value;
      && Parse(lines).Success?
      && Parse(lines).value.edges == st.edges + [Edge(st.dst.value, st.src.value)]
      && Parse(lines).value.weights == st.weights + (if st.hasWeight then [st.weight.value] else [])
      && Parse(lines).value.timestamps ==
           st.timestamps + (if st.hasTimestamp then [st.timestamp.value] else [])
      && Parse(lines).value.isDirected == st.isDirected
      && Parse(lines).value.foundCommentLine == st.foundCommentLine
      && Parse(lines).value.hasWeight == st.hasWeight
      && Parse(lines).value.hasTimestamp == st.hasTimestamp
  {
    ParseSnoc(lines);
    OtherFieldCountEffect(Parse(lines[..|lines| - 1]).value, lines[|lines| - 1]);
  }

  /** For instance: a `% sym` line, a weighted row and a row of five or more
    * fields load as that row's edge and its reverse twice, each with the weight. */
  lemma StrayRowExample(marker: string, row: string, stray: string)
    requires IsCommentLine(marker) && !CommentDirection(marker, true)
    requires IsDataLine(row) && WellFormedRow(row) && |Tokenize(row)| == 3
    requires IsDataLine(stray) && |Tokenize(stray)| > 4
    ensures var parts := Tokenize(row);
      var forward, w := Edge(parts[0], parts[1]), ToFloat(parts[2]);
      LoadEdges([marker, row, stray]) ==
        Success(Graph([forward, Reverse(forward), Reverse(forward)], false, Some([w, w, w]), None))
  {
    StrayRowExampleState(marker, row, stray);
  }

  lemma StrayRowExampleState(marker: string, row: string, stray: string)
    requires IsCommentLine(marker) && !CommentDirection(marker, true)
    requires IsDataLine(row) && WellFormedRow(row) && |Tokenize(row)| == 3
    requires IsDataLine(stray) && |Tokenize(stray)| > 4
    ensures var parts := Tokenize(row);
      var forward, w := Edge(parts[0], parts[1]), ToFloat(parts[2]);
      Parse([marker, row, stray]) ==
        Success(ParseState([forward, Reverse(forward), Reverse(forward)], [w, w, w], [], false, true, true, false,
                           Some(parts[0]), Some(parts[1]), Some(w), None))
  {
    SymWeightedRow(marker, row);
    var parts := Tokenize(row);
    var forward, w := Edge(parts[0], parts[1]), ToFloat(parts[2]);
    StrayAfterWeightedRow(parts[0], parts[1], w, stray);
    ParseThirdLine(marker, row, stray,
                   ParseState([forward, Reverse(forward)], [w, w], [], false, true, true, false,
                              Some(parts[0]), Some(parts[1]), Some(w), None),
                   ParseState([forward, Reverse(forward), Reverse(forward)], [w, w, w], [], false, true, true, false,
                              Some(parts[0]), Some(parts[1]), Some(w), None));
  }

  /** The step `StrayRowExampleState` takes on the stray row, after a row
    * `src dst w` in undirected mode. */
  lemma StrayAfterWeightedRow(src: string, dst: string, w: Float, stray: string)
    requires IsDataLine(stray) && |Tokenize(stray)| > 4
    ensures var forward := Edge(src, dst);
      Step(ParseState([forward, Reverse(forward)], [w, w], [], false, true, true, false,
                      Some(src), Some(dst), Some(w), None), stray) ==
        Success(ParseState([forward, Reverse(forward), Reverse(forward)], [w, w, w], [], false, true, true, false,
                           Some(src), Some(dst), Some(w), None))
  {
    var forward := Edge(src, dst);
    var st := ParseState([forward, Reverse(forward)], [w, w], [], false, true, true, false,
                         Some(src), Some(dst), Some(w), None);
    OtherFieldCountEffect(st, stray);
    assert st.edges + [Edge(st.dst.value, st.src.value)] == [forward, Reverse(forward), Reverse(forward)];
    assert st.weights + [st.weight.value] == [w, w, w];
  }
}
