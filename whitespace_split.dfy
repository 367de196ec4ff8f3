/**
 * How the pieces of Python's `s.split()` sit in `s`: the text is the pieces
 * in order with runs of whitespace around them, and two pieces are always
 * separated by at least one whitespace character.
 */
module WhitespaceSplit {
  import opened PyText

  /** The whitespace runs of `s` around the pieces of `split()`: before the
    * first piece, between each two, and after the last. */
  function Gaps(s: string): seq<string>
    decreases |s|
  {
    var t := TrimStart(s);
    var g := s[..|s| - |t|];
    if t == [] then [g]
    else
      var k := WordEnd(t);
      [g] + Gaps(t[k..])
  }

  /** `gaps[0] + words[0] + gaps[1] + ... + words[n - 1] + gaps[n]`. */
  function Interleave(gaps: seq<string>, words: seq<string>): string
    requires |gaps| == |words| + 1
  {
    if words == [] then gaps[0]
    else gaps[0] + words[0] + Interleave(gaps[1..], words[1..])
  }

  /** `s` is `words` in order, with the whitespace runs `gaps` around them
    * and at least one whitespace character between two words. */
  predicate SpacedWords(s: string, gaps: seq<string>, words: seq<string>) {
    && |gaps| == |words| + 1
    && Interleave(gaps, words) == s
    && (forall i :: 0 <= i < |gaps| ==> AllSpace(gaps[i]))
    && (forall i :: 0 < i < |words| ==> gaps[i] != [])
  }

  /** The pieces of `split()` cover `s`: only whitespace is dropped, in
    * order, and two pieces are always separated by whitespace. */
  lemma {:induction false} SplitWhitespaceCovers(s: string)
    ensures SpacedWords(s, Gaps(s), SplitWhitespace(s))
    decreases |s|
  {
    var t := TrimStart(s);
    var g := s[..|s| - |t|];
    TrimStartDropsSpace(s);
    if t == [] {
      assert s[..|s|] == s;
    } else {
      var k := WordEnd(t);
      var w, rest := t[..k], t[k..];
      SplitWhitespaceCovers(rest);
      if SplitWhitespace(rest) != [] {
        GapAfterWord(rest);
      }
      SplitWhitespaceUnfold(s);
      GapsUnfold(s);
      SliceSplit(s, |s| - |t|);
      SliceSplit(t, k);
      SpacedWordsCons(s, g, t, w, rest, Gaps(rest), SplitWhitespace(rest));
    }
  }

  /** One step of the gaps, on a text that is not whitespace only. */
  lemma GapsUnfold(s: string)
    requires TrimStart(s) != []
    ensures var t := TrimStart(s);
      Gaps(s) == [s[..|s| - |t|]] + Gaps(t[WordEnd(t)..])
  {
  }

  /** What follows a word of `split()` starts with whitespace, so the gap
    * before the next word is not empty. */
  lemma GapAfterWord(s: string)
    requires s != [] && IsSpace(s[0])
    ensures Gaps(s)[0] != []
  {
  }

  /** One more gap and word in front of a covered text. */
  lemma SpacedWordsCons(s: string, g: string, t: string, w: string, rest: string,
                        gaps: seq<string>, words: seq<string>)
    requires SpacedWords(rest, gaps, words)
    requires AllSpace(g)
    requires words != [] ==> gaps[0] != []
    requires s == g + t && t == w + rest
    ensures SpacedWords(s, [g] + gaps, [w] + words)
  {
    assert g + w + rest == s;
    assert ([g] + gaps)[1..] == gaps;
    assert ([w] + words)[1..] == words;
    assert forall i :: 0 < i < |gaps| + 1 ==> ([g] + gaps)[i] == gaps[i - 1];
  }
}
