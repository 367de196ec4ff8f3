/**
 * The few Python `str` operations the edge-list loader relies on:
 * `isspace`, `strip()`, `split(sep)`, `split()`, `lower()`, `in` and
 * `startswith`. Strings are sequences of Unicode scalar values.
 */
module PyText {

  /** Python's `str.isspace()` for a single character: the characters that
    * `strip()` and `split()` without arguments treat as whitespace. */
  predicate IsSpace(c: char) {
    || ('\t' <= c <= '\r')
    || ('\U{1C}' <= c <= '\U{1F}')
    || c == ' '
    || c == '\U{85}'
    || c == '\U{A0}'
    || c == '\U{1680}'
    || ('\U{2000}' <= c <= '\U{200A}')
    || c == '\U{2028}'
    || c == '\U{2029}'
    || c == '\U{202F}'
    || c == '\U{205F}'
    || c == '\U{3000}'
  }

  predicate AllSpace(s: string) {
    forall i :: 0 <= i < |s| ==> IsSpace(s[i])
  }

  /** `s.lstrip()`: the longest suffix of `s` that does not start with whitespace. */
  function TrimStart(s: string): (r: string)
    ensures |r| <= |s| && r == s[|s| - |r|..]
    ensures r == [] || !IsSpace(r[0])
  {
    if s != [] && IsSpace(s[0]) then TrimStart(s[1..]) else s
  }

  /** What `lstrip()` removes is whitespace. */
  lemma {:induction false} TrimStartDropsSpace(s: string)
    ensures AllSpace(s[..|s| - |TrimStart(s)|])
  {
    if s != [] && IsSpace(s[0]) {
      var n := |s| - |TrimStart(s)|;
      TrimStartDropsSpace(s[1..]);
      assert s[..n] == [s[0]] + s[1..][..n - 1];
    }
  }

  /** `s.rstrip()`: the longest prefix of `s` that does not end with whitespace. */
  function TrimEnd(s: string): (r: string)
    ensures |r| <= |s| && r == s[..|r|]
    ensures r == [] || !IsSpace(r[|r| - 1])
    ensures s != [] && !IsSpace(s[0]) ==> r != []
  {
    if s != [] && IsSpace(s[|s| - 1]) then TrimEnd(s[..|s| - 1]) else s
  }

  /** What `rstrip()` removes is whitespace. */
  lemma {:induction false} TrimEndDropsSpace(s: string)
    ensures AllSpace(s[|TrimEnd(s)|..])
  {
    if s != [] && IsSpace(s[|s| - 1]) {
      var n := |TrimEnd(s)|;
      TrimEndDropsSpace(s[..|s| - 1]);
      assert s[n..] == s[..|s| - 1][n..] + [s[|s| - 1]];
    }
  }

  /** `s.strip()`: `s` without its leading and trailing whitespace. */
  function Strip(s: string): string {
    TrimEnd(TrimStart(s))
  }

  /** What `strip()` keeps neither starts nor ends with whitespace. */
  lemma StripEnds(s: string)
    ensures |Strip(s)| <= |s|
    ensures Strip(s) == [] || (!IsSpace(Strip(s)[0]) && !IsSpace(Strip(s)[|Strip(s)| - 1]))
  {
    var t := TrimStart(s);
    assert Strip(s) != [] ==> Strip(s)[0] == t[0];
  }

  /** What `strip()` keeps is a slice of `s` with whitespace only around it. */
  lemma StripKeepsMiddle(s: string)
    ensures exists i :: StrippedAt(s, Strip(s), i)
  {
    var t := TrimStart(s);
    var r := TrimEnd(t);
    var i := |s| - |t|;
    TrimStartDropsSpace(s);
    TrimEndDropsSpace(t);
    assert s[i..i + |r|] == t[..|r|];
    assert s[i + |r|..] == t[|r|..];
    assert StrippedAt(s, Strip(s), i);
  }

  /** `r` is the slice of `s` starting at `i`, and everything around it is whitespace. */
  predicate StrippedAt(s: string, r: string, i: int) {
    && 0 <= i <= i + |r| <= |s|
    && r == s[i..i + |r|]
    && AllSpace(s[..i])
    && AllSpace(s[i + |r|..])
  }

  /** `not s.strip()`: the line is empty once stripped. */
  predicate IsBlank(s: string) {
    Strip(s) == []
  }

  /** A line is blank exactly when it holds whitespace only (or nothing). */
  lemma BlankIsAllSpace(s: string)
    ensures IsBlank(s) <==> AllSpace(s)
  {
    var t := TrimStart(s);
    TrimStartDropsSpace(s);
    if t == [] {
      assert s[..|s|] == s;
    } else {
      TrimEndDropsSpace(t);
      assert t[0] == s[|s| - |t|];
      assert t[0..] == t;
    }
  }

  /** The index of the first `c` in `s`, or `|s|` when there is none. */
  function IndexOf(s: string, c: char): (k: nat)
    ensures k <= |s|
    ensures k < |s| ==> s[k] == c
    ensures c !in s[..k]
  {
    if s == [] || s[0] == c then 0
    else
      var k := 1 + IndexOf(s[1..], c);
      assert s[..k] == [s[0]] + s[1..][..k - 1];
      k
  }

  /** `s.split(sep)` for a one-character separator: the pieces between the
    * separators, empty ones included, so never an empty list. */
  function Split(s: string, sep: char): (parts: seq<string>)
    ensures |parts| >= 1
    decreases |s|
  {
    var k := IndexOf(s, sep);
    if k == |s| then [s]
    else [s[..k]] + Split(s[k + 1..], sep)
  }

  /** No piece of `split(sep)` holds the separator. */
  lemma {:induction false} SplitPiecesLackSep(s: string, sep: char)
    ensures forall i :: 0 <= i < |Split(s, sep)| ==> sep !in Split(s, sep)[i]
    decreases |s|
  {
    var k := IndexOf(s, sep);
    if k == |s| {
      assert s[..k] == s;
    } else {
      SplitPiecesLackSep(s[k + 1..], sep);
    }
  }

  /** `sep.join(parts)`. */
  function Join(parts: seq<string>, sep: char): string {
    if parts == [] then []
    else if |parts| == 1 then parts[0]
    else parts[0] + [sep] + Join(parts[1..], sep)
  }

  /** Splitting and joining again gives back the text. */
  lemma {:induction false} JoinSplit(s: string, sep: char)
    ensures Join(Split(s, sep), sep) == s
    decreases |s|
  {
    var k := IndexOf(s, sep);
    if k < |s| {
      var rest := Split(s[k + 1..], sep);
      assert Split(s, sep) == [s[..k]] + rest;
      JoinCons(s[..k], rest, sep);
      JoinSplit(s[k + 1..], sep);
      assert s == s[..k] + [sep] + s[k + 1..];
    }
  }

  lemma JoinCons(first: string, rest: seq<string>, sep: char)
    requires |rest| >= 1
    ensures Join([first] + rest, sep) == first + [sep] + Join(rest, sep)
  {
    assert ([first] + rest)[1..] == rest;
  }

  /** Joining pieces that hold no separator and splitting again gives back the pieces. */
  lemma {:induction false} SplitJoin(parts: seq<string>, sep: char)
    requires |parts| >= 1
    requires forall i :: 0 <= i < |parts| ==> sep !in parts[i]
    ensures Split(Join(parts, sep), sep) == parts
  {
    var s := Join(parts, sep);
    if |parts| == 1 {
      assert IndexOf(s, sep) == |s|;
    } else {
      var rest := Join(parts[1..], sep);
      assert s == parts[0] + [sep] + rest;
      var k := IndexOf(s, sep);
      assert s[|parts[0]|] == sep;
      assert k == |parts[0]| by {
        assert s[..|parts[0]|] == parts[0];
      }
      assert s[..k] == parts[0];
      assert s[k + 1..] == rest;
      SplitJoin(parts[1..], sep);
      assert parts == [parts[0]] + parts[1..];
    }
  }

  /** A word of `split()`: non-empty and free of whitespace. */
  predicate IsWord(w: string) {
    w != [] && forall i :: 0 <= i < |w| ==> !IsSpace(w[i])
  }

  /** The index of the first whitespace character of `s`, or `|s|`. */
  function WordEnd(s: string): (k: nat)
    ensures k <= |s|
    ensures forall j :: 0 <= j < k ==> !IsSpace(s[j])
    ensures k < |s| ==> IsSpace(s[k])
  {
    if s == [] || IsSpace(s[0]) then 0 else 1 + WordEnd(s[1..])
  }

  /** `s.split()`: the maximal runs of non-whitespace characters, in order. */
  function SplitWhitespace(s: string): (words: seq<string>)
    decreases |s|
  {
    var t := TrimStart(s);
    if t == [] then []
    else
      var k := WordEnd(t);
      [t[..k]] + SplitWhitespace(t[k..])
  }

  /** `split()` returns no pieces exactly when `s` is whitespace only. */
  lemma SplitWhitespaceNone(s: string)
    ensures SplitWhitespace(s) == [] <==> AllSpace(s)
  {
    var t := TrimStart(s);
    TrimStartDropsSpace(s);
    if t == [] {
      assert s[..|s|] == s;
    } else {
      assert !IsSpace(s[|s| - |t|]);
    }
  }

  /** Every piece of `split()` is a word. */
  lemma {:induction false} SplitWhitespaceWords(s: string)
    ensures forall i :: 0 <= i < |SplitWhitespace(s)| ==> IsWord(SplitWhitespace(s)[i])
    decreases |s|
  {
    var t := TrimStart(s);
    if t != [] {
      var k := WordEnd(t);
      SplitWhitespaceUnfold(s);
      FirstWord(t);
      SplitWhitespaceWords(t[k..]);
      WordsCons(t[..k], SplitWhitespace(t[k..]));
    }
  }

  /** The text up to the first whitespace is a word when it does not start with whitespace. */
  lemma FirstWord(t: string)
    requires t != [] && !IsSpace(t[0])
    ensures IsWord(t[..WordEnd(t)])
  {
    var k := WordEnd(t);
    assert forall j :: 0 <= j < k ==> t[..k][j] == t[j];
  }

  lemma WordsCons(w: string, rest: seq<string>)
    requires IsWord(w)
    requires forall i :: 0 <= i < |rest| ==> IsWord(rest[i])
    ensures forall i :: 0 <= i < |[w] + rest| ==> IsWord(([w] + rest)[i])
  {
    assert forall i :: 0 < i < |rest| + 1 ==> ([w] + rest)[i] == rest[i - 1];
  }

  /** One step of `split()` and of its gaps, on a text that is not whitespace only. */
  lemma SplitWhitespaceUnfold(s: string)
    requires TrimStart(s) != []
    ensures var t := TrimStart(s);
      var k := WordEnd(t);
      && SplitWhitespace(s) == [t[..k]] + SplitWhitespace(t[k..])
  {
  }

  /** A text is its prefix up to `k` followed by the rest. */
  lemma SliceSplit<T>(s: seq<T>, k: nat)
    requires k <= |s|
    ensures s == s[..k] + s[k..]
  {
  }

  /** `" ".join(words)`. */
  function JoinWords(words: seq<string>): string {
    if words == [] then []
    else if |words| == 1 then words[0]
    else words[0] + " " + JoinWords(words[1..])
  }

  /** Splitting words joined by single spaces gives back the words. */
  lemma {:induction false} SplitWhitespaceJoinWords(words: seq<string>)
    requires forall i :: 0 <= i < |words| ==> IsWord(words[i])
    ensures SplitWhitespace(JoinWords(words)) == words
  {
    if words != [] {
      var w, rest := words[0], words[1..];
      WordsUncons(words);
      if rest == [] {
        SplitWhitespaceOneWord(w);
      } else {
        SplitWhitespaceJoinWords(rest);
        SplitWhitespaceJoinWordsStep(w, rest);
      }
    }
  }

  /** A non-empty list of words is its first word followed by a list of words. */
  lemma WordsUncons(words: seq<string>)
    requires words != []
    requires forall i :: 0 <= i < |words| ==> IsWord(words[i])
    ensures words == [words[0]] + words[1..]
    ensures IsWord(words[0])
    ensures forall i :: 0 <= i < |words[1..]| ==> IsWord(words[1..][i])
    ensures words[1..] == [] ==> JoinWords(words) == words[0]
  {
  }

  lemma SplitWhitespaceJoinWordsStep(w: string, rest: seq<string>)
    requires IsWord(w) && rest != []
    requires SplitWhitespace(JoinWords(rest)) == rest
    ensures SplitWhitespace(JoinWords([w] + rest)) == [w] + rest
  {
    JoinWordsCons(w, rest);
    SplitWhitespaceWordThenSpace(w, JoinWords(rest));
  }

  lemma SplitWhitespaceOneWord(w: string)
    requires IsWord(w)
    ensures SplitWhitespace(w) == [w]
  {
    SplitWhitespaceWordFirst(w, []);
    assert w + [] == w;
    assert SplitWhitespace([]) == [];
  }

  lemma JoinWordsCons(w: string, rest: seq<string>)
    requires rest != []
    ensures JoinWords([w] + rest) == w + ([' '] + JoinWords(rest))
  {
    assert ([w] + rest)[1..] == rest;
  }

  lemma SplitWhitespaceWordThenSpace(w: string, tail: string)
    requires IsWord(w)
    ensures SplitWhitespace(w + ([' '] + tail)) == [w] + SplitWhitespace(tail)
  {
    SplitWhitespaceWordFirst(w, [' '] + tail);
    SplitWhitespaceSpaceFirst(' ', tail);
  }

  /** A word followed by nothing or by whitespace is the first word of `split()`. */
  lemma SplitWhitespaceWordFirst(w: string, rest: string)
    requires IsWord(w)
    requires rest == [] || IsSpace(rest[0])
    ensures SplitWhitespace(w + rest) == [w] + SplitWhitespace(rest)
  {
    var s := w + rest;
    assert TrimStart(s) == s by { assert s[0] == w[0]; }
    WordEndOfWord(w, rest);
    assert s[..|w|] == w && s[|w|..] == rest;
  }

  /** A word followed by nothing or by whitespace ends where the word ends. */
  lemma WordEndOfWord(w: string, rest: string)
    requires IsWord(w)
    requires rest == [] || IsSpace(rest[0])
    ensures WordEnd(w + rest) == |w|
  {
    var s := w + rest;
    assert forall j :: 0 <= j < |w| ==> s[j] == w[j];
    assert rest != [] ==> s[|w|] == rest[0];
  }

  /** Leading whitespace does not change what `split()` returns. */
  lemma SplitWhitespaceSpaceFirst(c: char, rest: string)
    requires IsSpace(c)
    ensures SplitWhitespace([c] + rest) == SplitWhitespace(rest)
  {
    assert ([c] + rest)[1..] == rest;
  }

  /** `sub` occurs in `s` at index `i`. */
  predicate OccursAt(s: string, sub: string, i: int) {
    0 <= i && i + |sub| <= |s| && s[i..i + |sub|] == sub
  }

  /** Python's `sub in s`: `sub` is a prefix of `s` or occurs in its tail. */
  predicate Contains(s: string, sub: string)
    decreases |s|
  {
    if |s| < |sub| then false
    else if s[..|sub|] == sub then true
    else Contains(s[1..], sub)
  }

  /** `Contains` holds exactly when `sub` occurs somewhere in `s`. */
  lemma {:induction false} ContainsOccurs(s: string, sub: string)
    ensures Contains(s, sub) <==> exists i :: OccursAt(s, sub, i)
    decreases |s|
  {
    if |s| < |sub| {
    } else if s[..|sub|] == sub {
      assert OccursAt(s, sub, 0);
    } else {
      ContainsOccurs(s[1..], sub);
      if Contains(s[1..], sub) {
        var i :| OccursAt(s[1..], sub, i);
        assert s[1..][i..i + |sub|] == s[i + 1..i + 1 + |sub|];
        assert OccursAt(s, sub, i + 1);
      }
      if exists i :: OccursAt(s, sub, i) {
        var i :| OccursAt(s, sub, i);
        assert i != 0;
        assert s[1..][i - 1..i - 1 + |sub|] == s[i..i + |sub|];
        assert OccursAt(s[1..], sub, i - 1);
      }
    }
  }

  /** `c.lower()` for the ASCII letters; every other character is kept. */
  function LowerChar(c: char): char {
    if 'A' <= c <= 'Z' then (c as int + 32) as char else c
  }

  /** `s.lower()`, character by character. */
  function Lower(s: string): (r: string)
    ensures |r| == |s|
  {
    if s == [] then [] else [LowerChar(s[0])] + Lower(s[1..])
  }

  /** `lower()` maps each character on its own. */
  lemma {:induction false} LowerChars(s: string)
    ensures forall i :: 0 <= i < |s| ==> Lower(s)[i] == LowerChar(s[i])
    decreases |s|
  {
    if s != [] {
      LowerChars(s[1..]);
    }
  }

  /** `lower()` distributes over concatenation. */
  lemma {:induction false} LowerAppend(a: string, b: string)
    ensures Lower(a + b) == Lower(a) + Lower(b)
    decreases |a|
  {
    if a == [] {
      assert a + b == b;
    } else {
      assert (a + b)[0] == a[0] && (a + b)[1..] == a[1..] + b;
      LowerAppend(a[1..], b);
    }
  }
}
