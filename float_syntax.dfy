/**
 * What Python's `float(token)` accepts from a string, for ASCII text, as a
 * scanner: optional whitespace, an optional sign, then a decimal literal
 * (digits with single underscores between them, an optional fraction, an
 * optional exponent) or one of `inf`, `infinity`, `nan` in any letter case,
 * then optional whitespace. The loader never computes with the number, so
 * the value a successful call returns is kept as the token's text.
 */
module FloatSyntax {
  import opened PyText

  /** The value of a `float(...)` call that succeeded. */
  datatype Float = Float(literal: string)

  /** Where the scanner stands after a prefix of the token. */
  datatype ScanState =
    | Lead            // only whitespace so far
    | Signed          // a sign after the leading whitespace
    | Int             // digits of the integer part (accepting)
    | IntUnderscore   // an underscore after an integer digit
    | BareDot         // a `.` with no integer digits before it
    | Dot             // a `.` after integer digits (accepting)
    | Fraction        // digits after the `.` (accepting)
    | FractionUnderscore
    | Exponent        // `e` or `E`
    | ExponentSigned  // a sign after the exponent mark
    | ExponentInt     // exponent digits (accepting)
    | ExponentUnderscore
    | Letters(read: string)  // lower-cased letters of `inf`, `infinity` or `nan`
    | Trail           // whitespace after a complete literal (accepting)
    | Reject

  predicate IsDigit(c: char) {
    '0' <= c <= '9'
  }

  predicate IsSign(c: char) {
    c == '+' || c == '-'
  }

  predicate IsExponentMark(c: char) {
    c == 'e' || c == 'E'
  }

  /** `p` is a prefix of one of the special spellings. */
  predicate IsSpecialPrefix(p: string) {
    p <= "infinity" || p <= "nan"
  }

  /** The states in which the text read so far is a whole literal. */
  predicate Accepting(q: ScanState) {
    match q
    case Int | Dot | Fraction | ExponentInt | Trail => true
    case Letters(read) => read == "inf" || read == "infinity" || read == "nan"
    case _ => false
  }

  /** The scanner's move on one character. */
  function Next(q: ScanState, c: char): ScanState {
    match q
    case Lead =>
      if IsSpace(c) then Lead
      else if IsSign(c) then Signed
      else if IsDigit(c) then Int
      else if c == '.' then BareDot
      else if IsSpecialPrefix([LowerChar(c)]) then Letters([LowerChar(c)])
      else Reject
    case Signed =>
      if IsDigit(c) then Int
      else if c == '.' then BareDot
      else if IsSpecialPrefix([LowerChar(c)]) then Letters([LowerChar(c)])
      else Reject
    case Int =>
      if IsDigit(c) then Int
      else if c == '_' then IntUnderscore
      else if c == '.' then Dot
      else if IsExponentMark(c) then Exponent
      else if IsSpace(c) then Trail
      else Reject
    case IntUnderscore => if IsDigit(c) then Int else Reject
    case BareDot => if IsDigit(c) then Fraction else Reject
    case Dot =>
      if IsDigit(c) then Fraction
      else if IsExponentMark(c) then Exponent
      else if IsSpace(c) then Trail
      else Reject
    case Fraction =>
      if IsDigit(c) then Fraction
      else if c == '_' then FractionUnderscore
      else if IsExponentMark(c) then Exponent
      else if IsSpace(c) then Trail
      else Reject
    case FractionUnderscore => if IsDigit(c) then Fraction else Reject
    case Exponent =>
      if IsSign(c) then ExponentSigned
      else if IsDigit(c) then ExponentInt
      else Reject
    case ExponentSigned => if IsDigit(c) then ExponentInt else Reject
    case ExponentInt =>
      if IsDigit(c) then ExponentInt
      else if c == '_' then ExponentUnderscore
      else if IsSpace(c) then Trail
      else Reject
    case ExponentUnderscore => if IsDigit(c) then ExponentInt else Reject
    case Letters(read) =>
      if IsSpace(c) && Accepting(q) then Trail
      else if IsSpecialPrefix(read + [LowerChar(c)]) then Letters(read + [LowerChar(c)])
      else Reject
    case Trail => if IsSpace(c) then Trail else Reject
    case Reject => Reject
  }

  /** The state after reading all of `s` from `q`. */
  function Scan(q: ScanState, s: string): ScanState
    decreases |s|
  {
    if s == [] then q else Scan(Next(q, s[0]), s[1..])
  }

  /** `float(token)` does not raise `ValueError`; the empty token always does. */
  predicate IsNumeric(token: string)
    ensures IsNumeric(token) ==> token != []
  {
    Accepting(Scan(Lead, token))
  }

  /** The value `float(token)` returns. */
  function ToFloat(token: string): Float
    requires IsNumeric(token)
  {
    Float(token)
  }

  /** Reading digits keeps the scanner in the integer part. */
  lemma {:induction false} ScanDigits(s: string)
    requires forall i :: 0 <= i < |s| ==> IsDigit(s[i])
    ensures Scan(Int, s) == Int
    decreases |s|
  {
    if s != [] {
      ScanDigits(s[1..]);
    }
  }

  /** A non-empty run of decimal digits is a float literal. */
  lemma DigitsAreNumeric(s: string)
    requires s != [] && forall i :: 0 <= i < |s| ==> IsDigit(s[i])
    ensures IsNumeric(s)
  {
    ScanDigits(s[1..]);
  }

  /** Whitespace on the left of a token does not change whether `float` accepts it. */
  lemma {:induction false} LeadingSpaceIgnored(c: char, s: string)
    requires IsSpace(c)
    ensures IsNumeric([c] + s) <==> IsNumeric(s)
  {
    assert ([c] + s)[1..] == s;
  }

  /** Decimal literals with a sign, a fraction or an exponent. */
  lemma DecimalLiterals()
    ensures IsNumeric("0.5") && IsNumeric("-1e-3")
    ensures !IsNumeric("") && !IsNumeric("1e")
  {
  }

  /** A `.` may end or start the digits, but not stand alone or repeat. */
  lemma DotLiterals()
    ensures IsNumeric("7.") && IsNumeric(".5")
    ensures !IsNumeric(".") && !IsNumeric("1.2.3")
  {
  }

  /** Underscores go between digits only, one at a time. */
  lemma UnderscoreLiterals()
    ensures IsNumeric("1E1_0")
    ensures !IsNumeric("1__0") && !IsNumeric("1_")
  {
  }

  /** Whitespace around a literal is allowed. */
  lemma SpacedLiteral()
    ensures IsNumeric(" 1_000 ")
  {
  }

  /** `inf` in any letter case, with an optional sign. */
  lemma InfLiteral()
    ensures IsNumeric("-iNf")
  {
  }

  /** Scanning `a` and then `b` is scanning `a + b`. */
  lemma {:induction false} ScanAppend(q: ScanState, a: string, b: string)
    ensures Scan(q, a + b) == Scan(Scan(q, a), b)
    decreases |a|
  {
    if a != [] {
      assert (a + b)[0] == a[0] && (a + b)[1..] == a[1..] + b;
      ScanAppend(Next(q, a[0]), a[1..], b);
    } else {
      assert a + b == b;
    }
  }

  /** A prefix of a prefix of a special spelling is one too. */
  lemma SpecialPrefixShorter(p: string, q: string)
    requires IsSpecialPrefix(p + q)
    ensures IsSpecialPrefix(p)
  {
    assert forall i :: 0 <= i < |p| ==> p[i] == (p + q)[i];
  }

  /** Letters that, lower-cased, continue a special spelling keep the scanner
    * reading that spelling. */
  lemma {:induction false} ScanLetters(read: string, rest: string)
    requires forall i :: 0 <= i < |rest| ==> !IsSpace(rest[i])
    requires IsSpecialPrefix(read + Lower(rest))
    ensures Scan(Letters(read), rest) == Letters(read + Lower(rest))
    decreases |rest|
  {
    if rest == [] {
      assert read + Lower(rest) == read;
    } else {
      var c := LowerChar(rest[0]);
      assert read + Lower(rest) == (read + [c]) + Lower(rest[1..]);
      SpecialPrefixShorter(read + [c], Lower(rest[1..]));
      assert Next(Letters(read), rest[0]) == Letters(read + [c]);
      ScanLetters(read + [c], rest[1..]);
    }
  }

  /** A spelling whose lower-cased form is `inf`, `infinity` or `nan`. */
  predicate IsSpecialSpelling(word: string) {
    Lower(word) == "inf" || Lower(word) == "infinity" || Lower(word) == "nan"
  }

  /** The characters of a special spelling are letters, never whitespace. */
  lemma SpecialSpellingLetters(word: string)
    requires IsSpecialSpelling(word)
    ensures forall i :: 0 <= i < |word| ==> !IsSpace(word[i])
  {
    LowerChars(word);
    forall i | 0 <= i < |word|
      ensures !IsSpace(word[i])
    {
      assert 'a' <= Lower(word)[i] <= 'z';
    }
  }

  /** After leading whitespace or a sign, a special spelling in any letter
    * case leaves the scanner having read its lower-cased form. */
  lemma ScanSpecialSpelling(q: ScanState, word: string)
    requires q == Lead || q == Signed
    requires IsSpecialSpelling(word)
    ensures Scan(q, word) == Letters(Lower(word))
  {
    SpecialSpellingLetters(word);
    var c := LowerChar(word[0]);
    assert Lower(word) == [c] + Lower(word[1..]);
    assert Lower(word)[0] == c;
    assert c == 'i' || c == 'n';
    assert Next(q, word[0]) == Letters([c]);
    ScanLetters([c], word[1..]);
  }

  /** Whitespace after a whole literal keeps it whole. */
  lemma {:induction false} TrailingSpaceAccepted(q: ScanState, trail: string)
    requires Accepting(q)
    requires AllSpace(trail)
    ensures Accepting(Scan(q, trail))
    decreases |trail|
  {
    if trail != [] {
      assert Next(q, trail[0]) == Trail;
      TrailingSpaceAccepted(Trail, trail[1..]);
    }
  }

  /** `inf`, `infinity` and `nan` in any letter case, with an optional sign
    * and surrounding whitespace, are float literals. */
  lemma SpecialSpellingNumeric(lead: string, sign: string, word: string, trail: string)
    requires AllSpace(lead) && AllSpace(trail)
    requires sign == [] || (|sign| == 1 && IsSign(sign[0]))
    requires IsSpecialSpelling(word)
    ensures IsNumeric(lead + sign + word + trail)
  {
    var rest := sign + (word + trail);
    ScanSpaces(lead);
    ScanAppend(Lead, lead, rest);
    ScanSign(sign);
    var q := Scan(Lead, sign);
    ScanAppend(Lead, sign, word + trail);
    ScanSpecialSpelling(q, word);
    ScanAppend(q, word, trail);
    TrailingSpaceAccepted(Letters(Lower(word)), trail);
    assert lead + sign + word + trail == lead + rest;
  }

  /** An optional sign moves the scanner from `Lead` to `Signed`. */
  lemma ScanSign(sign: string)
    requires sign == [] || (|sign| == 1 && IsSign(sign[0]))
    ensures Scan(Lead, sign) == Lead || Scan(Lead, sign) == Signed
  {
    if sign != [] {
      assert Next(Lead, sign[0]) == Signed;
      assert sign[1..] == [];
    }
  }

  /** Leading whitespace leaves the scanner where it started. */
  lemma {:induction false} ScanSpaces(lead: string)
    requires AllSpace(lead)
    ensures Scan(Lead, lead) == Lead
    decreases |lead|
  {
    if lead != [] {
      ScanSpaces(lead[1..]);
    }
  }

  /** The long spelling is special in any letter case. */
  lemma InfinityLiteral()
    ensures IsSpecialSpelling("InFiNiTy")
  {
    LowerAppend("InFi", "NiTy");
    assert "InFi" + "NiTy" == "InFiNiTy";
    assert Lower("InFi") == "infi" && Lower("NiTy") == "nity";
    assert "infi" + "nity" == "infinity";
  }

  /** `nan` is accepted too. */
  lemma NanLiteral()
    ensures IsNumeric("nan")
  {
  }

  /** Other words, including a cut-short `infinity`, are rejected. */
  lemma WordsRejected()
    ensures !IsNumeric("infi") && !IsNumeric("abc")
  {
  }
}
