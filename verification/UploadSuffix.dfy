/** Numbered names: putting a number on a name, and finding the first number
    worth trying.
  */
module UploadSuffix {
  import opened Options
  import opened UploadNames

  const MAX_RECORDED_SUFFIX := 1_000_000
  const U32_MAX := 0xFFFF_FFFF

  // ---------------------------------------------------------------------
  // Decimal numbers
  // ---------------------------------------------------------------------

  predicate IsDigit(c: char) {
    '0' <= c <= '9'
  }

  function Digit(d: nat): (c: char)
    requires d < 10
    ensures IsDigit(c)
  {
    '0' + d as char
  }

  function DigitValue(c: char): (d: nat)
    requires IsDigit(c)
    ensures d < 10
  {
    (c - '0') as nat
  }

  predicate AllDigits(s: string) {
    forall i :: 0 <= i < |s| ==> IsDigit(s[i])
  }

  /** A number printed in decimal. */
  function Decimal(n: nat): (s: string)
    ensures s != [] && AllDigits(s)
  {
    if n < 10 then [Digit(n)] else Decimal(n / 10) + [Digit(n % 10)]
  }

  /** The number some digits stand for. */
  function Value(s: string): nat
    requires AllDigits(s)
  {
    if s == [] then 0 else 10 * Value(s[..|s| - 1]) + DigitValue(s[|s| - 1])
  }

  lemma {:induction false} DecimalReadsBack(n: nat)
    ensures Value(Decimal(n)) == n
  {
    if n < 10 {
      assert Decimal(n)[..0] == [];
    } else {
      DecimalReadsBack(n / 10);
      assert Decimal(n)[..|Decimal(n)| - 1] == Decimal(n / 10);
    }
  }

  lemma {:induction false} DecimalIsShort(n: nat)
    requires n <= U32_MAX
    ensures |Decimal(n)| <= 10
  {
    DecimalLength(n, 10, 1_00000_00000);
  }

  lemma {:induction false} DecimalLength(n: nat, digits: nat, bound: nat)
    requires 1 <= digits && n < bound && bound == Pow10(digits)
    ensures |Decimal(n)| <= digits
  {
    assert Pow10(0) == 1;
    if n >= 10 {
      if digits == 1 {
        assert false;
      } else {
        DecimalLength(n / 10, digits - 1, Pow10(digits - 1));
      }
    }
  }

  function Pow10(n: nat): nat {
    if n == 0 then 1 else 10 * Pow10(n - 1)
  }

  // ---------------------------------------------------------------------
  // Putting a number on a name
  // ---------------------------------------------------------------------

  function Suffix(n: nat): string {
    ['-'] + Decimal(n)
  }

  function WithSuffix(a: Alphabet, name: string, n: nat): string {
    var split := SplitExt(a, name);
    Fit(a, split.stem, split.ext, Suffix(n))
  }

  /** Without the dashes at the end a tidy name is the same or one shorter. */
  lemma {:induction false} TrimEndIsPrefix(s: string) returns (j: nat)
    requires s != [] && s[0] != '-'
    ensures 0 < j <= |s| && TrimEnd(s) == s[..j] && !EndsInDash(s[..j])
    ensures NoDoubleDash(s) ==> |s| <= j + 1
    ensures !EndsInDash(s) ==> j == |s|
    ensures forall i :: j <= i < |s| ==> s[i] == '-'
  {
    if EndsInDash(s) {
      var front := s[..|s| - 1];
      assert front[0] == s[0];
      j := TrimEndIsPrefix(front);
      assert front[..j] == s[..j];
      assert NoDoubleDash(s) ==> !EndsInDash(front);
    } else {
      j := |s|;
      assert s[..j] == s;
    }
  }

  lemma {:induction false} BytesOfNarrow(a: Alphabet, s: string)
    requires forall i :: 0 <= i < |s| ==> a.width(s[i]) == 1
    ensures Bytes(a, s) == |s|
  {
    if s != [] {
      BytesOfNarrow(a, s[..|s| - 1]);
    }
  }

  /** What goes between a stem and its extension: short, tidy, and set off by one dash. */
  predicate GoodSuffix(a: Alphabet, suffix: string) {
    && suffix != []
    && AllAllowed(a, suffix) && NoDoubleDash(suffix)
    && Bytes(a, suffix) <= MAX_EXT_BYTES
  }

  lemma {:induction false} SuffixIsShort(a: Alphabet, n: nat)
    requires Sane(a) && n <= U32_MAX
    ensures Bytes(a, Suffix(n)) == |Suffix(n)| <= 11
    ensures GoodSuffix(a, Suffix(n)) && !EndsInDash(Suffix(n))
  {
    DecimalIsShort(n);
    BytesOfNarrow(a, Suffix(n));
  }

  lemma {:induction false} JoinedTidy(a: Alphabet, x: string, y: string)
    requires AllAllowed(a, x) && NoDoubleDash(x) && AllAllowed(a, y) && NoDoubleDash(y)
    requires !EndsInDash(x) || (y != [] ==> y[0] != '-')
    ensures AllAllowed(a, x + y) && NoDoubleDash(x + y)
  {
  }

  lemma {:induction false} NeatParts(a: Alphabet, name: string)
    requires Neat(a, name)
    ensures var r := SplitExt(a, name);
            && r.stem != [] && r.stem[0] != '.' && r.stem[0] != '-'
            && AllAllowed(a, r.stem) && NoDoubleDash(r.stem)
            && AllAllowed(a, r.ext) && NoDoubleDash(r.ext)
            && (r.ext != [] ==> r.ext[0] == '.') && Bytes(a, r.ext) <= MAX_EXT_BYTES
  {
  }

  /** The stem a suffixed name keeps, and the name made of it. */
  lemma {:induction false} SuffixedShape(a: Alphabet, name: string, suffix: string) returns (j: nat)
    requires Sane(a) && Neat(a, name) && GoodSuffix(a, suffix)
    ensures var r := SplitExt(a, name);
            && 0 < j <= |r.stem| && !EndsInDash(r.stem[..j])
            && Fit(a, r.stem, r.ext, suffix) == r.stem[..j] + suffix + r.ext
            && Bytes(a, r.stem[..j]) <= Room(a, r.ext, suffix)
  {
    NeatParts(a, name);
    var r := SplitExt(a, name);
    var room := Room(a, r.ext, suffix);
    CutIsNotEmpty(a, r.stem, room);
    var cut := r.stem[..FitsIn(a, r.stem, room)];
    assert cut[0] == r.stem[0];
    j := TrimEndIsPrefix(cut);
    assert cut[..j] == r.stem[..j];
    BytesOfPrefix(a, cut, j);
  }

  /** A clean name with any such suffix fitted in is clean: it is found again by
      the name it was stored under, and is at most 120 bytes of whole characters. */
  lemma {:induction false} SuffixedIsFixed(a: Alphabet, name: string, suffix: string)
    requires Sane(a) && Neat(a, name) && GoodSuffix(a, suffix)
    ensures var r := SplitExt(a, name);
            var out := Fit(a, r.stem, r.ext, suffix);
            Neat(a, out) && CleanName(a, out) == out
  {
    var j := SuffixedShape(a, name, suffix);
    NeatParts(a, name);
    var r := SplitExt(a, name);
    var stem := r.stem[..j];
    NeatPrefix(a, r.stem, j);
    JoinedTidy(a, stem, suffix);
    JoinedTidy(a, stem + suffix, r.ext);
    BytesJoined(a, stem, suffix);
    BytesJoined(a, stem + suffix, r.ext);
    var out := stem + suffix + r.ext;
    assert out[0] == stem[0] == r.stem[0];
    NeatIsFixed(a, out);
  }

  /** In particular with any number. */
  lemma {:induction false} NumberedIsFixed(a: Alphabet, name: string, n: nat)
    requires Sane(a) && Neat(a, name) && n <= U32_MAX
    ensures Neat(a, WithSuffix(a, name, n))
    ensures CleanName(a, WithSuffix(a, name, n)) == WithSuffix(a, name, n)
  {
    SuffixIsShort(a, n);
    SuffixedIsFixed(a, name, Suffix(n));
  }

  predicate HexDigit(c: char) {
    '0' <= c <= '9' || 'a' <= c <= 'f'
  }

  /** Eight hexadecimal digits. */
  predicate IsHex8(s: string) {
    |s| == 8 && forall i :: 0 <= i < 8 ==> HexDigit(s[i])
  }

  lemma {:induction false} HexIsGood(a: Alphabet, hex: string)
    requires Sane(a) && IsHex8(hex)
    ensures GoodSuffix(a, ['-'] + hex)
  {
    BytesOfNarrow(a, ['-'] + hex);
  }

  // ---------------------------------------------------------------------
  // The first number worth trying
  // ---------------------------------------------------------------------

  /** Case folding that works character by character and leaves widths, dots,
      dashes and digits alone, as it does on ASCII. */
  ghost predicate SaneFold(a: Alphabet, lower: char -> char) {
    forall c ::
      && a.width(lower(c)) == a.width(c)
      && (lower(c) == '.' <==> c == '.')
      && (lower(c) == '-' <==> c == '-')
      && (IsDigit(c) ==> lower(c) == c)
  }

  /** ASCII: letters and digits, control codes, one byte a character. */
  const ASCII := Alphabet(
    c => 'a' <= c <= 'z' || 'A' <= c <= 'Z' || '0' <= c <= '9',
    c => c < ' ' || c == '\U{7F}',
    c => 1)

  function AsciiLower(c: char): char {
    if 'A' <= c <= 'Z' then ((c as int) + 32) as char else c
  }

  /** What is asked of an alphabet and its folding is true of ASCII. */
  lemma {:induction false} AsciiIsSane()
    ensures Sane(ASCII) && SaneFold(ASCII, AsciiLower)
  {
  }

  function FoldKey(lower: char -> char, name: string): (key: string)
    ensures |key| == |name|
  {
    seq(|name|, i requires 0 <= i < |name| => lower(name[i]))
  }

  /** The candidate tried for suffix `n`; 1 means the bare name. */
  function Candidate(a: Alphabet, name: string, n: nat): string {
    if n == 1 then name else WithSuffix(a, name, n)
  }

  /** Does suffix `n` fit on the name without cutting its stem? */
  predicate FitsUncut(a: Alphabet, name: string, n: nat) {
    n == 1 || Bytes(a, SplitExt(a, name).stem) <= Room(a, SplitExt(a, name).ext, Suffix(n))
  }

  predicate StartsWith(s: string, prefix: string) {
    |prefix| <= |s| && s[..|prefix|] == prefix
  }

  /** The suffix number a recorded key counts as for this stem and extension, or 0. */
  function RecordedAs(a: Alphabet, wanted: Split, key: string): nat {
    var k := SplitExt(a, key);
    var prefix := TrimEnd(wanted.stem) + ['-'];
    if k.ext != wanted.ext then 0
    else if k.stem == wanted.stem then 1
    else if !StartsWith(k.stem, prefix) then 0
    else
      var rest := k.stem[|prefix|..];
      if rest == [] || !AllDigits(rest) || Value(rest) > U32_MAX then 0
      else if Value(rest) <= MAX_RECORDED_SUFFIX then Value(rest) else 0
  }

  function Larger(x: nat, y: nat): nat {
    if x < y then y else x
  }

  function Highest(a: Alphabet, wanted: Split, folds: seq<string>): nat {
    if folds == [] then 0
    else Larger(Highest(a, wanted, folds[..|folds| - 1]), RecordedAs(a, wanted, folds[|folds| - 1]))
  }

  function NextSuffix(a: Alphabet, lower: char -> char, wanted: string, folds: seq<string>): nat {
    Highest(a, SplitExt(a, FoldKey(lower, wanted)), folds) + 1
  }

  lemma {:induction false} RecordedIsSmall(a: Alphabet, wanted: Split, key: string)
    ensures RecordedAs(a, wanted, key) <= MAX_RECORDED_SUFFIX
  {
  }

  lemma {:induction false} HighestIsHighest(a: Alphabet, wanted: Split, folds: seq<string>)
    ensures forall key :: key in folds ==> RecordedAs(a, wanted, key) <= Highest(a, wanted, folds)
    ensures Highest(a, wanted, folds) <= MAX_RECORDED_SUFFIX
    ensures Highest(a, wanted, folds) > 0 ==> exists key :: key in folds && RecordedAs(a, wanted, key) == Highest(a, wanted, folds)
  {
    if folds != [] {
      var front, last := folds[..|folds| - 1], folds[|folds| - 1];
      HighestIsHighest(a, wanted, front);
      assert folds == front + [last];
      RecordedIsSmall(a, wanted, last);
      if Highest(a, wanted, front) > 0 {
        var key :| key in front && RecordedAs(a, wanted, key) == Highest(a, wanted, front);
        assert key in folds;
      }
    }
  }

  lemma {:induction false} FoldJoined(lower: char -> char, x: string, y: string)
    ensures FoldKey(lower, x + y) == FoldKey(lower, x) + FoldKey(lower, y)
  {
  }

  lemma {:induction false} FoldKeepsBytes(a: Alphabet, lower: char -> char, s: string)
    requires SaneFold(a, lower)
    ensures Bytes(a, FoldKey(lower, s)) == Bytes(a, s)
  {
    if s != [] {
      FoldKeepsBytes(a, lower, s[..|s| - 1]);
      assert FoldKey(lower, s)[..|s| - 1] == FoldKey(lower, s[..|s| - 1]);
    }
  }

  lemma {:induction false} FoldKeepsLastDot(a: Alphabet, lower: char -> char, s: string)
    requires SaneFold(a, lower)
    ensures LastDot(FoldKey(lower, s)) == LastDot(s)
  {
    if s != [] {
      FoldKeepsLastDot(a, lower, s[..|s| - 1]);
      assert FoldKey(lower, s)[..|s| - 1] == FoldKey(lower, s[..|s| - 1]);
    }
  }

  lemma {:induction false} FoldKeepsSplit(a: Alphabet, lower: char -> char, s: string)
    requires SaneFold(a, lower)
    ensures var r := SplitExt(a, s);
            SplitExt(a, FoldKey(lower, s)) == Split(FoldKey(lower, r.stem), FoldKey(lower, r.ext))
  {
    FoldKeepsLastDot(a, lower, s);
    var key := FoldKey(lower, s);
    if LastDot(s).Some? {
      var dot := LastDot(s).value;
      FoldKeepsBytes(a, lower, s[dot..]);
      assert key[dot..] == FoldKey(lower, s[dot..]) && key[..dot] == FoldKey(lower, s[..dot]);
    }
  }

  lemma {:induction false} FoldKeepsTrim(a: Alphabet, lower: char -> char, s: string)
    requires SaneFold(a, lower)
    ensures TrimEnd(FoldKey(lower, s)) == FoldKey(lower, TrimEnd(s))
  {
    if s != [] {
      FoldKeepsTrim(a, lower, s[..|s| - 1]);
      assert FoldKey(lower, s)[..|s| - 1] == FoldKey(lower, s[..|s| - 1]);
    }
  }

  lemma {:induction false} FoldKeepsSuffix(a: Alphabet, lower: char -> char, n: nat)
    requires SaneFold(a, lower)
    ensures FoldKey(lower, Suffix(n)) == Suffix(n)
  {
  }

  lemma {:induction false} LastDotOf(x: string, y: string)
    ensures LastDot(x + y) == if LastDot(y).Some? then Some(|x| + LastDot(y).value) else LastDot(x)
  {
    if y == [] {
      assert x + y == x;
    } else {
      assert (x + y)[..|x + y| - 1] == x + y[..|y| - 1];
      LastDotOf(x, y[..|y| - 1]);
    }
  }

  lemma {:induction false} NoDotsNoLastDot(s: string)
    requires '.' !in s
    ensures LastDot(s) == None
  {
  }

  lemma {:induction false} ExtIsLastDot(a: Alphabet, name: string)
    requires SplitExt(a, name).ext != []
    ensures LastDot(SplitExt(a, name).ext) == Some(0)
  {
  }

  /** A number put on an uncut clean name is read back as part of the stem, with
      the same extension. */
  lemma {:induction false} NumberedSplits(a: Alphabet, name: string, n: nat)
    requires Sane(a) && Neat(a, name) && n <= U32_MAX
    ensures var r := SplitExt(a, name);
            SplitExt(a, TrimEnd(r.stem) + Suffix(n) + r.ext) == Split(TrimEnd(r.stem) + Suffix(n), r.ext)
  {
    var r := SplitExt(a, name);
    var x := TrimEnd(r.stem) + Suffix(n);
    if r.ext != [] {
      NeatParts(a, name);
      ExtIsLastDot(a, name);
      ExtSplitsOff(a, x, r.ext);
    } else {
      assert x + r.ext == x && r.stem == name;
      NumberedTailIsLong(a, name, n);
    }
  }

  lemma {:induction false} ExtSplitsOff(a: Alphabet, x: string, ext: string)
    requires x != [] && LastDot(ext) == Some(0) && Bytes(a, ext) <= MAX_EXT_BYTES
    ensures SplitExt(a, x + ext) == Split(x, ext)
  {
    LastDotOf(x, ext);
    assert (x + ext)[|x|..] == ext && (x + ext)[..|x|] == x;
  }

  /** Numbering a name does not bring its last dot nearer to the end. */
  lemma {:induction false} NumberedTailIsLonger(a: Alphabet, name: string, n: nat, dot: nat)
    requires Sane(a) && Neat(a, name) && n <= U32_MAX && dot < |TrimEnd(name)| && dot < |name|
    ensures Bytes(a, name[dot..]) <= Bytes(a, (TrimEnd(name) + Suffix(n))[dot..])
  {
    var j := TrimEndIsPrefix(name);
    SuffixIsShort(a, n);
    assert (TrimEnd(name) + Suffix(n))[dot..] == name[dot..j] + Suffix(n);
    assert name[dot..] == name[dot..j] + name[j..];
    BytesJoined(a, name[dot..j], Suffix(n));
    BytesJoined(a, name[dot..j], name[j..]);
    BytesOfNarrow(a, name[j..]);
  }

  /** The last dot of a name is where it was once the name has been numbered. */
  lemma {:induction false} NumberedLastDot(a: Alphabet, name: string, n: nat)
    requires Sane(a) && Neat(a, name) && n <= U32_MAX
    ensures LastDot(TrimEnd(name) + Suffix(n)) == LastDot(name)
    ensures LastDot(name).Some? ==> LastDot(name).value < |TrimEnd(name)|
  {
    NoDotsNoLastDot(Suffix(n));
    LastDotOf(TrimEnd(name), Suffix(n));
    var j := TrimEndIsPrefix(name);
    assert name == name[..j] + name[j..];
    LastDotOf(name[..j], name[j..]);
    NoDotsNoLastDot(name[j..]);
  }

  /** With no short extension to begin with, there is none after numbering either. */
  lemma {:induction false} NumberedTailIsLong(a: Alphabet, name: string, n: nat)
    requires Sane(a) && Neat(a, name) && SplitExt(a, name).ext == [] && n <= U32_MAX
    ensures SplitExt(a, TrimEnd(name) + Suffix(n)) == Split(TrimEnd(name) + Suffix(n), [])
  {
    NumberedLastDot(a, name, n);
    if LastDot(name).Some? {
      NumberedTailIsLonger(a, name, n, LastDot(name).value);
      assert LastDot(name).value > 0;
    }
  }

  /** Every candidate whose stem was not cut is recognised as its own number. */
  lemma {:induction false} CandidateIsRecognised(a: Alphabet, lower: char -> char, name: string, n: nat)
    requires Sane(a) && SaneFold(a, lower) && Neat(a, name)
    requires 1 <= n <= MAX_RECORDED_SUFFIX && FitsUncut(a, name, n)
    ensures RecordedAs(a, SplitExt(a, FoldKey(lower, name)), FoldKey(lower, Candidate(a, name, n))) == n
  {
    if n > 1 {
      var r := SplitExt(a, name);
      FitsWhole(a, r.stem, Room(a, r.ext, Suffix(n)));
      assert r.stem[..|r.stem|] == r.stem;
      NeatParts(a, name);
      var j := TrimEndIsPrefix(r.stem);
      assert WithSuffix(a, name, n) == TrimEnd(r.stem) + Suffix(n) + r.ext;
      NumberedSplits(a, name, n);
      FoldKeepsSplit(a, lower, name);
      FoldKeepsSplit(a, lower, WithSuffix(a, name, n));
      FoldKeepsTrim(a, lower, r.stem);
      FoldJoined(lower, TrimEnd(r.stem), Suffix(n));
      FoldKeepsSuffix(a, lower, n);
      NumberReadsBack(a, FoldKey(lower, r.stem), FoldKey(lower, r.ext), FoldKey(lower, WithSuffix(a, name, n)), n);
    }
  }

  lemma {:induction false} NumberReadsBack(a: Alphabet, stem: string, ext: string, key: string, n: nat)
    requires SplitExt(a, key) == Split(TrimEnd(stem) + Suffix(n), ext) && n <= MAX_RECORDED_SUFFIX
    requires |stem| <= |TrimEnd(stem)| + 1
    ensures RecordedAs(a, Split(stem, ext), key) == n
  {
    var prefix := TrimEnd(stem) + ['-'];
    var k := TrimEnd(stem) + Suffix(n);
    assert k == prefix + Decimal(n);
    assert k[..|prefix|] == prefix && k[|prefix|..] == Decimal(n);
    DecimalReadsBack(n);
  }

  /** From the number found on, no candidate whose stem was not cut is one that
      is recorded; so the first one tried is free in the table. */
  lemma {:induction false} NextSuffixIsFree(
    a: Alphabet, lower: char -> char, name: string, folds: seq<string>, n: nat)
    requires Sane(a) && SaneFold(a, lower) && Neat(a, name)
    requires NextSuffix(a, lower, name, folds) <= n <= MAX_RECORDED_SUFFIX && FitsUncut(a, name, n)
    ensures FoldKey(lower, Candidate(a, name, n)) !in folds
  {
    HighestIsHighest(a, SplitExt(a, FoldKey(lower, name)), folds);
    CandidateIsRecognised(a, lower, name, n);
  }
}
