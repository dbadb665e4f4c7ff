/** What numbered names look like, and which number is found for a name. */
module UploadNumbers {
  import opened Options
  import opened UploadNames
  import opened UploadSuffix

  lemma {:induction false} DecimalIsUsual()
    ensures Decimal(7) == "7" && Decimal(1_024) == "1024" && Decimal(4_294_967_295) == "4294967295"
  {
    assert Decimal(4) == "4" && Decimal(42) == "42" && Decimal(429) == "429" && Decimal(4_294) == "4294";
    assert Decimal(42_949) == "42949" && Decimal(429_496) == "429496" && Decimal(4_294_967) == "4294967";
    assert Decimal(42_949_672) == "42949672" && Decimal(429_496_729) == "429496729";
    assert Decimal(1) == "1" && Decimal(10) == "10" && Decimal(102) == "102";
  }

  /** A suffixed name is the longest part of the stem that leaves room, without the
      dashes it would end in, then the suffix and the extension. */
  lemma {:induction false} SuffixedMeans(a: Alphabet, name: string, suffix: string) returns (j: nat, cut: nat)
    requires Sane(a) && Neat(a, name) && GoodSuffix(a, suffix)
    ensures var r := SplitExt(a, name);
            && 0 < j <= cut <= |r.stem| && r.stem[j - 1] != '-' && (forall i :: j <= i < cut ==> r.stem[i] == '-')
            && Fit(a, r.stem, r.ext, suffix) == r.stem[..j] + suffix + r.ext
            && Bytes(a, r.stem[..cut]) + Bytes(a, suffix) + Bytes(a, r.ext) <= 120
            && (cut < |r.stem| ==> Bytes(a, r.stem[..cut + 1]) + Bytes(a, suffix) + Bytes(a, r.ext) > 120)
  {
    NeatParts(a, name);
    var r := SplitExt(a, name);
    var room := Room(a, r.ext, suffix);
    CutIsNotEmpty(a, r.stem, room);
    cut := FitsIn(a, r.stem, room);
    FitsInIsTight(a, r.stem, room);
    assert r.stem[..cut][0] == r.stem[0];
    j := TrimEndIsPrefix(r.stem[..cut]);
    assert r.stem[..cut][..j] == r.stem[..j];
    assert forall i :: j <= i < cut ==> r.stem[..cut][i] == r.stem[i];
  }

  /** The recorded key counts as number `n` for the wanted stem and extension: 1 for
      the same stem, otherwise the number behind the stem, its last dashes aside,
      and one dash. */
  ghost predicate CountsAs(a: Alphabet, wanted: Split, key: string, n: nat) {
    var k := SplitExt(a, key);
    && k.ext == wanted.ext
    && if k.stem == wanted.stem then n == 1
       else 1 <= n <= 1_000_000
            && exists digits :: IsNumber(digits, n) && k.stem == TrimEnd(wanted.stem) + ['-'] + digits
  }

  ghost predicate SomeCounts(a: Alphabet, wanted: Split, folds: seq<string>, n: nat) {
    exists key :: key in folds && CountsAs(a, wanted, key, n)
  }

  predicate IsNumber(digits: string, n: nat) {
    digits != [] && AllDigits(digits) && Value(digits) == n
  }

  lemma {:induction false} RecordedMeans(a: Alphabet, wanted: Split, key: string, n: nat)
    requires n >= 1
    ensures RecordedAs(a, wanted, key) == n <==> CountsAs(a, wanted, key, n)
  {
    var stem, prefix := SplitExt(a, key).stem, TrimEnd(wanted.stem) + ['-'];
    if StartsWith(stem, prefix) {
      var rest := stem[|prefix|..];
      assert stem == prefix + rest;
      if rest != [] && AllDigits(rest) {
        assert IsNumber(rest, Value(rest));
      }
    }
    forall digits | IsNumber(digits, n) && stem == prefix + digits
      ensures StartsWith(stem, prefix) && stem[|prefix|..] == digits
    {
    }
  }

  /** The number found is one past the highest that any recorded key counts as, and
      1 exactly when none counts. */
  lemma {:induction false} NextSuffixExactly(a: Alphabet, lower: char -> char, wanted: string, folds: seq<string>)
    ensures var split, n := SplitExt(a, FoldKey(lower, wanted)), NextSuffix(a, lower, wanted, folds);
            && n >= 1
            && (n == 1 <==> forall m: nat :: !SomeCounts(a, split, folds, m))
            && (n > 1 ==> SomeCounts(a, split, folds, n - 1))
            && (forall m: nat :: SomeCounts(a, split, folds, m) ==> m < n)
  {
    var split := SplitExt(a, FoldKey(lower, wanted));
    forall m: nat | SomeCounts(a, split, folds, m)
      ensures 1 <= m <= Highest(a, split, folds)
    {
      CountsBelow(a, split, folds, m);
    }
    HighestCounts(a, split, folds);
  }

  lemma {:induction false} CountsBelow(a: Alphabet, split: Split, folds: seq<string>, m: nat)
    requires SomeCounts(a, split, folds, m)
    ensures 1 <= m <= Highest(a, split, folds)
  {
    var key :| key in folds && CountsAs(a, split, key, m);
    RecordedMeans(a, split, key, m);
    HighestIsHighest(a, split, folds);
  }

  lemma {:induction false} HighestCounts(a: Alphabet, split: Split, folds: seq<string>)
    ensures Highest(a, split, folds) > 0 ==> SomeCounts(a, split, folds, Highest(a, split, folds))
  {
    HighestIsHighest(a, split, folds);
    if Highest(a, split, folds) > 0 {
      var key :| key in folds && RecordedAs(a, split, key) == Highest(a, split, folds);
      RecordedMeans(a, split, key, Highest(a, split, folds));
    }
  }
}
