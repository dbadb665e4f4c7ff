/** The naming as it runs: loops over characters, bytes, recorded names and folders. */
module UploadNaming {
  import opened Options
  import opened UploadNames
  import opened UploadSuffix

  const LINEAR_PROBES := 1000
  const RANDOM_PROBES := 16

  /** How many characters end at byte `b`, if a character ends there. */
  function CharsAt(a: Alphabet, s: string, b: nat): (k: Option<nat>)
    ensures k.Some? ==> k.value <= |s| && Bytes(a, s[..k.value]) == b
  {
    if Bytes(a, s) == b then
      assert s[..|s|] == s;
      Some(|s|)
    else if s == [] then None
    else
      var front := s[..|s| - 1];
      assert forall k :: 0 <= k <= |front| ==> s[..k] == front[..k];
      CharsAt(a, front, b)
  }

  lemma {:induction false} BoundariesAreFound(a: Alphabet, s: string, k: nat)
    requires Sane(a) && k <= |s|
    ensures CharsAt(a, s, Bytes(a, s[..k])) == Some(k)
  {
    if k == |s| {
      assert s[..k] == s;
    } else {
      var front := s[..|s| - 1];
      assert s[..k] == front[..k];
      BytesOfPrefix(a, front, k);
      BoundariesAreFound(a, front, k);
    }
  }

  /** The cut that fits is the longest one that does. */
  lemma {:induction false} FitsInIsLongest(a: Alphabet, s: string, room: nat, k: nat)
    requires k <= |s| && Bytes(a, s[..k]) <= room
    ensures k <= FitsIn(a, s, room)
  {
    if Bytes(a, s) > room {
      assert s[..|s|] == s;
      assert k < |s|;
      var front := s[..|s| - 1];
      assert s[..k] == front[..k];
      FitsInIsLongest(a, front, room, k);
    }
  }

  /** Cut a stem to at most `room` bytes, backing off to the start of a
      character: no character is ever split. */
  method CutAtBoundary(a: Alphabet, stem: string, room: nat) returns (cut: string)
    requires Sane(a)
    ensures cut == stem[..FitsIn(a, stem, room)]
  {
    ghost var best := FitsIn(a, stem, room);
    var at := if Bytes(a, stem) <= room then Bytes(a, stem) else room;
    BytesOfPrefix(a, stem, best);
    BoundariesAreFound(a, stem, 0);
    while CharsAt(a, stem, at).None?
      invariant Bytes(a, stem[..best]) <= at <= room
      decreases at
    {
      BoundariesAreFound(a, stem, best);
      at := at - 1;
    }
    var k := CharsAt(a, stem, at).value;
    FitsInIsLongest(a, stem, room, k);
    if k < best {
      ShorterIsFewer(a, stem, k, best);
      assert false;
    }
    cut := stem[..k];
  }

  lemma {:induction false} ShorterIsFewer(a: Alphabet, s: string, k: nat, m: nat)
    requires Sane(a) && k < m <= |s|
    ensures Bytes(a, s[..k]) < Bytes(a, s[..m])
  {
    assert s[..m] == s[..k] + s[k..m];
    BytesJoined(a, s[..k], s[k..m]);
    BytesAtLeastLength(a, s[k..m]);
  }

  method TrimDashes(s: string) returns (out: string)
    ensures out == TrimEnd(s)
  {
    out := s;
    while out != [] && out[|out| - 1] == '-'
      invariant TrimEnd(out) == TrimEnd(s)
      decreases |out|
    {
      out := out[..|out| - 1];
    }
  }

  method FitName(a: Alphabet, stem: string, ext: string, suffix: string) returns (out: string)
    requires Sane(a)
    ensures out == Fit(a, stem, ext, suffix)
  {
    var cut := CutAtBoundary(a, stem, Room(a, ext, suffix));
    if suffix != [] {
      cut := TrimDashes(cut);
    }
    out := (if cut == [] then FALLBACK_NAME else cut) + suffix + ext;
  }

  /** What follows the last separator. */
  method AfterSeparators(raw: string) returns (base: string)
    ensures base == Basename(raw)
  {
    base := [];
    assert raw[..0] == [];
    for i := 0 to |raw|
      invariant base == Basename(raw[..i])
    {
      assert raw[..i + 1][..i] == raw[..i];
      base := if Separator(raw[i]) then [] else base + [raw[i]];
    }
    assert raw[..|raw|] == raw;
  }

  /** The cleaning of a name, as it runs. */
  method Clean(a: Alphabet, raw: string) returns (name: string)
    requires Sane(a)
    ensures name == CleanName(a, raw)
  {
    var base := AfterSeparators(raw);
    var out: string := [];
    assert base[..0] == [];
    for i := 0 to |base|
      invariant out == Sifted(a, base[..i])
    {
      assert base[..i + 1][..i] == base[..i];
      var c := base[i];
      if !a.control(c) {
        var keep := a.alnum(c) || c == '.' || c == '_' || c == '-';
        var d := if keep then c else '-';
        if !(d == '-' && out != [] && out[|out| - 1] == '-') {
          out := out + [d];
        }
      }
    }
    assert base[..|base|] == base;
    ghost var sifted := out;
    while out != [] && (out[0] == '.' || out[0] == '-')
      invariant TrimStart(out) == TrimStart(sifted)
      decreases |out|
    {
      out := out[1..];
    }
    if out == [] {
      return FALLBACK_NAME;
    }
    var split := SplitExt(a, out);
    name := FitName(a, split.stem, split.ext, []);
  }

  /** One past the highest suffix recorded for the name's stem and extension. */
  method FindNextSuffix(a: Alphabet, lower: char -> char, wanted: string, folds: seq<string>) returns (n: nat)
    ensures n == NextSuffix(a, lower, wanted, folds) <= MAX_RECORDED_SUFFIX + 1
  {
    var split := SplitExt(a, FoldKey(lower, wanted));
    var trimmed := TrimDashes(split.stem);
    var prefix := trimmed + ['-'];
    var highest := 0;
    assert folds[..0] == [];
    for i := 0 to |folds|
      invariant highest == Highest(a, split, folds[..i])
    {
      assert folds[..i + 1][..i] == folds[..i];
      var key := SplitExt(a, folds[i]);
      if key.ext == split.ext {
        if key.stem == split.stem {
          highest := Larger(highest, 1);
        } else if StartsWith(key.stem, prefix) {
          var rest := key.stem[|prefix|..];
          if rest != [] && AllDigits(rest) && Value(rest) <= U32_MAX && Value(rest) <= MAX_RECORDED_SUFFIX {
            highest := Larger(highest, Value(rest));
          }
        }
      }
    }
    assert folds[..|folds|] == folds;
    HighestIsHighest(a, split, folds);
    // Within 32 bits, so the saturating addition is an addition.
    n := highest + 1;
  }

  // ---------------------------------------------------------------------
  // Reserving a name in every folder
  // ---------------------------------------------------------------------

  /** The name tried on an attempt: numbered from `first` up, then random ones. */
  function Attempt(a: Alphabet, name: string, first: nat, random: seq<string>, attempt: nat): Option<(string, nat)>
    requires attempt < LINEAR_PROBES + |random|
  {
    if attempt < LINEAR_PROBES then
      var n := first + attempt;
      if n > U32_MAX then None else Some((Candidate(a, name, n), n))
    else
      var split := SplitExt(a, name);
      Some((Fit(a, split.stem, split.ext, ['-'] + random[attempt - LINEAR_PROBES]), U32_MAX))
  }

  /** What asking for a new file in every folder comes to: the first folder that
      has the name, or cannot take it for another reason, decides. */
  datatype Outcome = Made | Exists | Broken

  /** `broken(d, name)`: creating `name` in folder `d` fails, and not for being there. */
  function OutcomeFrom(dirs: seq<set<string>>, broken: (nat, string) -> bool, name: string, d: nat): Outcome
    requires d <= |dirs|
    decreases |dirs| - d
  {
    if d == |dirs| then Made
    else if broken(d, name) then Broken
    else if name in dirs[d] then Exists
    else OutcomeFrom(dirs, broken, name, d + 1)
  }

  lemma {:induction false} MadeMeansFree(dirs: seq<set<string>>, broken: (nat, string) -> bool, name: string, d: nat)
    requires d <= |dirs|
    ensures OutcomeFrom(dirs, broken, name, d) == Made <==> forall k :: d <= k < |dirs| ==> !broken(k, name) && name !in dirs[k]
    decreases |dirs| - d
  {
    if d < |dirs| {
      MadeMeansFree(dirs, broken, name, d + 1);
    }
  }

  function AddedTo(dirs: seq<set<string>>, count: nat, name: string): seq<set<string>>
    requires count <= |dirs|
  {
    seq(|dirs|, d requires 0 <= d < |dirs| => if d < count then dirs[d] + {name} else dirs[d])
  }

  /** A name reserved, with its number; none to be had; or an error. */
  datatype Reserved = Name(name: string, number: nat) | NoneFree | Error

  class Folders {
    /** The names in each folder, links and all. */
    var dirs: seq<set<string>>
    const broken: (nat, string) -> bool

    constructor (dirs: seq<set<string>>, broken: (nat, string) -> bool)
      ensures this.dirs == dirs && this.broken == broken
    {
      this.dirs, this.broken := dirs, broken;
    }

    /** Create a file that must not exist yet. */
    method CreatePrivate(d: nat, name: string) returns (o: Outcome)
      requires d < |dirs|
      modifies this
      ensures o == if broken(d, name) then Broken else if name in old(dirs)[d] then Exists else Made
      ensures dirs == if o.Made? then old(dirs)[d := old(dirs)[d] + {name}] else old(dirs)
    {
      o := if broken(d, name) then Broken else if name in dirs[d] then Exists else Made;
      if o.Made? {
        dirs := dirs[d := dirs[d] + {name}];
      }
    }

    /** Create `name` in every folder, or, if one of them will not have it, in none. */
    method CreateEverywhere(name: string) returns (o: Outcome)
      modifies this
      ensures o == OutcomeFrom(old(dirs), broken, name, 0)
      ensures dirs == if o.Made? then AddedTo(old(dirs), |old(dirs)|, name) else old(dirs)
    {
      var made := 0;
      o := Made;
      while made < |dirs| && o.Made?
        invariant 0 <= made <= |dirs| == |old(dirs)|
        invariant dirs == AddedTo(old(dirs), made, name)
        invariant forall d :: 0 <= d < made ==> name !in old(dirs)[d]
        invariant OutcomeFrom(old(dirs), broken, name, 0) == if o.Made? then OutcomeFrom(old(dirs), broken, name, made) else o
        decreases |dirs| - made, o.Made?
      {
        o := CreatePrivate(made, name);
        if o.Made? {
          made := made + 1;
        }
      }
      if !o.Made? {
        for d := 0 to made
          invariant |dirs| == |old(dirs)| && made <= |dirs|
          invariant forall k :: 0 <= k < |dirs| ==> dirs[k] == if d <= k < made then old(dirs)[k] + {name} else old(dirs)[k]
        {
          dirs := dirs[d := dirs[d] - {name}];
        }
      }
    }

    /** Reserve the first candidate no folder has. Nothing is overwritten, and
        unless one is reserved nothing is left behind. */
    method CreateFirst(candidates: seq<Option<(string, nat)>>) returns (r: Reserved)
      modifies this
      ensures r == FirstOutcome(candidates, old(dirs), broken)
      ensures dirs == if r.Name? then AddedTo(old(dirs), |old(dirs)|, r.name) else old(dirs)
    {
      assert candidates[0..] == candidates;
      for t := 0 to |candidates|
        invariant dirs == old(dirs)
        invariant FirstOutcome(candidates, dirs, broken) == FirstOutcome(candidates[t..], dirs, broken)
      {
        assert candidates[t..][1..] == candidates[t + 1..];
        if candidates[t].Some? {
          var o := CreateEverywhere(candidates[t].value.0);
          if o.Broken? {
            return Error;
          }
          if o.Made? {
            // With no folder to create in there is no file to hand back.
            return if dirs == [] then Error else Name(candidates[t].value.0, candidates[t].value.1);
          }
        }
      }
      r := NoneFree;
    }

    /** Reserve a name: the numbered ones in order from `first`, then random ones. */
    method CreateUnique(a: Alphabet, name: string, first: nat, random: seq<string>) returns (r: Reserved)
      requires |random| == RANDOM_PROBES
      modifies this
      ensures r == FirstOutcome(Attempts(a, name, Larger(first, 1), random), old(dirs), broken)
      ensures dirs == if r.Name? then AddedTo(old(dirs), |old(dirs)|, r.name) else old(dirs)
    {
      r := CreateFirst(Attempts(a, name, Larger(first, 1), random));
    }
  }

  function Attempts(a: Alphabet, name: string, first: nat, random: seq<string>): (out: seq<Option<(string, nat)>>)
    ensures |out| == LINEAR_PROBES + |random|
  {
    seq(LINEAR_PROBES + |random|, t requires 0 <= t < LINEAR_PROBES + |random| => Attempt(a, name, first, random, t))
  }

  /** What trying the candidates in order comes to. */
  function FirstOutcome(
    candidates: seq<Option<(string, nat)>>, dirs: seq<set<string>>, broken: (nat, string) -> bool): Reserved
  {
    if candidates == [] then NoneFree
    else
      match candidates[0]
      case None => FirstOutcome(candidates[1..], dirs, broken)
      case Some(c) =>
        match OutcomeFrom(dirs, broken, c.0, 0)
        case Broken => Error
        case Exists => FirstOutcome(candidates[1..], dirs, broken)
        case Made => if dirs == [] then Error else Name(c.0, c.1)
  }

  /** The candidate `t` is taken: some folder before any that is broken has it. */
  predicate TakenAt(candidates: seq<Option<(string, nat)>>, dirs: seq<set<string>>, broken: (nat, string) -> bool, t: nat)
    requires t < |candidates|
  {
    candidates[t].Some? ==> OutcomeFrom(dirs, broken, candidates[t].value.0, 0) == Exists
  }

  /** A name reserved is the first candidate that is not taken; it is in no folder
      and can be created in all. None is free exactly when all are taken. */
  lemma {:induction false} ReservedIsFirstFree(
    candidates: seq<Option<(string, nat)>>, dirs: seq<set<string>>, broken: (nat, string) -> bool)
    ensures var r := FirstOutcome(candidates, dirs, broken);
            && (r.NoneFree? <==> forall u :: 0 <= u < |candidates| ==> TakenAt(candidates, dirs, broken, u))
            && (r.Name? ==>
                  && (exists t: nat :: t < |candidates| && candidates[t] == Some((r.name, r.number))
                        && forall u :: 0 <= u < t ==> TakenAt(candidates, dirs, broken, u))
                  && forall d :: 0 <= d < |dirs| ==> r.name !in dirs[d] && !broken(d, r.name))
  {
    if candidates != [] {
      var rest := candidates[1..];
      ReservedIsFirstFree(rest, dirs, broken);
      forall u | 1 <= u < |candidates|
        ensures TakenAt(candidates, dirs, broken, u) <==> TakenAt(rest, dirs, broken, u - 1)
      {
      }
      if TakenAt(candidates, dirs, broken, 0) {
        TakenFirst(candidates, dirs, broken);
        assert forall v :: 0 <= v < |rest| ==> (TakenAt(rest, dirs, broken, v) <==> TakenAt(candidates, dirs, broken, v + 1));
        var r := FirstOutcome(rest, dirs, broken);
        if r.Name? {
          var t: nat :| t < |rest| && rest[t] == Some((r.name, r.number))
                     && forall u :: 0 <= u < t ==> TakenAt(rest, dirs, broken, u);
          assert candidates[t + 1] == rest[t];
        }
      } else {
        MadeMeansFree(dirs, broken, candidates[0].value.0, 0);
      }
    }
  }

  lemma {:induction false} TakenFirst(
    candidates: seq<Option<(string, nat)>>, dirs: seq<set<string>>, broken: (nat, string) -> bool)
    requires candidates != [] && TakenAt(candidates, dirs, broken, 0)
    ensures FirstOutcome(candidates, dirs, broken) == FirstOutcome(candidates[1..], dirs, broken)
  {
  }

  /** The names tried: a thousand numbered ones, counting up from the first, number
      1 being the bare name; then one for each random suffix. */
  lemma {:induction false} AttemptsMean(a: Alphabet, name: string, first: nat, random: seq<string>, t: nat)
    requires t < 1000 + |random|
    ensures var tried, r := Attempts(a, name, first, random)[t], SplitExt(a, name);
            if t < 1000 then
              if first + t >= 0x1_0000_0000 then tried == None
              else if first + t == 1 then tried == Some((name, 1))
              else tried == Some((Fit(a, r.stem, r.ext, "-" + Decimal(first + t)), first + t))
            else tried == Some((Fit(a, r.stem, r.ext, "-" + random[t - 1000]), 0xFFFF_FFFF))
  {
  }

  /** Every name tried for a clean name, numbered or random, is clean itself. */
  lemma {:induction false} AttemptsAreClean(a: Alphabet, name: string, first: nat, random: seq<string>, t: nat)
    requires Sane(a) && Neat(a, name) && t < LINEAR_PROBES + |random|
    requires forall i :: 0 <= i < |random| ==> IsHex8(random[i])
    requires Attempts(a, name, first, random)[t].Some?
    ensures var tried := Attempts(a, name, first, random)[t].value.0;
            Neat(a, tried) && CleanName(a, tried) == tried
  {
    if t >= LINEAR_PROBES {
      HexIsGood(a, random[t - LINEAR_PROBES]);
      SuffixedIsFixed(a, name, ['-'] + random[t - LINEAR_PROBES]);
    } else if first + t == 1 {
      NeatIsFixed(a, name);
    } else {
      NumberedIsFixed(a, name, first + t);
    }
  }
}
