/** From the name a browser gives a file to the name it is stored under. */
module UploadNames {
  import opened Options

  /** What the cleaning needs to know of characters. Normalisation is the
      identity on the alphabets considered. `width`: bytes in UTF-8. */
  datatype Alphabet = Alphabet(alnum: char -> bool, control: char -> bool, width: char -> nat)

  const FALLBACK_NAME: string := "upload"

  /** The longest name stored, in bytes. */
  const MAX_NAME_BYTES := 120

  /** The longest extension kept apart from its stem, in bytes, dot included. */
  const MAX_EXT_BYTES := 16

  /** Punctuation a name may hold besides letters and digits. */
  predicate Mark(c: char) {
    c == '.' || c == '_' || c == '-'
  }

  /** ASCII letters and digits are letters and digits of one byte, marks take
      one byte, none of them is a control character, and separators are no letters. */
  ghost predicate Sane(a: Alphabet) {
    && (forall c :: 1 <= a.width(c) <= 4)
    && (forall c :: Mark(c) ==> !a.control(c) && a.width(c) == 1)
    && (forall c :: 'a' <= c <= 'z' || '0' <= c <= '9' ==> a.alnum(c) && !a.control(c) && a.width(c) == 1)
    && !a.alnum('/') && !a.alnum('\\')
  }

  predicate Separator(c: char) {
    c == '/' || c == '\\'
  }

  function Bytes(a: Alphabet, s: string): nat {
    if s == [] then 0 else Bytes(a, s[..|s| - 1]) + a.width(s[|s| - 1])
  }

  // ---------------------------------------------------------------------
  // The cleaning, step by step
  // ---------------------------------------------------------------------

  /** What follows the last separator. */
  function Basename(raw: string): string {
    if raw == [] then []
    else if Separator(raw[|raw| - 1]) then []
    else Basename(raw[..|raw| - 1]) + [raw[|raw| - 1]]
  }

  predicate EndsInDash(s: string) {
    s != [] && s[|s| - 1] == '-'
  }

  /** One more character of the name: dropped, kept, or a dash in its place. */
  function Sift1(a: Alphabet, out: string, c: char): string {
    if a.control(c) then out
    else
      var d := if a.alnum(c) || Mark(c) then c else '-';
      if d == '-' && EndsInDash(out) then out else out + [d]
  }

  function Sifted(a: Alphabet, s: string): string {
    if s == [] then [] else Sift1(a, Sifted(a, s[..|s| - 1]), s[|s| - 1])
  }

  /** Without dots and dashes at the start. */
  function TrimStart(s: string): string {
    if s != [] && (s[0] == '.' || s[0] == '-') then TrimStart(s[1..]) else s
  }

  /** Without dashes at the end. */
  function TrimEnd(s: string): string {
    if EndsInDash(s) then TrimEnd(s[..|s| - 1]) else s
  }

  /** The position of the last dot, or nothing. */
  function LastDot(s: string): (r: Option<nat>)
    ensures r.Some? ==> r.value < |s| && s[r.value] == '.' && '.' !in s[r.value + 1..]
    ensures r.None? ==> '.' !in s
  {
    if s == [] then None
    else if s[|s| - 1] == '.' then Some(|s| - 1)
    else
      var r := LastDot(s[..|s| - 1]);
      assert s == s[..|s| - 1] + [s[|s| - 1]];
      assert r.Some? ==> s[r.value + 1..] == s[..|s| - 1][r.value + 1..] + [s[|s| - 1]];
      r
  }

  /** A name as stem and short extension. */
  datatype Split = Split(stem: string, ext: string)

  function SplitExt(a: Alphabet, name: string): (r: Split)
    ensures r.stem + r.ext == name
  {
    match LastDot(name)
    case Some(dot) =>
      if dot > 0 && Bytes(a, name[dot..]) <= MAX_EXT_BYTES then Split(name[..dot], name[dot..]) else Split(name, [])
    case None => Split(name, [])
  }

  /** How many characters of `s` fit whole in `room` bytes. */
  function FitsIn(a: Alphabet, s: string, room: nat): (k: nat)
    ensures k <= |s| && Bytes(a, s[..k]) <= room
  {
    if Bytes(a, s) <= room then
      assert s[..|s|] == s;
      |s|
    else
      var front := s[..|s| - 1];
      assert forall k :: 0 <= k <= |front| ==> s[..k] == front[..k];
      FitsIn(a, front, room)
  }

  function Room(a: Alphabet, ext: string, suffix: string): nat {
    var used := Bytes(a, ext) + Bytes(a, suffix);
    if used <= MAX_NAME_BYTES then MAX_NAME_BYTES - used else 0
  }

  /** `stem + suffix + ext`, the stem cut so that the whole fits. */
  function Fit(a: Alphabet, stem: string, ext: string, suffix: string): string {
    var cut := stem[..FitsIn(a, stem, Room(a, ext, suffix))];
    var trimmed := if suffix != [] then TrimEnd(cut) else cut;
    (if trimmed == [] then FALLBACK_NAME else trimmed) + suffix + ext
  }

  function CleanName(a: Alphabet, raw: string): string {
    var out := TrimStart(Sifted(a, Basename(raw)));
    if out == [] then FALLBACK_NAME
    else
      var split := SplitExt(a, out);
      Fit(a, split.stem, split.ext, [])
  }

  // ---------------------------------------------------------------------
  // What a clean name is
  // ---------------------------------------------------------------------

  predicate Allowed(a: Alphabet, c: char) {
    !a.control(c) && (a.alnum(c) || Mark(c))
  }

  predicate AllAllowed(a: Alphabet, s: string) {
    forall i :: 0 <= i < |s| ==> Allowed(a, s[i])
  }

  predicate NoDoubleDash(s: string) {
    forall i :: 0 <= i < |s| - 1 ==> s[i] != '-' || s[i + 1] != '-'
  }

  /** A name safe to store: not empty, of allowed characters only, no two dashes
      in a row, neither hidden nor option-shaped, and short enough. */
  predicate Neat(a: Alphabet, s: string) {
    && s != []
    && AllAllowed(a, s)
    && NoDoubleDash(s)
    && s[0] != '.' && s[0] != '-'
    && Bytes(a, s) <= MAX_NAME_BYTES
  }

  // ---------------------------------------------------------------------
  // Bytes and cuts
  // ---------------------------------------------------------------------

  lemma {:induction false} BytesJoined(a: Alphabet, x: string, y: string)
    ensures Bytes(a, x + y) == Bytes(a, x) + Bytes(a, y)
  {
    if y == [] {
      assert x + y == x;
    } else {
      assert (x + y)[..|x + y| - 1] == x + y[..|y| - 1];
      BytesJoined(a, x, y[..|y| - 1]);
    }
  }

  lemma {:induction false} BytesOfPrefix(a: Alphabet, s: string, k: nat)
    requires k <= |s|
    ensures Bytes(a, s[..k]) <= Bytes(a, s)
  {
    BytesJoined(a, s[..k], s[k..]);
    assert s[..k] + s[k..] == s;
  }

  lemma {:induction false} BytesAtLeastLength(a: Alphabet, s: string)
    requires Sane(a)
    ensures |s| <= Bytes(a, s) <= 4 * |s|
  {
    if s != [] {
      BytesAtLeastLength(a, s[..|s| - 1]);
    }
  }

  lemma {:induction false} FitsWhole(a: Alphabet, s: string, room: nat)
    ensures FitsIn(a, s, room) == |s| <==> Bytes(a, s) <= room
  {
  }

  lemma {:induction false} FitsInIsTight(a: Alphabet, s: string, room: nat)
    ensures var k := FitsIn(a, s, room); k < |s| ==> Bytes(a, s[..k + 1]) > room
  {
    if Bytes(a, s) > room {
      var front := s[..|s| - 1];
      var k := FitsIn(a, front, room);
      FitsInIsTight(a, front, room);
      assert k < |front| ==> s[..k + 1] == front[..k + 1];
      assert s[..|s|] == s;
    }
  }

  /** Room for one character is room for a cut that is not empty. */
  lemma {:induction false} CutIsNotEmpty(a: Alphabet, s: string, room: nat)
    requires Sane(a) && s != [] && room >= 4
    ensures FitsIn(a, s, room) > 0
  {
    if Bytes(a, s) > room {
      if |s| == 1 {
        BytesAtLeastLength(a, s);
        assert false;
      } else {
        CutIsNotEmpty(a, s[..|s| - 1], room);
      }
    }
  }

  lemma {:induction false} NeatPrefix(a: Alphabet, s: string, k: nat)
    requires AllAllowed(a, s) && NoDoubleDash(s) && k <= |s|
    ensures AllAllowed(a, s[..k]) && NoDoubleDash(s[..k])
  {
  }

  // ---------------------------------------------------------------------
  // Cleaning gives a clean name
  // ---------------------------------------------------------------------

  lemma {:induction false} SiftedIsAllowed(a: Alphabet, s: string)
    requires Sane(a)
    ensures AllAllowed(a, Sifted(a, s)) && NoDoubleDash(Sifted(a, s))
  {
    if s != [] {
      SiftedIsAllowed(a, s[..|s| - 1]);
    }
  }

  lemma {:induction false} TrimStartIsSuffix(s: string) returns (k: nat)
    ensures k <= |s| && TrimStart(s) == s[k..] && forall i :: 0 <= i < k ==> s[i] == '.' || s[i] == '-'
    ensures TrimStart(s) != [] ==> TrimStart(s)[0] != '.' && TrimStart(s)[0] != '-'
  {
    if s != [] && (s[0] == '.' || s[0] == '-') {
      var j := TrimStartIsSuffix(s[1..]);
      k := j + 1;
      assert s[k..] == s[1..][j..];
    } else {
      k := 0;
    }
  }

  lemma {:induction false} TrimmedIsTidy(a: Alphabet, s: string)
    requires AllAllowed(a, s) && NoDoubleDash(s)
    ensures AllAllowed(a, TrimStart(s)) && NoDoubleDash(TrimStart(s))
    ensures TrimStart(s) != [] ==> TrimStart(s)[0] != '.' && TrimStart(s)[0] != '-'
  {
    var k := TrimStartIsSuffix(s);
  }

  lemma {:induction false} FallbackIsNeat(a: Alphabet)
    requires Sane(a)
    ensures Neat(a, FALLBACK_NAME)
  {
    BytesAtLeastLength(a, FALLBACK_NAME);
  }

  lemma {:induction false} SplitShape(a: Alphabet, name: string)
    requires name != []
    ensures var r := SplitExt(a, name);
            && r.stem != []
            && (r.ext != [] ==> r.ext[0] == '.' && Bytes(a, r.ext) <= MAX_EXT_BYTES)
            && Bytes(a, name) == Bytes(a, r.stem) + Bytes(a, r.ext)
  {
    var r := SplitExt(a, name);
    BytesJoined(a, r.stem, r.ext);
    assert Bytes(a, []) == 0;
  }

  /** Cutting the stem of a tidy name leaves it tidy. */
  lemma {:induction false} CutStemIsTidy(a: Alphabet, stem: string, ext: string, k: nat)
    requires AllAllowed(a, stem + ext) && NoDoubleDash(stem + ext) && k <= |stem|
    requires ext != [] ==> ext[0] != '-'
    ensures AllAllowed(a, stem[..k] + ext) && NoDoubleDash(stem[..k] + ext)
  {
    var out, name := stem[..k] + ext, stem + ext;
    forall i | 0 <= i < |out|
      ensures out[i] == (if i < k then name[i] else name[|stem| + i - k]) && Allowed(a, out[i])
    {
      assert Allowed(a, if i < k then name[i] else name[|stem| + i - k]);
    }
    forall i | 0 <= i < |out| - 1
      ensures out[i] != '-' || out[i + 1] != '-'
    {
      if i + 1 < k {
        assert name[i] != '-' || name[i + 1] != '-';
      } else if i >= k {
        assert name[|stem| + i - k] != '-' || name[|stem| + i - k + 1] != '-';
      }
    }
  }

  /** A tidy name is still tidy once its stem has been cut to fit, and then it is clean. */
  lemma {:induction false} FitIsNeat(a: Alphabet, name: string)
    requires Sane(a) && name != [] && AllAllowed(a, name) && NoDoubleDash(name) && name[0] != '.' && name[0] != '-'
    ensures var split := SplitExt(a, name); Neat(a, Fit(a, split.stem, split.ext, []))
  {
    SplitShape(a, name);
    var split := SplitExt(a, name);
    var stem, ext := split.stem, split.ext;
    var room := Room(a, ext, []);
    var k := FitsIn(a, stem, room);
    assert Bytes(a, []) == 0;
    CutIsNotEmpty(a, stem, room);
    CutStemIsTidy(a, stem, ext, k);
    BytesJoined(a, stem[..k], ext);
    FitWithoutSuffix(a, stem, ext, k);
    assert stem[0] == name[0];
  }

  lemma {:induction false} FitWithoutSuffix(a: Alphabet, stem: string, ext: string, k: nat)
    requires k == FitsIn(a, stem, Room(a, ext, [])) && k > 0
    ensures Fit(a, stem, ext, []) == stem[..k] + ext
  {
  }

  /** Whatever a browser sends, the name stored is clean. */
  lemma {:induction false} CleanNameIsNeat(a: Alphabet, raw: string)
    requires Sane(a)
    ensures Neat(a, CleanName(a, raw))
  {
    SiftedIsAllowed(a, Basename(raw));
    TrimmedIsTidy(a, Sifted(a, Basename(raw)));
    var out := TrimStart(Sifted(a, Basename(raw)));
    if out == [] {
      FallbackIsNeat(a);
    } else {
      FitIsNeat(a, out);
    }
  }

  // ---------------------------------------------------------------------
  // What it keeps of the name
  // ---------------------------------------------------------------------

  /** The extension split off is what follows the last dot, dot included, if that
      is at most 16 bytes and not the whole name. */
  lemma {:induction false} SplitsExactly(a: Alphabet, name: string, dot: nat)
    ensures dot < |name| && name[dot] == '.' && '.' !in name[dot + 1..] ==>
              SplitExt(a, name) ==
                if dot > 0 && Bytes(a, name[dot..]) <= 16 then Split(name[..dot], name[dot..]) else Split(name, [])
    ensures '.' !in name ==> SplitExt(a, name) == Split(name, [])
  {
    if dot < |name| && name[dot] == '.' && '.' !in name[dot + 1..] {
      NoneAfter(name, dot);
      NoneAfter(name, LastDot(name).value);
    }
  }

  lemma {:induction false} NoneAfter(s: string, dot: nat)
    requires dot < |s| && '.' !in s[dot + 1..]
    ensures forall i :: dot < i < |s| ==> s[i] != '.'
  {
    forall i | dot < i < |s|
      ensures s[i] != '.'
    {
      assert s[i] == s[dot + 1..][i - dot - 1];
    }
  }

  predicate NoSeparators(s: string) {
    '/' !in s && '\\' !in s
  }

  /** The basename is what is left of the last separator. */
  lemma {:induction false} BasenameMeans(raw: string) returns (k: nat)
    ensures k <= |raw| && Basename(raw) == raw[k..]
    ensures NoSeparators(raw[k..])
    ensures k > 0 ==> raw[k - 1] == '/' || raw[k - 1] == '\\'
  {
    k := |raw|;
    if raw != [] && !Separator(raw[|raw| - 1]) {
      var n := |raw| - 1;
      var front := raw[..n];
      assert raw == front + [raw[n]];
      k := BasenameMeans(front);
      assert raw[k..] == front[k..] + [raw[n]];
    }
  }

  /** The characters of a name that are kept as they are, dashes aside. */
  function Letters(a: Alphabet, s: string): string {
    if s == [] then []
    else
      var front, c := Letters(a, s[..|s| - 1]), s[|s| - 1];
      if c != '-' && !a.control(c) && (a.alnum(c) || c == '.' || c == '_') then front + [c] else front
  }

  /** Sifting keeps all of those, in order. */
  lemma {:induction false} SiftedKeepsLetters(a: Alphabet, s: string)
    requires Sane(a)
    ensures Letters(a, Sifted(a, s)) == Letters(a, s)
  {
    if s != [] {
      var front, c := s[..|s| - 1], s[|s| - 1];
      SiftedKeepsLetters(a, front);
      var out := Sifted(a, front);
      assert forall d :: (out + [d])[..|out|] == out;
    }
  }

  /** And it marks what is not kept: with control characters dropped, a name ends
      in a dash exactly after a dash or a character that is not allowed. */
  lemma {:induction false} SiftedMarksGaps(a: Alphabet, s: string, c: char)
    requires Sane(a)
    ensures Sifted(a, []) == []
    ensures a.control(c) ==> Sifted(a, s + [c]) == Sifted(a, s)
    ensures !a.control(c) ==>
              (EndsInDash(Sifted(a, s + [c])) <==> c == '-' || !(a.alnum(c) || c == '.' || c == '_'))
  {
    assert (s + [c])[..|s|] == s;
  }

  /** Cleaning sifts the basename, takes the dots and dashes off its start, and, if
      what is left is too long, takes the fewest characters off the end of its stem;
      if nothing is left the name is "upload". */
  lemma {:induction false} CleaningMeans(a: Alphabet, raw: string) returns (dropped: nat, kept: nat)
    requires Sane(a)
    ensures var sifted := Sifted(a, Basename(raw));
            && dropped <= |sifted| && (forall i :: 0 <= i < dropped ==> sifted[i] == '.' || sifted[i] == '-')
            && (dropped < |sifted| ==> sifted[dropped] != '.' && sifted[dropped] != '-')
            && if dropped == |sifted| then CleanName(a, raw) == "upload"
               else
                 var r := SplitExt(a, sifted[dropped..]);
                 && 0 < kept <= |r.stem| && CleanName(a, raw) == r.stem[..kept] + r.ext
                 && Bytes(a, r.stem[..kept]) + Bytes(a, r.ext) <= 120
                 && (kept < |r.stem| ==> Bytes(a, r.stem[..kept + 1]) + Bytes(a, r.ext) > 120)
  {
    var sifted := Sifted(a, Basename(raw));
    dropped := TrimStartIsSuffix(sifted);
    kept := 0;
    var out := TrimStart(sifted);
    if out != [] {
      SplitShape(a, out);
      var r := SplitExt(a, out);
      var room := Room(a, r.ext, []);
      assert Bytes(a, []) == 0;
      CutIsNotEmpty(a, r.stem, room);
      kept := FitsIn(a, r.stem, room);
      FitsInIsTight(a, r.stem, room);
      FitWithoutSuffix(a, r.stem, r.ext, kept);
    }
  }

  // ---------------------------------------------------------------------
  // A clean name is left as it is
  // ---------------------------------------------------------------------

  lemma {:induction false} NoSeparatorsNoChange(s: string)
    requires forall i :: 0 <= i < |s| ==> !Separator(s[i])
    ensures Basename(s) == s
  {
    if s != [] {
      NoSeparatorsNoChange(s[..|s| - 1]);
      assert s == s[..|s| - 1] + [s[|s| - 1]];
    }
  }

  lemma {:induction false} TidySiftsToItself(a: Alphabet, s: string)
    requires AllAllowed(a, s) && NoDoubleDash(s)
    ensures Sifted(a, s) == s
  {
    if s != [] {
      var n := |s| - 1;
      NeatPrefix(a, s, n);
      TidySiftsToItself(a, s[..n]);
      assert s == s[..n] + [s[n]];
      assert n > 0 ==> s[..n][n - 1] == s[n - 1] && (s[n - 1] != '-' || s[n - 1 + 1] != '-');
    }
  }

  lemma {:induction false} NeatIsFixed(a: Alphabet, s: string)
    requires Sane(a) && Neat(a, s)
    ensures CleanName(a, s) == s
  {
    forall i | 0 <= i < |s|
      ensures !Separator(s[i])
    {
      assert Allowed(a, s[i]);
    }
    NoSeparatorsNoChange(s);
    TidySiftsToItself(a, s);
    assert TrimStart(s) == s;
    NeatFits(a, s);
  }

  lemma {:induction false} NeatFits(a: Alphabet, s: string)
    requires s != [] && Bytes(a, s) <= MAX_NAME_BYTES
    ensures var split := SplitExt(a, s); Fit(a, split.stem, split.ext, []) == s
  {
    SplitShape(a, s);
    var split := SplitExt(a, s);
    assert Bytes(a, []) == 0;
    FitsWhole(a, split.stem, Room(a, split.ext, []));
    FitWithoutSuffix(a, split.stem, split.ext, |split.stem|);
    assert split.stem[..|split.stem|] == split.stem;
  }

  /** Cleaning changes nothing exactly when the name is clean already; and what
      it gives is clean, so cleaning again changes nothing. */
  lemma {:induction false} CleaningIsIdempotent(a: Alphabet, raw: string)
    requires Sane(a)
    ensures CleanName(a, CleanName(a, raw)) == CleanName(a, raw)
    ensures CleanName(a, raw) == raw <==> Neat(a, raw)
  {
    CleanNameIsNeat(a, raw);
    NeatIsFixed(a, CleanName(a, raw));
    if Neat(a, raw) {
      NeatIsFixed(a, raw);
    }
  }
}
