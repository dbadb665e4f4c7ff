/** The messages an operator can recall: the server's list, recomputed from the
    log, and the page's copy of it, kept up to date message by message.
  */
module InputHistory {
  import opened Options

  /** The text of a message. */
  type Text = nat

  const INPUT_HISTORY := 50
  const SCAN_LIMIT := 4 * INPUT_HISTORY

  function Least(a: nat, b: nat): nat { if a < b then a else b }

  function Take(s: seq<Text>, n: nat): seq<Text> {
    s[..Least(n, |s|)]
  }

  function Reversed(s: seq<Text>): (r: seq<Text>)
    ensures |r| == |s|
  {
    if s == [] then [] else [s[|s| - 1]] + Reversed(s[..|s| - 1])
  }

  function Without(s: seq<Text>, t: Text): seq<Text> {
    if s == [] then []
    else
      var front, last := Without(s[..|s| - 1], t), s[|s| - 1];
      if last == t then front else front + [last]
  }

  /** The distinct usable texts of some rows, in the order they first come up.
      `usable`: not blank, and not too long to be recalled. */
  function Firsts(usable: Text -> bool, rows: seq<Text>): seq<Text> {
    if rows == [] then []
    else
      var out, t := Firsts(usable, rows[..|rows| - 1]), rows[|rows| - 1];
      if usable(t) && t !in out then out + [t] else out
  }

  /** The server's answer: found newest first, handed out the other way round. */
  function Recent(usable: Text -> bool, rows: seq<Text>): seq<Text> {
    Reversed(Take(Firsts(usable, Take(rows, SCAN_LIMIT)), INPUT_HISTORY))
  }

  /** The page's list once a message has gone out. */
  function Remembered(history: seq<Text>, t: Text): seq<Text> {
    var longer := Without(history, t) + [t];
    if |longer| > INPUT_HISTORY then longer[1..] else longer
  }

  // ---------------------------------------------------------------------
  // As they run
  // ---------------------------------------------------------------------

  /** The operator's recent messages, from the rows newest first. */
  method RecentUserInputs(usable: Text -> bool, rows: seq<Text>) returns (out: seq<Text>)
    ensures out == Recent(usable, rows)
  {
    var scanned := Take(rows, SCAN_LIMIT);
    out := [];
    var i := 0;
    assert scanned[..0] == [];
    while i < |scanned| && |out| < INPUT_HISTORY
      invariant 0 <= i <= |scanned| && |out| <= INPUT_HISTORY
      invariant out == Firsts(usable, scanned[..i])
    {
      assert scanned[..i + 1][..i] == scanned[..i];
      var text := scanned[i];
      if usable(text) && text !in out {
        out := out + [text];
      }
      i := i + 1;
    }
    FirstsGrow(usable, scanned, i);
    assert scanned[..|scanned|] == scanned;
    assert out == Take(Firsts(usable, scanned), INPUT_HISTORY);
    out := Turn(out);
  }

  method Turn(s: seq<Text>) returns (r: seq<Text>)
    ensures r == Reversed(s)
  {
    r := [];
    assert s[..0] == [];
    for i := 0 to |s|
      invariant r == Reversed(s[..i])
    {
      assert s[..i + 1][..i] == s[..i];
      r := [s[i]] + r;
    }
    assert s[..|s|] == s;
  }

  function Clamped(n: int, top: nat): (p: nat)
    ensures p <= top
  {
    if n < 0 then 0 else if n > top then top else n
  }

  /** The composer and the history it walks. Position `|history|` is the draft. */
  class PageHistory {
    var history: seq<Text>
    var at: Option<nat>
    var edits: map<nat, Text>
    var input: Text

    /** A walk stands at an entry or at the draft, and began by keeping the draft. */
    predicate Valid()
      reads this
    {
      at.Some? ==> at.value <= |history| && |history| in edits
    }

    function TextAt(p: nat): Text
      reads this
      requires p <= |history| && |history| in edits
    {
      if p in edits then edits[p] else history[p]
    }

    /** The box shows what the walk has kept for its position. */
    predicate InStep()
      reads this
      requires Valid()
    {
      at.Some? ==> input == TextAt(at.value)
    }

    function Position(): nat
      reads this
      requires Valid()
    {
      if at.None? then |history| else at.value
    }

    /** The unsent message: in the box at the draft's position, else kept aside. */
    function Draft(): Text
      reads this
      requires Valid()
    {
      if Position() == |history| then input else edits[|history|]
    }

    constructor (history: seq<Text>, input: Text)
      ensures Valid() && InStep() && this.history == history && Draft() == input
    {
      this.history, this.input, at, edits := history, input, None, map[];
    }

    /** A message has gone out: its text is now the newest, and no walk is left. */
    method RememberInput(text: Text)
      modifies this`history, this`at, this`edits
      ensures history == Remembered(old(history), text)
      ensures Valid() && at.None? && edits == map[]
    {
      var kept: seq<Text> := [];
      assert history[..0] == [];
      for i := 0 to |history|
        invariant history == old(history)
        invariant kept == Without(history[..i], text)
      {
        assert history[..i + 1][..i] == history[..i];
        if history[i] != text {
          kept := kept + [history[i]];
        }
      }
      assert history[..|history|] == history;
      history := kept + [text];
      if |history| > INPUT_HISTORY {
        history := history[1..];
      }
      at, edits := None, map[];
    }

    /** The operator types: in a walk the text stays at its position. */
    method Type(text: Text)
      requires Valid()
      modifies this
      ensures Valid() && InStep() && history == old(history) && input == text && at == old(at)
      ensures Position() == |history| ==> Draft() == text
      ensures Position() < |history| ==> Draft() == old(Draft())
      ensures at.Some? ==> forall p :: 0 <= p <= |history| && p != at.value ==> TextAt(p) == old(TextAt(p))
    {
      input := text;
      if at.Some? {
        edits := edits[at.value := text];
      }
    }

    /** The page itself writes the box: a command is completed, or a refused
        message put back. Nothing is kept of it for a walk. */
    method Fill(text: Text)
      requires Valid()
      modifies this`input
      ensures Valid() && input == text
      ensures InStep() <==> at.None? || text == TextAt(at.value)
      ensures Draft() == if Position() == |history| then text else old(Draft())
    {
      input := text;
    }

    /** Walk the history: `step` below 0 goes older, above 0 newer. What was typed
        anywhere on the way is found again. The draft survives the step unless the
        walk leaves it while the box holds something the page filled in. */
    method Recall(step: int) returns (used: bool)
      requires Valid()
      modifies this`at, this`edits, this`input
      ensures Valid() && (old(InStep()) || used ==> InStep())
      ensures used == (history != [] && !(step > 0 && old(Position()) == |history|))
      ensures Draft() == old(Draft()) <==> !(history != [] && step <= 0 && old(at) == Some(|history|) && !old(InStep()))
      ensures used ==> at == Some(Clamped(old(Position()) + step, |history|))
      ensures used && old(at.Some?) ==> forall p :: 0 <= p <= |history| ==> TextAt(p) == old(TextAt(p))
      ensures !used ==> input == old(input) && (history != [] ==> at.None?)
    {
      if history == [] {
        return false;
      }
      if at.None? {
        if step > 0 {
          return false;
        }
        edits := map[];
        edits := edits[|history| := input];
        at := Some(|history|);
      } else if step > 0 && at.value == |history| {
        at := None;
        return false;
      }
      var next := Clamped(at.value + step, |history|);
      at := Some(next);
      input := if next in edits then edits[next] else history[next];
      used := true;
    }
  }

  /** A draft that is lost: up and down again, a command completed in the box, and
      once more up and down bring back what was typed before it. */
  method FilledDraftIsLost(h: Text, typed: Text, filled: Text) returns (p: PageHistory, before: Text)
    requires filled != typed
    ensures fresh(p) && p.Valid() && p.history == [h]
    ensures before == filled && p.Draft() == p.input == typed
  {
    p := new PageHistory([h], typed);
    var _ := p.Recall(-1);
    var _ := p.Recall(1);
    p.Fill(filled);
    before := p.Draft();
    var _ := p.Recall(-1);
    var _ := p.Recall(1);
  }

  // ---------------------------------------------------------------------
  // One is the other
  // ---------------------------------------------------------------------

  lemma {:induction false} FirstsGrow(usable: Text -> bool, rows: seq<Text>, n: nat)
    requires n <= |rows|
    ensures |Firsts(usable, rows[..n])| <= |Firsts(usable, rows)|
    ensures Firsts(usable, rows)[..|Firsts(usable, rows[..n])|] == Firsts(usable, rows[..n])
  {
    if n == |rows| {
      assert rows[..n] == rows;
    } else {
      assert rows[..|rows| - 1][..n] == rows[..n];
      FirstsGrow(usable, rows[..|rows| - 1], n);
    }
  }

  lemma {:induction false} WithoutMembers(s: seq<Text>, t: Text)
    ensures forall x :: x in Without(s, t) <==> x in s && x != t
    ensures |Without(s, t)| <= |s|
    ensures t !in s ==> Without(s, t) == s
  {
    if s != [] {
      WithoutMembers(s[..|s| - 1], t);
      assert s == s[..|s| - 1] + [s[|s| - 1]];
    }
  }

  lemma {:induction false} WithoutJoined(x: seq<Text>, y: seq<Text>, t: Text)
    ensures Without(x + y, t) == Without(x, t) + Without(y, t)
  {
    if y == [] {
      assert x + y == x;
    } else {
      assert (x + y)[..|x + y| - 1] == x + y[..|y| - 1];
      WithoutJoined(x, y[..|y| - 1], t);
    }
  }

  lemma {:induction false} ReversedJoined(x: seq<Text>, y: seq<Text>)
    ensures Reversed(x + y) == Reversed(y) + Reversed(x)
  {
    if y == [] {
      assert x + y == x;
    } else {
      assert (x + y)[..|x + y| - 1] == x + y[..|y| - 1];
      ReversedJoined(x, y[..|y| - 1]);
    }
  }

  lemma {:induction false} WithoutReversed(s: seq<Text>, t: Text)
    ensures Without(Reversed(s), t) == Reversed(Without(s, t))
  {
    if s != [] {
      var front, last := s[..|s| - 1], s[|s| - 1];
      WithoutReversed(front, t);
      WithoutJoined([last], Reversed(front), t);
      assert [last][..0] == [];
      ReversedJoined(Without(front, t), [last]);
      assert Without(s, t) == if last == t then Without(front, t) else Without(front, t) + [last];
    }
  }

  /** A row put in front comes first, and its text nowhere else. */
  lemma {:induction false} FirstsWithNew(usable: Text -> bool, t: Text, rows: seq<Text>)
    requires usable(t)
    ensures Firsts(usable, [t] + rows) == [t] + Without(Firsts(usable, rows), t)
  {
    if rows == [] {
      assert [t] + rows == [t] && [t][..0] == [];
    } else {
      var front, last := rows[..|rows| - 1], rows[|rows| - 1];
      assert ([t] + rows)[..|[t] + rows| - 1] == [t] + front;
      FirstsWithNew(usable, t, front);
      WithoutMembers(Firsts(usable, front), t);
      assert (Firsts(usable, front) + [last])[..|Firsts(usable, front)|] == Firsts(usable, front);
    }
  }

  /** A text at the front of a list cut to length, seen from the other end. */
  lemma {:induction false} CutFromTheEnd(w: seq<Text>, t: Text)
    requires |w| <= INPUT_HISTORY
    ensures var longer := Reversed(w) + [t];
            Reversed(Take([t] + w, INPUT_HISTORY)) == if |longer| > INPUT_HISTORY then longer[1..] else longer
  {
    assert [t][..0] == [];
    if |w| == INPUT_HISTORY {
      var n := |w| - 1;
      assert Take([t] + w, INPUT_HISTORY) == [t] + w[..n];
      ReversedJoined([t], w[..n]);
    } else {
      assert Take([t] + w, INPUT_HISTORY) == [t] + w;
      ReversedJoined([t], w);
    }
  }

  /** The page's update, newest first. */
  lemma {:induction false} RememberedReversed(newest: seq<Text>, t: Text)
    requires |newest| <= INPUT_HISTORY
    ensures Remembered(Reversed(newest), t) == Reversed(Take([t] + Without(newest, t), INPUT_HISTORY))
  {
    WithoutReversed(newest, t);
    WithoutMembers(newest, t);
    CutFromTheEnd(Without(newest, t), t);
  }

  /** Cutting the list before or after a text is moved to its front comes to the same. */
  lemma {:induction false} CutBeforeOrAfter(firsts: seq<Text>, t: Text)
    requires forall i, j :: 0 <= i < j < |firsts| ==> firsts[i] != firsts[j]
    ensures Take([t] + Without(Take(firsts, INPUT_HISTORY), t), INPUT_HISTORY) == Take([t] + Without(firsts, t), INPUT_HISTORY)
  {
    var n := Least(INPUT_HISTORY, |firsts|);
    var near, far := firsts[..n], firsts[n..];
    assert firsts == near + far;
    WithoutJoined(near, far, t);
    if |firsts| > INPUT_HISTORY {
      OneLess(near, t);
      var w := Without(near, t);
      assert Take([t] + w, INPUT_HISTORY) == Take([t] + w + Without(far, t), INPUT_HISTORY);
      assert [t] + w + Without(far, t) == [t] + (w + Without(far, t));
    } else {
      assert near == firsts && far == [];
    }
  }

  /** Taking a text out of a list of distinct ones takes out one at most. */
  lemma {:induction false} OneLess(s: seq<Text>, t: Text)
    requires forall i, j :: 0 <= i < j < |s| ==> s[i] != s[j]
    ensures |s| - 1 <= |Without(s, t)| <= |s|
  {
    if s != [] {
      var front := s[..|s| - 1];
      WithoutMembers(front, t);
      if s[|s| - 1] == t {
        assert t !in front;
      } else {
        OneLess(front, t);
      }
    }
  }

  lemma {:induction false} FirstsAreDistinct(usable: Text -> bool, rows: seq<Text>)
    ensures forall i, j :: 0 <= i < j < |Firsts(usable, rows)| ==> Firsts(usable, rows)[i] != Firsts(usable, rows)[j]
    ensures forall x :: x in Firsts(usable, rows) <==> x in rows && usable(x)
  {
    if rows != [] {
      FirstsAreDistinct(usable, rows[..|rows| - 1]);
      assert rows == rows[..|rows| - 1] + [rows[|rows| - 1]];
    }
  }

  /** The first place of a text, or the number of rows. */
  function FirstAt(rows: seq<Text>, t: Text): nat {
    if rows == [] then 0
    else
      var before := FirstAt(rows[..|rows| - 1], t);
      if before < |rows| - 1 || rows[|rows| - 1] == t then before else |rows|
  }

  lemma {:induction false} FirstAtIsFirst(rows: seq<Text>, t: Text)
    ensures FirstAt(rows, t) <= |rows| && (t in rows <==> FirstAt(rows, t) < |rows|)
    ensures FirstAt(rows, t) < |rows| ==> rows[FirstAt(rows, t)] == t
    ensures t !in rows[..FirstAt(rows, t)]
  {
    if rows != [] {
      var front, n := rows[..|rows| - 1], |rows| - 1;
      FirstAtIsFirst(front, t);
      assert rows == front + [rows[n]];
      assert FirstAt(rows, t) <= n ==> rows[..FirstAt(rows, t)] == front[..FirstAt(rows, t)];
    }
  }

  /** The texts stand in the order in which they first come up. */
  predicate ByFirstPlace(texts: seq<Text>, rows: seq<Text>) {
    forall i, j :: 0 <= i < j < |texts| ==> Before(rows, texts[i], texts[j])
  }

  predicate Before(rows: seq<Text>, s: Text, t: Text) {
    FirstAt(rows, s) < FirstAt(rows, t)
  }

  lemma {:induction false} BeforeOneMore(front: seq<Text>, last: Text, s: Text, t: Text)
    requires s in front && (t in front || t == last)
    ensures t in front ==> (Before(front + [last], s, t) <==> Before(front, s, t))
    ensures t !in front ==> Before(front + [last], s, t)
  {
    assert (front + [last])[..|front|] == front;
    FirstAtIsFirst(front, s);
    FirstAtIsFirst(front, t);
  }

  lemma {:induction false} FirstsInOrder(usable: Text -> bool, rows: seq<Text>)
    ensures ByFirstPlace(Firsts(usable, rows), rows)
  {
    if rows != [] {
      var front, last := rows[..|rows| - 1], rows[|rows| - 1];
      var f, before := Firsts(usable, rows), Firsts(usable, front);
      assert rows == front + [last];
      FirstsInOrder(usable, front);
      FirstsAreDistinct(usable, front);
      forall i, j | 0 <= i < j < |f|
        ensures Before(rows, f[i], f[j])
      {
        assert f[i] == before[i] && before[i] in before;
        if j < |before| {
          assert f[j] == before[j] && before[j] in before && Before(front, before[i], before[j]);
        }
        BeforeOneMore(front, last, f[i], f[j]);
      }
    }
  }

  lemma {:induction false} ReversedAt(s: seq<Text>, k: nat)
    requires k < |s|
    ensures Reversed(s)[k] == s[|s| - 1 - k]
  {
    if k > 0 {
      ReversedAt(s[..|s| - 1], k - 1);
    }
  }

  /** The newest 200 rows, or all. */
  predicate IsNewest(newest: seq<Text>, rows: seq<Text>) {
    newest == if |rows| <= 200 then rows else rows[..200]
  }

  /** The server's list, in its own terms: from the newest 200 rows, the usable
      texts that come up first, each once, at most 50 of them, the last to come up
      at the front; and a text left out comes up after all of those. */
  lemma {:induction false} RecentMeans(usable: Text -> bool, rows: seq<Text>, newest: seq<Text>)
    requires IsNewest(newest, rows)
    ensures var list := Recent(usable, rows);
            && |list| <= 50
            && (forall i :: 0 <= i < |list| ==> usable(list[i]) && list[i] in newest)
            && (forall i, j :: 0 <= i < j < |list| ==> Before(newest, list[j], list[i]))
            && (forall t :: t in newest && usable(t) && t !in list ==>
                  |list| == 50 && forall i :: 0 <= i < |list| ==> Before(newest, list[i], t))
  {
    var firsts, list := Firsts(usable, newest), Recent(usable, rows);
    assert newest == Take(rows, SCAN_LIMIT);
    FirstsAreDistinct(usable, newest);
    RecentOrder(usable, rows, newest);
    forall t | t in newest && usable(t) && t !in list
      ensures |list| == 50 && forall i :: 0 <= i < |list| ==> Before(newest, list[i], t)
    {
      LeftOutIsLater(usable, rows, t);
    }
  }

  lemma {:induction false} RecentOrder(usable: Text -> bool, rows: seq<Text>, newest: seq<Text>)
    requires newest == Take(rows, SCAN_LIMIT)
    ensures var list, firsts := Recent(usable, rows), Firsts(usable, newest);
            && |list| == Least(50, |firsts|)
            && (forall i :: 0 <= i < |list| ==> list[i] == firsts[|list| - 1 - i] && list[i] in firsts)
            && (forall i, j :: 0 <= i < j < |list| ==> Before(newest, list[j], list[i]))
  {
    var firsts, list := Firsts(usable, newest), Recent(usable, rows);
    var cut := Take(firsts, INPUT_HISTORY);
    FirstsInOrder(usable, newest);
    forall i | 0 <= i < |list|
      ensures list[i] == firsts[|list| - 1 - i] && list[i] in firsts
    {
      ReversedAt(cut, i);
      assert firsts[|list| - 1 - i] in firsts;
    }
    forall i, j | 0 <= i < j < |list|
      ensures Before(newest, list[j], list[i])
    {
      assert Before(newest, firsts[|list| - 1 - j], firsts[|list| - 1 - i]);
    }
  }

  lemma {:induction false} LeftOutIsLater(usable: Text -> bool, rows: seq<Text>, t: Text)
    requires t in Take(rows, SCAN_LIMIT) && usable(t) && t !in Recent(usable, rows)
    ensures var list, newest := Recent(usable, rows), Take(rows, SCAN_LIMIT);
            |list| == 50 && forall i :: 0 <= i < |list| ==> Before(newest, list[i], t)
  {
    var newest := Take(rows, SCAN_LIMIT);
    var firsts, list := Firsts(usable, newest), Recent(usable, rows);
    FirstsAreDistinct(usable, newest);
    FirstsInOrder(usable, newest);
    RecentOrder(usable, rows, newest);
    var k :| 0 <= k < |firsts| && firsts[k] == t;
    forall m | 0 <= m < |list|
      ensures firsts[m] in list
    {
      assert list[|list| - 1 - m] == firsts[m];
    }
    forall i | 0 <= i < |list|
      ensures Before(newest, list[i], t)
    {
      assert Before(newest, firsts[|list| - 1 - i], firsts[k]);
    }
  }

  /** The one case in which the copies part: the row that the new one pushes out
      of the scan held a text found nowhere else in it, and the list is not yet
      so long that it would be cut anyway. */
  predicate OldestFallsOut(usable: Text -> bool, rows: seq<Text>, t: Text) {
    && |rows| >= SCAN_LIMIT
    && var kept, oldest := rows[..SCAN_LIMIT - 1], rows[SCAN_LIMIT - 1];
       && usable(oldest) && oldest !in kept && oldest != t
       && |Without(Firsts(usable, kept), t)| + 1 < INPUT_HISTORY
  }

  /** A page that shows the server's list still does after a message, exactly
      when the text is one the server recalls and nothing falls out like that. */
  lemma {:induction false} CopyIsTheListExactly(usable: Text -> bool, rows: seq<Text>, t: Text)
    ensures Remembered(Recent(usable, rows), t) == Recent(usable, [t] + rows)
            <==> usable(t) && !OldestFallsOut(usable, rows, t)
  {
    if usable(t) {
      UsableCopy(usable, rows, t);
    } else {
      RecentIsUsable(usable, [t] + rows);
      RememberedHolds(Recent(usable, rows), t);
    }
  }

  lemma {:induction false} RememberedHolds(history: seq<Text>, t: Text)
    ensures t in Remembered(history, t)
  {
    var r := Remembered(history, t);
    assert r[|r| - 1] == t;
  }

  lemma {:induction false} ReversedMembers(s: seq<Text>)
    ensures forall x :: x in Reversed(s) <==> x in s
  {
    if s != [] {
      ReversedMembers(s[..|s| - 1]);
      assert s == s[..|s| - 1] + [s[|s| - 1]];
    }
  }

  lemma {:induction false} RecentIsUsable(usable: Text -> bool, rows: seq<Text>)
    ensures forall x :: x in Recent(usable, rows) ==> usable(x)
  {
    var firsts := Firsts(usable, Take(rows, SCAN_LIMIT));
    FirstsAreDistinct(usable, Take(rows, SCAN_LIMIT));
    ReversedMembers(Take(firsts, INPUT_HISTORY));
  }

  lemma {:induction false} UsableCopy(usable: Text -> bool, rows: seq<Text>, t: Text)
    requires usable(t)
    ensures Remembered(Recent(usable, rows), t) == Recent(usable, [t] + rows) <==> !OldestFallsOut(usable, rows, t)
  {
    var firsts := Firsts(usable, Take(rows, SCAN_LIMIT));
    FirstsAreDistinct(usable, Take(rows, SCAN_LIMIT));
    RememberedReversed(Take(firsts, INPUT_HISTORY), t);
    CutBeforeOrAfter(firsts, t);
    var page := Take([t] + Without(firsts, t), INPUT_HISTORY);
    assert Remembered(Recent(usable, rows), t) == Reversed(page);
    var kept := Take(rows, SCAN_LIMIT - 1);
    assert Take([t] + rows, SCAN_LIMIT) == [t] + kept;
    FirstsWithNew(usable, t, kept);
    var server := Take([t] + Without(Firsts(usable, kept), t), INPUT_HISTORY);
    assert Recent(usable, [t] + rows) == Reversed(server);
    ReversedIsInjective(page, server);
    PageAgainstServer(usable, rows, t);
  }

  /** A log of 199 times one text over another: the next message pushes the other
      out of the scan, and the page still lists it. */
  lemma {:induction false} ScanCanDropAText(x: Text, y: Text, t: Text) returns (usable: Text -> bool, rows: seq<Text>)
    requires x != y && t != y
    ensures |rows| == SCAN_LIMIT && rows[SCAN_LIMIT - 1] == y && forall i :: 0 <= i < SCAN_LIMIT - 1 ==> rows[i] == x
    ensures usable(t) && Remembered(Recent(usable, rows), t) != Recent(usable, [t] + rows)
  {
    usable := _ => true;
    rows := seq(SCAN_LIMIT, i => if i < SCAN_LIMIT - 1 then x else y);
    DropsTheOldest(usable, rows, x, t);
    CopyIsTheListExactly(usable, rows, t);
  }

  lemma {:induction false} DropsTheOldest(usable: Text -> bool, rows: seq<Text>, x: Text, t: Text)
    requires |rows| == SCAN_LIMIT && usable(rows[SCAN_LIMIT - 1]) && rows[SCAN_LIMIT - 1] != t
    requires rows[SCAN_LIMIT - 1] != x && forall i :: 0 <= i < SCAN_LIMIT - 1 ==> rows[i] == x
    ensures OldestFallsOut(usable, rows, t)
  {
    var kept := rows[..SCAN_LIMIT - 1];
    FirstsOfOneText(usable, kept, x);
    WithoutMembers(Firsts(usable, kept), t);
  }

  lemma {:induction false} FirstsOfOneText(usable: Text -> bool, rows: seq<Text>, x: Text)
    requires forall i :: 0 <= i < |rows| ==> rows[i] == x
    ensures Firsts(usable, rows) == [] || Firsts(usable, rows) == [x]
  {
    if rows != [] {
      FirstsOfOneText(usable, rows[..|rows| - 1], x);
    }
  }

  /** A message too long to be recalled: the page lists it and the server never does. */
  lemma {:induction false} LongMessageParts(usable: Text -> bool, t: Text)
    requires !usable(t)
    ensures Remembered(Recent(usable, []), t) == [t] && Recent(usable, [t]) == []
  {
    assert Take([], SCAN_LIMIT) == [] && Take([t], SCAN_LIMIT) == [t];
    assert [t][..0] == [];
    assert Firsts(usable, [t]) == Firsts(usable, []) == [];
  }

  lemma {:induction false} ReversedIsInjective(x: seq<Text>, y: seq<Text>)
    ensures Reversed(x) == Reversed(y) <==> x == y
  {
    if Reversed(x) == Reversed(y) && x != [] {
      assert |x| == |y|;
      assert Reversed(x)[0] == x[|x| - 1] && Reversed(y)[0] == y[|y| - 1];
      assert Reversed(x)[1..] == Reversed(x[..|x| - 1]) && Reversed(y)[1..] == Reversed(y[..|y| - 1]);
      ReversedIsInjective(x[..|x| - 1], y[..|y| - 1]);
      assert x == x[..|x| - 1] + [x[|x| - 1]] && y == y[..|y| - 1] + [y[|y| - 1]];
    }
  }

  lemma {:induction false} PageAgainstServer(usable: Text -> bool, rows: seq<Text>, t: Text)
    requires usable(t)
    ensures Take([t] + Without(Firsts(usable, Take(rows, SCAN_LIMIT)), t), INPUT_HISTORY)
            == Take([t] + Without(Firsts(usable, Take(rows, SCAN_LIMIT - 1)), t), INPUT_HISTORY)
            <==> !OldestFallsOut(usable, rows, t)
  {
    if |rows| < SCAN_LIMIT {
      assert Take(rows, SCAN_LIMIT) == rows == Take(rows, SCAN_LIMIT - 1);
    } else {
      var kept, oldest := rows[..SCAN_LIMIT - 1], rows[SCAN_LIMIT - 1];
      assert Take(rows, SCAN_LIMIT) == kept + [oldest] && Take(rows, SCAN_LIMIT - 1) == kept;
      FirstsOneMore(usable, kept, oldest);
      LastOneShows(Firsts(usable, kept), oldest, t);
    }
  }

  lemma {:induction false} FirstsOneMore(usable: Text -> bool, rows: seq<Text>, x: Text)
    ensures Firsts(usable, rows + [x]) ==
              if usable(x) && x !in rows then Firsts(usable, rows) + [x] else Firsts(usable, rows)
  {
    assert (rows + [x])[..|rows|] == rows;
    FirstsAreDistinct(usable, rows);
  }

  /** A text added at the end of the list shows in the cut one exactly when there is room. */
  lemma {:induction false} LastOneShows(a: seq<Text>, x: Text, t: Text)
    ensures Take([t] + Without(a + [x], t), INPUT_HISTORY) == Take([t] + Without(a, t), INPUT_HISTORY)
            <==> x == t || |Without(a, t)| + 1 >= INPUT_HISTORY
  {
  }
}
