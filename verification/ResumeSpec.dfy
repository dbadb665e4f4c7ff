/** When an agent out of tokens may be told to carry on: the verdict of a usage
    snapshot, and the schedule of one stall.
  */
module ResumeSpec {
  import opened Options

  const MINUTE := 60_000
  const RESET_GRACE_MS := 15_000
  const PATIENCE_MS := 5 * MINUTE
  const FIRST_BACKOFF_MS := MINUTE
  const MAX_BACKOFF_MS := 30 * MINUTE
  const DENSE_TRIES := 6
  const PROBE_MS := 60 * MINUTE
  const REARM_FLOOR_MS := 30 * MINUTE
  const MAX_NUDGES := 12
  const PROGRESS_MS := 5 * MINUTE

  /** The largest signed 64-bit number. */
  const I64_MAX := 0x7FFF_FFFF_FFFF_FFFF

  // ---------------------------------------------------------------------
  // The snapshot
  // ---------------------------------------------------------------------

  /** A usage snapshot; times in it are unix seconds. */
  datatype RateLimit = RateLimit(rejected: bool, resetsAt: Option<int>, windowResets: seq<Option<int>>)

  datatype Snapshot = Snapshot(capturedAt: int, info: RateLimit)

  datatype Verdict = Tokens | Held | NoEvidence

  /** The earliest of the resets that are given. */
  function EarliestOf(resets: seq<Option<int>>): (r: Option<int>)
    ensures r.Some? ==> r in resets && forall x :: x in resets && x.Some? ==> r.value <= x.value
    ensures r.None? ==> forall x :: x in resets ==> x.None?
  {
    if resets == [] then None
    else
      var rest := EarliestOf(resets[1..]);
      assert resets == [resets[0]] + resets[1..];
      if resets[0].None? then rest
      else if rest.None? || resets[0].value <= rest.value then resets[0]
      else rest
  }

  /** The instant a snapshot gives for its reset, in milliseconds. */
  function ResetsAtMs(info: RateLimit): Option<int> {
    var at := if info.resetsAt.Some? then info.resetsAt else EarliestOf(info.windowResets);
    if at.Some? then Some(at.value * 1_000) else None
  }

  /** What a snapshot says of an agent out of tokens since `since`. */
  function VerdictOf(snapshot: Option<Snapshot>, since: int, now: int): Verdict {
    match snapshot
    case None => NoEvidence
    case Some(s) =>
      if s.info.rejected then
        match ResetsAtMs(s.info)
        case None => NoEvidence
        case Some(at) =>
          if at <= since then NoEvidence else if now >= at + RESET_GRACE_MS then Tokens else Held
      else if s.capturedAt >= since then Tokens
      else NoEvidence
  }

  /** Time never takes a go-ahead back: what reads as tokens goes on reading so
      until another snapshot says otherwise. */
  lemma {:induction false} TokensStayTokens(snapshot: Option<Snapshot>, since: int, now: int, later: int)
    requires now <= later && VerdictOf(snapshot, since, now) == Tokens
    ensures VerdictOf(snapshot, since, later) == Tokens
  {
  }

  /** A reading counts as tokens exactly when someone was served since the stall
      began, or the window that refused this agent, and not an older one, has
      rolled over by more than the grace. */
  lemma {:induction false} TokensMeans(s: Snapshot, since: int, now: int)
    ensures VerdictOf(Some(s), since, now) == Tokens <==>
              if !s.info.rejected then since <= s.capturedAt
              else ResetsAtMs(s.info).Some? && since < ResetsAtMs(s.info).value <= now - RESET_GRACE_MS
  {
  }

  /** `reset` is the second a rejection names for its reset: its own, or else the
      least that any window gives, or none. */
  predicate NamesReset(info: RateLimit, reset: Option<int>) {
    if info.resetsAt.Some? then reset == info.resetsAt
    else if reset.Some? then reset in info.windowResets && forall x :: x in info.windowResets && x.Some? ==> reset.value <= x.value
    else forall x :: x in info.windowResets ==> x == None
  }

  /** What a rejection says: nothing, if it names no reset or one no later than the
      stall; else that the agent must wait, until fifteen seconds past the reset. */
  lemma {:induction false} RejectionMeans(s: Snapshot, since: int, now: int, reset: Option<int>)
    requires s.info.rejected && NamesReset(s.info, reset)
    ensures VerdictOf(Some(s), since, now) ==
              match reset
              case None => NoEvidence
              case Some(second) =>
                if 1000 * second <= since then NoEvidence
                else if now < 1000 * second + 15_000 then Held
                else Tokens
  {
    var found := EarliestOf(s.info.windowResets);
    if s.info.resetsAt.None? {
      assert found == reset;
    }
  }

  /** And what anything else says: that someone was served, if that was since the
      stall began. No snapshot says nothing. */
  lemma {:induction false} ServingMeans(s: Snapshot, since: int, now: int)
    requires !s.info.rejected
    ensures VerdictOf(Some(s), since, now) == if s.capturedAt < since then NoEvidence else Tokens
    ensures VerdictOf(None, since, now) == NoEvidence
  {
  }

  // ---------------------------------------------------------------------
  // The backoff
  // ---------------------------------------------------------------------

  function Pow2(n: nat): (p: nat)
    ensures p >= 1
  {
    if n == 0 then 1 else 2 * Pow2(n - 1)
  }

  function Least(a: int, b: int): int { if a < b then a else b }

  /** Multiplication that stops at the largest signed 64-bit number. */
  function SaturatingMul(a: nat, b: nat): nat {
    if a * b <= I64_MAX then a * b else I64_MAX
  }

  /** The least wait between nudge number `tries` and the next, in the dense phase. */
  function BackoffMs(tries: nat): int {
    if tries == 0 then 0
    else Least(SaturatingMul(FIRST_BACKOFF_MS, Pow2(Least(tries - 1, 20))), MAX_BACKOFF_MS)
  }

  lemma {:induction false} Pow2Grows(a: nat, b: nat)
    requires a <= b
    ensures Pow2(a) <= Pow2(b)
  {
    if a < b {
      Pow2Grows(a, b - 1);
    }
  }

  lemma {:induction false} Pow2Values()
    ensures Pow2(1) == 2 && Pow2(2) == 4 && Pow2(3) == 8 && Pow2(4) == 16 && Pow2(5) == 32
    ensures Pow2(20) == 1_048_576
  {
    assert Pow2(1) == 2 && Pow2(2) == 4 && Pow2(3) == 8 && Pow2(4) == 16 && Pow2(5) == 32;
    assert Pow2(6) == 64 && Pow2(7) == 128 && Pow2(8) == 256 && Pow2(9) == 512 && Pow2(10) == 1024;
    assert Pow2(11) == 2048 && Pow2(12) == 4096 && Pow2(13) == 8192 && Pow2(14) == 16384 && Pow2(15) == 32768;
    assert Pow2(16) == 65536 && Pow2(17) == 131072 && Pow2(18) == 262144 && Pow2(19) == 524288;
  }

  /** One minute, doubling, capped at thirty, for any number of tries: neither
      the cap on the shift nor the saturation ever shows. */
  lemma {:induction false} BackoffIsCappedDoubling(n: nat)
    requires n >= 1
    ensures BackoffMs(n) == Least(FIRST_BACKOFF_MS * Pow2(n - 1), MAX_BACKOFF_MS)
    ensures FIRST_BACKOFF_MS * Pow2(Least(n - 1, 20)) <= I64_MAX
  {
    Pow2Values();
    Pow2Grows(Least(n - 1, 20), 20);
    if n > 21 {
      Pow2Grows(20, n - 1);
    }
  }

  // ---------------------------------------------------------------------
  // One stall
  // ---------------------------------------------------------------------

  datatype StallState = StallState(
    sinceMs: int,
    nudges: nat,
    lastMs: int,
    workingSinceMs: Option<int>,
    sawTokens: bool,
    rearmed: bool)
  {
    predicate Stopped() {
      nudges >= MAX_NUDGES
    }

    predicate Probing() {
      nudges >= DENSE_TRIES
    }

    /** The instant from which a nudge is due, the ceiling aside. */
    function Earliest(evidence: bool): int {
      var scheduled :=
        if nudges == 0 then sinceMs + (if evidence then 0 else PATIENCE_MS)
        else if Probing() then lastMs + PROBE_MS
        else lastMs + BackoffMs(nudges);
      if rearmed && nudges > 0 then Least(scheduled, lastMs + REARM_FLOOR_MS) else scheduled
    }

    predicate Due(now: int, evidence: bool) {
      !Stopped() && Earliest(evidence) <= now
    }

    function Saw(v: Verdict): StallState {
      this.(rearmed := rearmed || (v.Tokens? && !sawTokens), sawTokens := v.Tokens?)
    }

    function Nudged(now: int): StallState {
      this.(nudges := nudges + 1, lastMs := now, workingSinceMs := None, rearmed := false)
    }

    function Stalled(): StallState {
      this.(workingSinceMs := None)
    }

    function WorkingAt(now: int): StallState {
      if workingSinceMs.None? then this.(workingSinceMs := Some(now)) else this
    }

    /** Has it been working long enough, at `now`, for the stall to be over? */
    predicate OverAt(now: int) {
      now - (if workingSinceMs.Some? then workingSinceMs.value else now) >= PROGRESS_MS
    }
  }

  function NewStall(now: int): StallState {
    StallState(now, 0, 0, None, false, false)
  }

  /** A stall once a pass that found the agent out of tokens has read the snapshot. */
  function Read(s: StallState, v: Verdict): StallState {
    s.Stalled().Saw(v)
  }

  /** Does that pass nudge? */
  predicate Nudges(s: StallState, v: Verdict, now: int) {
    !v.Held? && Read(s, v).Due(now, v.Tokens?)
  }

  /** The stall after the whole pass. */
  function Looked(s: StallState, v: Verdict, now: int): StallState {
    if Nudges(s, v, now) then Read(s, v).Nudged(now) else Read(s, v)
  }

  /** The wait after nudge `n`, in minutes. */
  function WaitAfter(n: nat): int {
    if n == 1 then 1 else if n == 2 then 2 else if n == 3 then 4 else if n == 4 then 8 else if n == 5 then 16 else 60
  }

  /** When a nudge is due: the first at once if there is evidence and after five
      minutes if not; then after 1, 2, 4, 8 and 16 minutes; then every hour, or
      after half of one if news has come since the last; and never a thirteenth. */
  lemma {:induction false} DueExactly(s: StallState, now: int, evidence: bool)
    ensures s.nudges == 0 ==> (s.Due(now, evidence) <==> now >= s.sinceMs + if evidence then 0 else 300_000)
    ensures 1 <= s.nudges <= 11 ==>
              (s.Due(now, evidence) <==>
                 || now >= s.lastMs + 60_000 * WaitAfter(s.nudges)
                 || (s.rearmed && now >= s.lastMs + 1_800_000))
    ensures s.nudges >= 12 ==> !s.Due(now, evidence)
  {
    Pow2Values();
    assert Pow2(0) == 1;
  }

  /** Being due is a matter of time only: once due, due from then on. */
  lemma {:induction false} DueStaysDue(s: StallState, now: int, later: int, evidence: bool)
    requires now <= later && s.Due(now, evidence)
    ensures s.Due(later, evidence)
  {
  }

  /** Evidence never delays: whatever is due to an agent nothing is known about
      is due at least as soon to one just shown to have tokens. */
  lemma {:induction false} EvidenceNeverDelays(s: StallState, now: int)
    ensures s.Saw(Tokens).Earliest(true) <= s.Earliest(false)
    ensures s.Due(now, false) ==> s.Saw(Tokens).Due(now, true)
  {
  }

  /** And it brings a nudge forward no closer to the last one than the floor, or
      than the schedule already stood. */
  lemma {:induction false} EvidenceIsFloored(s: StallState)
    requires s.nudges > 0
    ensures s.Earliest(true) >= Least(s.lastMs + REARM_FLOOR_MS, s.(rearmed := false).Earliest(false))
  {
  }

  /** A wait in milliseconds that nudge `k` must leave before the next one. */
  function Gap(k: nat): int
    requires k >= 1
  {
    if k <= 5 then Pow2(k - 1) * MINUTE else 30 * MINUTE
  }

  /** Whatever the verdicts were, a nudge leaves the gap its number asks for. */
  lemma {:induction false} NudgeKeepsGap(s: StallState, v: Verdict, now: int)
    requires s.nudges >= 1 && Nudges(s, v, now)
    ensures now - s.lastMs >= Gap(s.nudges) && s.nudges < MAX_NUDGES
  {
    Pow2Values();
    if s.nudges <= 5 {
      BackoffIsCappedDoubling(s.nudges);
      Pow2Grows(s.nudges - 1, 4);
    }
  }
}
