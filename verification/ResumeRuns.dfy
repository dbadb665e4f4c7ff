/** What any sequence of passes does to one agent: how many nudges a stall costs,
    how far apart they are, and when a stall ends.
  */
module ResumeRuns {
  import opened Options
  import opened ResumeSpec
  import opened ResumeWatcher

  /** What one pass found an agent doing. `UnderPrompt`: out of tokens beneath an
      open prompt; `Gone`: not running, or the feature is off. The verdict may be
      anything at all. */
  datatype Look =
    | OutOfTokens(now: int, verdict: Verdict)
    | Busy(now: int)
    | UnderPrompt(now: int)
    | Gone(now: int)

  /** What the watcher remembers of an agent, with what it has sent in this
      episode and when it last found the agent out of tokens. */
  datatype Memory = Memory(stall: Option<StallState>, sent: seq<int>, lastOut: int)

  function Known(m: Memory, now: int): StallState {
    if m.stall.Some? then m.stall.value else NewStall(now)
  }

  function After(m: Memory, look: Look): Memory {
    match look
    case OutOfTokens(now, v) =>
      var s, sent := Known(m, now), if m.stall.Some? then m.sent else [];
      Memory(Some(Looked(s, v, now)), if Nudges(s, v, now) then sent + [now] else sent, now)
    case Busy(now) =>
      if m.stall.None? then m
      else if m.stall.value.OverAt(now) then Memory(None, [], m.lastOut)
      else m.(stall := Some(m.stall.value.WorkingAt(now)))
    case UnderPrompt(_) => m
    case Gone(_) => Memory(None, [], m.lastOut)
  }

  function Remember(looks: seq<Look>): Memory {
    if looks == [] then Memory(None, [], 0) else After(Remember(looks[..|looks| - 1]), looks[|looks| - 1])
  }

  /** What a pass that finds an agent out of tokens leaves of its stall: a nudge is
      counted and dated, a reading that turns to tokens stands until a nudge has
      used it, and whatever work there was is forgotten. */
  lemma {:induction false} OutOfTokensMeans(m: Memory, now: int, v: Verdict)
    requires m.stall.None? ==> m.sent == []
    ensures var m' := After(m, OutOfTokens(now, v));
            var nudged := |m'.sent| > |m.sent|;
            && m'.stall.Some? && m'.sent == (if nudged then m.sent + [now] else m.sent)
            && var s' := m'.stall.value;
               && s'.workingSinceMs == None && (s'.sawTokens <==> v == Tokens)
               && (m.stall == None ==>
                     && s'.sinceMs == now
                     && s'.nudges == (if nudged then 1 else 0) && (nudged ==> s'.lastMs == now)
                     && (nudged <==> v == Tokens) && !s'.rearmed)
               && (m.stall.Some? ==>
                     var s := m.stall.value;
                     && s'.sinceMs == s.sinceMs
                     && s'.nudges == (if nudged then s.nudges + 1 else s.nudges)
                     && s'.lastMs == (if nudged then now else s.lastMs)
                     && var news := s.rearmed || (v == Tokens && !s.sawTokens);
                        && (s'.rearmed <==> news && !nudged)
                        && (nudged <==> v != Held && s.(rearmed := news).Due(now, v == Tokens)))
  {
  }

  predicate InOrder(looks: seq<Look>) {
    forall i :: 0 <= i < |looks| - 1 ==> looks[i].now <= looks[i + 1].now
  }

  predicate GapsKept(sent: seq<int>) {
    forall k :: 1 <= k < |sent| ==> GapKept(sent, k)
  }

  /** Nudge `k + 1` came no sooner after nudge `k` than it may. */
  predicate GapKept(sent: seq<int>, k: nat)
    requires 1 <= k < |sent|
  {
    sent[k] - sent[k - 1] >= Gap(k)
  }

  /** What is remembered is true of what was sent and seen up to `clock`. */
  predicate Faithful(m: Memory, clock: int) {
    && GapsKept(m.sent)
    && (m.stall.None? ==> m.sent == [])
    && (m.stall.Some? ==>
          var s := m.stall.value;
          && |m.sent| == s.nudges <= MAX_NUDGES
          && (s.nudges > 0 ==> m.sent[s.nudges - 1] == s.lastMs <= m.lastOut)
          && m.lastOut <= clock
          && (s.workingSinceMs.Some? ==> m.lastOut <= s.workingSinceMs.value <= clock))
  }

  lemma {:induction false} LookKeepsFaithful(m: Memory, clock: int, look: Look)
    requires Faithful(m, clock) && clock <= look.now
    ensures Faithful(After(m, look), look.now)
  {
    if look.OutOfTokens? {
      var s, v, now := Known(m, look.now), look.verdict, look.now;
      if Nudges(s, v, now) {
        if s.nudges > 0 {
          NudgeKeepsGap(s, v, now);
        }
        AppendKeepsGaps(m.sent, now);
      }
    }
  }

  lemma {:induction false} AppendKeepsGaps(sent: seq<int>, now: int)
    requires GapsKept(sent) && (sent != [] ==> now - sent[|sent| - 1] >= Gap(|sent|))
    ensures GapsKept(sent + [now])
  {
    forall k | 1 <= k < |sent + [now]|
      ensures GapKept(sent + [now], k)
    {
      if k < |sent| {
        assert GapKept(sent, k);
      }
    }
  }

  lemma {:induction false} RememberedIsFaithful(looks: seq<Look>)
    requires InOrder(looks) && looks != []
    ensures Faithful(Remember(looks), looks[|looks| - 1].now)
  {
    var front, last := looks[..|looks| - 1], looks[|looks| - 1];
    if front == [] {
      LookKeepsFaithful(Remember(front), last.now, last);
    } else {
      RememberedIsFaithful(front);
      assert looks[|front| - 1].now <= looks[|front| - 1 + 1].now;
      LookKeepsFaithful(Remember(front), front[|front| - 1].now, last);
    }
  }

  /** The least time from nudge `1` to nudge `n` of one stall. */
  function LeastSpan(n: nat): int
    requires n >= 1
  {
    if n == 1 then 0 else LeastSpan(n - 1) + Gap(n - 1)
  }

  lemma {:induction false} SpanKept(sent: seq<int>, n: nat)
    requires GapsKept(sent) && 1 <= n <= |sent|
    ensures sent[n - 1] - sent[0] >= LeastSpan(n)
  {
    if n > 1 {
      SpanKept(sent, n - 1);
      assert GapKept(sent, n - 1);
    }
  }

  lemma {:induction false} SpanOfTwelve()
    ensures LeastSpan(12) == 211 * MINUTE
  {
  }

  /** Against any verdicts and any clock that does not run backwards, one stall
      costs at most twelve nudges; nudge `k + 1` comes at least `2^(k-1)` minutes
      after nudge `k` up to the fifth and at least thirty minutes from then on;
      and it takes 211 minutes to spend them all. */
  lemma {:induction false} StallIsBounded(looks: seq<Look>)
    requires InOrder(looks)
    ensures var sent := Remember(looks).sent;
            && |sent| <= MAX_NUDGES
            && (forall k :: 1 <= k < |sent| ==> sent[k] - sent[k - 1] >= Gap(k))
            && (|sent| == MAX_NUDGES ==> sent[MAX_NUDGES - 1] - sent[0] >= 211 * MINUTE)
  {
    var sent := Remember(looks).sent;
    if looks != [] {
      RememberedIsFaithful(looks);
      forall k | 1 <= k < |sent|
        ensures sent[k] - sent[k - 1] >= Gap(k)
      {
        assert GapKept(sent, k);
      }
      if |sent| == MAX_NUDGES {
        SpanKept(sent, MAX_NUDGES);
        SpanOfTwelve();
      }
    }
  }

  lemma {:induction false} LastOutIsLast(looks: seq<Look>, i: nat)
    requires InOrder(looks) && i < |looks| && looks[i].OutOfTokens?
    ensures looks[i].now <= Remember(looks).lastOut <= looks[|looks| - 1].now
  {
    var n := |looks| - 1;
    if i < n {
      LastOutIsLast(looks[..n], i);
      assert looks[n - 1].now <= looks[n - 1 + 1].now;
    }
  }

  /** Pass `b` found the agent at work, and no pass since found it out of tokens
      with no prompt open. */
  predicate AtWorkSince(looks: seq<Look>, b: int) {
    && 0 <= b < |looks| && looks[b].Busy?
    && forall k :: b < k < |looks| ==> !looks[k].OutOfTokens?
  }

  /** `since` is the time of the earliest such pass, if there is one. */
  ghost predicate WorkStart(looks: seq<Look>, since: Option<int>) {
    && (since.Some? ==> exists b :: AtWorkSince(looks, b) && looks[b].now == since.value)
    && (forall b :: AtWorkSince(looks, b) ==> since.Some? && since.value <= looks[b].now)
  }

  /** What a remembered stall takes for the start of the work. */
  lemma {:induction false} WorkingSinceIs(looks: seq<Look>)
    requires InOrder(looks) && Remember(looks).stall.Some?
    ensures WorkStart(looks, Remember(looks).stall.value.workingSinceMs)
  {
    if looks != [] {
      var front, last := looks[..|looks| - 1], looks[|looks| - 1];
      assert looks == front + [last];
      if !last.OutOfTokens? {
        FrontInOrder(front, last);
        WorkingSinceIs(front);
        WorkStartKept(front, last, Remember(front).stall.value.workingSinceMs);
      }
    }
  }

  lemma {:induction false} AtWorkLonger(front: seq<Look>, last: Look, b: int)
    ensures AtWorkSince(front + [last], b) <==>
              if b == |front| then last.Busy? else AtWorkSince(front, b) && !last.OutOfTokens?
  {
    var looks := front + [last];
    assert forall k :: 0 <= k < |front| ==> looks[k] == front[k];
    assert looks[|front|] == last;
  }

  lemma {:induction false} WorkStartKept(front: seq<Look>, last: Look, since: Option<int>)
    requires InOrder(front + [last]) && !last.OutOfTokens? && WorkStart(front, since)
    ensures WorkStart(front + [last], if since.None? && last.Busy? then Some(last.now) else since)
  {
    var looks := front + [last];
    forall b
      ensures AtWorkSince(looks, b) <==> if b == |front| then last.Busy? else AtWorkSince(front, b)
    {
      AtWorkLonger(front, last, b);
    }
    if since.Some? {
      var b :| AtWorkSince(front, b) && front[b].now == since.value;
      assert AtWorkSince(looks, b);
      InOrderFar(looks, b, |front|);
    } else if last.Busy? {
      assert AtWorkSince(looks, |front|);
    }
  }

  lemma {:induction false} InOrderFar(looks: seq<Look>, i: nat, j: nat)
    requires InOrder(looks) && i <= j < |looks|
    ensures looks[i].now <= looks[j].now
  {
    if i < j {
      InOrderFar(looks, i, j - 1);
      assert looks[j - 1].now <= looks[j - 1 + 1].now;
    }
  }

  /** When a stall is forgotten: the agent is gone, or is found at work
      five minutes after a pass that found it so, with none in between that found
      it out of tokens and no prompt open. Passes that found a prompt open count
      for nothing, not even when it lay over an agent out of tokens. */
  lemma {:induction false} StallEndsExactly(looks: seq<Look>, look: Look)
    requires InOrder(looks + [look]) && Remember(looks).stall.Some?
    ensures Remember(looks + [look]).stall.None? <==>
              || look.Gone?
              || (look.Busy? && exists b :: AtWorkSince(looks, b) && look.now - looks[b].now >= 300_000)
  {
    var all := looks + [look];
    assert all[..|looks|] == looks;
    FrontInOrder(looks, look);
    WorkingSinceIs(looks);
  }

  lemma {:induction false} FrontInOrder(looks: seq<Look>, look: Look)
    requires InOrder(looks + [look])
    ensures InOrder(looks)
  {
    var all := looks + [look];
    forall k | 0 <= k < |looks| - 1
      ensures looks[k].now <= looks[k + 1].now
    {
      assert all[k].now <= all[k + 1].now;
    }
  }

  /** A stall that ends one minute after a pass found the agent out of tokens:
      the prompt that lay over it did not stop the clock. */
  lemma {:induction false} PromptDoesNotStopTheClock() returns (looks: seq<Look>)
    ensures looks == [OutOfTokens(0, Held), Busy(0), UnderPrompt(4 * MINUTE), Busy(5 * MINUTE)]
    ensures InOrder(looks) && Remember(looks[..3]).stall.Some? && Remember(looks).stall.None?
  {
    looks := [OutOfTokens(0, Held), Busy(0), UnderPrompt(4 * MINUTE), Busy(5 * MINUTE)];
    var three, two, one := looks[..3], looks[..2], looks[..1];
    assert three[..2] == two && two[..1] == one && one[..0] == [];
    assert Remember(one).stall == Some(Looked(NewStall(0), Held, 0));
    assert Remember(two).stall == Some(Looked(NewStall(0), Held, 0).WorkingAt(0));
    assert Remember(three) == Remember(two);
  }

  /** A stall is forgotten for work done only by a pass at least five minutes
      after every pass that found the agent out of tokens with no prompt open, and so
      after every nudge: no turn shorter than that ends it. */
  lemma {:induction false} StallOutlastsProgress(looks: seq<Look>, now: int, i: nat)
    requires InOrder(looks + [Busy(now)]) && i < |looks| && looks[i].OutOfTokens?
    requires Remember(looks).stall.Some? && Remember(looks + [Busy(now)]).stall.None?
    ensures now - looks[i].now >= 300_000
  {
    var all := looks + [Busy(now)];
    assert all[..|looks|] == looks;
    FrontInOrder(looks, Busy(now));
    RememberedIsFaithful(looks);
    LastOutIsLast(looks, i);
    assert all[|looks| - 1].now <= all[|looks| - 1 + 1].now;
  }

  /** The ceiling cannot be lifted by evidence: a stall that has spent its nudges
      sends nothing more, whatever it is shown, until it is over. */
  lemma {:induction false} StoppedStaysStopped(m: Memory, look: Look)
    requires m.stall.Some? && m.stall.value.Stopped()
    ensures After(m, look).stall.None? || (After(m, look).stall.value.Stopped() && After(m, look).sent == m.sent)
  {
  }

  /** What a pass over everyone found of agent `id`. */
  function LookOf(before: Memories, c: Census, snapshot: Option<Snapshot>, now: int, id: AgentId): Look {
    if id in c.stalled then
      OutOfTokens(now, VerdictOf(snapshot, (if id in before then before[id] else NewStall(now)).sinceMs, now))
    else if id in c.working then Busy(now)
    else if id in c.held then UnderPrompt(now)
    else Gone(now)
  }

  /** A pass over everyone is, for each agent, a pass over it alone: what is
      remembered of it and whether it is spoken to depend on nothing else. */
  lemma {:induction false} PassIsALookAtEach(
    before: Memories, c: Census, snapshot: Option<Snapshot>, now: int, id: AgentId, m: Memory)
    requires GoodCensus(c) && m.stall == (if id in before then Some(before[id]) else None)
    requires m.stall.None? ==> m.sent == []
    ensures var m' := After(m, LookOf(before, c, snapshot, now, id));
            && m'.stall == Passed(before, c, snapshot, now, id)
            && (id in c.stalled ==> m'.sent == if Speaks(before, snapshot, now, id) then m.sent + [now] else m.sent)
  {
  }
}
