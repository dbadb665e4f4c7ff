/** The append-only event log, read for the permission prompts still open. */
module PermissionLog {

  type RequestId = nat

  /** An event of one agent's log. A decision is a decision whatever it says:
      allowed, denied, withdrawn or expired. */
  datatype LogEvent = Asked(id: RequestId) | Decided(id: RequestId) | OtherEvent

  /** Prompts without those for `id`. */
  function Without(open: seq<RequestId>, id: RequestId): seq<RequestId> {
    if open == [] then []
    else
      var front, last := Without(open[..|open| - 1], id), open[|open| - 1];
      if last == id then front else front + [last]
  }

  /** The prompts a log leaves open, in the order they were asked; one asked
      twice is there twice. */
  function OpenRequests(log: seq<LogEvent>): seq<RequestId> {
    if log == [] then []
    else
      var open := OpenRequests(log[..|log| - 1]);
      match log[|log| - 1]
      case Asked(id) => open + [id]
      case Decided(id) => Without(open, id)
      case OtherEvent => open
  }

  function IdsOf(open: seq<RequestId>): set<RequestId> {
    set id | id in open
  }

  function OpenIds(log: seq<LogEvent>): set<RequestId> {
    IdsOf(OpenRequests(log))
  }

  lemma {:induction false} WithoutMembers(open: seq<RequestId>, id: RequestId)
    ensures forall x :: x in Without(open, id) <==> x in open && x != id
  {
    if open != [] {
      WithoutMembers(open[..|open| - 1], id);
      assert open == open[..|open| - 1] + [open[|open| - 1]];
    }
  }

  lemma {:induction false} NoIdsNoRequests(open: seq<RequestId>)
    ensures open == [] <==> IdsOf(open) == {}
  {
    assert open != [] ==> open[0] in IdsOf(open);
  }

  /** What one more event does to the prompts left open. */
  lemma {:induction false} OpenIdsAfter(log: seq<LogEvent>, e: LogEvent)
    ensures OpenIds(log + [e]) ==
              match e
              case Asked(id) => OpenIds(log) + {id}
              case Decided(id) => OpenIds(log) - {id}
              case OtherEvent => OpenIds(log)
  {
    assert (log + [e])[..|log|] == log;
    if e.Decided? {
      WithoutMembers(OpenRequests(log), e.id);
    }
  }

  /** `k` asks for `id` and nothing later decides it. */
  predicate AskedAndOpen(log: seq<LogEvent>, id: RequestId, k: int) {
    0 <= k < |log| && log[k] == Asked(id) && forall j :: k < j < |log| ==> log[j] != Decided(id)
  }

  /** A prompt is open exactly when it was asked and not decided since. */
  lemma {:induction false} OpenMeansUndecided(log: seq<LogEvent>, id: RequestId)
    ensures id in OpenIds(log) <==> exists k :: AskedAndOpen(log, id, k)
  {
    if log != [] {
      var n := |log| - 1;
      var front, e := log[..n], log[n];
      assert log == front + [e];
      OpenMeansUndecided(front, id);
      OpenIdsAfter(front, e);
      if id in OpenIds(log) {
        if id in OpenIds(front) {
          var k :| AskedAndOpen(front, id, k);
          assert AskedAndOpen(log, id, k);
        } else {
          assert AskedAndOpen(log, id, n);
        }
      }
      forall k | AskedAndOpen(log, id, k)
        ensures id in OpenIds(log)
      {
        assert k < n ==> AskedAndOpen(front, id, k);
      }
    }
  }

  predicate Ascending(ks: seq<nat>) {
    forall i, j :: 0 <= i < j < |ks| ==> ks[i] < ks[j]
  }

  /** One more event leaves open what was, unless it decides it, and what it asks. */
  lemma {:induction false} OpenOneMore(front: seq<LogEvent>, e: LogEvent)
    ensures forall k, id :: AskedAndOpen(front + [e], id, k) <==>
              if k == |front| then e == Asked(id) else AskedAndOpen(front, id, k) && e != Decided(id)
  {
    var log := front + [e];
    forall k, id
      ensures AskedAndOpen(log, id, k) <==>
                if k == |front| then e == Asked(id) else AskedAndOpen(front, id, k) && e != Decided(id)
    {
      if 0 <= k < |front| {
        assert log[k] == front[k] && log[|front|] == e;
        assert forall j :: k < j < |front| ==> log[j] == front[j];
      }
    }
  }

  /** `ks` are the places of the open prompts, `open` what they ask. */
  ghost predicate OpenAt(log: seq<LogEvent>, open: seq<RequestId>, ks: seq<nat>) {
    && Ascending(ks) && |ks| == |open|
    && (forall i :: 0 <= i < |ks| ==> AskedAndOpen(log, open[i], ks[i]))
    && (forall k, id :: AskedAndOpen(log, id, k) ==> k in ks)
  }

  /** The requests left open are those of the open prompts, in the order of the log,
      one asked twice being there twice. */
  lemma {:induction false} OpenRequestsListed(log: seq<LogEvent>) returns (ks: seq<nat>)
    ensures OpenAt(log, OpenRequests(log), ks)
  {
    ks := [];
    if log != [] {
      var n := |log| - 1;
      assert log == log[..n] + [log[n]];
      var before := OpenRequestsListed(log[..n]);
      ks := ListedOneMore(log[..n], log[n], before);
    }
  }

  lemma {:induction false} ListedOneMore(front: seq<LogEvent>, e: LogEvent, before: seq<nat>) returns (ks: seq<nat>)
    requires OpenAt(front, OpenRequests(front), before)
    ensures OpenAt(front + [e], OpenRequests(front + [e]), ks)
  {
    assert (front + [e])[..|front|] == front;
    OpenOneMore(front, e);
    match e
    case Asked(id) =>
      ks := before + [|front|];
    case OtherEvent =>
      ks := before;
    case Decided(id) =>
      ks := KeptOf(front, OpenRequests(front), before, id);
      forall k, x | AskedAndOpen(front + [e], x, k)
        ensures k in ks
      {
        assert AskedAndOpen(front, x, k);
        var i :| 0 <= i < |before| && before[i] == k;
      }
  }

  /** The places of the requests that are not for `id`. */
  lemma {:induction false} KeptOf(log: seq<LogEvent>, open: seq<RequestId>, ks: seq<nat>, id: RequestId) returns (kept: seq<nat>)
    requires Ascending(ks) && |ks| == |open| && forall i :: 0 <= i < |ks| ==> AskedAndOpen(log, open[i], ks[i])
    ensures Ascending(kept) && |kept| == |Without(open, id)|
    ensures forall i :: 0 <= i < |kept| ==> AskedAndOpen(log, Without(open, id)[i], kept[i]) && Without(open, id)[i] != id
    ensures forall k :: k in kept ==> k in ks
    ensures forall i :: 0 <= i < |ks| && open[i] != id ==> ks[i] in kept
  {
    kept := [];
    if open != [] {
      var n := |open| - 1;
      kept := KeptOf(log, open[..n], ks[..n], id);
      assert ks == ks[..n] + [ks[n]];
      if open[n] != id {
        forall i | 0 <= i < |kept|
          ensures kept[i] < ks[n]
        {
          assert kept[i] in ks[..n];
        }
        kept := kept + [ks[n]];
      }
    }
  }

  class EventLog {
    var events: seq<LogEvent>

    constructor (events: seq<LogEvent>)
      ensures this.events == events
    {
      this.events := events;
    }

    method Append(e: LogEvent)
      modifies this
      ensures events == old(events) + [e]
    {
      events := events + [e];
    }

    /** The prompts with no decision after them. */
    method PendingPermissions() returns (pending: seq<RequestId>)
      ensures pending == OpenRequests(events)
    {
      pending := [];
      assert events[..0] == [];
      for i := 0 to |events|
        invariant pending == OpenRequests(events[..i])
      {
        assert events[..i + 1][..i] == events[..i];
        match events[i] {
          case Asked(id) => pending := pending + [id];
          case Decided(id) => pending := Retain(pending, id);
          case OtherEvent =>
        }
      }
      assert events[..|events|] == events;
    }

    /** Close every prompt the log leaves open, whatever log it is. */
    method ExpirePendingPermissions() returns (expired: seq<RequestId>)
      modifies this
      ensures expired == OpenRequests(old(events))
      ensures OpenRequests(events) == []
      ensures |events| == |old(events)| + |expired| && events[..|old(events)|] == old(events)
      ensures forall k :: 0 <= k < |expired| ==> events[|old(events)| + k] == Decided(expired[k])
    {
      var pending := PendingPermissions();
      expired := [];
      for i := 0 to |pending|
        invariant expired == pending[..i]
        invariant |events| == |old(events)| + i && events[..|old(events)|] == old(events)
        invariant forall k :: 0 <= k < i ==> events[|old(events)| + k] == Decided(pending[k])
        invariant OpenIds(events) == IdsOf(pending) - IdsOf(pending[..i])
      {
        ghost var before := events;
        assert pending[..i + 1] == pending[..i] + [pending[i]];
        Append(Decided(pending[i]));
        OpenIdsAfter(before, Decided(pending[i]));
        expired := expired + [pending[i]];
      }
      assert pending[..|pending|] == pending;
      NoIdsNoRequests(OpenRequests(events));
    }
  }

  method Retain(open: seq<RequestId>, id: RequestId) returns (out: seq<RequestId>)
    ensures out == Without(open, id)
  {
    out := [];
    assert open[..0] == [];
    for i := 0 to |open|
      invariant out == Without(open[..i], id)
    {
      assert open[..i + 1][..i] == open[..i];
      if open[i] != id {
        out := out + [open[i]];
      }
    }
    assert open[..|open|] == open;
  }
}
