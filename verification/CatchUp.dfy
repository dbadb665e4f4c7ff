/** Paging through an agent's log, and the walk that catches a page up with it
    while new events keep arriving.
  */
module CatchUp {
  import opened Options
  import opened Transcripts

  /** How many events one replay page holds at most. */
  const REPLAY_WINDOW := 500

  // ---------------------------------------------------------------------
  // The log
  // ---------------------------------------------------------------------

  function Most(a: int, b: int): int { if a < b then b else a }

  function Least(a: int, b: int): int { if a < b then a else b }

  /** The numbers of the page after `after` of a log that goes up to `head`. */
  function Page(head: nat, after: int, limit: nat): (p: seq<int>)
    ensures |p| <= limit && forall i :: 0 <= i < |p| ==> p[i] == Most(after, 0) + 1 + i && p[i] <= head
  {
    seq(Most(0, Least(limit, head - Most(after, 0))), i => Most(after, 0) + 1 + i)
  }

  /** A page is the numbers of the log above the cursor, in order, as many as there
      are up to the limit. */
  lemma {:induction false} PageMeans(head: nat, after: int, limit: nat)
    ensures var p := Page(head, after, limit);
            && (forall i, j :: 0 <= i < j < |p| ==> p[i] < p[j])
            && (forall n :: n in p ==> n > after && 1 <= n <= head)
            && (forall n :: n > after && 1 <= n <= head && n !in p ==>
                  |p| == limit && forall i :: 0 <= i < |p| ==> p[i] < n)
  {
    var p, from := Page(head, after, limit), Most(after, 0) + 1;
    forall n | n > after && 1 <= n <= head && n - from < |p|
      ensures n in p
    {
      assert p[n - from] == n;
    }
    forall n | n > after && 1 <= n <= head && n !in p
      ensures |p| == limit && forall i :: 0 <= i < |p| ==> p[i] < n
    {
    }
  }

  class EventTable {
    /** The numbers of the agent's events, oldest first. */
    var numbers: seq<int>

    ghost predicate Valid()
      reads this
    {
      forall i :: 0 <= i < |numbers| ==> numbers[i] == i + 1
    }

    constructor ()
      ensures Valid() && numbers == []
    {
      numbers := [];
    }

    /** The highest number, or 0. */
    method MaxSeq() returns (head: int)
      requires Valid()
      ensures head == |numbers|
    {
      head := 0;
      for i := 0 to |numbers|
        invariant head == i
      {
        if numbers[i] > head {
          head := numbers[i];
        }
      }
    }

    method Append() returns (number: int)
      requires Valid()
      modifies this
      ensures Valid() && number == |old(numbers)| + 1 && numbers == old(numbers) + [number]
    {
      var head := MaxSeq();
      number := head + 1;
      numbers := numbers + [number];
    }

    /** Everything after a cursor, oldest first, up to a limit. */
    method EventsAfter(after: int, limit: nat) returns (page: seq<int>)
      requires Valid()
      ensures page == Page(|numbers|, after, limit)
    {
      page := [];
      for i := 0 to |numbers|
        invariant page == Page(i, after, limit)
      {
        if numbers[i] > after && |page| < limit {
          page := page + [numbers[i]];
        }
      }
    }
  }

  // ---------------------------------------------------------------------
  // The walk
  // ---------------------------------------------------------------------

  /** One reply to a replay request from `after`: the log went up to `read` when
      its events were read and to `head` when its head was, a moment later. */
  datatype Reply = Reply(after: nat, read: nat, head: nat)

  function Events(r: Reply): seq<int> {
    Page(r.read, r.after, REPLAY_WINDOW)
  }

  function Cursor(r: Reply): int {
    if Events(r) == [] then r.after else Events(r)[|Events(r)| - 1]
  }

  predicate HasMore(r: Reply) {
    Cursor(r) < r.head
  }

  /** Where the walk goes next, or nothing when it is done. */
  function NextWalkCursor(r: Reply): Option<int> {
    if !HasMore(r) then None else if Events(r) == [] then None else Some(Cursor(r))
  }

  /** A whole walk: each reply answers the cursor of the one before it, the log
      only grows, and the last reply ends it. */
  ghost predicate IsWalk(replies: seq<Reply>) {
    && replies != []
    && (forall i :: 0 <= i < |replies| ==> replies[i].read <= replies[i].head)
    && (forall i :: 0 <= i < |replies| - 1 ==> Continues(replies[i], replies[i + 1]))
    && NextWalkCursor(replies[|replies| - 1]) == None
  }

  predicate Continues(r: Reply, next: Reply) {
    NextWalkCursor(r) == Some(next.after) && r.head <= next.read
  }

  lemma {:induction false} CursorShape(r: Reply)
    ensures Events(r) == [] <==> r.read <= r.after
    ensures Cursor(r) == if r.read <= r.after then r.after else Least(r.read, r.after + 500)
    ensures forall k :: r.after < k <= Cursor(r) ==> k in Events(r)
  {
    forall k | r.after < k <= Cursor(r)
      ensures k in Events(r)
    {
      assert Events(r)[k - r.after - 1] == k;
    }
  }

  /** Every page asked for moves the walk on. */
  lemma {:induction false} WalkAdvances(r: Reply, next: Reply)
    requires Continues(r, next)
    ensures r.after < next.after <= r.read
  {
  }

  /** The pages of a walk leave nothing out between where it began and its last cursor. */
  lemma {:induction false} WalkCoversAll(replies: seq<Reply>, k: int)
    requires IsWalk(replies) && replies[0].after < k <= Cursor(replies[|replies| - 1])
    ensures exists i :: 0 <= i < |replies| && k in Events(replies[i])
  {
    PrefixCovers(replies, |replies|, k);
  }

  lemma {:induction false} PrefixCovers(replies: seq<Reply>, n: nat, k: int)
    requires 0 < n <= |replies|
    requires forall i :: 0 <= i < |replies| - 1 ==> Continues(replies[i], replies[i + 1])
    requires replies[0].after < k <= Cursor(replies[n - 1])
    ensures exists i :: 0 <= i < n && k in Events(replies[i])
  {
    var last := replies[n - 1];
    CursorShape(last);
    if k > last.after {
      assert k in Events(last);
    } else {
      assert n > 1 ==> Continues(replies[n - 2], replies[n - 2 + 1]);
      PrefixCovers(replies, n - 1, k);
    }
  }

  /** A walk ends at the head of its last reply, except in one case: the last
      page was empty and events arrived between its two reads. Those are the
      only ones missing, and they arrived after the page was read. */
  lemma {:induction false} WalkEndsAtHead(replies: seq<Reply>)
    requires IsWalk(replies)
    ensures var last := replies[|replies| - 1];
            && (Cursor(last) >= last.head <==> !(Events(last) == [] && last.after < last.head))
            && (Cursor(last) < last.head ==> last.read <= Cursor(last))
  {
  }

  /** The shortest walk that ends below the head: nothing to read, and one event
      between the two reads. */
  lemma {:induction false} WalkCanEndShort() returns (replies: seq<Reply>)
    ensures IsWalk(replies) && replies == [Reply(0, 0, 1)]
    ensures Cursor(replies[0]) == 0 < replies[0].head
  {
    replies := [Reply(0, 0, 1)];
    CursorShape(replies[0]);
  }

  // ---------------------------------------------------------------------
  // The page being caught up
  // ---------------------------------------------------------------------

  /** What a transcript that started at `start` has seen and accounted for. */
  datatype View = View(seen: set<int>, contiguous: int)

  /** A batch of numbers accepted: a replay page, or live events. */
  function Accepted(v: View, batch: set<int>): View {
    View(v.seen + batch, Frontier(v.seen + batch, v.contiguous))
  }

  function AllAccepted(v: View, batches: seq<set<int>>): View {
    if batches == [] then v else Accepted(AllAccepted(v, batches[..|batches| - 1]), batches[|batches| - 1])
  }

  function Union(batches: seq<set<int>>): set<int> {
    if batches == [] then {} else Union(batches[..|batches| - 1]) + batches[|batches| - 1]
  }

  /** What a view ends up with does not depend on the order in which pages and
      live events came, or on how they overlapped: the numbers are those of all
      of them, and the cursor is the frontier of those. */
  lemma {:induction false} OrderDoesNotMatter(v: View, batches: seq<set<int>>)
    requires batches != []
    ensures AllAccepted(v, batches) == View(v.seen + Union(batches), Frontier(v.seen + Union(batches), v.contiguous))
  {
    var front, last := batches[..|batches| - 1], batches[|batches| - 1];
    if front == [] {
      assert Union(batches) == {} + last;
    } else {
      OrderDoesNotMatter(v, front);
      assert v.seen + Union(front) + last == v.seen + Union(batches);
      FrontierGrows(v.seen + Union(front), v.seen + Union(batches), v.contiguous);
    }
  }

  lemma {:induction false} UnionHolds(batches: seq<set<int>>, i: nat, k: int)
    requires i < |batches| && k in batches[i]
    ensures k in Union(batches)
  {
    if i < |batches| - 1 {
      UnionHolds(batches[..|batches| - 1], i, k);
    }
  }

  lemma {:induction false} FrontierPasses(seen: set<int>, from: int, to: int)
    requires from <= to && forall k :: from < k <= to ==> k in seen
    ensures to <= Frontier(seen, from)
  {
  }

  /** A walk from a cursor at or below `contiguous`, its pages taken in any order
      among any live events, leaves nothing missing up to its last cursor; and
      that is the head of its last reply, or every event missing below that
      head arrived while the walk was ending, for the live stream to bring. */
  lemma {:induction false} WalkCatchesUp(v: View, replies: seq<Reply>, batches: seq<set<int>>)
    requires IsWalk(replies) && replies[0].after <= v.contiguous
    requires forall i :: 0 <= i < |replies| ==> exists j :: 0 <= j < |batches| && forall k :: k in Events(replies[i]) ==> k in batches[j]
    ensures var last, v' := replies[|replies| - 1], AllAccepted(v, batches);
            && (forall k :: v.contiguous < k <= Cursor(last) ==> k in v'.seen)
            && Cursor(last) <= Most(v'.contiguous, v.contiguous)
            && (v'.contiguous < last.head ==> last.read <= v'.contiguous)
  {
    var last, v' := replies[|replies| - 1], AllAccepted(v, batches);
    OrderDoesNotMatter(v, batches);
    forall k | v.contiguous < k <= Cursor(last)
      ensures k in v'.seen
    {
      WalkCoversAll(replies, k);
      var i :| 0 <= i < |replies| && k in Events(replies[i]);
      var j :| 0 <= j < |batches| && forall x :: x in Events(replies[i]) ==> x in batches[j];
      UnionHolds(batches, j, k);
    }
    if v.contiguous < Cursor(last) {
      FrontierPasses(v'.seen, v.contiguous, Cursor(last));
    }
    WalkEndsAtHead(replies);
  }
}
