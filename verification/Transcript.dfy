/** What a page has seen of an agent's events, and from where it reconnects. */
module Transcripts {
  import opened Options

  /** An event as it arrives; `number` is nothing when it carries no usable one. */
  datatype Event = Event(number: Option<int>, body: nat)

  predicate Numbered(e: Event) {
    e.number.Some?
  }

  /** The numbers of some events. */
  function Numbers(events: seq<Event>): set<int> {
    set e | e in events && Numbered(e) :: e.number.value
  }

  predicate InOrder(events: seq<Event>) {
    && (forall i :: 0 <= i < |events| ==> Numbered(events[i]))
    && forall i, j :: 0 <= i < j < |events| ==> events[i].number.value < events[j].number.value
  }

  function Above(seen: set<int>, from: int): set<int> {
    set x | x in seen && x > from
  }

  /** How far numbers go on without a gap from `from`. */
  function Frontier(seen: set<int>, from: int): (f: int)
    ensures from <= f && f + 1 !in seen
    ensures forall k :: from < k <= f ==> k in seen
    decreases Above(seen, from)
  {
    if from + 1 in seen then
      assert Above(seen, from + 1) < Above(seen, from) by {
        assert from + 1 in Above(seen, from) && from + 1 !in Above(seen, from + 1);
        assert Above(seen, from + 1) <= Above(seen, from);
      }
      Frontier(seen, from + 1)
    else from
  }

  /** The frontier is where it is whatever point of it one starts from. */
  lemma {:induction false} FrontierFromWithin(seen: set<int>, from: int, mid: int)
    requires from <= mid && forall k :: from < k <= mid ==> k in seen
    ensures Frontier(seen, from) == Frontier(seen, mid)
    decreases mid - from
  {
  }

  lemma {:induction false} FrontierGrows(seen: set<int>, more: set<int>, from: int)
    requires seen <= more
    ensures Frontier(more, from) == Frontier(more, Frontier(seen, from))
  {
  }

  /** `max` is the highest number seen, or where the view starts. */
  predicate IsTop(seen: set<int>, max: int, start: int) {
    (forall k :: k in seen ==> k <= max) && (max in seen || max == start)
  }

  /** `earliest` is the lowest number seen. */
  predicate IsFirst(seen: set<int>, earliest: Option<int>) {
    && (earliest.None? <==> seen == {})
    && (earliest.Some? ==> earliest.value in seen && forall k :: k in seen ==> earliest.value <= k)
  }

  class Transcript {
    var seen: set<int>
    var contiguous: int
    var max: int
    var earliest: Option<int>
    var seeded: bool
    /** Everything handed out to be rendered, in the order it was. */
    ghost var rendered: seq<Event>
    /** Where the view starts: 0 until it is seeded. */
    ghost var start: int

    /** Every number seen has been rendered once, nothing else has, and
        `contiguous` never passes a number that is missing above the start. */
    ghost predicate Valid()
      reads this
    {
      && 0 <= start <= contiguous <= max
      && (!seeded ==> start == 0)
      && (forall k :: start < k <= contiguous ==> k in seen)
      && IsTop(seen, max, start)
      && IsFirst(seen, earliest)
      && RenderedOnce(rendered, seen)
    }

    constructor ()
      ensures Valid() && !seeded && seen == {} && start == 0
    {
      seen, contiguous, max, earliest, seeded := {}, 0, 0, None, false;
      rendered, start := [], 0;
    }

    /** Begin the view just above `after`; only the first call has an effect. */
    method Seed(after: Option<int>)
      requires Valid()
      modifies this
      ensures Valid() && seeded && seen == old(seen) && rendered == old(rendered)
      ensures old(seeded) ==> start == old(start) && contiguous == old(contiguous) && max == old(max)
      ensures !old(seeded) ==>
                && start == (if after.Some? && after.value > 0 then after.value else 0)
                && contiguous == (if old(contiguous) < start then start else old(contiguous))
    {
      if seeded {
        return;
      }
      seeded := true;
      var from := if after.Some? && after.value > 0 then after.value else 0;
      start := from;
      if from > contiguous {
        contiguous := from;
      }
      if from > max {
        max := from;
      }
    }

    /** Record events and return the new ones, in order. */
    method Accept(events: seq<Event>) returns (news: seq<Event>)
      requires Valid()
      modifies this
      ensures Valid() && start == old(start) && seeded == old(seeded)
      ensures seen == old(seen) + Numbers(events)
      ensures InOrder(news) && Numbers(news) == Numbers(events) - old(seen)
      ensures forall e :: e in news ==> e in events
      ensures rendered == old(rendered) + news
      ensures contiguous == Frontier(seen, old(contiguous))
    {
      news := Record(events);
      RenderedMore(rendered, old(seen), news);
      assert RenderedOnce(rendered + news, seen);
      rendered := rendered + news;
      assert forall k :: start < k <= contiguous ==> k in seen;
      Advance();
    }

    /** Move `contiguous` up to the next missing number. */
    method Advance()
      requires 0 <= contiguous <= max && forall k :: k in seen ==> k <= max
      modifies this`contiguous
      ensures contiguous == Frontier(seen, old(contiguous)) <= max
    {
      ghost var from := contiguous;
      while contiguous + 1 in seen
        invariant from <= contiguous <= max
        invariant forall k :: from < k <= contiguous ==> k in seen
        decreases max - contiguous
      {
        contiguous := contiguous + 1;
      }
      FrontierFromWithin(seen, from, contiguous);
    }

    /** Note the events not seen before, and give them back in order. */
    method Record(events: seq<Event>) returns (news: seq<Event>)
      requires Valid()
      modifies this`seen, this`max, this`earliest
      ensures seen == old(seen) + Numbers(events)
      ensures InOrder(news) && Numbers(news) == Numbers(events) - old(seen)
      ensures forall e :: e in news ==> e in events
      ensures old(max) <= max && IsTop(seen, max, start) && IsFirst(seen, earliest)
    {
      news := [];
      for i := 0 to |events|
        invariant seen == old(seen) + Numbers(events[..i])
        invariant InOrder(news) && Numbers(news) == Numbers(events[..i]) - old(seen)
        invariant forall e :: e in news ==> e in events
        invariant old(max) <= max && IsTop(seen, max, start) && IsFirst(seen, earliest)
      {
        NumbersOneMore(events[..i], events[i]);
        assert events[..i + 1] == events[..i] + [events[i]];
        var isNew := Note(events[i]);
        if isNew {
          news := Inserted(news, events[i]);
        }
      }
      assert events[..|events|] == events;
    }

    /** Note one event, unless it has no number or one already seen. */
    method Note(event: Event) returns (isNew: bool)
      requires IsTop(seen, max, start) && IsFirst(seen, earliest)
      modifies this`seen, this`max, this`earliest
      ensures isNew == (Numbered(event) && event.number.value !in old(seen))
      ensures seen == old(seen) + if Numbered(event) then {event.number.value} else {}
      ensures old(max) <= max && IsTop(seen, max, start) && IsFirst(seen, earliest)
    {
      isNew := event.number.Some? && event.number.value !in seen;
      if isNew {
        var n := event.number.value;
        seen := seen + {n};
        if n > max {
          max := n;
        }
        if earliest.None? || n < earliest.value {
          earliest := Some(n);
        }
      }
    }
  }

  lemma {:induction false} NumbersOneMore(events: seq<Event>, e: Event)
    ensures Numbers(events + [e]) == Numbers(events) + (if Numbered(e) then {e.number.value} else {})
  {
  }

  /** Every number in `seen` was rendered exactly once, and no other was. */
  predicate RenderedOnce(rendered: seq<Event>, seen: set<int>) {
    && (forall i :: 0 <= i < |rendered| ==> Numbered(rendered[i]) && rendered[i].number.value in seen)
    && (forall k :: k in seen ==> k in Numbers(rendered))
    && forall i, j :: 0 <= i < j < |rendered| ==> rendered[i].number != rendered[j].number
  }

  lemma {:induction false} RenderedMore(rendered: seq<Event>, seen: set<int>, news: seq<Event>)
    requires RenderedOnce(rendered, seen) && InOrder(news) && Numbers(news) !! seen
    ensures RenderedOnce(rendered + news, seen + Numbers(news))
  {
  }

  /** An event put in its place among events in order. */
  method Inserted(events: seq<Event>, e: Event) returns (out: seq<Event>)
    requires InOrder(events) && Numbered(e) && e.number.value !in Numbers(events)
    ensures InOrder(out) && Numbers(out) == Numbers(events) + {e.number.value}
    ensures forall x :: x in out <==> x in events || x == e
  {
    var at := |events|;
    while at > 0 && events[at - 1].number.value > e.number.value
      invariant 0 <= at <= |events|
      invariant forall k :: at <= k < |events| ==> events[k].number.value > e.number.value
    {
      at := at - 1;
    }
    out := events[..at] + [e] + events[at..];
    PlacedInOrder(events, e, at);
  }

  lemma {:induction false} PlacedInOrder(events: seq<Event>, e: Event, at: nat)
    requires InOrder(events) && Numbered(e) && e.number.value !in Numbers(events) && at <= |events|
    requires forall k :: at <= k < |events| ==> events[k].number.value > e.number.value
    requires at > 0 ==> events[at - 1].number.value <= e.number.value
    ensures var out := events[..at] + [e] + events[at..];
            && InOrder(out) && Numbers(out) == Numbers(events) + {e.number.value}
            && forall x :: x in out <==> x in events || x == e
  {
    var out := events[..at] + [e] + events[at..];
    SameMembers(events, e, at);
    SameNumbers(events, e, out);
    assert at > 0 ==> events[at - 1] in events;
    PlacedKeepsOrder(events, e, at);
  }

  lemma {:induction false} PlacedKeepsOrder(events: seq<Event>, e: Event, at: nat)
    requires InOrder(events) && Numbered(e) && at <= |events|
    requires at < |events| ==> e.number.value < events[at].number.value
    requires at > 0 ==> events[at - 1].number.value < e.number.value
    ensures InOrder(events[..at] + [e] + events[at..])
  {
    var out := events[..at] + [e] + events[at..];
    forall k | 0 <= k < |out|
      ensures out[k] == if k < at then events[k] else if k == at then e else events[k - 1]
    {
    }
    forall i, j | 0 <= i < j < |out|
      ensures out[i].number.value < out[j].number.value
    {
    }
  }

  lemma {:induction false} SameNumbers(events: seq<Event>, e: Event, out: seq<Event>)
    requires Numbered(e) && forall x :: x in out <==> x in events || x == e
    ensures Numbers(out) == Numbers(events) + {e.number.value}
  {
  }

  lemma {:induction false} SameMembers(events: seq<Event>, e: Event, at: nat)
    requires at <= |events|
    ensures forall x :: x in events[..at] + [e] + events[at..] <==> x in events || x == e
  {
  }
}
