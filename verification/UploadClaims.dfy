/** Uploads on their way into messages: senders that claim them, the channel of
    the one runner, and what happens to a message whose runner dies.

    Every step is one that another may come between. `w.messages` remembers each
    message that ever claimed its uploads, and where it is now.
  */
module UploadClaims {
  import opened Options
  import opened UploadTable

  type MessageId = nat

  /** `Checking`: claimed, its sender is checking the copies. `Refused`: its
      sender has yet to hand the uploads back. `Unsent`: taken off the channel
      of a dead child, not handed back yet. `Dropped`: thrown away with the
      channel of a launch that failed. */
  datatype Place = Checking | Refused | Queued | Unsent | Delivered | Settled | Dropped

  datatype Message = Message(names: set<Name>, place: Place)

  /** The agent's slot in the registry and its command channel. The channel is
      there from the moment the slot is claimed; nothing reads it before the
      child has been spawned. */
  datatype Slot =
    | Empty
    | Launching(queue: seq<MessageId>)
    | Running(queue: seq<MessageId>)
    | Exiting(queue: seq<MessageId>)
    | Draining

  datatype World = World(rows: Rows, messages: map<MessageId, Message>, slot: Slot)

  datatype Step =
    | Insert(name: Name, client: Option<ClientId>)
    | Withdraw(name: Name)
    | ClaimFor(id: MessageId, names: seq<Name>)
    | CopyBad(id: MessageId)
    | Hand(id: MessageId)
    | HandBack(id: MessageId)
    | ClaimSlot
    | Spawned
    | SpawnFails
    | Take
    | ChildExits
    | CloseChannel
    | ReleaseUnsent

  predicate At(w: World, id: MessageId, place: Place) {
    id in w.messages && w.messages[id].place == place
  }

  function Moved(messages: map<MessageId, Message>, id: MessageId, place: Place): map<MessageId, Message>
    requires id in messages
  {
    messages[id := Message(messages[id].names, place)]
  }

  /** Every message at `from` moved to `to`. */
  function AllMoved(messages: map<MessageId, Message>, from: Place, to: Place): map<MessageId, Message> {
    map id | id in messages ::
      if messages[id].place == from then Message(messages[id].names, to) else messages[id]
  }

  /** The names of all messages at a place. */
  function NamesAt(messages: map<MessageId, Message>, place: Place): set<Name> {
    set id, n | id in messages && messages[id].place == place && n in messages[id].names :: n
  }

  predicate Open(slot: Slot) {
    slot.Launching? || slot.Running? || slot.Exiting?
  }

  function WithQueue(slot: Slot, queue: seq<MessageId>): Slot
    requires Open(slot)
  {
    match slot
    case Launching(_) => Launching(queue)
    case Running(_) => Running(queue)
    case _ => Exiting(queue)
  }

  predicate Enabled(w: World, step: Step) {
    match step
    case Insert(name, _) => name !in w.rows
    case Withdraw(name) => Pending(w.rows, name)
    case ClaimFor(id, names) => id !in w.messages && Claimable(w.rows, names)
    case CopyBad(id) => At(w, id, Checking)
    case Hand(id) => At(w, id, Checking)
    case HandBack(id) => At(w, id, Refused)
    case ClaimSlot => w.slot.Empty?
    case Spawned => w.slot.Launching?
    case SpawnFails => w.slot.Launching?
    case Take => w.slot.Running? && w.slot.queue != [] && w.slot.queue[0] in w.messages
    case ChildExits => w.slot.Running?
    case CloseChannel => w.slot.Exiting?
    case ReleaseUnsent => w.slot.Draining?
  }

  function After(w: World, step: Step): World
    requires Enabled(w, step)
  {
    match step
    case Insert(name, client) => w.(rows := w.rows[name := Row(client, false)])
    case Withdraw(name) => w.(rows := w.rows - {name})
    case ClaimFor(id, names) =>
      w.(rows := Marked(w.rows, NamesOf(names), true), messages := w.messages[id := Message(NamesOf(names), Checking)])
    case CopyBad(id) => w.(messages := Moved(w.messages, id, Refused))
    case Hand(id) =>
      if Open(w.slot)
      then w.(messages := Moved(w.messages, id, Queued), slot := WithQueue(w.slot, w.slot.queue + [id]))
      else w.(messages := Moved(w.messages, id, Refused))
    case HandBack(id) =>
      w.(rows := Marked(w.rows, w.messages[id].names, false), messages := Moved(w.messages, id, Settled))
    case ClaimSlot => w.(slot := Launching([]))
    case Spawned => w.(slot := Running(w.slot.queue))
    case SpawnFails => w.(slot := Empty, messages := AllMoved(w.messages, Queued, Dropped))
    case Take => w.(slot := Running(w.slot.queue[1..]), messages := Moved(w.messages, w.slot.queue[0], Delivered))
    case ChildExits => w.(slot := Exiting(w.slot.queue))
    case CloseChannel => w.(slot := Draining, messages := AllMoved(w.messages, Queued, Unsent))
    case ReleaseUnsent =>
      w.(slot := Empty, rows := Marked(w.rows, NamesAt(w.messages, Unsent), false),
         messages := AllMoved(w.messages, Unsent, Settled))
  }

  // ---------------------------------------------------------------------
  // Who holds an upload
  // ---------------------------------------------------------------------

  /** A message that still answers for its uploads, or that took them with it. */
  predicate Answers(place: Place) {
    !place.Settled?
  }

  predicate Has(w: World, id: MessageId, n: Name) {
    id in w.messages && n in w.messages[id].names && Answers(w.messages[id].place)
  }

  /** `id` is a live holder of `n`: an in-flight send, a queued one or a delivered message. */
  predicate Holds(w: World, id: MessageId, n: Name) {
    Has(w, id, n) && !w.messages[id].place.Dropped?
  }

  ghost predicate SomeoneHas(w: World, n: Name) {
    exists id :: Has(w, id, n)
  }

  ghost predicate QueueIsQueued(w: World) {
    && (Open(w.slot) ==>
          && (forall k :: 0 <= k < |w.slot.queue| ==> At(w, w.slot.queue[k], Queued))
          && (forall i, j :: 0 <= i < j < |w.slot.queue| ==> w.slot.queue[i] != w.slot.queue[j]))
    && (forall id :: At(w, id, Queued) ==> Open(w.slot) && id in w.slot.queue)
    && (forall id :: At(w, id, Unsent) ==> w.slot.Draining?)
  }

  /** A sent row is answered for by exactly one message, and a pending one by none. */
  ghost predicate Accounted(w: World) {
    && (forall n :: n in w.rows ==> (w.rows[n].sent <==> SomeoneHas(w, n)))
    && (forall id, n :: Has(w, id, n) ==> n in w.rows)
    && OneEach(w)
  }

  ghost predicate OneEach(w: World) {
    forall a, b, n :: Has(w, a, n) && Has(w, b, n) ==> a == b
  }

  ghost predicate Good(w: World) {
    QueueIsQueued(w) && Accounted(w)
  }

  const START := World(map[], map[], Empty)

  lemma {:induction false} StartIsGood()
    ensures Good(START)
  {
  }

  lemma {:induction false} TakeKeepsQueue(w: World)
    requires QueueIsQueued(w) && Enabled(w, Take)
    ensures QueueIsQueued(After(w, Take))
  {
    var w' := After(w, Take);
    QueueOneLess(w, w');
    assert forall id :: At(w', id, Queued) ==> At(w, id, Queued) && id != w.slot.queue[0];
    assert forall id :: At(w', id, Unsent) ==> At(w, id, Unsent);
  }

  /** The first message taken off an open channel. */
  lemma {:induction false} QueueOneLess(w: World, w': World)
    requires QueueIsQueued(w) && Open(w.slot) && w.slot.queue != [] && w.slot.queue[0] in w.messages
    requires w'.messages == Moved(w.messages, w.slot.queue[0], Delivered)
    requires Open(w'.slot) && w'.slot.queue == w.slot.queue[1..]
    ensures forall k :: 0 <= k < |w'.slot.queue| ==> At(w', w'.slot.queue[k], Queued)
    ensures forall i, j :: 0 <= i < j < |w'.slot.queue| ==> w'.slot.queue[i] != w'.slot.queue[j]
    ensures forall id :: At(w, id, Queued) && id != w.slot.queue[0] ==> id in w'.slot.queue
  {
  }

  lemma {:induction false} HandKeepsQueue(w: World, id: MessageId)
    requires QueueIsQueued(w) && Enabled(w, Hand(id))
    ensures QueueIsQueued(After(w, Hand(id)))
  {
    var w' := After(w, Hand(id));
    assert forall other :: At(w', other, Unsent) ==> At(w, other, Unsent);
    assert forall other :: At(w', other, Queued) ==> At(w, other, Queued) || (other == id && Open(w.slot));
    if Open(w.slot) {
      QueueOneMore(w, id, w');
    }
  }

  /** A message put at the end of an open channel. */
  lemma {:induction false} QueueOneMore(w: World, id: MessageId, w': World)
    requires QueueIsQueued(w) && Open(w.slot) && At(w, id, Checking)
    requires w'.messages == Moved(w.messages, id, Queued)
    requires Open(w'.slot) && w'.slot.queue == w.slot.queue + [id]
    ensures forall k :: 0 <= k < |w'.slot.queue| ==> At(w', w'.slot.queue[k], Queued)
    ensures forall i, j :: 0 <= i < j < |w'.slot.queue| ==> w'.slot.queue[i] != w'.slot.queue[j]
    ensures forall other :: At(w, other, Queued) || other == id ==> other in w'.slot.queue
  {
  }

  lemma {:induction false} StepKeepsQueue(w: World, step: Step)
    requires QueueIsQueued(w) && Enabled(w, step)
    ensures QueueIsQueued(After(w, step))
  {
    var w' := After(w, step);
    match step
    case Take => TakeKeepsQueue(w);
    case Hand(id) => HandKeepsQueue(w, id);
    case CloseChannel =>
    case SpawnFails =>
      assert forall id :: At(w', id, Unsent) ==> At(w, id, Unsent);
    case _ =>
      assert forall id :: At(w', id, Queued) ==> At(w, id, Queued);
      assert forall id :: At(w', id, Unsent) ==> At(w, id, Unsent);
  }

  /** Messages that only move, without anyone starting or ceasing to answer. */
  lemma {:induction false} MovesKeepAccounts(w: World, w': World)
    requires Accounted(w) && w'.rows == w.rows && w'.messages.Keys == w.messages.Keys
    requires forall id :: id in w.messages ==>
               w'.messages[id].names == w.messages[id].names
               && (Answers(w'.messages[id].place) <==> Answers(w.messages[id].place))
    ensures Accounted(w')
  {
    assert forall id, n :: Has(w', id, n) <==> Has(w, id, n);
    forall n | n in w'.rows
      ensures w'.rows[n].sent <==> SomeoneHas(w', n)
    {
      if SomeoneHas(w, n) {
        var id :| Has(w, id, n);
        assert Has(w', id, n);
      }
    }
  }

  /** Rows nobody answers for may come and go. */
  lemma {:induction false} PendingRowsKeepAccounts(w: World, w': World, name: Name)
    requires Accounted(w) && w'.messages == w.messages && !SomeoneHas(w, name)
    requires forall n :: n != name ==> (n in w'.rows <==> n in w.rows)
    requires forall n :: n in w'.rows && n != name ==> w'.rows[n] == w.rows[n]
    requires name in w'.rows ==> !w'.rows[name].sent
    ensures Accounted(w')
  {
    assert forall id, n :: Has(w', id, n) <==> Has(w, id, n);
    forall n | n in w'.rows
      ensures w'.rows[n].sent <==> SomeoneHas(w', n)
    {
      assert SomeoneHas(w', n) <==> SomeoneHas(w, n);
    }
  }

  lemma {:induction false} ClaimKeepsAccounts(w: World, id: MessageId, names: seq<Name>)
    requires Accounted(w) && Enabled(w, ClaimFor(id, names))
    ensures Accounted(After(w, ClaimFor(id, names)))
  {
    var w' := After(w, ClaimFor(id, names));
    forall n | n in names
      ensures Pending(w.rows, n) && !SomeoneHas(w, n)
    {
      var k :| 0 <= k < |names| && names[k] == n;
      assert Pending(w.rows, names[k]);
    }
    assert forall a, n :: Has(w', a, n) <==> Has(w, a, n) || (a == id && n in names);
    forall n | n in w'.rows
      ensures w'.rows[n].sent <==> SomeoneHas(w', n)
    {
      if n in names {
        assert Has(w', id, n);
      } else if SomeoneHas(w, n) {
        var a :| Has(w, a, n);
        assert Has(w', a, n);
      }
    }
  }

  /** Messages that are settled give up what they had, which nobody else had. */
  lemma {:induction false} ReleaseKeepsAccounts(w: World, w': World, names: set<Name>)
    requires Accounted(w) && w'.rows == Marked(w.rows, names, false)
    requires w'.messages.Keys == w.messages.Keys
    requires forall id :: id in w.messages ==> w'.messages[id].names == w.messages[id].names
    requires forall id :: id in w.messages ==>
               if Answers(w.messages[id].place) && !Answers(w'.messages[id].place) then w.messages[id].names <= names
               else (Answers(w'.messages[id].place) <==> Answers(w.messages[id].place))
    requires forall n :: n in names ==> exists id :: Has(w, id, n) && !Has(w', id, n)
    ensures Accounted(w')
  {
    assert forall id, n :: Has(w', id, n) ==> Has(w, id, n);
    forall n | n in w'.rows
      ensures w'.rows[n].sent <==> SomeoneHas(w', n)
    {
      if n in names {
        var id :| Has(w, id, n) && !Has(w', id, n);
        assert forall a :: Has(w', a, n) ==> Has(w, a, n) && a == id;
      } else if SomeoneHas(w, n) {
        var a :| Has(w, a, n);
        assert Has(w', a, n);
      }
    }
  }

  lemma {:induction false} HandBackKeepsAccounts(w: World, id: MessageId)
    requires Accounted(w) && Enabled(w, HandBack(id))
    ensures Accounted(After(w, HandBack(id)))
  {
    var w' := After(w, HandBack(id));
    forall n | n in w.messages[id].names
      ensures Has(w, id, n) && !Has(w', id, n)
    {
    }
    ReleaseKeepsAccounts(w, w', w.messages[id].names);
  }

  lemma {:induction false} UnsentKeepsAccounts(w: World)
    requires Accounted(w) && Enabled(w, ReleaseUnsent)
    ensures Accounted(After(w, ReleaseUnsent))
  {
    var w' := After(w, ReleaseUnsent);
    forall n | n in NamesAt(w.messages, Unsent)
      ensures exists id :: Has(w, id, n) && !Has(w', id, n)
    {
      var id :| id in w.messages && w.messages[id].place == Unsent && n in w.messages[id].names;
      assert Has(w, id, n) && !Has(w', id, n);
    }
    ReleaseKeepsAccounts(w, w', NamesAt(w.messages, Unsent));
  }

  /** Every step, in any order, keeps a sent upload answered for by exactly one message. */
  lemma {:induction false} StepKeepsGood(w: World, step: Step)
    requires Good(w) && Enabled(w, step)
    ensures Good(After(w, step))
  {
    StepKeepsQueue(w, step);
    match step
    case Insert(name, _) => PendingRowsKeepAccounts(w, After(w, step), name);
    case Withdraw(name) => PendingRowsKeepAccounts(w, After(w, step), name);
    case ClaimFor(id, names) => ClaimKeepsAccounts(w, id, names);
    case HandBack(id) => HandBackKeepsAccounts(w, id);
    case ReleaseUnsent => UnsentKeepsAccounts(w);
    case Take => MovesKeepAccounts(w, After(w, step));
    case _ => MovesKeepAccounts(w, After(w, step));
  }

  // ---------------------------------------------------------------------
  // What that comes to
  // ---------------------------------------------------------------------

  /** No message was thrown away with uploads in it. */
  ghost predicate NothingDropped(w: World) {
    forall id :: At(w, id, Dropped) ==> w.messages[id].names == {}
  }

  /** `n` has exactly one live holder. */
  ghost predicate OneHolder(w: World, n: Name) {
    exists id :: Holds(w, id, n) && forall other :: Holds(w, other, n) ==> other == id
  }

  /** A row is marked sent exactly when it has one live holder, and never has
      two; and that is so exactly as long as no message was dropped with uploads in it. */
  lemma {:induction false} SentExactlyWhenHeld(w: World)
    requires Good(w)
    ensures NothingDropped(w) <==> forall n :: n in w.rows ==> (w.rows[n].sent <==> OneHolder(w, n))
    ensures forall n, a, b :: Holds(w, a, n) && Holds(w, b, n) ==> a == b
  {
    if NothingDropped(w) {
      forall n | n in w.rows
        ensures w.rows[n].sent <==> OneHolder(w, n)
      {
        HeldWhenNotDropped(w, n);
      }
    } else {
      var id :| At(w, id, Dropped) && w.messages[id].names != {};
      var n :| n in w.messages[id].names;
      assert Has(w, id, n);
      assert n in w.rows && w.rows[n].sent;
      assert !OneHolder(w, n);
    }
  }

  lemma {:induction false} HeldWhenNotDropped(w: World, n: Name)
    requires Accounted(w) && NothingDropped(w) && n in w.rows
    ensures w.rows[n].sent <==> OneHolder(w, n)
  {
    if w.rows[n].sent {
      var id :| Has(w, id, n);
      assert w.messages[id].place.Dropped? ==> At(w, id, Dropped);
      assert Holds(w, id, n);
    }
  }

  /** The one step that can strand uploads: a launch fails while a message with
      attachments is already in its channel. */
  ghost predicate StrandsUploads(w: World, step: Step) {
    step.SpawnFails? && exists id :: At(w, id, Queued) && w.messages[id].names != {}
  }

  /** Whether uploads are stranded is decided by that step and no other. */
  lemma {:induction false} NothingDroppedExactlyUnlessStranded(w: World, step: Step)
    requires Enabled(w, step) && NothingDropped(w)
    ensures NothingDropped(After(w, step)) <==> !StrandsUploads(w, step)
  {
    var w' := After(w, step);
    if StrandsUploads(w, step) {
      var id :| At(w, id, Queued) && w.messages[id].names != {};
      assert At(w', id, Dropped);
    } else {
      forall id | At(w', id, Dropped)
        ensures w'.messages[id].names == {}
      {
        assert At(w, id, Dropped) || (step.SpawnFails? && At(w, id, Queued));
      }
    }
  }

  /** No message is on its way any more. */
  ghost predicate Quiet(w: World) {
    forall id :: id in w.messages ==>
      w.messages[id].place.Delivered? || w.messages[id].place.Settled? || w.messages[id].place.Dropped?
  }

  function SentRows(w: World): set<Name> {
    set n | n in w.rows && w.rows[n].sent
  }

  /** Once the runner has drained and every sender has settled, the rows marked
      sent are those in delivered messages, and those stranded by a failed launch. */
  lemma {:induction false} SentAreDelivered(w: World)
    requires Good(w) && Quiet(w)
    ensures SentRows(w) == NamesAt(w.messages, Delivered) + NamesAt(w.messages, Dropped)
    ensures NothingDropped(w) ==> SentRows(w) == NamesAt(w.messages, Delivered)
  {
    forall n
      ensures n in SentRows(w) <==> n in NamesAt(w.messages, Delivered) + NamesAt(w.messages, Dropped)
    {
      if n in w.rows && w.rows[n].sent {
        var id :| Has(w, id, n);
      }
      forall id | id in w.messages && n in w.messages[id].names && Answers(w.messages[id].place)
        ensures n in SentRows(w)
      {
        assert Has(w, id, n);
      }
    }
    assert NothingDropped(w) ==> forall id :: id in w.messages && w.messages[id].place == Dropped ==> At(w, id, Dropped);
  }

  // ---------------------------------------------------------------------
  // Whole runs
  // ---------------------------------------------------------------------

  ghost predicate IsRun(worlds: seq<World>, steps: seq<Step>) {
    && |worlds| == |steps| + 1
    && worlds[0] == START
    && forall i :: 0 <= i < |steps| ==> StepAt(worlds, steps, i)
  }

  ghost predicate StepAt(worlds: seq<World>, steps: seq<Step>, i: int) {
    && 0 <= i < |steps| && i + 1 < |worlds|
    && Enabled(worlds[i], steps[i]) && worlds[i + 1] == After(worlds[i], steps[i])
  }

  lemma {:induction false} RunIsGood(worlds: seq<World>, steps: seq<Step>, i: nat)
    requires IsRun(worlds, steps) && i <= |steps|
    ensures Good(worlds[i])
  {
    if i == 0 {
      StartIsGood();
    } else {
      RunIsGood(worlds, steps, i - 1);
      assert StepAt(worlds, steps, i - 1);
      StepKeepsGood(worlds[i - 1], steps[i - 1]);
    }
  }

  lemma {:induction false} RunDropsNothing(worlds: seq<World>, steps: seq<Step>, i: nat)
    requires IsRun(worlds, steps) && i <= |steps|
    requires forall k :: 0 <= k < i ==> !StrandsUploads(worlds[k], steps[k])
    ensures NothingDropped(worlds[i])
  {
    if i > 0 {
      RunDropsNothing(worlds, steps, i - 1);
      assert StepAt(worlds, steps, i - 1);
      NothingDroppedExactlyUnlessStranded(worlds[i - 1], steps[i - 1]);
    }
  }

  /** Over every interleaving in which no launch fails under a message with
      attachments: a row is sent exactly when it has one live holder, and at
      quiescence the sent rows are the delivered ones. */
  lemma {:induction false} UploadsAreConserved(worlds: seq<World>, steps: seq<Step>, i: nat)
    requires IsRun(worlds, steps) && i <= |steps|
    requires forall k :: 0 <= k < i ==> !StrandsUploads(worlds[k], steps[k])
    ensures forall n :: n in worlds[i].rows ==> (worlds[i].rows[n].sent <==> OneHolder(worlds[i], n))
    ensures forall n, a, b :: Holds(worlds[i], a, n) && Holds(worlds[i], b, n) ==> a == b
    ensures Quiet(worlds[i]) ==> SentRows(worlds[i]) == NamesAt(worlds[i].messages, Delivered)
  {
    RunIsGood(worlds, steps, i);
    RunDropsNothing(worlds, steps, i);
    SentExactlyWhenHeld(worlds[i]);
    if Quiet(worlds[i]) {
      SentAreDelivered(worlds[i]);
    }
  }

  lemma {:induction false} RestingStays(w: World, step: Step, id: MessageId, place: Place)
    requires Enabled(w, step) && At(w, id, place) && (place.Delivered? || place.Dropped? || place.Settled?)
    requires QueueIsQueued(w)
    ensures At(After(w, step), id, place) && After(w, step).messages[id].names == w.messages[id].names
  {
  }

  /** What was delivered stays delivered: at every later instant its uploads are
      in the table, marked sent, and with no other message. The same goes for
      what was dropped, which therefore can never be sent again or withdrawn. */
  lemma {:induction false} DeliveredForGood(worlds: seq<World>, steps: seq<Step>, i: nat, j: nat, id: MessageId, place: Place)
    requires IsRun(worlds, steps) && i <= j <= |steps|
    requires At(worlds[i], id, place) && (place.Delivered? || place.Dropped?)
    ensures At(worlds[j], id, place) && worlds[j].messages[id].names == worlds[i].messages[id].names
    ensures forall n :: n in worlds[i].messages[id].names ==>
              && n in worlds[j].rows && worlds[j].rows[n].sent
              && forall other :: Has(worlds[j], other, n) ==> other == id
    decreases j
  {
    if i < j {
      DeliveredForGood(worlds, steps, i, j - 1, id, place);
      RunIsGood(worlds, steps, j - 1);
      assert StepAt(worlds, steps, j - 1);
      RestingStays(worlds[j - 1], steps[j - 1], id, place);
    }
    RunIsGood(worlds, steps, j);
    AnsweredForRows(worlds[j], id);
  }

  lemma {:induction false} AnsweredForRows(w: World, id: MessageId)
    requires Accounted(w) && id in w.messages && Answers(w.messages[id].place)
    ensures forall n :: n in w.messages[id].names ==>
              n in w.rows && w.rows[n].sent && forall other :: Has(w, other, n) ==> other == id
  {
    forall n | n in w.messages[id].names
      ensures n in w.rows && w.rows[n].sent && forall other :: Has(w, other, n) ==> other == id
    {
      assert Has(w, id, n);
    }
  }

  /** A failed launch can strand an upload: it is sent to an agent that is being
      launched, the launch fails, and it stays marked sent with nobody holding it. */
  lemma {:induction false} FailedLaunchStrandsUpload(n: Name, id: MessageId) returns (steps: seq<Step>, worlds: seq<World>)
    ensures IsRun(worlds, steps) && |steps| == 5
    ensures steps == [Insert(n, None), ClaimSlot, ClaimFor(id, [n]), Hand(id), SpawnFails]
    ensures n in worlds[5].rows && worlds[5].rows[n].sent && Quiet(worlds[5])
    ensures forall other :: !Holds(worlds[5], other, n)
  {
    steps := [Insert(n, None), ClaimSlot, ClaimFor(id, [n]), Hand(id), SpawnFails];
    var w1 := After(START, steps[0]);
    var w2 := After(w1, steps[1]);
    assert n in NamesOf([n]);
    assert Claimable(w2.rows, [n]);
    var w3 := After(w2, steps[2]);
    var w4 := After(w3, steps[3]);
    var w5 := After(w4, steps[4]);
    worlds := [START, w1, w2, w3, w4, w5];
  }
}
