/** The table of one agent's uploads, and the cancels waiting for uploads that
    are not recorded yet. Each method is one transaction.
  */
module UploadTable {
  import opened Options

  /** The name of an upload; names that fold to the same key are one name. */
  type Name = nat

  /** What the page calls an upload before it has a name. */
  type ClientId = nat

  const UPLOAD_CANCEL_TTL_MS := 60 * 60 * 1000

  /** The most files one message carries. */
  const MAX_ATTACHMENTS := 32

  datatype Row = Row(clientId: Option<ClientId>, sent: bool)

  type Rows = map<Name, Row>

  datatype Recorded = Inserted | Taken | Cancelled

  datatype Claim = Claimed(names: seq<Name>) | AlreadySent(name: Name) | NotAnUpload(name: Name)

  predicate Pending(rows: Rows, name: Name) {
    name in rows && !rows[name].sent
  }

  predicate Distinct(names: seq<Name>) {
    forall i, j :: 0 <= i < j < |names| ==> names[i] != names[j]
  }

  /** Can all of `names` be claimed for one message? */
  predicate Claimable(rows: Rows, names: seq<Name>) {
    Distinct(names) && forall i :: 0 <= i < |names| ==> Pending(rows, names[i])
  }

  /** The rows of `names` marked sent or not, and the others as they were. */
  function Marked(rows: Rows, names: set<Name>, sent: bool): Rows {
    map n | n in rows :: if n in names then Row(rows[n].clientId, sent) else rows[n]
  }

  function NamesOf(names: seq<Name>): set<Name> {
    set n | n in names
  }

  /** The cancels whose time has not run out. */
  function Fresh(cancels: map<ClientId, int>, now: int): map<ClientId, int> {
    map c | c in cancels && now - UPLOAD_CANCEL_TTL_MS <= cancels[c] :: cancels[c]
  }

  predicate Names(rows: Rows, client: ClientId) {
    exists n :: n in rows && rows[n].clientId == Some(client)
  }

  /** No two uploads carry the same client id. */
  predicate OneRowEach(rows: Rows) {
    forall n, m :: n in rows && m in rows && n != m && rows[n].clientId.Some? ==> rows[n].clientId != rows[m].clientId
  }

  datatype Table = Table(rows: Rows, cancels: map<ClientId, int>)

  predicate IsCancelled(t: Table, client: Option<ClientId>) {
    client.Some? && client.value in t.cancels
  }

  /** The table after a finished upload asked to be recorded. */
  function AfterRecord(t: Table, name: Name, client: Option<ClientId>): Table {
    if IsCancelled(t, client) then Table(t.rows, t.cancels - {client.value})
    else if name in t.rows then t
    else Table(t.rows[name := Row(client, false)], t.cancels)
  }

  /** The table after a cancel by the page's id, `withdrawn` being the upload it withdrew. */
  predicate CancelStep(t: Table, client: ClientId, now: int, withdrawn: Option<Name>, t': Table) {
    match withdrawn
    case Some(name) =>
      && Pending(t.rows, name) && t.rows[name].clientId == Some(client)
      && t' == Table(t.rows - {name}, Fresh(t.cancels, now))
    case None =>
      && t'.rows == t.rows
      && (OneRowEach(t.rows) ==> forall n :: n in t.rows && t.rows[n].clientId == Some(client) ==> t.rows[n].sent)
      && t'.cancels == if Names(t.rows, client) then Fresh(t.cancels, now) else Fresh(t.cancels, now)[client := now]
  }

  class Uploads {
    var rows: Rows
    var cancels: map<ClientId, int>

    function State(): Table
      reads this
    {
      Table(rows, cancels)
    }

    constructor ()
      ensures State() == Table(map[], map[])
    {
      rows, cancels := map[], map[];
    }

    /** Record a finished upload, unless the page already cancelled it or its
        name is taken. */
    method RecordUpload(name: Name, client: Option<ClientId>) returns (r: Recorded)
      modifies this
      ensures State() == AfterRecord(old(State()), name, client)
      ensures r == if IsCancelled(old(State()), client) then Cancelled else if name in old(rows) then Taken else Inserted
    {
      if client.Some? && client.value in cancels {
        cancels := cancels - {client.value};
        return Cancelled;
      }
      if name in rows {
        return Taken;
      }
      rows := rows[name := Row(client, false)];
      r := Inserted;
    }

    /** Cancel by client id: a pending row is withdrawn, and with no row at all the
        cancel itself is kept. */
    method CancelByClientId(client: ClientId, now: int) returns (withdrawn: Option<Name>)
      modifies this
      ensures CancelStep(old(State()), client, now, withdrawn, State())
      ensures forall c :: c in cancels <==>
                || (c == client && !Names(old(rows), client))
                || (c in old(cancels) && now - old(cancels)[c] <= 3_600_000)
      ensures forall c :: c in cancels ==> cancels[c] == if c == client && !Names(old(rows), client) then now else old(cancels)[c]
    {
      cancels := Fresh(cancels, now);
      if Names(rows, client) {
        var name :| name in rows && rows[name].clientId == Some(client);
        if rows[name].sent {
          // Part of the transcript, not the page's to cancel.
          return None;
        }
        rows := rows - {name};
        return Some(name);
      }
      cancels := cancels[client := now];
      withdrawn := None;
    }

    /** Delete a row, if it is there and pending. */
    method DeletePendingUpload(name: Name) returns (ok: bool)
      modifies this`rows
      ensures ok == Pending(old(rows), name)
      ensures rows == if ok then old(rows) - {name} else old(rows)
    {
      ok := name in rows && !rows[name].sent;
      if ok {
        rows := rows - {name};
      }
    }

    /** Mark every one of `names` sent, or change nothing and say which one was in the way. */
    method ClaimUploads(names: seq<Name>) returns (r: Claim)
      modifies this`rows
      ensures r.Claimed? <==> Claimable(old(rows), names)
      ensures r.Claimed? ==> r.names == names && rows == Marked(old(rows), NamesOf(names), true)
      ensures !r.Claimed? ==> rows == old(rows)
      ensures r.NotAnUpload? ==> r.name in names && r.name !in rows
      ensures r.AlreadySent? ==> r.name in names && r.name in rows && (rows[r.name].sent || !Distinct(names))
    {
      // What the transaction has done so far; dropped unless it gets to the end.
      var tx := rows;
      var claimed: seq<Name> := [];
      for i := 0 to |names|
        invariant rows == old(rows)
        invariant claimed == names[..i]
        invariant Claimable(rows, names[..i])
        invariant tx == Marked(rows, NamesOf(names[..i]), true)
      {
        var name := names[i];
        assert names[..i + 1] == names[..i] + [name];
        if name !in tx || tx[name].sent {
          assert name in names[..i] ==> !Distinct(names);
          assert names[i] == name && !Claimable(rows, names);
          return if name in tx then AlreadySent(name) else NotAnUpload(name);
        }
        tx := tx[name := Row(tx[name].clientId, true)];
        claimed := claimed + [name];
      }
      assert names[..|names|] == names;
      rows := tx;
      r := Claimed(claimed);
    }

    /** Hand claimed uploads back: the message carrying them never got there. */
    method ReleaseUploads(names: seq<Name>)
      modifies this`rows
      ensures rows == Marked(old(rows), NamesOf(names), false)
    {
      for i := 0 to |names|
        invariant rows == Marked(old(rows), NamesOf(names[..i]), false)
      {
        var name := names[i];
        assert names[..i + 1] == names[..i] + [name];
        if name in rows {
          rows := rows[name := Row(rows[name].clientId, false)];
        }
      }
      assert names[..|names|] == names;
    }
  }

  /** The first place of a name, or the length of the list. */
  function FirstAt(names: seq<Name>, n: Name): nat {
    if names == [] || names[0] == n then 0 else 1 + FirstAt(names[1..], n)
  }

  /** `kept` are in the order in which they first come up. */
  predicate InOrderOf(kept: seq<Name>, names: seq<Name>) {
    forall i, j :: 0 <= i < j < |kept| ==> FirstAt(names, kept[i]) < FirstAt(names, kept[j])
  }

  lemma {:induction false} FirstAtLonger(names: seq<Name>, last: Name, n: Name)
    ensures FirstAt(names + [last], n) == if n in names || n == last then FirstAt(names, n) else |names| + 1
    ensures n in names <==> FirstAt(names, n) < |names|
    ensures n !in names ==> FirstAt(names, n) == |names|
  {
    if names != [] {
      assert (names + [last])[1..] == names[1..] + [last];
      assert names == [names[0]] + names[1..];
      FirstAtLonger(names[1..], last, n);
    }
  }

  /** `kept` are the distinct ones of `names`, in that order. */
  predicate FirstOnes(kept: seq<Name>, names: seq<Name>) {
    Distinct(kept) && NamesOf(kept) == NamesOf(names) && InOrderOf(kept, names)
  }

  lemma {:induction false} FirstOnesLonger(kept: seq<Name>, names: seq<Name>, n: Name)
    requires FirstOnes(kept, names)
    ensures FirstOnes(if n in NamesOf(kept) then kept else kept + [n], names + [n])
  {
    assert n in NamesOf(kept) <==> n in NamesOf(names);
    assert NamesOf(names + [n]) == NamesOf(names) + {n};
    InOrderLonger(kept, names, n);
  }

  lemma {:induction false} InOrderLonger(kept: seq<Name>, names: seq<Name>, n: Name)
    requires InOrderOf(kept, names) && NamesOf(kept) == NamesOf(names)
    ensures InOrderOf(if n in names then kept else kept + [n], names + [n])
  {
    forall i | 0 <= i < |kept|
      ensures FirstAt(names + [n], kept[i]) == FirstAt(names, kept[i]) < |names|
    {
      assert kept[i] in NamesOf(kept);
      FirstAtLonger(names, n, kept[i]);
    }
    FirstAtLonger(names, n, n);
  }

  /** The distinct names of a message, in the order first given; too many are refused. */
  method AttachmentNames(attachments: seq<Name>) returns (names: Option<seq<Name>>)
    ensures names.Some? ==> Distinct(names.value) && NamesOf(names.value) == NamesOf(attachments)
    ensures names.Some? ==> InOrderOf(names.value, attachments)
    ensures names.Some? <==> |NamesOf(attachments)| <= 32
  {
    var seen: set<Name> := {};
    var kept: seq<Name> := [];
    for i := 0 to |attachments|
      invariant seen == NamesOf(kept) && |seen| == |kept|
      invariant FirstOnes(kept, attachments[..i])
    {
      assert attachments[..i + 1] == attachments[..i] + [attachments[i]];
      FirstOnesLonger(kept, attachments[..i], attachments[i]);
      if attachments[i] !in seen {
        seen := seen + {attachments[i]};
        kept := kept + [attachments[i]];
      }
    }
    assert attachments[..|attachments|] == attachments;
    names := if |kept| > MAX_ATTACHMENTS then None else Some(kept);
  }

  /** Claiming and then releasing the same uploads changes nothing. */
  lemma {:induction false} ReleaseUndoesClaim(rows: Rows, names: seq<Name>)
    requires Claimable(rows, names)
    ensures Marked(Marked(rows, NamesOf(names), true), NamesOf(names), false) == rows
  {
  }

  /** A cancel that races the recording of its upload wins either way: whichever
      comes first, the upload is not in the table, and no cancel is left over. */
  lemma {:induction false} CancelWinsEitherWay(
    t: Table, name: Name, client: ClientId, now: int, cancelFirst: Table, withdrawn: Option<Name>, recordFirst: Table)
    requires OneRowEach(t.rows) && !Names(t.rows, client) && client !in t.cancels && name !in t.rows
    requires CancelStep(t, client, now, None, cancelFirst)
    requires CancelStep(AfterRecord(t, name, Some(client)), client, now, withdrawn, recordFirst)
    ensures withdrawn == Some(name)
    ensures AfterRecord(cancelFirst, name, Some(client)) == recordFirst == Table(t.rows, Fresh(t.cancels, now))
  {
    var rows := AfterRecord(t, name, Some(client)).rows;
    assert rows[name].clientId == Some(client);
    assert OneRowEach(rows);
    assert cancelFirst.cancels - {client} == Fresh(t.cancels, now);
    assert rows - {name} == t.rows;
  }
}
