/**
  * Autonomous replay after a heal: the batched outbox, with a crash possible before every write and every publication.
  */
module Outbox {
  import opened Bytes
  import opened Types

  datatype EventStatus =
    | OrphanedOwn | ReplayPending | ReplayEnqueued | Replayed
    | ReplayFailed | WaitingAuthorReplay | Unrecoverable

  datatype Failure = DidNotOpen | DidNotEncrypt

  /** One message of the losing branch. `operation` names the outbound entry that carries it. */
  datatype AppEvent = AppEvent(
    id: string, author: string, sealed: Bytes, nonce: Bytes, ts: Timestamp,
    status: EventStatus, attempts: nat, operation: Option<nat>, failure: Option<Failure>)

  datatype Payload = Payload(eventId: string, plaintext: Bytes, ts: Timestamp)

  datatype OutboundStatus = Enqueued | Broadcasted

  /** An encrypted batch, known by what it decrypts to. */
  datatype Outbound = Outbound(batch: seq<Payload>, status: OutboundStatus)

  type Opener = (Bytes, Bytes) -> Option<Bytes>

  const MAX_BATCH_SIZE := 50

  predicate HasPayload(e: AppEvent) {
    e.sealed != [] && e.nonce != []
  }

  predicate Opens(open: Opener, e: AppEvent) {
    HasPayload(e) && open(e.sealed, e.nonce).Some?
  }

  function PayloadOf(open: Opener, e: AppEvent): Payload
    requires Opens(open, e)
  {
    Payload(e.id, open(e.sealed, e.nonce).value, e.ts)
  }

  /** What no write ever changes about an event; other authors' payloads may only be erased. */
  predicate Kept(local: string, a: AppEvent, b: AppEvent) {
    && a.id == b.id && a.author == b.author && a.ts == b.ts
    && (a.author == local ==> a.sealed == b.sealed && a.nonce == b.nonce)
    && (b.status.Unrecoverable? ==> a.status.Unrecoverable?)
    && (a.author != local ==> b.operation.None?)
  }

  /** The payload is that of an own event of the job. */
  ghost predicate Own(local: string, open: Opener, origin: seq<AppEvent>, p: Payload) {
    exists k ::
      0 <= k < |origin| && origin[k].author == local && Opens(open, origin[k]) && p == PayloadOf(open, origin[k])
  }

  ghost predicate OwnBatch(local: string, open: Opener, origin: seq<AppEvent>, batch: seq<Payload>) {
    && 0 < |batch| <= MAX_BATCH_SIZE
    && forall p :: p in batch ==> Own(local, open, origin, p)
  }

  /** The event is paired with an outbound entry that carries its payload. */
  predicate Paired(open: Opener, outbound: seq<Outbound>, e: AppEvent) {
    && Opens(open, e) && e.operation.Some? && e.operation.value < |outbound|
    && PayloadOf(open, e) in outbound[e.operation.value].batch
  }

  /** The payload is in one of the batches. */
  predicate Among(batches: seq<seq<Payload>>, p: Payload) {
    exists i :: 0 <= i < |batches| && p in batches[i]
  }

  /** A stored status of an own event is always backed by what has happened. */
  predicate Justified(local: string, open: Opener, outbound: seq<Outbound>, refused: seq<seq<Payload>>, e: AppEvent) {
    && (e.operation.Some? ==> e.author == local && (e.status.ReplayEnqueued? || e.status.Replayed?))
    && (e.author == local ==>
          match e.status
          case ReplayEnqueued => Paired(open, outbound, e)
          case Replayed => Paired(open, outbound, e) && outbound[e.operation.value].status.Broadcasted?
          case ReplayFailed =>
            HasPayload(e)
              && (if Opens(open, e) then Among(refused, PayloadOf(open, e)) else e.failure == Some(DidNotOpen))
          case WaitingAuthorReplay => !HasPayload(e)
          case _ => true)
  }

  /** Entries are only added, and a broadcast is never taken back. */
  predicate Extends(before: seq<Outbound>, after: seq<Outbound>) {
    && |before| <= |after|
    && forall o :: 0 <= o < |before| ==>
         after[o].batch == before[o].batch && (before[o].status.Broadcasted? ==> after[o].status.Broadcasted?)
  }

  lemma JustifiedKept(local: string, open: Opener, outbound: seq<Outbound>, refused: seq<seq<Payload>>,
                      outbound': seq<Outbound>, refused': seq<seq<Payload>>, es: seq<AppEvent>)
    requires Extends(outbound, outbound') && refused <= refused'
    requires forall k :: 0 <= k < |es| ==> Justified(local, open, outbound, refused, es[k])
    ensures forall k :: 0 <= k < |es| ==> Justified(local, open, outbound', refused', es[k])
  {
    forall k | 0 <= k < |es|
      ensures Justified(local, open, outbound', refused', es[k])
    {
      assert Justified(local, open, outbound, refused, es[k]);
    }
  }

  lemma ReplayedJustified(local: string, open: Opener, outbound: seq<Outbound>, refused: seq<seq<Payload>>, e: AppEvent,
                          o: nat)
    requires Justified(local, open, outbound, refused, e) && e.operation == Some(o)
    requires o < |outbound| && outbound[o].status.Broadcasted?
    ensures Justified(local, open, outbound, refused, e.(status := Replayed)) && Kept(local, e, e.(status := Replayed))
  {
  }

  lemma FailedJustified(local: string, open: Opener, outbound: seq<Outbound>, refused: seq<seq<Payload>>, e: AppEvent)
    requires Justified(local, open, outbound, refused, e) && Waiting(local, e) && Opens(open, e)
    requires Among(refused, PayloadOf(open, e))
    ensures Justified(local, open, outbound, refused, Failed(e, DidNotEncrypt))
    ensures Kept(local, e, Failed(e, DidNotEncrypt))
  {
  }

  lemma EnqueuedJustified(local: string, open: Opener, outbound: seq<Outbound>, refused: seq<seq<Payload>>, e: AppEvent,
                          o: nat)
    requires e.author == local && Opens(open, e) && o < |outbound| && PayloadOf(open, e) in outbound[o].batch
    ensures Justified(local, open, outbound, refused, InEntry(e, o)) && Kept(local, e, InEntry(e, o))
  {
  }

  /** What the first pass over the events may store. */
  lemma PreparedJustified(local: string, open: Opener, outbound: seq<Outbound>, refused: seq<seq<Payload>>, e: AppEvent)
    requires Justified(local, open, outbound, refused, e)
    ensures e.author != local ==> Justified(local, open, outbound, refused, Erased(e)) && Kept(local, e, Erased(e))
    ensures Waiting(local, e) && !HasPayload(e) ==>
              var w := e.(status := WaitingAuthorReplay);
              Justified(local, open, outbound, refused, w) && Kept(local, e, w)
    ensures Waiting(local, e) ==>
              Justified(local, open, outbound, refused, Attempted(e)) && Kept(local, e, Attempted(e))
    ensures Waiting(local, e) && HasPayload(e) && !Opens(open, e) ==>
              var f := Failed(e, DidNotOpen); Justified(local, open, outbound, refused, f) && Kept(local, e, f)
  {
  }

  function Erased(e: AppEvent): AppEvent {
    e.(status := WaitingAuthorReplay, sealed := [], nonce := [])
  }

  function Attempted(e: AppEvent): AppEvent {
    e.(status := ReplayPending, attempts := e.attempts + 1)
  }

  function Failed(e: AppEvent, why: Failure): AppEvent {
    e.(status := ReplayFailed, failure := Some(why))
  }

  function InEntry(e: AppEvent, o: nat): AppEvent {
    e.(status := ReplayEnqueued, operation := Some(o))
  }

  /** Still to be replayed. */
  predicate Waiting(local: string, e: AppEvent) {
    e.author == local && (e.status.OrphanedOwn? || e.status.ReplayPending?)
  }

  /** Enqueued in an entry that has not been broadcast. */
  predicate Stuck(outbound: seq<Outbound>, e: AppEvent) {
    && e.status.ReplayEnqueued? && e.operation.Some? && e.operation.value < |outbound|
    && outbound[e.operation.value].status.Enqueued?
  }

  /** An entry is published before its broadcast is recorded; only then is the call alive. */
  predicate Handed(published: seq<seq<Payload>>, outbound: seq<Outbound>, published': seq<seq<Payload>>,
                   outbound': seq<Outbound>, o: nat, alive: bool)
    requires o < |outbound|
  {
    || (!alive && published' == published && outbound' == outbound)
    || (&& published' == published + [outbound[o].batch]
        && if alive then outbound' == outbound[o := outbound[o].(status := Broadcasted)]
           else outbound' == outbound || outbound' == outbound[o := outbound[o].(status := Broadcasted)])
  }

  /** The batch is that of an entry whose broadcast was not recorded. */
  predicate Waited(outbound: seq<Outbound>, batch: seq<Payload>) {
    exists o :: 0 <= o < |outbound| && outbound[o] == Outbound(batch, Enqueued)
  }

  /** So many writes and publications at most, and no crash if there are that many left. */
  predicate Costs(before: nat, after: nat, steps: nat, alive: bool) {
    (before >= steps ==> alive) && (alive ==> after + steps >= before)
  }

  /** What the first pass makes of an event: an own one that waits is tried, another author's payload is erased. */
  function Prepared(local: string, open: Opener, e: AppEvent): AppEvent {
    if e.author != local then e.(status := WaitingAuthorReplay, sealed := [], nonce := [])
    else if !Waiting(local, e) then e
    else if !HasPayload(e) then e.(status := WaitingAuthorReplay)
    else
      var tried := e.(status := ReplayPending, attempts := e.attempts + 1);
      if open(e.sealed, e.nonce).Some? then tried else tried.(status := ReplayFailed, failure := Some(DidNotOpen))
  }

  /** Where the i-th chunk starts. */
  function Start(i: nat): nat {
    50 * i
  }

  /** The chunk of at most fifty elements from `from` on. */
  function Chunk<T>(s: seq<T>, from: nat): (c: seq<T>)
    requires from < |s|
    ensures 0 < |c| <= MAX_BATCH_SIZE
  {
    if |s| < from + MAX_BATCH_SIZE then s[from..] else s[from..from + MAX_BATCH_SIZE]
  }

  lemma ChunkIsSlice<T>(s: seq<T>, from: nat, end: nat)
    requires from < |s| && end == if from + MAX_BATCH_SIZE > |s| then |s| else from + MAX_BATCH_SIZE
    ensures s[from..end] == Chunk(s, from)
  {
  }

  lemma OneOfMany(n: nat, i: nat, each: nat)
    requires i < n
    ensures i * each + each == (i + 1) * each <= n * each
  {
  }

  /** Payloads and their events, cut into the same chunks. */
  method Split(payloads: seq<Payload>, pending: seq<nat>) returns (batches: seq<seq<Payload>>, chunks: seq<seq<nat>>)
    requires |payloads| == |pending|
    ensures |batches| == |chunks| && Start(|chunks|) >= |pending|
    ensures forall i :: 0 <= i < |chunks| ==>
              Start(i) < |pending| && batches[i] == Chunk(payloads, Start(i)) && chunks[i] == Chunk(pending, Start(i))
  {
    hide Chunk;
    batches, chunks := [], [];
    var i := 0;
    while i < |payloads|
      invariant |batches| == |chunks| && i == Start(|chunks|)
      invariant forall j :: 0 <= j < |chunks| ==>
                  Start(j) < |pending| && batches[j] == Chunk(payloads, Start(j))
                    && chunks[j] == Chunk(pending, Start(j))
    {
      var end := i + MAX_BATCH_SIZE;
      if end > |payloads| {
        end := |payloads|;
      }
      ChunkIsSlice(payloads, i, end);
      ChunkIsSlice(pending, i, end);
      batches, chunks := batches + [payloads[i..end]], chunks + [pending[i..end]];
      i := i + MAX_BATCH_SIZE;
    }
  }

  /** The stored events and outbound entries of one heal job, and everything handed to the transport so far. */
  class Replay {
    const local: string
    const open: Opener
    /** Does MLS encrypt the batch of the n-th attempt? */
    const encrypts: nat -> bool
    ghost const origin: seq<AppEvent>
    var events: seq<AppEvent>
    var outbound: seq<Outbound>
    var published: seq<seq<Payload>>
    var refused: seq<seq<Payload>>
    /** Writes and publications left before the next crash. */
    var fuel: nat

    ghost predicate Valid()
      reads this
    {
      && |events| == |origin|
      && (forall k :: 0 <= k < |events| ==> Kept(local, origin[k], events[k]))
      && (forall k :: 0 <= k < |events| ==> Justified(local, open, outbound, refused, events[k]))
      && (forall o :: 0 <= o < |outbound| ==> OwnBatch(local, open, origin, outbound[o].batch))
      && (forall o :: 0 <= o < |outbound| && outbound[o].status.Broadcasted? ==> outbound[o].batch in published)
      && (forall i :: 0 <= i < |published| ==> OwnBatch(local, open, origin, published[i]))
      && (forall i :: 0 <= i < |refused| ==> OwnBatch(local, open, origin, refused[i]))
    }

    /** Nothing is left to do: LOCAL_COMPLETE may be recorded. */
    ghost predicate Complete()
      reads this
    {
      forall k :: 0 <= k < |events| ==> !Waiting(local, events[k]) && !Stuck(outbound, events[k])
    }

    constructor (local: string, open: Opener, encrypts: nat -> bool, snapshot: seq<AppEvent>)
      requires forall k :: 0 <= k < |snapshot| ==>
                 && snapshot[k].operation.None?
                 && (snapshot[k].status.OrphanedOwn? || snapshot[k].status.Unrecoverable?
                     || (snapshot[k].status.WaitingAuthorReplay? && snapshot[k].author != local))
      ensures Valid() && origin == events == snapshot && outbound == [] && published == []
      ensures this.local == local && this.open == open && this.encrypts == encrypts
    {
      this.local, this.open, this.encrypts, origin := local, open, encrypts, snapshot;
      events, outbound, published, refused, fuel := snapshot, [], [], [], 0;
    }

    /** One storage write of an event, unless the crash comes first. */
    method SaveEvent(k: nat, e: AppEvent) returns (alive: bool)
      requires Valid() && k < |events| && Kept(local, events[k], e)
      requires Justified(local, open, outbound, refused, e)
      modifies this`events, this`fuel
      ensures Valid() && (alive <==> old(fuel) > 0) && fuel == old(fuel) - (if alive then 1 else 0)
      ensures events == if alive then old(events)[k := e] else old(events)
    {
      alive := fuel > 0;
      if alive {
        fuel := fuel - 1;
        events := events[k := e];
      }
    }

    lemma StoredJustified(k: nat)
      requires Valid() && k < |events|
      ensures Justified(local, open, outbound, refused, events[k])
    {
    }

    /** Publish an entry, then record the broadcast; a crash may come before either. */
    method HandOver(o: nat) returns (alive: bool)
      requires Valid() && o < |outbound|
      modifies this`published, this`outbound, this`fuel
      ensures Valid() && Handed(old(published), old(outbound), published, outbound, o, alive)
      ensures Costs(old(fuel), fuel, 2, alive)
    {
      hide Justified, Kept;
      if fuel == 0 {
        return false;
      }
      fuel, published := fuel - 1, published + [outbound[o].batch];
      if fuel == 0 {
        return false;
      }
      JustifiedKept(local, open, outbound, refused, outbound[o := outbound[o].(status := Broadcasted)], refused,
                    events);
      fuel, outbound := fuel - 1, outbound[o := outbound[o].(status := Broadcasted)];
      alive := true;
    }

    /** Settle the events of a broadcast entry one by one. */
    method Settle(o: nat, evs: seq<nat>) returns (alive: bool)
      requires Valid() && o < |outbound| && outbound[o].status.Broadcasted?
      requires forall j :: 0 <= j < |evs| ==> evs[j] < |events| && events[evs[j]].operation == Some(o)
      modifies this`events, this`fuel
      ensures Valid() && |events| == |old(events)|
      ensures forall k :: 0 <= k < |events| ==>
                events[k] == old(events)[k] || (k in evs && events[k] == old(events)[k].(status := Replayed))
      ensures alive ==> forall j :: 0 <= j < |evs| ==> events[evs[j]].status.Replayed?
      ensures Costs(old(fuel), fuel, |evs|, alive)
    {
      hide Justified, Kept, OwnBatch;
      alive := true;
      for j := 0 to |evs|
        invariant alive && fuel + j == old(fuel)
        invariant Valid() && |events| == |old(events)|
        invariant forall i :: 0 <= i < j ==> events[evs[i]].status.Replayed?
        invariant forall k :: 0 <= k < |events| ==>
                    events[k] == old(events)[k] || (k in evs && events[k] == old(events)[k].(status := Replayed))
      {
        var e := events[evs[j]];
        ReplayedJustified(local, open, outbound, refused, e, o);
        alive := SaveEvent(evs[j], e.(status := Replayed));
        if !alive {
          return;
        }
      }
    }

    /** broadcastBatchedOutboundReplay: publish, record the broadcast, then settle the events. */
    method Broadcast(o: nat, evs: seq<nat>) returns (alive: bool)
      requires Valid() && o < |outbound|
      requires forall j :: 0 <= j < |evs| ==> evs[j] < |events| && events[evs[j]].operation == Some(o)
      modifies this`events, this`published, this`outbound, this`fuel
      ensures Valid() && |events| == |old(events)|
      ensures Handed(old(published), old(outbound), published, outbound, o, alive)
      ensures forall k :: 0 <= k < |events| ==>
                events[k] == old(events)[k] || (k in evs && events[k] == old(events)[k].(status := Replayed))
      ensures alive ==> forall j :: 0 <= j < |evs| ==> events[evs[j]].status.Replayed?
      ensures Costs(old(fuel), fuel, 2 + |evs|, alive)
    {
      hide Valid;
      alive := HandOver(o);
      if alive {
        alive := Settle(o, evs);
      }
    }

    /** First part of a resumed replay: broadcast again what was enqueued before a crash, with its events. */
    method Rebroadcast() returns (alive: bool)
      requires Valid()
      modifies this`events, this`published, this`outbound, this`fuel
      ensures Valid() && |outbound| == |old(outbound)| && old(published) <= published
      ensures forall i :: |old(published)| <= i < |published| ==> Waited(old(outbound), published[i])
      ensures alive ==> forall k :: 0 <= k < |events| ==> !Stuck(outbound, events[k])
      ensures |events| == |old(events)| && Costs(old(fuel), fuel, |old(outbound)| * (2 + |events|), alive)
    {
      hide Valid;
      alive := true;
      ghost var each := 2 + |events|;
      for o := 0 to |outbound|
        invariant |events| == |old(events)| && fuel + o * each >= old(fuel)
        invariant Valid() && |outbound| == |old(outbound)| && old(published) <= published
        invariant forall i :: o <= i < |outbound| ==> outbound[i] == old(outbound)[i]
        invariant forall i :: |old(published)| <= i < |published| ==> Waited(old(outbound), published[i])
        invariant alive
        invariant forall k :: 0 <= k < |events| && Stuck(outbound, events[k]) ==> events[k].operation.value >= o
      {
        if outbound[o].status.Enqueued? {
          var evs := Matching(o);
          OneOfMany(|old(outbound)|, o, each);
          if |evs| > 0 {
            alive := Broadcast(o, evs);
            if !alive {
              return;
            }
          }
        }
      }
    }

    method Matching(o: nat) returns (evs: seq<nat>)
      ensures forall j :: 0 <= j < |evs| ==> evs[j] < |events| && events[evs[j]].operation == Some(o)
      ensures forall k: nat :: k < |events| && events[k].operation == Some(o) ==> k in evs
      ensures |evs| <= |events|
    {
      evs := [];
      for k := 0 to |events|
        invariant |evs| <= k
        invariant forall j :: 0 <= j < |evs| ==> evs[j] < |events| && events[evs[j]].operation == Some(o)
        invariant forall i: nat :: i < k && events[i].operation == Some(o) ==> i in evs
      {
        if events[k].operation == Some(o) {
          evs := evs + [k];
        }
      }
    }

    /** The chunk pairs payloads with distinct events that wait for replay. */
    ghost predicate Ready(batch: seq<Payload>, chunk: seq<nat>)
      reads this
    {
      && |batch| == |chunk|
      && (forall j :: 0 <= j < |chunk| ==>
            && chunk[j] < |events| && Waiting(local, events[chunk[j]])
            && Opens(open, events[chunk[j]]) && batch[j] == PayloadOf(open, events[chunk[j]]))
      && (forall i, j :: 0 <= i < |chunk| && 0 <= j < |chunk| && i != j ==> chunk[i] != chunk[j])
    }

    lemma BatchIsOwn(batch: seq<Payload>, chunk: seq<nat>)
      requires Valid() && 0 < |batch| <= MAX_BATCH_SIZE && Ready(batch, chunk)
      ensures OwnBatch(local, open, origin, batch)
    {
      forall p | p in batch
        ensures Own(local, open, origin, p)
      {
        var j :| 0 <= j < |batch| && batch[j] == p;
        assert Kept(local, origin[chunk[j]], events[chunk[j]]);
        assert p == PayloadOf(open, origin[chunk[j]]);
      }
    }

    /** Encryption failed: every event of the chunk is given up, with the reason. */
    method GiveUp(batch: seq<Payload>, chunk: seq<nat>) returns (alive: bool)
      requires Valid() && 0 < |batch| <= MAX_BATCH_SIZE && Ready(batch, chunk)
      modifies this`events, this`refused, this`fuel
      ensures Valid() && |events| == |old(events)|
      ensures forall k :: 0 <= k < |events| && k !in chunk ==> events[k] == old(events)[k]
      ensures alive ==>
                && refused == old(refused) + [batch]
                && forall j :: 0 <= j < |chunk| ==> events[chunk[j]] == Failed(old(events)[chunk[j]], DidNotEncrypt)
      ensures Costs(old(fuel), fuel, |chunk|, alive)
    {
      hide Valid, Opens, PayloadOf, Failed;
      Refuse(batch, chunk);
      alive := true;
      for j := 0 to |chunk|
        invariant Valid() && |events| == |old(events)| && alive && refused == old(refused) + [batch]
        invariant fuel + j == old(fuel)
        invariant forall k :: 0 <= k < |events| && k !in chunk ==> events[k] == old(events)[k]
        invariant forall i :: 0 <= i < j ==> events[chunk[i]] == Failed(old(events)[chunk[i]], DidNotEncrypt)
        invariant forall i :: j <= i < |chunk| ==> events[chunk[i]] == old(events)[chunk[i]]
      {
        assert batch[j] in refused[|refused| - 1];
        alive := GiveUpOne(chunk[j]);
        if !alive {
          return;
        }
      }
    }

    method GiveUpOne(k: nat) returns (alive: bool)
      requires Valid() && k < |events| && Waiting(local, events[k]) && Opens(open, events[k])
      requires Among(refused, PayloadOf(open, events[k]))
      modifies this`events, this`fuel
      ensures Valid() && events == if alive then old(events)[k := Failed(old(events)[k], DidNotEncrypt)]
              else old(events)
      ensures (alive <==> old(fuel) > 0) && fuel == old(fuel) - (if alive then 1 else 0)
    {
      hide Valid, Justified, Kept, Opens, PayloadOf;
      StoredJustified(k);
      FailedJustified(local, open, outbound, refused, events[k]);
      alive := SaveEvent(k, Failed(events[k], DidNotEncrypt));
    }

    method Refuse(batch: seq<Payload>, chunk: seq<nat>)
      requires Valid() && 0 < |batch| <= MAX_BATCH_SIZE && Ready(batch, chunk)
      modifies this`refused
      ensures Valid() && refused == old(refused) + [batch]
    {
      hide Justified, Kept;
      BatchIsOwn(batch, chunk);
      JustifiedKept(local, open, outbound, refused, outbound, refused + [batch], events);
      refused := refused + [batch];
    }

    /** Store the encrypted batch as a new entry. */
    method Enqueue(batch: seq<Payload>, chunk: seq<nat>) returns (alive: bool)
      requires Valid() && 0 < |batch| <= MAX_BATCH_SIZE && Ready(batch, chunk)
      modifies this`outbound, this`fuel
      ensures Valid() && (alive ==> outbound == old(outbound) + [Outbound(batch, Enqueued)])
      ensures !alive ==> outbound == old(outbound)
      ensures Costs(old(fuel), fuel, 2, alive)
    {
      hide Justified, Kept;
      alive := fuel > 1;
      if alive {
        BatchIsOwn(batch, chunk);
        JustifiedKept(local, open, outbound, refused, outbound + [Outbound(batch, Enqueued)], refused, events);
        // One write saves the advanced group state, one the entry.
        fuel, outbound := fuel - 2, outbound + [Outbound(batch, Enqueued)];
      }
    }

    method AssignOne(o: nat, k: nat) returns (alive: bool)
      requires Valid() && k < |events| && Waiting(local, events[k]) && Opens(open, events[k])
      requires o < |outbound| && PayloadOf(open, events[k]) in outbound[o].batch
      modifies this`events, this`fuel
      ensures Valid() && events == if alive then old(events)[k := InEntry(old(events)[k], o)] else old(events)
      ensures (alive <==> old(fuel) > 0) && fuel == old(fuel) - (if alive then 1 else 0)
    {
      hide Valid;
      EnqueuedJustified(local, open, outbound, refused, events[k], o);
      alive := SaveEvent(k, InEntry(events[k], o));
    }

    /** Tie every event of the chunk to its entry. */
    method Assign(o: nat, batch: seq<Payload>, chunk: seq<nat>) returns (alive: bool)
      requires Valid() && Ready(batch, chunk) && o < |outbound| && outbound[o].batch == batch
      modifies this`events, this`fuel
      ensures Valid() && |events| == |old(events)|
      ensures forall k :: 0 <= k < |events| && k !in chunk ==> events[k] == old(events)[k]
      ensures alive ==> forall j ::
                0 <= j < |chunk| ==> events[chunk[j]].status.ReplayEnqueued? && events[chunk[j]].operation == Some(o)
      ensures Costs(old(fuel), fuel, |chunk|, alive)
    {
      hide Valid, Opens, PayloadOf;
      alive := true;
      for j := 0 to |chunk|
        invariant Valid() && |events| == |old(events)| && alive && fuel + j == old(fuel)
        invariant forall k :: 0 <= k < |events| && k !in chunk ==> events[k] == old(events)[k]
        invariant forall i ::
                    0 <= i < j ==> events[chunk[i]].status.ReplayEnqueued? && events[chunk[i]].operation == Some(o)
        invariant forall i :: j <= i < |chunk| ==> events[chunk[i]] == old(events)[chunk[i]]
      {
        assert batch[j] in outbound[o].batch;
        alive := AssignOne(o, chunk[j]);
        if !alive {
          return;
        }
      }
    }

    /** One chunk: encrypt, enqueue, tie the events to the entry, broadcast. */
    method ReplayChunk(batch: seq<Payload>, chunk: seq<nat>) returns (alive: bool)
      requires Valid() && 0 < |batch| <= MAX_BATCH_SIZE && Ready(batch, chunk)
      modifies this
      ensures Valid() && |events| == |old(events)| && Extends(old(outbound), outbound) && old(published) <= published
      ensures forall k :: 0 <= k < |events| && k !in chunk ==> events[k] == old(events)[k]
      ensures alive ==> forall j ::
                0 <= j < |chunk| ==> !Waiting(local, events[chunk[j]]) && !Stuck(outbound, events[chunk[j]])
      ensures alive ==>
                if old(encrypts(|outbound| + |refused|)) then
                  && outbound == old(outbound) + [Outbound(batch, Broadcasted)] && published == old(published) + [batch]
                  && forall j :: 0 <= j < |chunk| ==>
                       events[chunk[j]].status.Replayed? && events[chunk[j]].operation == Some(|old(outbound)|)
                else
                  && outbound == old(outbound) && published == old(published) && refused == old(refused) + [batch]
                  && forall j :: 0 <= j < |chunk| ==>
                       events[chunk[j]].status.ReplayFailed? && events[chunk[j]].failure == Some(DidNotEncrypt)
      ensures Costs(old(fuel), fuel, 4 + 2 * |chunk|, alive)
    {
      hide Valid, Opens, PayloadOf;
      if !encrypts(|outbound| + |refused|) {
        alive := GiveUp(batch, chunk);
        return;
      }
      alive := Enqueue(batch, chunk);
      if !alive {
        return;
      }
      var o := |outbound| - 1;
      alive := Assign(o, batch, chunk);
      if !alive {
        return;
      }
      alive := Broadcast(o, chunk);
    }

    /** From position `from` on, payloads and events still pair up and wait. */
    ghost predicate ReadyFrom(payloads: seq<Payload>, pending: seq<nat>, from: nat)
      reads this
    {
      && |payloads| == |pending|
      && (forall j :: from <= j < |pending| ==>
            && pending[j] < |events| && Waiting(local, events[pending[j]])
            && Opens(open, events[pending[j]]) && payloads[j] == PayloadOf(open, events[pending[j]]))
      && (forall i, j :: 0 <= i < j < |pending| ==> pending[i] < pending[j])
    }

    /** Whatever still waits is among the events from position `from` on. */
    ghost predicate Covers(pending: seq<nat>, from: nat)
      reads this
    {
      forall k ::
        0 <= k < |events| && Waiting(local, events[k]) ==> exists j :: from <= j < |pending| && pending[j] == k
    }

    lemma ChunkReady(payloads: seq<Payload>, pending: seq<nat>, from: nat)
      requires from < |pending| && ReadyFrom(payloads, pending, from)
      ensures Ready(Chunk(payloads, from), Chunk(pending, from))
      ensures forall j :: from + MAX_BATCH_SIZE <= j < |pending| ==> pending[j] !in Chunk(pending, from)
      ensures forall j :: from <= j < |pending| && j < from + MAX_BATCH_SIZE ==> pending[j] in Chunk(pending, from)
    {
      hide Opens, PayloadOf, Waiting;
      var c := Chunk(pending, from);
      forall j | from <= j < |pending| && j < from + MAX_BATCH_SIZE
        ensures pending[j] in c
      {
        assert c[j - from] == pending[j];
      }
    }

    /** The first pass: erase other authors' payloads, and collect the own payloads that open. */
    method Prepare() returns (alive: bool, payloads: seq<Payload>, pending: seq<nat>)
      requires Valid()
      requires forall k :: 0 <= k < |events| ==> !Stuck(outbound, events[k])
      modifies this`events, this`fuel
      ensures Valid()
      ensures forall k :: 0 <= k < |events| ==> !Stuck(outbound, events[k])
      ensures alive ==> ReadyFrom(payloads, pending, 0) && Covers(pending, 0)
      ensures alive ==> forall k :: 0 <= k < |events| ==> events[k] == Prepared(local, open, old(events)[k])
      ensures |events| == |old(events)| && Costs(old(fuel), fuel, 2 * |events|, alive)
      ensures alive ==> |pending| <= |events|
    {
      hide Justified, Kept, OwnBatch, Prepared;
      alive, payloads, pending := true, [], [];
      for i := 0 to |events|
        invariant Valid() && |events| == |old(events)| && alive
        invariant forall k :: 0 <= k < i ==> events[k] == Prepared(local, open, old(events)[k])
        invariant forall k :: i <= k < |events| ==> events[k] == old(events)[k]
        invariant fuel + 2 * i >= old(fuel) && |pending| <= i
        invariant forall k :: 0 <= k < |events| ==> !Stuck(outbound, events[k])
        invariant ReadyFrom(payloads, pending, 0) && forall j :: 0 <= j < |pending| ==> pending[j] < i
        invariant forall k ::
                    0 <= k < i && Waiting(local, events[k]) ==> exists j :: 0 <= j < |pending| && pending[j] == k
      {
        ghost var was := pending;
        alive, payloads, pending := PrepareOne(i, payloads, pending);
        if !alive {
          return;
        }
        assert forall j :: 0 <= j < |was| ==> pending[j] == was[j];
        assert |pending| > |was| ==> pending[|was|] == i;
      }
    }

    method PrepareOne(i: nat, payloads: seq<Payload>, pending: seq<nat>)
      returns (alive: bool, payloads': seq<Payload>, pending': seq<nat>)
      requires Valid() && i < |events| && |payloads| == |pending| && !Stuck(outbound, events[i])
      modifies this`events, this`fuel
      ensures Valid() && |events| == |old(events)|
      ensures forall k :: 0 <= k < |events| && k != i ==> events[k] == old(events)[k]
      ensures !Stuck(outbound, events[i]) && (alive ==> events[i] == Prepared(local, open, old(events)[i]))
      ensures Costs(old(fuel), fuel, 2, alive)
      ensures alive ==>
                || (payloads' == payloads && pending' == pending && !Waiting(local, events[i]))
                || (&& Waiting(local, events[i]) && Opens(open, events[i])
                    && payloads' == payloads + [PayloadOf(open, events[i])] && pending' == pending + [i])
    {
      hide Justified, Kept, OwnBatch;
      alive, payloads', pending' := true, payloads, pending;
      var e := events[i];
      PreparedJustified(local, open, outbound, refused, e);
      if e.author != local {
        alive := SaveEvent(i, Erased(e));
      } else if e.status.OrphanedOwn? || e.status.ReplayPending? {
        if !HasPayload(e) {
          alive := SaveEvent(i, e.(status := WaitingAuthorReplay));
          return;
        }
        e := Attempted(e);
        alive := SaveEvent(i, e);
        if !alive {
          return;
        }
        PreparedJustified(local, open, outbound, refused, e);
        match open(e.sealed, e.nonce)
        case Some(plaintext) =>
          payloads', pending' := payloads + [Payload(e.id, plaintext, e.ts)], pending + [i];
        case None =>
          alive := SaveEvent(i, Failed(e, DidNotOpen));
      }
    }

    /** batchAndReplayOutbox. */
    method BatchAndReplay() returns (alive: bool)
      requires Valid()
      requires forall k :: 0 <= k < |events| ==> !Stuck(outbound, events[k])
      modifies this
      ensures Valid() && old(published) <= published && (alive ==> Complete())
      ensures Costs(old(fuel), fuel, 106 * |old(events)|, alive)
    {
      hide Valid, Waiting, Opens, PayloadOf, Chunk;
      var payloads, pending;
      alive, payloads, pending := Prepare();
      if !alive {
        return;
      }
      var batches, chunks := Split(payloads, pending);
      ghost var left := fuel;
      assert |chunks| <= |pending| by {
        assert |chunks| > 0 ==> Start(|chunks| - 1) < |pending|;
      }
      for c := 0 to |chunks|
        invariant fuel + 104 * c >= left
        invariant Valid() && alive && old(published) <= published
        invariant ReadyFrom(payloads, pending, Start(c)) && Covers(pending, Start(c))
        invariant forall k :: 0 <= k < |events| ==> !Stuck(outbound, events[k])
      {
        alive := ReplayNext(payloads, pending, Start(c), batches[c], chunks[c]);
        if !alive {
          return;
        }
      }
    }

    /** The body of the loop over the chunks. */
    method ReplayNext(payloads: seq<Payload>, pending: seq<nat>, from: nat, batch: seq<Payload>, chunk: seq<nat>)
      returns (alive: bool)
      requires Valid() && ReadyFrom(payloads, pending, from) && Covers(pending, from) && from < |pending|
      requires batch == Chunk(payloads, from) && chunk == Chunk(pending, from)
      requires forall k :: 0 <= k < |events| ==> !Stuck(outbound, events[k])
      modifies this
      ensures Valid() && old(published) <= published
      ensures alive ==> ReadyFrom(payloads, pending, from + MAX_BATCH_SIZE) && Covers(pending, from + MAX_BATCH_SIZE)
      ensures alive ==> forall k :: 0 <= k < |events| ==> !Stuck(outbound, events[k])
      ensures Costs(old(fuel), fuel, 104, alive)
    {
      hide Valid, Waiting, Opens, PayloadOf, Chunk;
      ChunkReady(payloads, pending, from);
      EntriesExist();
      alive := ReplayChunk(batch, chunk);
    }

    lemma EntriesExist()
      requires Valid()
      ensures forall k :: 0 <= k < |events| && events[k].operation.Some? ==> events[k].operation.value < |outbound|
    {
      forall k | 0 <= k < |events| && events[k].operation.Some?
        ensures events[k].operation.value < |outbound|
      {
        assert Justified(local, open, outbound, refused, events[k]);
      }
    }

    /** One attempt at the replay phase, with at most `steps` writes and publications before a crash. */
    method Attempt(steps: nat) returns (completed: bool)
      requires Valid()
      modifies this
      ensures Valid() && old(published) <= published && (completed ==> Complete())
      ensures steps >= |old(outbound)| * (2 + |old(events)|) + 106 * |old(events)| ==> completed
    {
      fuel := steps;
      completed := Rebroadcast();
      if completed {
        completed := BatchAndReplay();
      }
    }

    /** The replay phase under any number of crashes: each attempt starts from what storage holds. */
    method ReplayJob(crashes: seq<nat>) returns (completed: bool)
      requires Valid()
      modifies this
      ensures Valid() && old(published) <= published && (completed ==> Complete())
      ensures crashes != [] && crashes[0] >= |old(outbound)| * (2 + |old(events)|) + 106 * |old(events)| ==> completed
    {
      completed := false;
      for i := 0 to |crashes|
        invariant Valid() && !completed && old(published) <= published
        invariant i == 0 ==> outbound == old(outbound) && events == old(events)
        invariant i > 0 ==> crashes[0] < |old(outbound)| * (2 + |old(events)|) + 106 * |old(events)|
      {
        completed := Attempt(crashes[i]);
        if completed {
          return;
        }
      }
    }

    /**
     * Crash-safe replay: once an attempt completes, after any crashes before it, every own orphaned event whose payload
     * opens is in a published batch, unless MLS refused to encrypt a batch with it.
     */
    lemma EveryOwnEventIsOut(k: nat)
      requires Valid() && Complete() && k < |origin|
      requires origin[k].author == local && origin[k].status.OrphanedOwn? && Opens(open, origin[k])
      ensures Among(published, PayloadOf(open, origin[k])) || Among(refused, PayloadOf(open, origin[k]))
    {
      var e := events[k];
      assert Kept(local, origin[k], e) && Justified(local, open, outbound, refused, e);
      assert !Waiting(local, e) && !Stuck(outbound, e);
      if e.operation.Some? {
        var b := outbound[e.operation.value].batch;
        assert b in published;
        var i :| 0 <= i < |published| && published[i] == b;
        assert PayloadOf(open, e) in published[i];
      }
    }

    /** At every moment, crash or not: what is out are batches of at most fifty payloads, all of own events. */
    lemma OnlyOwnPayloadsAreOut(i: nat, p: Payload)
      requires Valid() && i < |published| && p in published[i]
      ensures |published[i]| <= MAX_BATCH_SIZE
      ensures exists k ::
                0 <= k < |origin| && origin[k].author == local && Opens(open, origin[k])
                  && p == PayloadOf(open, origin[k])
    {
      assert OwnBatch(local, open, origin, published[i]);
      assert Own(local, open, origin, p);
    }
  }
}
