/** The transactional outbox: rows in created order, and a processor that repeatedly takes the oldest unprocessed
    rows, publishes each one and then marks it. */
module Outbox {
  import opened Common

  datatype Event = Event(id: Uuid, aggregateType: string, aggregateId: string, eventType: string, payload: string)

  /** `events` is the table in created_at order and `processed` the ids whose processed_at is set.
      `published` counts the successful calls to the broker and `failedMarks` the marks that failed. */
  datatype Table = Table(events: seq<Event>, processed: set<Uuid>, published: multiset<Uuid>, failedMarks: multiset<Uuid>)

  predicate DistinctIds(events: seq<Event>) { forall i, j :: 0 <= i < j < |events| ==> events[i].id != events[j].id }

  // ---------------------------------------------------------------- one batch

  /** WHERE processed_at IS NULL ORDER BY created_at LIMIT b. */
  function Select(events: seq<Event>, processed: set<Uuid>, b: nat): (r: seq<Event>)
    ensures |r| <= b && |r| <= |events|
  {
    if events == [] || b == 0 then []
    else if events[0].id in processed then Select(events[1..], processed, b)
    else [events[0]] + Select(events[1..], processed, b - 1)
  }

  function Batch(t: Table, b: nat): seq<Event> { Select(t.events, t.processed, b) }

  /** Publish, then mark; `pubFails` and `markFails` are the events for which the call fails. */
  function Deliver(t: Table, id: Uuid, pubFails: set<Uuid>, markFails: set<Uuid>): Table {
    if id in pubFails then t
    else if id in markFails then t.(published := t.published + multiset{id}, failedMarks := t.failedMarks + multiset{id})
    else t.(published := t.published + multiset{id}, processed := t.processed + {id})
  }

  function DeliverAll(t: Table, batch: seq<Event>, pubFails: set<Uuid>, markFails: set<Uuid>): Table
    decreases |batch|
  {
    if batch == [] then t else DeliverAll(Deliver(t, batch[0].id, pubFails, markFails), batch[1..], pubFails, markFails)
  }

  function AfterBatch(t: Table, b: nat, pubFails: set<Uuid>, markFails: set<Uuid>): Table {
    DeliverAll(t, Batch(t, b), pubFails, markFails)
  }

  class Processor {
    const batchSize: nat
    var events: seq<Event>
    var processed: set<Uuid>
    ghost var published: multiset<Uuid>
    ghost var failedMarks: multiset<Uuid>

    constructor (batchSize: nat)
      ensures this.batchSize == batchSize && Abs() == Table([], {}, multiset{}, multiset{})
    {
      this.batchSize := batchSize;
      events, processed, published, failedMarks := [], {}, multiset{}, multiset{};
    }

    ghost function Abs(): Table reads this { Table(events, processed, published, failedMarks) }

    /** The broker call and the UPDATE for one event of a batch. */
    method PublishAndMark(e: Event, publishOk: bool, markOk: bool)
      modifies this`processed, this`published, this`failedMarks
      ensures Abs() == Deliver(old(Abs()), e.id, if publishOk then {} else {e.id}, if markOk then {} else {e.id})
      ensures published == old(published) + if publishOk then multiset{e.id} else multiset{}
      ensures processed == old(processed) + if publishOk && markOk then {e.id} else {}
      ensures failedMarks == old(failedMarks) + if publishOk && !markOk then multiset{e.id} else multiset{}
    {
      if !publishOk { return; }
      published := published + multiset{e.id};
      if markOk {
        processed := processed + {e.id};
      } else {
        failedMarks := failedMarks + multiset{e.id};
      }
    }

    method ProcessBatch(queryOk: bool, pubFails: set<Uuid>, markFails: set<Uuid>) returns (ok: bool)
      modifies this`processed, this`published, this`failedMarks
      ensures ok == queryOk
      ensures Abs() == if queryOk then AfterBatch(old(Abs()), batchSize, pubFails, markFails) else old(Abs())
    {
      if !queryOk { return false; }
      var batch := Select(events, processed, batchSize);
      for i := 0 to |batch|
        invariant events == old(events)
        invariant AfterBatch(old(Abs()), batchSize, pubFails, markFails) == DeliverAll(Abs(), batch[i..], pubFails, markFails)
      {
        assert batch[i..][1..] == batch[i + 1..];
        PublishAndMark(batch[i], batch[i].id !in pubFails, batch[i].id !in markFails);
      }
      return true;
    }
  }

  // ---------------------------------------------------------------- which events a batch takes

  lemma {:induction false} SelectFrom(events: seq<Event>, processed: set<Uuid>, b: nat)
    requires DistinctIds(events)
    ensures forall e :: e in Select(events, processed, b) ==> e in events && e.id !in processed
    ensures DistinctIds(Select(events, processed, b))
  {
    if events != [] && b > 0 {
      if events[0].id in processed { SelectFrom(events[1..], processed, b); }
      else { SelectFrom(events[1..], processed, b - 1); }
    }
  }

  /** Oldest first: an unprocessed event left out of the batch means the batch is full of older ones. */
  lemma {:induction false} SelectOldest(events: seq<Event>, processed: set<Uuid>, b: nat, p: nat)
    requires p < |events| && events[p].id !in processed && events[p] !in Select(events, processed, b)
    ensures |Select(events, processed, b)| == b
    ensures forall e :: e in Select(events, processed, b) ==> e in events[..p]
  {
    if b > 0 {
      var rest := events[1..];
      assert p > 0;
      assert rest[p - 1] == events[p];
      assert events[..p] == [events[0]] + rest[..p - 1];
      if events[0].id in processed {
        SelectOldest(rest, processed, b, p - 1);
      } else {
        SelectOldest(rest, processed, b - 1, p - 1);
      }
    }
  }

  function IdSet(events: seq<Event>): set<Uuid> { set e | e in events :: e.id }

  lemma {:induction false} IdSetSize(events: seq<Event>)
    requires DistinctIds(events)
    ensures |IdSet(events)| == |events|
  {
    if events == [] {
      assert IdSet(events) == {};
    } else {
      IdSetSize(events[1..]);
      assert IdSet(events) == {events[0].id} + IdSet(events[1..]);
      assert events[0].id !in IdSet(events[1..]);
    }
  }

  /** What a batch adds to the processed set. */
  lemma {:induction false} DeliverAllProcessed(t: Table, batch: seq<Event>, pubFails: set<Uuid>, markFails: set<Uuid>)
    ensures var t' := DeliverAll(t, batch, pubFails, markFails);
            t'.events == t.events && t'.processed == t.processed + (IdSet(batch) - pubFails - markFails)
    decreases |batch|
  {
    if batch == [] {
      assert IdSet(batch) == {};
    } else {
      DeliverAllProcessed(Deliver(t, batch[0].id, pubFails, markFails), batch[1..], pubFails, markFails);
      assert IdSet(batch) == {batch[0].id} + IdSet(batch[1..]);
    }
  }

  /** And what it publishes: each event of the batch once, unless its publish fails. */
  lemma {:induction false} DeliverAllPublished(t: Table, batch: seq<Event>, pubFails: set<Uuid>, markFails: set<Uuid>, id: Uuid)
    requires DistinctIds(batch)
    ensures var t' := DeliverAll(t, batch, pubFails, markFails);
            && t'.published[id] == t.published[id] + (if id in IdSet(batch) - pubFails then 1 else 0)
            && t'.failedMarks[id] == t.failedMarks[id] + (if id in (IdSet(batch) - pubFails) * markFails then 1 else 0)
    decreases |batch|
  {
    if batch == [] {
      assert IdSet(batch) == {};
    } else {
      DeliverAllPublished(Deliver(t, batch[0].id, pubFails, markFails), batch[1..], pubFails, markFails, id);
      assert IdSet(batch) == {batch[0].id} + IdSet(batch[1..]);
      assert batch[0].id !in IdSet(batch[1..]);
    }
  }

  /** One pass: every selected event is published once unless its publish fails, and marked unless its mark fails too. */
  lemma PassExact(t: Table, b: nat, pubFails: set<Uuid>, markFails: set<Uuid>)
    requires DistinctIds(t.events)
    ensures var t', taken := AfterBatch(t, b, pubFails, markFails), IdSet(Batch(t, b));
            && t'.events == t.events && t'.processed == t.processed + (taken - pubFails - markFails)
            && (forall id :: t'.published[id] == t.published[id] + if id in taken - pubFails then 1 else 0)
            && (forall id :: t'.failedMarks[id] == t.failedMarks[id] + if id in (taken - pubFails) * markFails then 1 else 0)
  {
    hide IdSet, Select;
    SelectFrom(t.events, t.processed, b);
    DeliverAllProcessed(t, Batch(t, b), pubFails, markFails);
    forall id ensures AfterBatch(t, b, pubFails, markFails).published[id] == t.published[id] + (if id in IdSet(Batch(t, b)) - pubFails then 1 else 0)
                   && AfterBatch(t, b, pubFails, markFails).failedMarks[id] == t.failedMarks[id] + (if id in (IdSet(Batch(t, b)) - pubFails) * markFails then 1 else 0)
    {
      DeliverAllPublished(t, Batch(t, b), pubFails, markFails, id);
    }
  }

  // ---------------------------------------------------------------- at-least-once accounting

  /** Every successful publish is either the one that got its event marked or is paid for by a failed mark. */
  ghost predicate Accounted(t: Table) {
    forall id :: t.published[id] == t.failedMarks[id] + (if id in t.processed then 1 else 0)
  }

  lemma {:induction false} DeliverAllAccounted(t: Table, batch: seq<Event>, pubFails: set<Uuid>, markFails: set<Uuid>)
    requires Accounted(t) && DistinctIds(batch) && forall e :: e in batch ==> e.id !in t.processed
    ensures Accounted(DeliverAll(t, batch, pubFails, markFails))
    decreases |batch|
  {
    if batch != [] {
      var t' := Deliver(t, batch[0].id, pubFails, markFails);
      assert batch[0] in batch;
      DeliverAllAccounted(t', batch[1..], pubFails, markFails);
    }
  }

  // ---------------------------------------------------------------- runs

  /** Arrival of a new row, one processor pass, or a pass whose SELECT fails. A row becomes visible when its transaction
      commits but carries the time that transaction began, so it can arrive at any place in created order. */
  datatype Action = Arrive(e: Event, at: nat) | Pass(pubFails: set<Uuid>, markFails: set<Uuid>) | FailedPass

  function InsertAt(events: seq<Event>, e: Event, at: nat): seq<Event> {
    var i := if at <= |events| then at else |events|;
    events[..i] + [e] + events[i..]
  }

  function Step(t: Table, a: Action, b: nat): Table {
    match a
    case Arrive(e, at) => if e.id in IdSet(t.events) then t else t.(events := InsertAt(t.events, e, at))
    case Pass(pubFails, markFails) => AfterBatch(t, b, pubFails, markFails)
    case FailedPass => t
  }

  function RunFrom(t: Table, actions: seq<Action>, b: nat): Table
    decreases |actions|
  {
    if actions == [] then t else RunFrom(Step(t, actions[0], b), actions[1..], b)
  }

  /** The table after a run. */
  function After(t: Table, actions: seq<Action>, b: nat): Table { RunFrom(t, actions, b) }

  ghost predicate Valid(t: Table) { DistinctIds(t.events) && Accounted(t) }

  lemma InsertDistinct(events: seq<Event>, e: Event, at: nat)
    requires DistinctIds(events) && e.id !in IdSet(events)
    ensures DistinctIds(InsertAt(events, e, at)) && IdSet(InsertAt(events, e, at)) == IdSet(events) + {e.id}
  {
    var s := InsertAt(events, e, at);
    var i := if at <= |events| then at else |events|;
    InsertIds(events, e, at);
    InsertedAt(events, e, at, 0);
    hide InsertAt;
    forall x | x in events ensures x.id in IdSet(events) { }
    hide IdSet;
    forall k | 0 <= k < |s| ensures s[k] == if k < i then events[k] else if k == i then e else events[k - 1] { InsertedAt(events, e, at, k); }
  }

  lemma InsertedAt(events: seq<Event>, e: Event, at: nat, k: nat)
    requires k <= |events|
    ensures |InsertAt(events, e, at)| == |events| + 1
    ensures var i := if at <= |events| then at else |events|;
            InsertAt(events, e, at)[k] == if k < i then events[k] else if k == i then e else events[k - 1]
  {
  }

  lemma StepValid(t: Table, a: Action, b: nat)
    requires Valid(t)
    ensures Valid(Step(t, a, b))
  {
    if a.Arrive? && a.e.id !in IdSet(t.events) { InsertDistinct(t.events, a.e, a.at); }
    if a.Pass? {
      SelectFrom(t.events, t.processed, b);
      DeliverAllAccounted(t, Batch(t, b), a.pubFails, a.markFails);
      DeliverAllProcessed(t, Batch(t, b), a.pubFails, a.markFails);
    }
  }

  /** In every run, with publishes and marks failing at will, a processed event was published, and an event is
      published exactly once per failed mark plus once if it is marked; so at most once more than its marks failed. */
  lemma {:induction false} AtLeastOnce(t: Table, actions: seq<Action>, b: nat, id: Uuid)
    requires Valid(t)
    ensures Valid(After(t, actions, b))
    ensures var t' := After(t, actions, b);
            && (id in t'.processed ==> t'.published[id] >= 1)
            && t'.published[id] <= t'.failedMarks[id] + 1
            && (t'.failedMarks[id] == 0 ==> t'.published[id] <= 1)
    decreases |actions|
  {
    hide Step, DistinctIds;
    if actions != [] {
      StepValid(t, actions[0], b);
      AtLeastOnce(Step(t, actions[0], b), actions[1..], b, id);
    }
  }

  // ---------------------------------------------------------------- what stands before an event

  /** The rows up to and including the one with the id; all of them when there is none. */
  function UptoFrom(events: seq<Event>, id: Uuid): seq<Event> {
    if events == [] then [] else [events[0]] + if events[0].id == id then [] else UptoFrom(events[1..], id)
  }

  /** The ids at or before `id` in created order. */
  function Upto(events: seq<Event>, id: Uuid): set<Uuid> { IdSet(UptoFrom(events, id)) }

  lemma {:induction false} UptoPrefix(events: seq<Event>, p: nat)
    requires DistinctIds(events) && p < |events|
    ensures UptoFrom(events, events[p].id) == events[..p + 1]
  {
    if p > 0 {
      UptoPrefix(events[1..], p - 1);
      assert events[1..][p - 1] == events[p];
    }
  }

  lemma FindEvent(events: seq<Event>, id: Uuid) returns (p: nat)
    requires id in IdSet(events)
    ensures p < |events| && events[p].id == id
  {
    var e :| e in events && e.id == id;
    p :| p < |events| && events[p] == e;
  }

  /** An arrival only ever adds itself to what stands before an event. */
  lemma UptoAfterArrival(events: seq<Event>, e: Event, at: nat, id: Uuid)
    requires DistinctIds(events) && e.id !in IdSet(events) && id in IdSet(events)
    ensures id in IdSet(InsertAt(events, e, at))
    ensures Upto(events, id) <= Upto(InsertAt(events, e, at), id) <= Upto(events, id) + {e.id}
  {
    hide IdSet, DistinctIds, InsertAt, UptoFrom;
    var p := FindEvent(events, id);
    var s := InsertAt(events, e, at);
    InsertDistinct(events, e, at);
    UptoPrefix(events, p);
    var q, i := InsertPrefix(events, e, at, p);
    UptoPrefix(s, q);
    InsertIds(events[..p + 1], e, i);
  }

  /** Where an arrival leaves row `p`, and what then stands up to it. */
  lemma InsertPrefix(events: seq<Event>, e: Event, at: nat, p: nat) returns (q: nat, i: nat)
    requires p < |events|
    ensures var s := InsertAt(events, e, at);
            && q < |s| && s[q] == events[p]
            && (s[..q + 1] == events[..p + 1] || s[..q + 1] == InsertAt(events[..p + 1], e, i))
  {
    i := if at <= |events| then at else |events|;
    q := if p < i then p else p + 1;
    var s := InsertAt(events, e, at);
    if p < i { assert s[..p + 1] == events[..p + 1]; }
    else { assert s[..p + 2] == InsertAt(events[..p + 1], e, i); }
  }

  lemma InsertIds(events: seq<Event>, e: Event, at: nat)
    ensures IdSet(InsertAt(events, e, at)) == IdSet(events) + {e.id}
  {
    forall x ensures x in InsertAt(events, e, at) <==> x in events || x == e { }
  }

  lemma StepUpto(t: Table, a: Action, b: nat, id: Uuid)
    requires Valid(t) && id in IdSet(t.events)
    ensures var t' := Step(t, a, b);
            && id in IdSet(t'.events) && Upto(t.events, id) <= Upto(t'.events, id)
            && (!a.Arrive? ==> t'.events == t.events)
  {
    hide Upto, IdSet, InsertAt, Valid;
    if a.Arrive? && a.e.id !in IdSet(t.events) {
      assert DistinctIds(t.events) by { ValidDistinct(t); }
      UptoAfterArrival(t.events, a.e, a.at, id);
    }
    if a.Pass? { DeliverAllProcessed(t, Batch(t, b), a.pubFails, a.markFails); }
  }

  lemma {:induction false} RunUpto(t: Table, actions: seq<Action>, b: nat, id: Uuid)
    requires Valid(t) && id in IdSet(t.events)
    ensures var t' := After(t, actions, b);
            id in IdSet(t'.events) && Upto(t.events, id) <= Upto(t'.events, id)
    decreases |actions|
  {
    hide Upto, IdSet, Valid, Step;
    if actions != [] {
      StepValid(t, actions[0], b);
      StepUpto(t, actions[0], b, id);
      RunUpto(Step(t, actions[0], b), actions[1..], b, id);
    }
  }

  lemma ValidDistinct(t: Table)
    requires Valid(t)
    ensures DistinctIds(t.events)
  {
  }

  // ---------------------------------------------------------------- delivery within a bounded number of passes

  /** All marks succeed and only poison events can fail to publish; how often they do is left open. */
  ghost predicate Benign(a: Action, poison: set<Uuid>) {
    a.Pass? ==> a.markFails == {} && a.pubFails <= poison
  }

  function Passes(actions: seq<Action>): nat {
    if actions == [] then 0 else (if actions[0].Pass? then 1 else 0) + Passes(actions[1..])
  }

  lemma {:induction false} PassesTimes(actions: seq<Action>, drain: nat)
    ensures Passes(actions) * drain == if actions == [] then 0 else (if actions[0].Pass? then drain else 0) + Passes(actions[1..]) * drain
  {
    if actions != [] {
      var one, more := if actions[0].Pass? then 1 else 0, Passes(actions[1..]);
      assert (one + more) * drain == one * drain + more * drain;
    }
  }

  lemma SubsetSize(x: set<Uuid>, y: set<Uuid>)
    requires x <= y
    ensures |x| <= |y| && |y - x| == |y| - |x|
  {
    assert y == x + (y - x);
  }

  /** If a waiting event is left out of a batch, the batch is full of events before it. */
  lemma LeftOutMeansFull(t: Table, b: nat, id: Uuid)
    requires Valid(t) && id in IdSet(t.events) && id !in t.processed && id !in IdSet(Batch(t, b))
    ensures |IdSet(Batch(t, b))| == b && IdSet(Batch(t, b)) <= Upto(t.events, id) - t.processed
  {
    hide Select;
    var batch := Batch(t, b);
    var p := FindEvent(t.events, id);
    SelectFrom(t.events, t.processed, b);
    SelectOldest(t.events, t.processed, b, p);
    IdSetSize(batch);
    UptoPrefix(t.events, p);
    forall x | x in IdSet(batch) ensures x in Upto(t.events, id) - t.processed {
      var f :| f in batch && f.id == x;
      var i :| 0 <= i < p && t.events[i] == f;
      assert t.events[..p + 1][i] == f;
    }
  }

  /** And a waiting event that is taken has all the waiting ones before it in the batch. */
  lemma {:induction false} TakenMeansAllBefore(events: seq<Event>, processed: set<Uuid>, b: nat, p: nat, q: nat)
    requires q <= p < |events| && events[q].id !in processed && events[p] in Select(events, processed, b) && DistinctIds(events)
    ensures events[q] in Select(events, processed, b)
  {
    if q > 0 {
      var rest := events[1..];
      assert rest[p - 1] == events[p] && rest[q - 1] == events[q];
      if events[0].id in processed { TakenMeansAllBefore(rest, processed, b, p - 1, q - 1); }
      else {
        assert events[p] != events[0];
        TakenMeansAllBefore(rest, processed, b - 1, p - 1, q - 1);
      }
    }
  }

  lemma SizesAfterPass(ahead: set<Uuid>, batch: set<Uuid>, poison: set<Uuid>)
    requires batch <= ahead
    ensures |(ahead - poison) - (batch - poison)| + |batch| <= |ahead - poison| + |ahead * poison|
  {
    SubsetSize(batch * poison, ahead * poison);
    SubsetSize(batch - poison, ahead - poison);
    SubsetSize(batch * poison, batch);
    assert batch - batch * poison == batch - poison;
  }

  /** One pass delivers the event or takes at least the batch size, less the poison events among those `all` that ever
      stand before it, off the publishable ones of them. */
  lemma PassShrinksBacklog(t: Table, b: nat, id: Uuid, poison: set<Uuid>, pubFails: set<Uuid>, all: set<Uuid>)
    requires Valid(t) && id in IdSet(t.events) && id !in poison && Upto(t.events, id) <= all && pubFails <= poison
    ensures var t' := AfterBatch(t, b, pubFails, {});
            && t'.events == t.events && t.processed <= t'.processed
            && (id in t'.processed
                || |all - t'.processed - poison| + b <= |all - t.processed - poison| + |(all - t.processed) * poison|)
  {
    hide Batch, IdSet, Upto, Valid;
    var batch, ahead := IdSet(Batch(t, b)), all - t.processed;
    DeliverAllProcessed(t, Batch(t, b), pubFails, {});
    var t' := AfterBatch(t, b, pubFails, {});
    if id !in t'.processed {
      LeftOutMeansFull(t, b, id);
      SizesAfterPass(ahead, batch, poison);
      SubsetSize(all - t'.processed - poison, (ahead - poison) - (batch - poison));
    }
  }

  lemma {:induction false} BacklogDrains(t: Table, actions: seq<Action>, b: nat, id: Uuid, poison: set<Uuid>, all: set<Uuid>, f: nat)
    requires Valid(t) && id in IdSet(t.events) && id !in poison
    requires forall a :: a in actions ==> Benign(a, poison)
    requires Upto(After(t, actions, b).events, id) <= all && |(all - t.processed) * poison| <= f <= b
    ensures var t' := After(t, actions, b);
            id in t'.processed || |all - t'.processed - poison| + Passes(actions) * (b - f) <= |all - t.processed - poison|
    decreases |actions|
  {
    hide Upto, IdSet, Valid, AfterBatch, Passes;
    PassesTimes(actions, b - f);
    if actions != [] {
      var a, rest := actions[0], actions[1..];
      var u := Step(t, a, b);
      assert a in actions;
      StepValid(t, a, b);
      StepUpto(t, a, b, id);
      RunUpto(u, rest, b, id);
      if a.Pass? {
        RunUpto(t, actions, b, id);
        PassShrinksBacklog(t, b, id, poison, a.pubFails, all);
        SubsetSize((all - u.processed) * poison, (all - t.processed) * poison);
      }
      hide Step;
      if id in u.processed {
        StaysProcessed(u, rest, b, id);
      } else {
        BacklogDrains(u, rest, b, id, poison, all, f);
      }
    }
  }

  lemma {:induction false} StaysProcessed(t: Table, actions: seq<Action>, b: nat, id: Uuid)
    requires id in t.processed
    ensures id in After(t, actions, b).processed
    decreases |actions|
  {
    if actions != [] {
      var a := actions[0];
      if a.Pass? { DeliverAllProcessed(t, Batch(t, b), a.pubFails, a.markFails); }
      StaysProcessed(Step(t, a, b), actions[1..], b, id);
    }
  }

  /** The waiting events at or before `id`, counting those that arrive there until the end of the run. */
  function Ahead(t: Table, actions: seq<Action>, b: nat, id: Uuid): set<Uuid> { Upto(After(t, actions, b).events, id) - t.processed }

  /** With batch size b, of the events that ever stand at or before it h publishable ones and f < b poison ones, a
      publishable event is published and marked once k passes with k * (b - f) >= h have run. Events that arrive behind
      it, poison or not, cannot delay it. */
  lemma DeliveredWithin(t: Table, actions: seq<Action>, b: nat, id: Uuid, poison: set<Uuid>)
    requires Valid(t) && id in IdSet(t.events) && id !in poison
    requires forall a :: a in actions ==> Benign(a, poison)
    requires var ahead := Ahead(t, actions, b, id);
             |ahead * poison| < b && Passes(actions) * (b - |ahead * poison|) >= |ahead - poison|
    ensures var t' := After(t, actions, b);
            id in t'.processed && t'.published[id] >= 1
  {
    hide After, Upto, Valid, Passes, IdSet;
    var all, t', f := Upto(After(t, actions, b).events, id), After(t, actions, b), |Ahead(t, actions, b, id) * poison|;
    BacklogDrains(t, actions, b, id, poison, all, f);
    AtLeastOnce(t, actions, b, id);
    RunUpto(t, actions, b, id);
    assert id in all by { InUpto(t'.events, id); }
    assert id !in t'.processed ==> id in all - t'.processed - poison;
  }

  lemma InUpto(events: seq<Event>, id: Uuid)
    requires id in IdSet(events)
    ensures id in Upto(events, id)
  {
    var p := FindEvent(events, id);
    UptoReaches(events, p);
  }

  lemma {:induction false} UptoReaches(events: seq<Event>, p: nat)
    requires p < |events|
    ensures events[p].id in Upto(events, events[p].id)
  {
    var id := events[p].id;
    var u := UptoFrom(events, id);
    if events[0].id == id {
      assert u[0] in u;
    } else {
      UptoReaches(events[1..], p - 1);
      var e :| e in UptoFrom(events[1..], id) && e.id == id;
      assert e in u;
    }
  }

  // ---------------------------------------------------------------- and the limit of that promise

  lemma BatchIds(t: Table, b: nat)
    requires Valid(t)
    ensures |IdSet(Batch(t, b))| <= b
  {
    SelectFrom(t.events, t.processed, b);
    IdSetSize(Batch(t, b));
  }

  lemma TakenWith(t: Table, b: nat, id: Uuid, x: Uuid)
    requires Valid(t) && id in IdSet(t.events) && id in IdSet(Batch(t, b)) && x in Upto(t.events, id) - t.processed
    ensures x in IdSet(Batch(t, b))
  {
    hide Select, UptoFrom;
    var p := FindEvent(t.events, id);
    SelectFrom(t.events, t.processed, b);
    UptoPrefix(t.events, p);
    var e :| e in Batch(t, b) && e.id == id;
    assert e == t.events[p];
    var q := FindEvent(t.events[..p + 1], x);
    assert t.events[..p + 1][q] == t.events[q];
    TakenMeansAllBefore(t.events, t.processed, b, p, q);
  }

  /** An event behind b waiting ones is not in the batch. */
  lemma BehindFullBatch(t: Table, b: nat, id: Uuid, blocked: set<Uuid>)
    requires Valid(t) && id in IdSet(t.events) && id !in t.processed && id !in blocked && |blocked| >= b
    requires blocked <= Upto(t.events, id) - t.processed
    ensures id !in IdSet(Batch(t, b))
  {
    hide Batch, IdSet, Upto, Valid;
    var batch := Batch(t, b);
    if id in IdSet(batch) {
      forall x | x in blocked ensures x in IdSet(batch) { TakenWith(t, b, id, x); }
      assert |IdSet(batch)| <= b by { BatchIds(t, b); }
      SubsetSize(blocked + {id}, IdSet(batch));
    }
  }

  /** An event with b or more waiting ones before it that always fail to publish is never delivered, whatever arrives and
      whatever else fails. */
  lemma {:induction false} HeadOfLineBlocking(t: Table, actions: seq<Action>, b: nat, id: Uuid, blocked: set<Uuid>)
    requires Valid(t) && id in IdSet(t.events) && id !in t.processed && id !in blocked && |blocked| >= b
    requires blocked <= Upto(t.events, id) - t.processed
    requires forall a :: a in actions && a.Pass? ==> blocked <= a.pubFails
    ensures id !in After(t, actions, b).processed
    decreases |actions|
  {
    hide Upto, IdSet, Valid, Batch;
    if actions != [] {
      var a := actions[0];
      assert a in actions;
      var u := Step(t, a, b);
      StepValid(t, a, b);
      StepUpto(t, a, b, id);
      if a.Pass? {
        BehindFullBatch(t, b, id, blocked);
        DeliverAllProcessed(t, Batch(t, b), a.pubFails, a.markFails);
      }
      HeadOfLineBlocking(u, actions[1..], b, id, blocked);
    }
  }

  /** Exactly: if the poison events always fail, nothing else does and none arrives before the event, then after enough
      passes it is delivered if and only if fewer than b poison events wait before it. */
  lemma DeliveredExactly(t: Table, actions: seq<Action>, b: nat, id: Uuid, poison: set<Uuid>)
    requires Valid(t) && id in IdSet(t.events) && id !in t.processed && id !in poison
    requires forall a :: a in actions && a.Pass? ==> a.pubFails == poison && a.markFails == {}
    requires Ahead(t, actions, b, id) == Upto(t.events, id) - t.processed
    requires var ahead := Ahead(t, actions, b, id);
             |ahead * poison| < b ==> Passes(actions) * (b - |ahead * poison|) >= |ahead - poison|
    ensures id in After(t, actions, b).processed <==> |(Upto(t.events, id) - t.processed) * poison| < b
  {
    hide After, Upto, IdSet, Passes, Valid, Ahead;
    var blocked := (Upto(t.events, id) - t.processed) * poison;
    if |blocked| < b {
      DeliveredWithin(t, actions, b, id, poison);
    } else {
      HeadOfLineBlocking(t, actions, b, id, blocked);
    }
  }

  /** A row that becomes visible late does delay those after it: with a batch of one, the same single pass delivers `x`
      or not, depending on whether `e` arrives before it. */
  lemma LateArrivalDelays(x: Event, e: Event)
    requires x.id != e.id
    ensures var t := Table([x], {}, multiset{}, multiset{});
            && x.id in After(t, [Pass({}, {})], 1).processed
            && x.id !in After(t, [Arrive(e, 0), Pass({}, {})], 1).processed
            && x.id in After(t, [Arrive(e, 1), Pass({}, {})], 1).processed
  {
    var t := Table([x], {}, multiset{}, multiset{});
    assert IdSet([x]) == {x.id};
    assert InsertAt([x], e, 0) == [e, x] && InsertAt([x], e, 1) == [x, e];
    assert Step(t, Arrive(e, 0), 1) == t.(events := [e, x]) && Step(t, Arrive(e, 1), 1) == t.(events := [x, e]);
    FirstDelivered(t);
    FirstDelivered(t.(events := [e, x]));
    FirstDelivered(t.(events := [x, e]));
    assert [Arrive(e, 0), Pass({}, {})][1..] == [Pass({}, {})] && [Arrive(e, 1), Pass({}, {})][1..] == [Pass({}, {})];
  }

  lemma FirstDelivered(t: Table)
    requires t.events != [] && t.processed == {}
    ensures After(t, [Pass({}, {})], 1).processed == {t.events[0].id}
  {
    assert [Pass({}, {})][1..] == [];
    assert After(t, [Pass({}, {})], 1) == Step(t, Pass({}, {}), 1);
    assert Batch(t, 1) == [t.events[0]];
    DeliverAllProcessed(t, Batch(t, 1), {}, {});
  }
}
