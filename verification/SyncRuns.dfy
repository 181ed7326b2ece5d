/**
 Whole runs of the sync outbox: any number of push batches in progress at once (a remounted worker, a
 second tab), interleaved with each other and with enqueues, pairings, reloads and received changes.
 Each push is answered on its own, or never when its process dies.
 */
module SyncRuns {
  import opened Prelude
  import opened SyncOutbox

  /** A batch in progress: the operations still to push, and the one whose answer it awaits. */
  datatype Batch = Batch(queue: seq<string>, flight: Option<string>)

  datatype World = World(stored: State, batches: seq<Batch>)

  datatype Step =
    | Other(op: Op)
    | Begin(limit: int)
    | Send(batch: nat)
    | Answer(batch: nat, reply: Reply)

  /** Operations that belong to no batch: enqueues, pairings, remembered revisions, received changes. */
  predicate IsBystander(op: Op) {
    !op.Mark? && !op.Complete? && !op.Fail?
  }

  predicate Enabled(w: World, step: Step) {
    match step
    case Other(op) => IsBystander(op)
    case Begin(_) => true
    case Send(b) => b < |w.batches| && w.batches[b].flight.None? && w.batches[b].queue != []
    case Answer(b, _) => b < |w.batches| && w.batches[b].flight.Some?
  }

  /** The operations on the stored state that a step performs. */
  function Ops(w: World, step: Step): seq<Op> {
    if !Enabled(w, step) then []
    else match step
      case Other(op) => [op]
      case Begin(_) => []
      case Send(b) => [Mark(w.batches[b].queue[0])]
      case Answer(b, reply) => Verdict(w.batches[b].flight.value, reply)
  }

  function IdList(items: seq<Item>): seq<string> {
    seq(|items|, i requires 0 <= i < |items| => items[i].content.operationId)
  }

  /** The operations a batch begins with. */
  function Chosen(s: State, limit: int): seq<string> {
    if s.token.Some? then IdList(Take(Select(Loaded(s).outbox), limit)) else []
  }

  function Batches(w: World, step: Step): seq<Batch> {
    if !Enabled(w, step) then w.batches
    else match step
      case Other(_) => w.batches
      case Begin(limit) => w.batches + [Batch(Chosen(w.stored, limit), None)]
      case Send(b) => w.batches[b := Batch(w.batches[b].queue[1..], Some(w.batches[b].queue[0]))]
      case Answer(b, reply) => w.batches[b := Batch(if reply.Died? then [] else w.batches[b].queue, None)]
  }

  function Next(w: World, step: Step): World {
    World(Run(w.stored, Ops(w, step)), Batches(w, step))
  }

  function Play(w: World, steps: seq<Step>): World
    decreases |steps|
  {
    if steps == [] then w else Play(Next(w, steps[0]), steps[1..])
  }

  function Trace(w: World, steps: seq<Step>): seq<Op>
    decreases |steps|
  {
    if steps == [] then [] else Ops(w, steps[0]) + Trace(Next(w, steps[0]), steps[1..])
  }

  lemma {:induction false} TraceRuns(w: World, steps: seq<Step>)
    ensures Play(w, steps).stored == Run(w.stored, Trace(w, steps))
    decreases |steps|
  {
    if steps != [] {
      TraceRuns(Next(w, steps[0]), steps[1..]);
      RunAppend(w.stored, Ops(w, steps[0]), Trace(Next(w, steps[0]), steps[1..]));
    }
  }

  lemma {:induction false} PlayAppend(w: World, xs: seq<Step>, ys: seq<Step>)
    ensures Play(w, xs + ys) == Play(Play(w, xs), ys)
    ensures Trace(w, xs + ys) == Trace(w, xs) + Trace(Play(w, xs), ys)
    decreases |xs|
  {
    if xs == [] {
      assert xs + ys == ys;
    } else {
      assert (xs + ys)[1..] == xs[1..] + ys;
      PlayAppend(Next(w, xs[0]), xs[1..], ys);
    }
  }

  // ---------------------------------------------------------------- only an accepted push removes

  /** Step `k` of the run is the accepted answer to a push of `id`. */
  ghost predicate AcceptedAt(w: World, steps: seq<Step>, k: nat, id: string) {
    && k < |steps| && steps[k].Answer? && Enabled(Play(w, steps[..k]), steps[k])
    && Play(w, steps[..k]).batches[steps[k].batch].flight == Some(id) && Accepted(steps[k].reply)
  }

  lemma AcceptedLater(w: World, steps: seq<Step>, k: nat, id: string)
    requires steps != []
    ensures AcceptedAt(w, steps, k + 1, id) <==> AcceptedAt(Next(w, steps[0]), steps[1..], k, id)
  {
    if k + 1 < |steps| {
      assert steps[..k+1][1..] == steps[1..][..k];
    }
  }

  lemma CompletesIff(w: World, step: Step, id: string)
    ensures Complete(id) in Ops(w, step) <==> AcceptedAt(w, [step], 0, id)
  {
    assert [step][..0] == [];
  }

  /** An operation is completed exactly by the accepted answers to its pushes. */
  lemma {:induction false} CompletedIffAccepted(w: World, steps: seq<Step>, id: string)
    ensures Complete(id) in Trace(w, steps) <==> exists k: nat :: AcceptedAt(w, steps, k, id)
    decreases |steps|
  {
    if steps != [] {
      var next, rest := Next(w, steps[0]), steps[1..];
      CompletedIffAccepted(next, rest, id);
      CompletesIff(w, steps[0], id);
      assert steps[..0] == [steps[0]][..0];
      assert AcceptedAt(w, [steps[0]], 0, id) <==> AcceptedAt(w, steps, 0, id);
      if k: nat :| AcceptedAt(next, rest, k, id) {
        AcceptedLater(w, steps, k, id);
      }
      if k: nat :| AcceptedAt(w, steps, k, id) {
        if k > 0 {
          AcceptedLater(w, steps, k - 1, id);
        }
      }
    }
  }

  /**
   Conservation over whole runs: an operation in the outbox is still there at the end, unchanged,
   unless some push of it was answered with applied, duplicate, or a conflict whose current value was
   applied.
   */
  lemma MissingWasAccepted(w: World, steps: seq<Step>, c: Content)
    requires DistinctIds(Contents(w.stored.outbox)) && c in Contents(w.stored.outbox)
    ensures DistinctIds(Contents(Play(w, steps).stored.outbox))
    ensures c in Contents(Play(w, steps).stored.outbox) || exists k: nat :: AcceptedAt(w, steps, k, c.operationId)
  {
    TraceRuns(w, steps);
    OutboxIsConserved(w.stored, Trace(w, steps));
    CompletedIffAccepted(w, steps, c.operationId);
    if Complete(c.operationId) !in Trace(w, steps) {
      WaitsUntilCompleted(Contents(w.stored.outbox), Trace(w, steps), c);
    }
  }

  /** An operation enqueued during a run is held at its end or was accepted after it was enqueued. */
  lemma EnqueuedIsHeldOrAccepted(w: World, before: seq<Step>, c: Content, device: string, after: seq<Step>)
    requires DistinctIds(Contents(w.stored.outbox)) && !IsCapture(c.operationId)
    ensures var enqueued := Next(Play(w, before), Other(Enqueue(c, device)));
            || HasId(Contents(Play(enqueued, after).stored.outbox), c.operationId)
            || exists k: nat :: AcceptedAt(enqueued, after, k, c.operationId)
  {
    var mid := Play(w, before);
    TraceRuns(w, before);
    OutboxIsConserved(w.stored, Trace(w, before));
    var op := Enqueue(c, device);
    var enqueued := Next(mid, Other(op));
    assert Run(mid.stored, [op]) == Updated(Loaded(mid.stored), op) by { assert [op][1..] == []; }
    UpdateContents(mid.stored, op);
    var held :| held in Contents(enqueued.stored.outbox) && held.operationId == c.operationId;
    MissingWasAccepted(enqueued, after, held);
  }

  // ---------------------------------------------------------------- the standing of one operation

  /** Not in the outbox, given up for good, or to be offered by the next selection. */
  datatype Standing = Gone | Parked | Offered

  function StandingOf(s: State, id: string): Standing {
    match Find(s.outbox, id)
    case None => Gone
    case Some(i) => if GivenUp(i) then Parked else Offered
  }

  function NextStanding(st: Standing, op: Op, id: string): Standing {
    match op
    case Enqueue(c, _) => if c.operationId == id && st == Gone && !IsCapture(id) then Offered else st
    case Mark(j) => if j == id && st != Gone then Offered else st
    case Complete(j) => if j == id then Gone else st
    case Fail(j, _, retryable) => if j == id && st != Gone then (if retryable then Offered else Parked) else st
    case _ => st
  }

  lemma {:induction false} FindNormalized(items: seq<Item>, id: string)
    requires forall i <- items :: !IsCapture(i.content.operationId)
    ensures Find(NormalizeItems(items), id).Some? <==> Find(items, id).Some?
    ensures Find(items, id).Some? ==>
              (GivenUp(Find(NormalizeItems(items), id).value) <==> GivenUp(Find(items, id).value))
    decreases |items|
  {
    if items != [] {
      assert items[0] in items;
      FindNormalized(items[1..], id);
    }
  }

  lemma {:induction false} FindMapped(items: seq<Item>, f: Item -> Item, id: string)
    requires forall i <- items :: f(i).content == i.content
    ensures Find(Map(items, f), id) == match Find(items, id) case None => None case Some(i) => Some(f(i))
    decreases |items|
  {
    if items != [] {
      assert items[0] in items;
      FindMapped(items[1..], f, id);
      assert Map(items, f)[1..] == Map(items[1..], f);
    }
  }

  lemma {:induction false} FindWithout(items: seq<Item>, j: string, id: string)
    ensures Find(Without(items, j), id) == if j == id then None else Find(items, id)
    decreases |items|
  {
    if items != [] {
      FindWithout(items[1..], j, id);
      var rest := Without(items[1..], j);
      assert ([items[0]] + rest)[1..] == rest && [] + rest == rest;
    }
  }

  lemma {:induction false} FindAppended(items: seq<Item>, item: Item, id: string)
    ensures Find(items + [item], id) ==
            if Find(items, id).None? && item.content.operationId == id then Some(item) else Find(items, id)
    decreases |items|
  {
    if items == [] {
      assert [] + [item] == [item] && [item][1..] == [];
    } else {
      assert (items + [item])[1..] == items[1..] + [item];
      FindAppended(items[1..], item, id);
    }
  }

  lemma {:induction false} FindHasId(items: seq<Item>, id: string)
    ensures Find(items, id).Some? ==> Find(items, id).value in items && Find(items, id).value.content.operationId == id
    decreases |items|
  {
    if items != [] {
      FindHasId(items[1..], id);
    }
  }

  lemma LoadedStanding(s: State, id: string)
    requires DistinctIds(Contents(s.outbox))
    ensures StandingOf(Loaded(s), id) == StandingOf(s, id)
  {
    ContentsMembers(s.outbox);
    FindNormalized(s.outbox, id);
  }

  lemma UpdatedStanding(s: State, op: Op, id: string)
    ensures StandingOf(Updated(s, op), id) == NextStanding(StandingOf(s, id), op, id)
  {
    FindHasId(s.outbox, id);
    match op
    case Enqueue(c, d) => FindAppended(s.outbox, Fresh(c, d), id);
    case Mark(j) => FindMapped(s.outbox, Marked(j), id);
    case Complete(j) => FindWithout(s.outbox, j, id);
    case Fail(j, e, r) => FindMapped(s.outbox, MarkedFailed(j, e, r), id);
    case Pair(d, _, _) => FindMapped(s.outbox, Rehomed(s.deviceId, d), id);
    case Unpair =>
    case Remember(_, _) =>
    case Received(_) =>
    case ReceiveFailed(_) =>
  }

  function StandingAfter(st: Standing, ops: seq<Op>, id: string): Standing
    decreases |ops|
  {
    if ops == [] then st else StandingAfter(NextStanding(st, ops[0], id), ops[1..], id)
  }

  lemma {:induction false} RunStanding(s: State, ops: seq<Op>, id: string)
    requires DistinctIds(Contents(s.outbox))
    ensures StandingOf(Run(s, ops), id) == StandingAfter(StandingOf(s, id), ops, id)
    decreases |ops|
  {
    if ops != [] {
      LoadedStanding(s, id);
      UpdatedStanding(Loaded(s), ops[0], id);
      UpdateContents(s, ops[0]);
      RunStanding(Updated(Loaded(s), ops[0]), ops[1..], id);
    }
  }

  lemma {:induction false} FindIsTheOne(items: seq<Item>, item: Item)
    requires DistinctIds(Contents(items)) && item in items
    ensures Find(items, item.content.operationId) == Some(item)
    decreases |items|
  {
    if items[0] != item {
      assert Contents(items) == [items[0].content] + Contents(items[1..]);
      DistinctCons(items[0].content, Contents(items[1..]));
      ContentsMembers(items[1..]);
      assert item in items[1..];
      FindIsTheOne(items[1..], item);
    }
  }

  /** The next selection offers exactly the operations in the outbox that are not given up. */
  lemma SelectedIffOffered(s: State, id: string)
    requires DistinctIds(Contents(s.outbox))
    ensures id in Ids(Select(Loaded(s).outbox)) <==> StandingOf(s, id) == Offered
  {
    NothingStuckAfterReload(s);
    LoadedStanding(s, id);
    var items := Loaded(s).outbox;
    SelectMembers(items);
    ContentsMembers(s.outbox);
    NormalizeKeepsContents(s.outbox);
    FindHasId(items, id);
    if i :| i in Select(items) && i.content.operationId == id {
      FindIsTheOne(items, i);
    }
  }

  // ---------------------------------------------------------------- giving up, operation by operation

  /** An operation of the run that offers `id` again although it was given up. */
  predicate Reoffers(op: Op, id: string) {
    op == Mark(id) || (op.Fail? && op.id == id && op.retryable)
  }

  ghost predicate NeverOffered(s: State, ops: seq<Op>, id: string) {
    forall k | 0 <= k <= |ops| && Complete(id) !in ops[..k] :: id !in Ids(Select(Loaded(Run(s, ops[..k])).outbox))
  }

  lemma PrefixStanding(s: State, ops: seq<Op>, id: string, k: nat)
    requires DistinctIds(Contents(s.outbox)) && k <= |ops|
    ensures StandingOf(Run(s, ops[..k]), id) == StandingAfter(StandingOf(s, id), ops[..k], id)
    ensures id in Ids(Select(Loaded(Run(s, ops[..k])).outbox)) <==> StandingOf(Run(s, ops[..k]), id) == Offered
  {
    RunStanding(s, ops[..k], id);
    OutboxIsConserved(s, ops[..k]);
    SelectedIffOffered(Run(s, ops[..k]), id);
  }

  lemma {:induction false} StaysParked(ops: seq<Op>, id: string)
    requires Complete(id) !in ops && forall op <- ops :: !Reoffers(op, id)
    ensures StandingAfter(Parked, ops, id) == Parked
    decreases |ops|
  {
    if ops != [] {
      assert ops[0] in ops;
      StaysParked(ops[1..], id);
    }
  }

  lemma {:induction false} StandingAppend(st: Standing, xs: seq<Op>, op: Op, id: string)
    ensures StandingAfter(st, xs + [op], id) == NextStanding(StandingAfter(st, xs, id), op, id)
    decreases |xs|
  {
    if xs == [] {
      assert [] + [op] == [op] && [op][1..] == [];
    } else {
      assert (xs + [op])[1..] == xs[1..] + [op];
      StandingAppend(NextStanding(st, xs[0], id), xs[1..], op, id);
    }
  }

  lemma {:induction false} HeldUntilCompleted(st: Standing, ops: seq<Op>, id: string)
    requires st != Gone && Complete(id) !in ops
    ensures StandingAfter(st, ops, id) != Gone
    decreases |ops|
  {
    if ops != [] {
      assert ops[0] in ops;
      HeldUntilCompleted(NextStanding(st, ops[0], id), ops[1..], id);
    }
  }

  /**
   A given-up operation is offered at no point of a run before it is completed if and only if no
   marking and no retryable failure of it occurs before it is completed.
   */
  lemma GivenUpStaysIff(s: State, ops: seq<Op>, id: string)
    requires DistinctIds(Contents(s.outbox)) && StandingOf(s, id) == Parked
    ensures NeverOffered(s, ops, id) <==>
            forall k | 0 <= k < |ops| && Reoffers(ops[k], id) :: Complete(id) in ops[..k]
  {
    if NeverOffered(s, ops, id) {
      forall k | 0 <= k < |ops| && Reoffers(ops[k], id) ensures Complete(id) in ops[..k] {
        if Complete(id) !in ops[..k] {
          assert ops[..k+1] == ops[..k] + [ops[k]];
          HeldUntilCompleted(Parked, ops[..k], id);
          StandingAppend(Parked, ops[..k], ops[k], id);
          PrefixStanding(s, ops, id, k + 1);
          assert false;
        }
      }
    }
    if forall k | 0 <= k < |ops| && Reoffers(ops[k], id) :: Complete(id) in ops[..k] {
      forall k | 0 <= k <= |ops| && Complete(id) !in ops[..k]
        ensures id !in Ids(Select(Loaded(Run(s, ops[..k])).outbox))
      {
        forall op | op in ops[..k] ensures !Reoffers(op, id) {
          var j :| 0 <= j < k && ops[j] == op;
          assert ops[..j] <= ops[..k];
        }
        StaysParked(ops[..k], id);
        PrefixStanding(s, ops, id, k);
      }
    }
  }

  // ---------------------------------------------------------------- giving up, batch by batch

  predicate Holds(b: Batch, id: string) {
    b.flight == Some(id) || id in b.queue
  }

  /** Some batch in progress has still to push `id` or awaits its answer. */
  predicate InProgress(w: World, id: string) {
    exists b <- w.batches :: Holds(b, id)
  }

  lemma {:induction false} ChosenIsOffered(s: State, limit: int, id: string)
    requires DistinctIds(Contents(s.outbox)) && id in Chosen(s, limit)
    ensures StandingOf(s, id) == Offered
  {
    var items := Take(Select(Loaded(s).outbox), limit);
    var k :| 0 <= k < |items| && IdList(items)[k] == id;
    assert items[k] in Select(Loaded(s).outbox);
    SelectedIffOffered(s, id);
  }

  lemma NextContents(w: World, step: Step)
    requires DistinctIds(Contents(w.stored.outbox))
    ensures DistinctIds(Contents(Next(w, step).stored.outbox))
  {
    OutboxIsConserved(w.stored, Ops(w, step));
  }

  lemma NextStandingOf(w: World, step: Step, id: string)
    requires DistinctIds(Contents(w.stored.outbox))
    ensures StandingOf(Next(w, step).stored, id) ==
            if Ops(w, step) == [] then StandingOf(w.stored, id)
            else NextStanding(StandingOf(w.stored, id), Ops(w, step)[0], id)
  {
    RunStanding(w.stored, Ops(w, step), id);
    assert |Ops(w, step)| <= 1;
    if Ops(w, step) != [] {
      assert Ops(w, step)[1..] == [];
    }
  }

  /** The operations of a batch's steps are about what it holds. */
  lemma OpsAreHeld(w: World, step: Step, id: string)
    requires !InProgress(w, id) && Ops(w, step) != [] && !step.Other?
    ensures Ops(w, step)[0] != Mark(id) && Ops(w, step)[0] != Complete(id)
    ensures Ops(w, step)[0].Fail? ==> Ops(w, step)[0].id != id
  {
    var b := w.batches[step.batch];
    assert b in w.batches && !Holds(b, id);
  }

  lemma StepKeepsParked(w: World, step: Step, id: string)
    requires DistinctIds(Contents(w.stored.outbox)) && StandingOf(w.stored, id) == Parked && !InProgress(w, id)
    ensures StandingOf(Next(w, step).stored, id) == Parked && !InProgress(Next(w, step), id)
  {
    NextStandingOf(w, step, id);
    if Ops(w, step) != [] && !step.Other? {
      OpsAreHeld(w, step, id);
    }
    if step.Begin? && id in Chosen(w.stored, step.limit) {
      ChosenIsOffered(w.stored, step.limit, id);
    }
    StepHolds(w, step, id);
  }

  /** A step makes a batch hold an operation only by beginning with it. */
  lemma StepHolds(w: World, step: Step, id: string)
    requires !InProgress(w, id) && (step.Begin? ==> id !in Chosen(w.stored, step.limit))
    ensures !InProgress(Next(w, step), id)
  {
    var batches := Batches(w, step);
    forall b <- batches ensures !Holds(b, id) {
      if b !in w.batches && !step.Begin? {
        assert w.batches[step.batch] in w.batches;
        assert !Holds(w.batches[step.batch], id);
      }
    }
  }

  lemma {:induction false} ParkedForGood(w: World, steps: seq<Step>, id: string)
    requires DistinctIds(Contents(w.stored.outbox)) && StandingOf(w.stored, id) == Parked && !InProgress(w, id)
    ensures StandingOf(Play(w, steps).stored, id) == Parked && !InProgress(Play(w, steps), id)
    decreases |steps|
  {
    if steps != [] {
      NextContents(w, steps[0]);
      StepKeepsParked(w, steps[0], id);
      ParkedForGood(Next(w, steps[0]), steps[1..], id);
    }
  }

  /** A batch that holds a given-up operation has a way to offer it again. */
  lemma {:induction false} Comeback(w: World, b: nat, id: string) returns (steps: seq<Step>)
    requires DistinctIds(Contents(w.stored.outbox)) && StandingOf(w.stored, id) == Parked
    requires b < |w.batches| && Holds(w.batches[b], id)
    ensures StandingOf(Play(w, steps).stored, id) == Offered
    decreases 2 * |w.batches[b].queue| + if w.batches[b].flight.Some? then 1 else 0
  {
    var batch := w.batches[b];
    var step := if batch.flight.Some? then Answer(b, Malformed) else Send(b);
    NextContents(w, step);
    NextStandingOf(w, step, id);
    var next := Next(w, step);
    if next.stored == w.stored || StandingOf(next.stored, id) == Parked {
      assert Holds(next.batches[b], id);
      var rest := Comeback(next, b, id);
      steps := [step] + rest;
      assert steps[1..] == rest;
    } else {
      steps := [step];
      assert steps[1..] == [];
    }
  }

  /**
   Given up for good: whatever follows, a given-up operation is never offered again, if and only if
   no batch in progress still holds it at that moment.
   */
  lemma GivenUpForGoodIff(w: World, id: string)
    requires DistinctIds(Contents(w.stored.outbox)) && StandingOf(w.stored, id) == Parked
    ensures (forall steps :: StandingOf(Play(w, steps).stored, id) == Parked) <==> !InProgress(w, id)
    ensures !InProgress(w, id) ==> forall steps :: Mark(id) !in Trace(w, steps)
  {
    if !InProgress(w, id) {
      forall steps ensures StandingOf(Play(w, steps).stored, id) == Parked && Mark(id) !in Trace(w, steps) {
        ParkedForGood(w, steps, id);
        NeverMarked(w, steps, id);
      }
    } else {
      var batch :| batch in w.batches && Holds(batch, id);
      var b :| 0 <= b < |w.batches| && w.batches[b] == batch;
      var steps := Comeback(w, b, id);
      assert StandingOf(Play(w, steps).stored, id) != Parked;
    }
  }

  lemma {:induction false} NeverMarked(w: World, steps: seq<Step>, id: string)
    requires DistinctIds(Contents(w.stored.outbox)) && StandingOf(w.stored, id) == Parked && !InProgress(w, id)
    ensures Mark(id) !in Trace(w, steps)
    decreases |steps|
  {
    if steps != [] {
      NextContents(w, steps[0]);
      StepKeepsParked(w, steps[0], id);
      NeverMarked(Next(w, steps[0]), steps[1..], id);
      if steps[0].Send? && Enabled(w, steps[0]) {
        assert Holds(w.batches[steps[0].batch], w.batches[steps[0].batch].queue[0]);
      }
    }
  }

  // ---------------------------------------------------------------- what an answer decides

  /** The answers after which an operation may go: applied, duplicate, or a conflict resolved here. */
  predicate Settles(reply: Reply) {
    reply in {Applied, Duplicate, Conflict(true, None)}
  }

  /**
   One answer to a push of an operation in the outbox.  It is gone exactly after an answer that settles
   it, given up exactly after a conflict without a current value, and offered again after every other
   answer; without an answer nothing changes.
   */
  lemma AnswerDecides(w: World, b: nat, reply: Reply)
    requires DistinctIds(Contents(w.stored.outbox)) && b < |w.batches| && w.batches[b].flight.Some?
    requires StandingOf(w.stored, w.batches[b].flight.value) != Gone
    ensures var before := StandingOf(w.stored, w.batches[b].flight.value);
            var after := StandingOf(Next(w, Answer(b, reply)).stored, w.batches[b].flight.value);
            && (after == Gone <==> Settles(reply))
            && (reply == Died ==> after == before)
            && (reply != Died ==> (after == Parked <==> reply.Conflict? && !reply.current))
            && (reply.Malformed? || reply.Thrown? || (reply.Conflict? && reply.current && reply.applyError.Some?)
                ==> after == Offered)
  {
    NextStandingOf(w, Answer(b, reply), w.batches[b].flight.value);
  }

  /** Step `k` of the run answers a push of `id` with a conflict that has no current value. */
  ghost predicate ConflictAt(w: World, steps: seq<Step>, k: nat, id: string) {
    && k < |steps| && steps[k].Answer? && Enabled(Play(w, steps[..k]), steps[k])
    && Play(w, steps[..k]).batches[steps[k].batch].flight == Some(id)
    && steps[k].reply.Conflict? && !steps[k].reply.current
  }

  lemma ConflictLater(w: World, steps: seq<Step>, k: nat, id: string)
    requires steps != [] && ConflictAt(Next(w, steps[0]), steps[1..], k, id)
    ensures ConflictAt(w, steps, k + 1, id)
  {
    assert steps[..k+1][1..] == steps[1..][..k];
  }

  lemma StepParks(w: World, step: Step, id: string)
    requires DistinctIds(Contents(w.stored.outbox)) && StandingOf(w.stored, id) != Parked
    requires StandingOf(Next(w, step).stored, id) == Parked
    ensures ConflictAt(w, [step], 0, id)
  {
    assert [step][..0] == [];
    NextStandingOf(w, step, id);
  }

  /** Over whole runs, only a conflict without a current value ever gives an operation up. */
  lemma {:induction false} OnlyConflictsGiveUp(w: World, steps: seq<Step>, id: string)
    requires DistinctIds(Contents(w.stored.outbox)) && StandingOf(w.stored, id) != Parked
    requires StandingOf(Play(w, steps).stored, id) == Parked
    ensures exists k: nat :: ConflictAt(w, steps, k, id)
    decreases |steps|
  {
    var next := Next(w, steps[0]);
    if StandingOf(next.stored, id) == Parked {
      StepParks(w, steps[0], id);
      assert steps[..0] == [steps[0]][..0];
      assert ConflictAt(w, steps, 0, id);
    } else {
      NextContents(w, steps[0]);
      OnlyConflictsGiveUp(next, steps[1..], id);
      var k: nat :| ConflictAt(next, steps[1..], k, id);
      ConflictLater(w, steps, k, id);
    }
  }

  /** How often the run records a failure of `id`. */
  function Failures(ops: seq<Op>, id: string): nat {
    if ops == [] then 0
    else Failures(ops[..|ops|-1], id) + if ops[|ops|-1].Fail? && ops[|ops|-1].id == id then 1 else 0
  }

  /** The error recorded last for `id`, or `before`. */
  function LastError(before: Option<string>, ops: seq<Op>, id: string): Option<string> {
    if ops == [] then before
    else
      var op := ops[|ops|-1];
      if op.Fail? && op.id == id then Some(op.error) else LastError(before, ops[..|ops|-1], id)
  }

  lemma {:induction false} RunSnoc(s: State, ops: seq<Op>)
    requires ops != []
    ensures Run(s, ops) == Updated(Loaded(Run(s, ops[..|ops|-1])), ops[|ops|-1])
  {
    var n := |ops| - 1;
    assert ops == ops[..n] + [ops[n]] && [ops[n]][1..] == [];
    RunAppend(s, ops[..n], [ops[n]]);
  }

  lemma {:induction false} FindLoaded(items: seq<Item>, id: string)
    requires forall i <- items :: !IsCapture(i.content.operationId)
    ensures Find(items, id).Some? ==>
              Find(NormalizeItems(items), id) ==
              Some(Find(items, id).value.(status := if Find(items, id).value.status == Failed then Failed else Pending))
    decreases |items|
  {
    if items != [] {
      assert items[0] in items;
      FindLoaded(items[1..], id);
    }
  }

  /** While an operation waits, its retries count its failures and its error is the last one. */
  lemma {:induction false} RetriesCountFailures(s: State, ops: seq<Op>, id: string)
    requires DistinctIds(Contents(s.outbox)) && Find(s.outbox, id).Some? && Complete(id) !in ops
    ensures var item := Find(s.outbox, id).value;
            var end := Find(Run(s, ops).outbox, id);
            && end.Some? && end.value.content == item.content
            && end.value.retryCount == item.retryCount + Failures(ops, id)
            && end.value.lastError == LastError(item.lastError, ops, id)
    decreases |ops|
  {
    if ops != [] {
      var n := |ops| - 1;
      var mid := Run(s, ops[..n]);
      RetriesCountFailures(s, ops[..n], id);
      RunSnoc(s, ops);
      OutboxIsConserved(s, ops[..n]);
      ContentsMembers(mid.outbox);
      FindLoaded(mid.outbox, id);
      FindHasId(mid.outbox, id);
      UpdatedItem(Loaded(mid), ops[n], id);
      assert ops[n] in ops;
    }
  }

  /** What one operation on the stored state does to a waiting item. */
  lemma UpdatedItem(s: State, op: Op, id: string)
    requires Find(s.outbox, id).Some? && op != Complete(id)
    ensures var item := Find(s.outbox, id).value;
            var end := Find(Updated(s, op).outbox, id);
            && end.Some? && end.value.content == item.content
            && end.value.retryCount == item.retryCount + (if op.Fail? && op.id == id then 1 else 0)
            && end.value.lastError == (if op.Fail? && op.id == id then Some(op.error) else item.lastError)
  {
    FindHasId(s.outbox, id);
    match op
    case Enqueue(c, d) => FindAppended(s.outbox, Fresh(c, d), id);
    case Mark(j) => FindMapped(s.outbox, Marked(j), id);
    case Complete(j) => FindWithout(s.outbox, j, id);
    case Fail(j, e, r) => FindMapped(s.outbox, MarkedFailed(j, e, r), id);
    case Pair(d, _, _) => FindMapped(s.outbox, Rehomed(s.deviceId, d), id);
    case Unpair =>
    case Remember(_, _) =>
    case Received(_) =>
    case ReceiveFailed(_) =>
  }

  /** A batch begins with the first offered operations in the order of the outbox, at most `limit`. */
  lemma ChosenFirst(s: State, limit: int)
    requires s.token.Some?
    ensures var offered := IdList(Select(Loaded(s).outbox));
            && Chosen(s, limit) <= offered
            && |Chosen(s, limit)| == if limit < 0 then 0 else if limit < |offered| then limit else |offered|
  {
  }

  /** And the selection keeps the order of the outbox. */
  lemma {:induction false} SelectionInOrder(items: seq<Item>, i: nat, j: nat) returns (m: nat, n: nat)
    requires i < j < |Select(items)|
    ensures m < n < |items| && items[m] == Select(items)[i] && items[n] == Select(items)[j]
    decreases |items|
  {
    var rest := Select(items[1..]);
    if !Eligible(items[0]) {
      assert Select(items) == rest by { assert [] + rest == rest; }
      m, n := SelectionInOrder(items[1..], i, j);
      m, n := m + 1, n + 1;
    } else if i > 0 {
      m, n := SelectionInOrder(items[1..], i - 1, j - 1);
      m, n := m + 1, n + 1;
    } else {
      SelectMembers(items[1..]);
      assert rest[j-1] in rest;
      n :| 0 <= n < |items[1..]| && items[1..][n] == rest[j-1];
      m, n := 0, n + 1;
    }
  }

  // ---------------------------------------------------------------- batches one at a time

  ghost predicate NoRepeats(ids: seq<string>) {
    forall i, j | 0 <= i < j < |ids| :: ids[i] != ids[j]
  }

  /** The operations a batch has still to push, the awaited one first. */
  function Remaining(b: Batch): seq<string> {
    (if b.flight.Some? then [b.flight.value] else []) + b.queue
  }

  /** The batch names no operation twice, and each of them is in the outbox. */
  ghost predicate Sound(s: State, b: Batch) {
    NoRepeats(Remaining(b)) && forall id <- Remaining(b) :: StandingOf(s, id) != Gone
  }

  ghost predicate Sequential(w: World) {
    && DistinctIds(Contents(w.stored.outbox))
    && (forall i, j | 0 <= i < j < |w.batches| :: Remaining(w.batches[i]) == [] || Remaining(w.batches[j]) == [])
    && (forall k | 0 <= k < |w.batches| :: Sound(w.stored, w.batches[k]))
  }

  predicate Idle(w: World) {
    forall b <- w.batches :: Remaining(b) == []
  }

  ghost predicate OneAtATime(w: World, steps: seq<Step>)
    decreases |steps|
  {
    steps != [] ==> (steps[0].Begin? ==> Idle(w)) && OneAtATime(Next(w, steps[0]), steps[1..])
  }

  /** A batch never names an operation twice. */
  lemma ChosenOnce(s: State, limit: int)
    requires DistinctIds(Contents(s.outbox))
    ensures NoRepeats(Chosen(s, limit))
  {
    ContentsMembers(s.outbox);
    NormalizeKeepsContents(s.outbox);
    var selected := Select(Loaded(s).outbox);
    SelectDistinct(Loaded(s).outbox);
    var ids := Chosen(s, limit);
    forall i, j | 0 <= i < j < |ids| ensures ids[i] != ids[j] {
      assert ids[i] == Contents(selected)[i].operationId && ids[j] == Contents(selected)[j].operationId;
    }
  }

  lemma StepKeepsSequential(w: World, step: Step)
    requires Sequential(w) && (step.Begin? ==> Idle(w))
    ensures Sequential(Next(w, step))
  {
    NextContents(w, step);
    if !Enabled(w, step) {
      assert Next(w, step) == w;
    } else if step.Begin? {
      BeginKeepsSequential(w, step.limit);
    } else {
      AdvanceKeepsSequential(w, step);
    }
  }

  lemma ChosenIsSound(s: State, limit: int)
    requires DistinctIds(Contents(s.outbox))
    ensures Sound(s, Batch(Chosen(s, limit), None))
  {
    ChosenOnce(s, limit);
    var batch := Batch(Chosen(s, limit), None);
    assert Remaining(batch) == batch.queue;
    forall id | id in Remaining(batch) ensures StandingOf(s, id) != Gone {
      ChosenIsOffered(s, limit, id);
    }
  }

  lemma AppendKeepsSequential(w: World, batch: Batch)
    requires Sequential(w) && Idle(w) && Sound(w.stored, batch)
    ensures Sequential(World(w.stored, w.batches + [batch]))
  {
    var more := w.batches + [batch];
    forall k | 0 <= k < |more| ensures Sound(w.stored, more[k]) && (k < |w.batches| ==> Remaining(more[k]) == []) {
      if k < |w.batches| {
        assert more[k] == w.batches[k] && w.batches[k] in w.batches;
      }
    }
  }

  lemma BeginKeepsSequential(w: World, limit: int)
    requires Sequential(w) && Idle(w)
    ensures Sequential(Next(w, Begin(limit)))
  {
    ChosenIsSound(w.stored, limit);
    AppendKeepsSequential(w, Batch(Chosen(w.stored, limit), None));
  }

  /** What is left of a batch after a step is what was left of it before, or the tail of that. */
  lemma AdvanceRemaining(w: World, step: Step, k: nat)
    requires !step.Begin? && Enabled(w, step) && k < |w.batches|
    ensures k < |Batches(w, step)|
    ensures var left, was := Remaining(Batches(w, step)[k]), Remaining(w.batches[k]);
            if step.Answer? && k == step.batch then IsTail(left, was) else left == was
  {
    if !step.Other? && k == step.batch {
      var b := w.batches[k];
      if step.Send? {
        assert [b.queue[0]] + b.queue[1..] == b.queue && [] + b.queue == b.queue;
      } else {
        assert ([b.flight.value] + b.queue)[1..] == b.queue && [] + b.queue == b.queue;
      }
    }
  }

  lemma TailOnce(xs: seq<string>, ys: seq<string>)
    requires IsTail(xs, ys) && NoRepeats(ys)
    ensures NoRepeats(xs) && forall id <- xs :: id in ys && id != ys[0]
  {
    if xs != [] {
      assert forall n | 0 <= n < |xs| :: xs[n] == ys[n+1];
    }
  }

  /** A step leaves in the outbox whatever it does not complete. */
  lemma StaysInOutbox(w: World, step: Step, id: string)
    requires DistinctIds(Contents(w.stored.outbox)) && StandingOf(w.stored, id) != Gone
    requires step.Answer? && Enabled(w, step) ==> w.batches[step.batch].flight != Some(id)
    ensures StandingOf(Next(w, step).stored, id) != Gone
  {
    NextStandingOf(w, step, id);
  }

  /** The operations left to a batch are not the one just answered. */
  lemma LeftIsUnanswered(w: World, step: Step, k: nat, id: string)
    requires Sequential(w) && !step.Begin? && Enabled(w, step) && k < |w.batches| && k < |Batches(w, step)|
    requires id in Remaining(Batches(w, step)[k])
    ensures id in Remaining(w.batches[k])
    ensures step.Answer? ==> w.batches[step.batch].flight != Some(id)
  {
    AdvanceRemaining(w, step, k);
    assert Sound(w.stored, w.batches[k]);
    if step.Answer? {
      if k == step.batch {
        TailOnce(Remaining(Batches(w, step)[k]), Remaining(w.batches[k]));
      } else {
        OnlyHolder(w, step.batch, k, w.batches[step.batch].flight.value);
      }
    }
  }

  lemma AdvanceSound(w: World, step: Step, k: nat)
    requires Sequential(w) && !step.Begin? && Enabled(w, step) && k < |w.batches|
    ensures k < |Next(w, step).batches| && Sound(Next(w, step).stored, Next(w, step).batches[k])
  {
    AdvanceRemaining(w, step, k);
    var left := Remaining(Batches(w, step)[k]);
    assert Sound(w.stored, w.batches[k]);
    if step.Answer? && k == step.batch {
      TailOnce(left, Remaining(w.batches[k]));
    }
    forall id | id in left ensures StandingOf(Next(w, step).stored, id) != Gone {
      LeftIsUnanswered(w, step, k, id);
      StaysInOutbox(w, step, id);
    }
  }

  lemma AdvanceKeepsSequential(w: World, step: Step)
    requires Sequential(w) && !step.Begin? && Enabled(w, step) && DistinctIds(Contents(Next(w, step).stored.outbox))
    ensures Sequential(Next(w, step))
  {
    forall k | 0 <= k < |w.batches|
      ensures Sound(Next(w, step).stored, Next(w, step).batches[k])
      ensures Remaining(w.batches[k]) == [] ==> Remaining(Next(w, step).batches[k]) == []
    {
      AdvanceSound(w, step, k);
      AdvanceRemaining(w, step, k);
    }
  }

  predicate IsTail(xs: seq<string>, ys: seq<string>) {
    xs == [] || (ys != [] && xs == ys[1..])
  }

  /** The awaited operation of a batch is held by no other batch and only once by its own. */
  lemma OnlyHolder(w: World, b: nat, k: nat, id: string)
    requires Sequential(w) && b < |w.batches| && w.batches[b].flight == Some(id) && k < |w.batches|
    ensures id in Remaining(w.batches[k]) ==> k == b
    ensures id !in w.batches[b].queue
  {
    assert Sound(w.stored, w.batches[b]);
    assert Remaining(w.batches[b])[0] == id;
    forall n | 0 <= n < |w.batches[b].queue| ensures w.batches[b].queue[n] != id {
      assert Remaining(w.batches[b])[n+1] == w.batches[b].queue[n];
    }
  }

  lemma {:induction false} RunsStaySequential(w: World, steps: seq<Step>)
    requires Sequential(w) && OneAtATime(w, steps)
    ensures Sequential(Play(w, steps))
    decreases |steps|
  {
    if steps != [] {
      StepKeepsSequential(w, steps[0]);
      RunsStaySequential(Next(w, steps[0]), steps[1..]);
    }
  }

  /**
   Without overlapping batches up to that point, an operation given up as non-retryable is never
   offered or pushed again, whatever batches follow.
   */
  lemma GivenUpIsNeverPushed(w: World, before: seq<Step>, b: nat, error: Option<string>, after: seq<Step>)
    requires Sequential(w) && OneAtATime(w, before)
    requires b < |Play(w, before).batches| && Play(w, before).batches[b].flight.Some?
    ensures var id := Play(w, before).batches[b].flight.value;
            var gaveUp := Next(Play(w, before), Answer(b, Conflict(false, error)));
            StandingOf(Play(gaveUp, after).stored, id) == Parked && Mark(id) !in Trace(gaveUp, after)
  {
    var mid := Play(w, before);
    RunsStaySequential(w, before);
    var id := mid.batches[b].flight.value;
    var step := Answer(b, Conflict(false, error));
    var gaveUp := Next(mid, step);
    assert Sound(mid.stored, mid.batches[b]) && Remaining(mid.batches[b])[0] == id;
    NextStandingOf(mid, step, id);
    NextContents(mid, step);
    forall k | 0 <= k < |gaveUp.batches| ensures !Holds(gaveUp.batches[k], id) {
      OnlyHolder(mid, b, k, id);
    }
    GivenUpForGoodIff(gaveUp, id);
  }

  /**
   With two batches in progress it can fail: both begin with the same operation, the first gives it up,
   the second pushes it again, and it is offered once more.
   */
  lemma OverlapPushesGivenUpAgain(s: State, c: Content)
    requires s.token.Some? && s.outbox == [Fresh(c, s.deviceId)] && !IsCapture(c.operationId)
    ensures var gaveUp := Play(World(s, []), [Begin(1), Begin(1), Send(0), Answer(0, Conflict(false, None))]);
            && StandingOf(gaveUp.stored, c.operationId) == Parked
            && Mark(c.operationId) in Trace(gaveUp, [Send(1)])
            && StandingOf(Play(gaveUp, [Send(1)]).stored, c.operationId) == Offered
  {
    var id := c.operationId;
    OneItem(s, c);
    Unroll(s, id);
    var sent := Next(World(s, [Batch([id], None), Batch([id], None)]), Send(0));
    assert [id][1..] == [];
    assert sent.batches == [Batch([], Some(id)), Batch([id], None)];
    AfterGivingUp(sent, id);
    One(Next(sent, Answer(0, Conflict(false, None))), Send(1));
  }

  lemma OneItem(s: State, c: Content)
    requires s.token.Some? && s.outbox == [Fresh(c, s.deviceId)] && !IsCapture(c.operationId)
    ensures Chosen(s, 1) == [c.operationId] && StandingOf(s, c.operationId) == Offered
    ensures DistinctIds(Contents(s.outbox))
    ensures var sent := Next(World(s, [Batch([c.operationId], None), Batch([c.operationId], None)]), Send(0));
            DistinctIds(Contents(sent.stored.outbox)) && StandingOf(sent.stored, c.operationId) == Offered
  {
    assert Contents(s.outbox) == [c];
    assert s.outbox[1..] == [] && NormalizeItems(s.outbox) == s.outbox;
    assert Select(s.outbox) == s.outbox;
    var two := World(s, [Batch([c.operationId], None), Batch([c.operationId], None)]);
    NextContents(two, Send(0));
    NextStandingOf(two, Send(0), c.operationId);
  }

  lemma AfterGivingUp(sent: World, id: string)
    requires DistinctIds(Contents(sent.stored.outbox)) && StandingOf(sent.stored, id) == Offered
    requires sent.batches == [Batch([], Some(id)), Batch([id], None)]
    ensures var gaveUp := Next(sent, Answer(0, Conflict(false, None)));
            && StandingOf(gaveUp.stored, id) == Parked
            && Ops(gaveUp, Send(1)) == [Mark(id)] && StandingOf(Next(gaveUp, Send(1)).stored, id) == Offered
  {
    var last := Answer(0, Conflict(false, None));
    NextContents(sent, last);
    NextStandingOf(sent, last, id);
    NextStandingOf(Next(sent, last), Send(1), id);
  }

  lemma Unroll(s: State, id: string)
    requires Chosen(s, 1) == [id]
    ensures var sent := Next(World(s, [Batch([id], None), Batch([id], None)]), Send(0));
            Play(World(s, []), [Begin(1), Begin(1), Send(0), Answer(0, Conflict(false, None))])
            == Next(sent, Answer(0, Conflict(false, None)))
  {
    var last := Answer(0, Conflict(false, None));
    var one := Next(World(s, []), Begin(1));
    assert one == World(s, [Batch([id], None)]);
    var two := Next(one, Begin(1));
    assert two == World(s, [Batch([id], None), Batch([id], None)]);
    var sent := Next(two, Send(0));
    assert [Begin(1), Begin(1), Send(0), last][1..] == [Begin(1), Send(0), last];
    assert [Begin(1), Send(0), last][1..] == [Send(0), last] && [Send(0), last][1..] == [last] && [last][1..] == [];
    assert Play(sent, [last]) == Next(sent, last);
    assert Play(two, [Send(0), last]) == Play(sent, [last]);
    assert Play(one, [Begin(1), Send(0), last]) == Play(two, [Send(0), last]);
  }

  // ---------------------------------------------------------------- a batch in place is such a run

  /** One await of a batch: what the others do meanwhile, and the reply. */
  datatype Pause = Pause(others: seq<Step>, reply: Reply)

  /** The steps of batch `b` with those of others in between. */
  function Drive(b: nat, pauses: seq<Pause>): seq<Step> {
    if pauses == [] then []
    else PushSteps(b, pauses[0]) + if pauses[0].reply.Died? then [] else Drive(b, pauses[1..])
  }

  function PushSteps(b: nat, pause: Pause): seq<Step> {
    [Send(b)] + pause.others + [Answer(b, pause.reply)]
  }

  predicate Spares(step: Step, b: nat) {
    match step
    case Send(k) => k != b
    case Answer(k, _) => k != b
    case _ => true
  }

  lemma {:induction false} OthersSpare(w: World, steps: seq<Step>, b: nat)
    requires b < |w.batches| && forall step <- steps :: Spares(step, b)
    ensures b < |Play(w, steps).batches| && Play(w, steps).batches[b] == w.batches[b]
    decreases |steps|
  {
    if steps != [] {
      assert steps[0] in steps;
      OthersSpare(Next(w, steps[0]), steps[1..], b);
    }
  }

  /** One push of a batch: what it performs, and where it leaves the batch. */
  lemma PushIsARun(w: World, b: nat, pause: Pause) returns (meanwhile: seq<Op>)
    requires b < |w.batches| && w.batches[b].flight.None? && w.batches[b].queue != []
    requires forall step <- pause.others :: Spares(step, b)
    ensures var steps := PushSteps(b, pause);
            && Trace(w, steps) == PushOps(w.batches[b].queue[0], Wait(meanwhile, pause.reply))
            && b < |Play(w, steps).batches|
            && Play(w, steps).batches[b] == Batch(if pause.reply.Died? then [] else w.batches[b].queue[1..], None)
  {
    var sent := Next(w, Send(b));
    var back := Play(sent, pause.others);
    var answer := Answer(b, pause.reply);
    meanwhile := Trace(sent, pause.others);
    OthersSpare(sent, pause.others, b);
    One(w, Send(b));
    One(back, answer);
    PlayAppend(w, [Send(b)], pause.others);
    PlayAppend(w, [Send(b)] + pause.others, [answer]);
  }

  lemma One(w: World, step: Step)
    ensures Play(w, [step]) == Next(w, step) && Trace(w, [step]) == Ops(w, step)
  {
    assert [step][1..] == [];
    assert Ops(w, step) + [] == Ops(w, step);
  }

  /**
   What `PushBatch` performs against a script is what its batch performs in a run with others, the
   script holding what those others do during each await.
   */
  lemma {:induction false} BatchIsARun(w: World, b: nat, items: seq<Item>, pauses: seq<Pause>) returns (script: seq<Wait>)
    requires b < |w.batches| && w.batches[b] == Batch(IdList(items), None) && |pauses| == |items|
    requires forall pause <- pauses :: forall step <- pause.others :: Spares(step, b)
    ensures |script| == |items| && Trace(w, Drive(b, pauses)) == BatchOps(items, script)
    ensures forall k | 0 <= k < |items| :: script[k].reply == pauses[k].reply
    decreases |items|
  {
    if |items| == 0 {
      return [];
    }
    assert IdList(items)[1..] == IdList(items[1..]);
    var pause := pauses[0];
    assert pause in pauses;
    var meanwhile := PushIsARun(w, b, pause);
    var first := Wait(meanwhile, pause.reply);
    if pause.reply.Died? {
      DriveUnfolds(b, pauses);
      script := LastWait(items, first, pauses);
    } else {
      var next := Play(w, PushSteps(b, pause));
      assert next.batches[b] == Batch(IdList(items[1..]), None);
      var rest := BatchIsARun(next, b, items[1..], pauses[1..]);
      DriveUnfolds(b, pauses);
      PlayAppend(w, PushSteps(b, pause), Drive(b, pauses[1..]));
      script := Longer(items, first, rest);
    }
  }

  lemma DriveUnfolds(b: nat, pauses: seq<Pause>)
    requires pauses != []
    ensures Drive(b, pauses) ==
            if pauses[0].reply.Died? then PushSteps(b, pauses[0]) else PushSteps(b, pauses[0]) + Drive(b, pauses[1..])
  {
    assert PushSteps(b, pauses[0]) + [] == PushSteps(b, pauses[0]);
  }

  /** The script of a batch whose process dies at the first await. */
  lemma LastWait(items: seq<Item>, first: Wait, pauses: seq<Pause>) returns (script: seq<Wait>)
    requires items != [] && |pauses| == |items| && first.reply.Died? && pauses[0].reply == first.reply
    ensures |script| == |items| && BatchOps(items, script) == PushOps(items[0].content.operationId, first)
    ensures forall k | 0 <= k < |items| :: script[k].reply == pauses[k].reply
  {
    script := [first] + seq(|items| - 1, k requires 0 <= k < |items| - 1 => Wait([], pauses[k+1].reply));
    var push := PushOps(items[0].content.operationId, first);
    assert push + [] == push;
  }

  /** A script for the rest of a batch, with the wait of its first operation in front. */
  lemma Longer(items: seq<Item>, first: Wait, rest: seq<Wait>) returns (script: seq<Wait>)
    requires items != [] && |rest| == |items| - 1 && !first.reply.Died?
    ensures script == [first] + rest
    ensures BatchOps(items, script) == PushOps(items[0].content.operationId, first) + BatchOps(items[1..], rest)
  {
    script := [first] + rest;
    assert script[1..] == rest;
  }
}
