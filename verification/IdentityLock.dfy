/**
 `withRendererIdentityLock` of desktop/src/session.ts: a chain of promises.  A call remembers the
 current tail as `previous`, installs its own promise as the new tail, awaits `previous`, runs, and
 resolves its promise in `finally`, whether it succeeded or threw.
 */
module IdentityLock {
  import opened Prelude

  datatype Phase = Waiting | Running | Done(threw: bool)

  /** One call: the promise it awaits (none for the initially resolved one) and how far it is. */
  datatype Operation = Operation(previous: Option<nat>, phase: Phase)

  datatype Event = Call | Start(id: nat) | Finish(id: nat, threw: bool)

  predicate Resolved(ops: seq<Operation>, promise: Option<nat>) {
    promise.Some? ==> promise.value < |ops| && ops[promise.value].phase.Done?
  }

  predicate Enabled(ops: seq<Operation>, e: Event) {
    match e
    case Call => true
    case Start(id) => id < |ops| && ops[id].phase == Waiting && Resolved(ops, ops[id].previous)
    case Finish(id, _) => id < |ops| && ops[id].phase == Running
  }

  /** The chain of operations with its tail promise. */
  datatype Lock = Lock(ops: seq<Operation>, tail: Option<nat>)

  function Next(l: Lock, e: Event): Lock
    requires Enabled(l.ops, e)
  {
    match e
    case Call => Lock(l.ops + [Operation(l.tail, Waiting)], Some(|l.ops|))
    case Start(id) => l.(ops := l.ops[id := l.ops[id].(phase := Running)])
    case Finish(id, threw) => l.(ops := l.ops[id := l.ops[id].(phase := Done(threw))])
  }

  /** Events of a schedule that are not enabled do not happen. */
  function Run(l: Lock, events: seq<Event>): Lock
    decreases |events|
  {
    if events == [] then l
    else Run(if Enabled(l.ops, events[0]) then Next(l, events[0]) else l, events[1..])
  }

  const FREE := Lock([], None)

  /** Each call awaits its predecessor, and has begun only if every earlier call is done. */
  ghost predicate Fifo(l: Lock) {
    && l.tail == (if l.ops == [] then None else Some(|l.ops| - 1))
    && (forall i | 0 <= i < |l.ops| :: l.ops[i].previous == if i == 0 then None else Some(i - 1))
    && (forall i, j | 0 <= i < j < |l.ops| :: l.ops[j].phase != Waiting ==> l.ops[i].phase.Done?)
  }

  lemma StartsInCallOrder(l: Lock, e: Event)
    requires Fifo(l) && Enabled(l.ops, e)
    ensures Fifo(Next(l, e))
  {
    if e.Start? && e.id > 0 {
      assert l.ops[e.id].previous == Some(e.id - 1);
      assert forall i | 0 <= i < e.id - 1 :: l.ops[e.id - 1].phase != Waiting ==> l.ops[i].phase.Done?;
    }
  }

  /** On every schedule operations run one at a time, in call order. */
  lemma {:induction false} OneAtATime(l: Lock, events: seq<Event>)
    requires Fifo(l)
    ensures Fifo(Run(l, events))
    ensures var ops := Run(l, events).ops;
            forall i, j | 0 <= i < |ops| && 0 <= j < |ops| ::
              ops[i].phase == Running && ops[j].phase == Running ==> i == j
    decreases |events|
  {
    if events != [] {
      if Enabled(l.ops, events[0]) {
        StartsInCallOrder(l, events[0]);
        OneAtATime(Next(l, events[0]), events[1..]);
      } else {
        OneAtATime(l, events[1..]);
      }
    }
  }

  function Unfinished(ops: seq<Operation>): nat {
    if ops == [] then 0
    else Unfinished(ops[..|ops|-1]) + match ops[|ops|-1].phase case Waiting => 2 case Running => 1 case Done(_) => 0
  }

  lemma {:induction false} UnfinishedUpdate(ops: seq<Operation>, i: nat, p: Phase)
    requires i < |ops|
    requires (ops[i].phase == Waiting && p == Running) || (ops[i].phase == Running && p.Done?)
    ensures Unfinished(ops[i := ops[i].(phase := p)]) == Unfinished(ops) - 1
    decreases |ops|
  {
    var n := |ops| - 1;
    var ops' := ops[i := ops[i].(phase := p)];
    if i < n {
      UnfinishedUpdate(ops[..n], i, p);
      assert ops'[..n] == ops[..n][i := ops[i].(phase := p)];
    } else {
      assert ops'[..n] == ops[..n];
    }
  }

  /**
   No operation is blocked by an earlier one that threw: while some call is unfinished, the first
   such call can start or finish, whatever the results before it, and either brings the lock
   closer to having served every call.
   */
  lemma NeverBlocked(l: Lock, threw: bool) returns (e: Event)
    requires Fifo(l) && exists i | 0 <= i < |l.ops| :: !l.ops[i].phase.Done?
    ensures !e.Call? && Enabled(l.ops, e) && (e.Finish? ==> e.threw == threw)
    ensures forall i | 0 <= i < e.id :: l.ops[i].phase.Done?
    ensures Unfinished(Next(l, e).ops) == Unfinished(l.ops) - 1
  {
    var i := 0;
    while l.ops[i].phase.Done?
      invariant 0 <= i < |l.ops|
      invariant forall k | 0 <= k < i :: l.ops[k].phase.Done?
      invariant exists k | i <= k < |l.ops| :: !l.ops[k].phase.Done?
      decreases |l.ops| - i
    {
      i := i + 1;
    }
    if l.ops[i].phase == Waiting {
      e := Start(i);
      UnfinishedUpdate(l.ops, i, Running);
    } else {
      e := Finish(i, threw);
      UnfinishedUpdate(l.ops, i, Done(threw));
    }
  }

  /** Taking the lock while holding it would wait forever: the inner call cannot begin first. */
  lemma NestedCallCannotStart(events: seq<Event>, outer: nat, inner: nat)
    requires outer < inner < |Run(FREE, events).ops|
    requires Run(FREE, events).ops[outer].phase == Running
    ensures Run(FREE, events).ops[inner].phase == Waiting
    ensures !Enabled(Run(FREE, events).ops, Start(inner))
  {
    OneAtATime(FREE, events);
    var ops := Run(FREE, events).ops;
    assert ops[inner].previous == Some(inner - 1);
    assert inner - 1 > outer ==> ops[inner - 1].phase == Waiting;
  }
}
