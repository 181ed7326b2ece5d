/**
 Admission of runtime events in backend/app/agents/durable_state.py: replays are recognized by the
 hash of the stable envelope fields, new events get the next durable sequence number, and the first
 terminal state wins.  The hash is taken as injective, so an event's digest is its stable fields.
 */
module DurableEvents {
  import opened Prelude

  type Field = string
  type Json = string

  /** A raw envelope; beside the required fields it may carry timestamps and others. */
  type Envelope = map<Field, Json>

  type Digest = map<Field, Json>

  const REQUIRED: set<Field> := {"schemaVersion", "taskId", "operationKey", "runtimeEventId", "type", "payload"}

  const TERMINAL: set<string> := {"succeeded", "failed", "cancelled", "cancel_failed", "timeout"}

  datatype Error = EmptyState | MissingFields

  datatype Admission = Admission(digest: Digest, durableSeq: nat, duplicate: bool, auditOnly: bool, effectiveState: string)

  datatype Machine = Machine(lastSeq: nat, state: string, known: map<Digest, nat>)

  datatype Event = Event(raw: Envelope, incoming: string)

  function DigestOf(raw: Envelope): Digest {
    map f <- REQUIRED | f in raw :: raw[f]
  }

  predicate Admissible(e: Event) {
    e.incoming != "" && REQUIRED <= e.raw.Keys
  }

  /** What `admit` returns and leaves behind. */
  function Admit(m: Machine, e: Event): (Machine, Result<Admission, Error>) {
    if e.incoming == "" then (m, Err(EmptyState))
    else if !(REQUIRED <= e.raw.Keys) then (m, Err(MissingFields))
    else
      var digest := DigestOf(e.raw);
      if digest in m.known then (m, Ok(Admission(digest, m.known[digest], true, false, m.state)))
      else
        var audit := m.state in TERMINAL;
        var next := Machine(m.lastSeq + 1, if audit then m.state else e.incoming, m.known[digest := m.lastSeq + 1]);
        (next, Ok(Admission(digest, next.lastSeq, false, audit, next.state)))
  }

  function AdmitAll(m: Machine, events: seq<Event>): Machine
    decreases |events|
  {
    if events == [] then m else AdmitAll(Admit(m, events[0]).0, events[1..])
  }

  class DurableEventStateMachine {
    var lastSeq: nat
    var currentState: string
    var knownRawEvents: map<Digest, nat>

    constructor (lastSeq: nat, currentState: string, known: map<Digest, nat>)
      ensures Value() == Machine(lastSeq, currentState, known)
    {
      this.lastSeq, this.currentState, this.knownRawEvents := lastSeq, currentState, known;
    }

    function Value(): Machine
      reads this
    {
      Machine(lastSeq, currentState, knownRawEvents)
    }

    method AdmitEvent(e: Event) returns (r: Result<Admission, Error>)
      modifies this
      ensures (Value(), r) == Admit(old(Value()), e)
    {
      if e.incoming == "" {
        return Err(EmptyState);
      }
      if !(REQUIRED <= e.raw.Keys) {
        return Err(MissingFields);
      }
      var digest := DigestOf(e.raw);
      if digest in knownRawEvents {
        return Ok(Admission(digest, knownRawEvents[digest], true, false, currentState));
      }
      lastSeq := lastSeq + 1;
      knownRawEvents := knownRawEvents[digest := lastSeq];
      var auditOnly := currentState in TERMINAL;
      if !auditOnly {
        currentState := e.incoming;
      }
      return Ok(Admission(digest, lastSeq, false, auditOnly, currentState));
    }
  }

  /**
   What an admission says: a known digest is a duplicate with its number; a new one gets the next number,
   and counts for audit only once the state is succeeded, failed, cancelled, cancel_failed or timeout.
   */
  lemma AdmissionSays(m: Machine, e: Event)
    ensures var (m', r) := Admit(m, e);
            var digest := DigestOf(e.raw);
            var complete := {"schemaVersion", "taskId", "operationKey", "runtimeEventId", "type", "payload"} <= e.raw.Keys;
            var ended := m.state in {"succeeded", "failed", "cancelled", "cancel_failed", "timeout"};
            && (e.incoming == "" ==> r == Err(EmptyState) && m' == m)
            && (e.incoming != "" && !complete ==> r == Err(MissingFields) && m' == m)
            && (e.incoming != "" && complete && digest in m.known ==>
                  m' == m && r == Ok(Admission(digest, m.known[digest], true, false, m.state)))
            && (e.incoming != "" && complete && digest !in m.known ==>
                  && r == Ok(Admission(digest, m.lastSeq + 1, false, ended, if ended then m.state else e.incoming))
                  && m'.state == r.value.effectiveState && m'.lastSeq == m.lastSeq + 1)
  {
  }

  // ---------------------------------------------------------------- replays

  /** The admissible events whose digest is new where they stand. */
  function FirstOccurrences(known: set<Digest>, events: seq<Event>): seq<Event>
    decreases |events|
  {
    if events == [] then []
    else
      var e := events[0];
      if Admissible(e) && DigestOf(e.raw) !in known
      then [e] + FirstOccurrences(known + {DigestOf(e.raw)}, events[1..])
      else FirstOccurrences(known, events[1..])
  }

  /** A list with replays and rejected events anywhere in it counts as its first occurrences. */
  lemma {:induction false} ReplaysChangeNothing(m: Machine, events: seq<Event>)
    ensures AdmitAll(m, events) == AdmitAll(m, FirstOccurrences(m.known.Keys, events))
    decreases |events|
  {
    if events != [] {
      var e := events[0];
      var m1 := Admit(m, e).0;
      ReplaysChangeNothing(m1, events[1..]);
      if Admissible(e) && DigestOf(e.raw) !in m.known {
        var rest := FirstOccurrences(m.known.Keys + {DigestOf(e.raw)}, events[1..]);
        assert m1.known.Keys == m.known.Keys + {DigestOf(e.raw)};
        assert ([e] + rest)[1..] == rest;
      }
    }
  }

  /** Numbers are within 1 .. lastSeq and no two events share one. */
  ghost predicate Numbered(m: Machine) {
    && (forall d <- m.known :: 1 <= m.known[d] <= m.lastSeq)
    && forall d, f | d in m.known && f in m.known && m.known[d] == m.known[f] :: d == f
  }

  lemma {:induction false} KnownOnlyGrows(m: Machine, events: seq<Event>)
    requires Numbered(m)
    ensures Numbered(AdmitAll(m, events))
    ensures forall d <- m.known :: d in AdmitAll(m, events).known && AdmitAll(m, events).known[d] == m.known[d]
    decreases |events|
  {
    if events != [] {
      KnownOnlyGrows(Admit(m, events[0]).0, events[1..]);
    }
  }

  /**
   However much later an admitted event is replayed, whatever state it now reports, it gets its
   original number and nothing changes.
   */
  lemma ReplayGetsOriginalNumber(m: Machine, first: Event, between: seq<Event>, again: Event)
    requires Numbered(m) && Admissible(first) && Admissible(again) && DigestOf(first.raw) == DigestOf(again.raw)
    ensures var (m1, r1) := Admit(m, first);
            var m2 := AdmitAll(m1, between);
            var (m3, r2) := Admit(m2, again);
            m3 == m2 && r2.Ok? && r2.value.duplicate && r1.Ok? && r2.value.durableSeq == r1.value.durableSeq
  {
    KnownOnlyGrows(Admit(m, first).0, between);
  }

  /** Observation times and other fields beside the required ones do not make a new event. */
  lemma SameDigestIffSameFields(a: Envelope, b: Envelope)
    requires REQUIRED <= a.Keys && REQUIRED <= b.Keys
    ensures DigestOf(a) == DigestOf(b) <==>
            forall f <- {"schemaVersion", "taskId", "operationKey", "runtimeEventId", "type", "payload"} :: a[f] == b[f]
  {
    if DigestOf(a) == DigestOf(b) {
      forall f <- REQUIRED ensures a[f] == b[f] {
        assert DigestOf(a)[f] == DigestOf(b)[f];
      }
    }
  }

  // ---------------------------------------------------------------- numbers and states

  ghost predicate AllNew(known: set<Digest>, events: seq<Event>) {
    && (forall e <- events :: Admissible(e) && DigestOf(e.raw) !in known)
    && forall i, j | 0 <= i < j < |events| :: DigestOf(events[i].raw) != DigestOf(events[j].raw)
  }

  lemma NewRest(known: set<Digest>, events: seq<Event>)
    requires events != [] && AllNew(known, events)
    ensures Admissible(events[0]) && DigestOf(events[0].raw) !in known
    ensures AllNew(known + {DigestOf(events[0].raw)}, events[1..])
  {
    var rest := events[1..];
    forall e <- rest ensures e in events && DigestOf(e.raw) != DigestOf(events[0].raw) {
      var k :| 0 <= k < |rest| && rest[k] == e;
      assert events[k+1] == e;
    }
  }

  lemma NewFirst(known: set<Digest>, e: Event, rest: seq<Event>)
    requires Admissible(e) && DigestOf(e.raw) !in known && AllNew(known + {DigestOf(e.raw)}, rest)
    ensures AllNew(known, [e] + rest)
  {
    var all := [e] + rest;
    forall i, j | 0 <= i < j < |all| ensures DigestOf(all[i].raw) != DigestOf(all[j].raw) {
      assert all[j] == rest[j-1] && all[j] in rest;
    }
  }

  predicate Represented(known: set<Digest>, events: seq<Event>, d: Digest) {
    d in known || exists f <- events :: DigestOf(f.raw) == d
  }

  lemma {:induction false} FirstOccurrencesAreNew(known: set<Digest>, events: seq<Event>)
    ensures AllNew(known, FirstOccurrences(known, events))
    ensures forall e <- events :: Admissible(e) ==> Represented(known, FirstOccurrences(known, events), DigestOf(e.raw))
    decreases |events|
  {
    if events != [] {
      var e := events[0];
      var isNew := Admissible(e) && DigestOf(e.raw) !in known;
      var more := if isNew then known + {DigestOf(e.raw)} else known;
      FirstOccurrencesAreNew(more, events[1..]);
      var rest := FirstOccurrences(more, events[1..]);
      assert events == [e] + events[1..];
      if isNew {
        NewFirst(known, e, rest);
        forall d | Represented(more, rest, d) ensures Represented(known, [e] + rest, d) {
          assert e in [e] + rest;
        }
      }
    }
  }

  /** New events are numbered without a gap, the k-th one `lastSeq + 1 + k`. */
  lemma {:induction false} NumbersAreGapFree(m: Machine, events: seq<Event>)
    requires Numbered(m) && AllNew(m.known.Keys, events)
    ensures var end := AdmitAll(m, events);
            && end.lastSeq == m.lastSeq + |events|
            && forall k | 0 <= k < |events| ::
                 DigestOf(events[k].raw) in end.known && end.known[DigestOf(events[k].raw)] == m.lastSeq + 1 + k
    decreases |events|
  {
    if events != [] {
      var m1 := Admit(m, events[0]).0;
      var rest := events[1..];
      NewRest(m.known.Keys, events);
      assert m1.known.Keys == m.known.Keys + {DigestOf(events[0].raw)};
      NumbersAreGapFree(m1, rest);
      KnownOnlyGrows(m1, rest);
      forall k | 0 <= k < |events|
        ensures DigestOf(events[k].raw) in AdmitAll(m, events).known
             && AdmitAll(m, events).known[DigestOf(events[k].raw)] == m.lastSeq + 1 + k
      {
        if k > 0 {
          assert events[k] == rest[k-1];
        }
      }
    }
  }

  /** The first terminal state reported, or else the last state. */
  function FirstTerminal(state: string, incoming: seq<string>): string
    decreases |incoming|
  {
    if state in TERMINAL || incoming == [] then state else FirstTerminal(incoming[0], incoming[1..])
  }

  function Incoming(events: seq<Event>): seq<string> {
    seq(|events|, i requires 0 <= i < |events| => events[i].incoming)
  }

  lemma {:induction false} StateIsFirstTerminal(m: Machine, events: seq<Event>)
    requires AllNew(m.known.Keys, events)
    ensures AdmitAll(m, events).state == FirstTerminal(m.state, Incoming(events))
    decreases |events|
  {
    if events != [] {
      var m1 := Admit(m, events[0]).0;
      var rest := events[1..];
      NewRest(m.known.Keys, events);
      assert m1.known.Keys == m.known.Keys + {DigestOf(events[0].raw)};
      StateIsFirstTerminal(m1, rest);
      assert Incoming(events)[1..] == Incoming(rest);
    }
  }

  /** `FirstTerminal` is the report at the first terminal position, or the last one without any. */
  lemma {:induction false} FirstTerminalMeans(state: string, incoming: seq<string>, k: nat)
    requires state !in TERMINAL && k <= |incoming| && forall j | 0 <= j < k :: incoming[j] !in TERMINAL
    requires k < |incoming| ==> incoming[k] in TERMINAL
    ensures FirstTerminal(state, incoming) ==
            if k < |incoming| then incoming[k] else if k > 0 then incoming[k-1] else state
    decreases k
  {
    if k > 0 {
      FirstTerminalMeans(incoming[0], incoming[1..], k - 1);
    }
  }

  /**
   On any list of events: the sequence number counts the distinct new events, and the final state
   is decided by the first terminal one among them.
   */
  lemma AdmissionOutcome(m: Machine, events: seq<Event>)
    requires Numbered(m)
    ensures var end, firsts := AdmitAll(m, events), FirstOccurrences(m.known.Keys, events);
            && Numbered(end)
            && end.lastSeq == m.lastSeq + |firsts|
            && end.state == FirstTerminal(m.state, Incoming(firsts))
            && (forall k | 0 <= k < |firsts| ::
                  DigestOf(firsts[k].raw) in end.known && end.known[DigestOf(firsts[k].raw)] == m.lastSeq + 1 + k)
  {
    var firsts := FirstOccurrences(m.known.Keys, events);
    ReplaysChangeNothing(m, events);
    FirstOccurrencesAreNew(m.known.Keys, events);
    NumbersAreGapFree(m, firsts);
    StateIsFirstTerminal(m, firsts);
    KnownOnlyGrows(m, events);
  }

  /**
   Position by position: with the first `k` new events non-terminal and the next one terminal (or no
   next one), that one (or the last) decides the state, whatever is reported later or replayed.
   */
  lemma FirstTerminalDecides(m: Machine, events: seq<Event>, k: nat)
    requires Numbered(m) && m.state !in TERMINAL
    requires var firsts := FirstOccurrences(m.known.Keys, events);
             && k <= |firsts| && (forall j | 0 <= j < k :: firsts[j].incoming !in TERMINAL)
             && (k < |firsts| ==> firsts[k].incoming in TERMINAL)
    ensures var firsts := FirstOccurrences(m.known.Keys, events);
            AdmitAll(m, events).state ==
            if k < |firsts| then firsts[k].incoming else if k > 0 then firsts[k-1].incoming else m.state
  {
    AdmissionOutcome(m, events);
    FirstTerminalMeans(m.state, Incoming(FirstOccurrences(m.known.Keys, events)), k);
  }

  /** Once terminal, the state never changes again. */
  lemma TerminalStateIsFinal(m: Machine, events: seq<Event>)
    requires Numbered(m) && m.state in TERMINAL
    ensures AdmitAll(m, events).state == m.state
  {
    AdmissionOutcome(m, events);
  }
}
