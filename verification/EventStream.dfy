/**
 The sequenced event stream client of desktop/src/ws.ts: cursor, epoch, gap and duplicate handling
 against a transport that may drop, repeat and reorder frames and reconnect at any time.
 */
module EventStream {
  import opened Prelude

  type Event = string
  type Epoch = string

  datatype Cursor = Cursor(epoch: Option<Epoch>, seqNo: int)

  /** The key `epoch:seqNo` of a requested fence, with "unknown" for a missing epoch. */
  datatype Fence = Fence(epoch: string, seqNo: int)

  /** `streamEpoch` is the frame's own epoch, `payloadEpoch` the one inside its payload. */
  datatype Frame =
    | Hello(streamEpoch: Option<Epoch>, payloadEpoch: Option<Epoch>, maxSeq: Option<int>)
    | Sync(streamEpoch: Option<Epoch>, payloadEpoch: Option<Epoch>, fenceSeq: Option<int>, seqNo: Option<int>)
    | Resync(streamEpoch: Option<Epoch>, payloadEpoch: Option<Epoch>, fenceSeq: Option<int>,
             maxSeq: Option<int>, epochChanged: bool)
    | Ping
    | Business(streamEpoch: Option<Epoch>, seqNo: Option<int>, body: Event)
    | Unreadable
    | Untyped

  datatype Effect = Applied(frame: Frame) | StoreReset | Rehydrate(fence: int) | Closed(code: nat)

  datatype Client = Client(
    lastSeq: int,
    epoch: Option<Epoch>,
    cursorKey: Option<string>,
    lastFence: Option<Fence>,
    stored: map<string, Cursor>)

  /** What reaches the client; after a change of origin the frames of the previous socket do not. */
  datatype Input = Connect(key: string) | Receive(frame: Frame) | OriginChange

  // ---------------------------------------------------------------- one input, on values

  /** An epoch that JavaScript treats as true. */
  predicate Known(e: Option<Epoch>) {
    e.Some? && e.value != ""
  }

  predicate Clash(a: Option<Epoch>, b: Option<Epoch>) {
    Known(a) && Known(b) && a != b
  }

  function Persisted(c: Client): Client {
    if c.cursorKey.None? then c
    else c.(stored := c.stored[c.cursorKey.value := Cursor(c.epoch, c.lastSeq)])
  }

  function FenceKey(epoch: Option<Epoch>, seqNo: int): Fence {
    Fence(OrElse(epoch, "unknown"), seqNo)
  }

  /** The rehydrate request for a fence, unless that fence was the last one requested. */
  function Requested(c: Client, epoch: Option<Epoch>, seqNo: int): (Client, seq<Effect>) {
    if c.lastFence == Some(FenceKey(epoch, seqNo)) then (c, [])
    else (c.(lastFence := Some(FenceKey(epoch, seqNo))), [Rehydrate(seqNo)])
  }

  /** The fence a protocol frame asks to rehydrate at. */
  function FenceOf(f: Frame): Fence
    requires f.Hello? || f.Sync? || f.Resync?
  {
    var epoch := Or(f.streamEpoch, f.payloadEpoch);
    match f
    case Hello(_, _, m) => FenceKey(epoch, OrElse(m, 0))
    case Sync(_, _, fence, seqNo) => FenceKey(epoch, Max(0, OrElse(Or(fence, seqNo), 0)))
    case Resync(_, _, fence, m, _) => FenceKey(epoch, OrElse(Or(fence, m), 0))
  }

  function AfterHello(c: Client, f: Frame): (Client, seq<Effect>)
    requires f.Hello?
  {
    var max := OrElse(f.maxSeq, 0);
    var epoch := Or(f.streamEpoch, f.payloadEpoch);
    var (c1, effects) :=
      if Clash(c.epoch, epoch) then
        var (c0, requested) := Requested(c.(lastSeq := 0), epoch, max); (c0, [StoreReset] + requested)
      else (c, []);
    (Persisted(c1.(epoch := epoch, lastSeq := if max < c1.lastSeq then max else c1.lastSeq)), effects)
  }

  function AfterSync(c: Client, f: Frame): (Client, seq<Effect>)
    requires f.Sync?
  {
    var epoch := Or(f.streamEpoch, f.payloadEpoch);
    var last := Max(0, OrElse(Or(f.fenceSeq, f.seqNo), 0));
    Requested(Persisted(c.(epoch := epoch, lastSeq := last)), epoch, last)
  }

  function AfterResync(c: Client, f: Frame): (Client, seq<Effect>)
    requires f.Resync?
  {
    var epoch := Or(f.streamEpoch, f.payloadEpoch);
    var reset := if f.epochChanged || Clash(c.epoch, epoch) then [StoreReset] else [];
    var (c1, requested) :=
      Requested(c.(epoch := epoch, lastSeq := 0), epoch, OrElse(Or(f.fenceSeq, f.maxSeq), 0));
    (c1, reset + requested)
  }

  function AfterBusiness(c: Client, f: Frame): (Client, seq<Effect>)
    requires f.Business?
  {
    if Clash(f.streamEpoch, c.epoch) then (c, [Closed(4002)])
    else
      var c1 := if Known(f.streamEpoch) then c.(epoch := f.streamEpoch) else c;
      if f.seqNo.None? || f.seqNo.value <= 0 then (c1, [Applied(f)])
      else if f.seqNo.value <= c1.lastSeq then (c1, [])
      else if f.seqNo.value != c1.lastSeq + 1 then (c1, [Closed(4003)])
      else (Persisted(c1.(lastSeq := f.seqNo.value)), [Applied(f)])
  }

  /** Connecting under another cursor key loads the cursor stored for it. */
  function Connected(c: Client, key: string): Client {
    if c.cursorKey == Some(key) then c
    else
      var cursor := if key in c.stored then c.stored[key] else Cursor(None, 0);
      Client(if cursor.seqNo >= 0 then cursor.seqNo else 0, cursor.epoch, Some(key), None, c.stored)
  }

  function Step(c: Client, input: Input): (Client, seq<Effect>) {
    match input
    case Connect(key) => (Connected(c, key), [])
    case OriginChange => (Client(0, None, None, None, c.stored), [StoreReset])
    case Receive(f) =>
      match f
      case Hello(_, _, _) => AfterHello(c, f)
      case Sync(_, _, _, _) => AfterSync(c, f)
      case Resync(_, _, _, _, _) => AfterResync(c, f)
      case Business(_, _, _) => AfterBusiness(c, f)
      case Unreadable => (c, [Closed(4008)])
      case Ping => (c, [])
      case Untyped => (c, [])
  }

  // ---------------------------------------------------------------- the client, in place

  class EchoWs {
    var lastSeqRef: int
    var streamEpochRef: Option<Epoch>
    var cursorKeyRef: Option<string>
    var lastRehydrateFenceRef: Option<Fence>
    var storage: map<string, Cursor>
    /** What the handlers did to the rest of the application, in order. */
    var effects: seq<Effect>

    constructor (storage: map<string, Cursor>)
      ensures Value() == Client(0, None, None, None, storage) && effects == []
    {
      lastSeqRef, streamEpochRef, cursorKeyRef, lastRehydrateFenceRef := 0, None, None, None;
      this.storage, effects := storage, [];
    }

    function Value(): Client
      reads this
    {
      Client(lastSeqRef, streamEpochRef, cursorKeyRef, lastRehydrateFenceRef, storage)
    }

    method PersistCursor()
      modifies this`storage
      ensures Value() == Persisted(old(Value()))
    {
      if cursorKeyRef.None? {
        return;
      }
      storage := storage[cursorKeyRef.value := Cursor(streamEpochRef, lastSeqRef)];
    }

    method RequestRehydrate(epoch: Option<Epoch>, fenceSeq: int)
      modifies this`lastRehydrateFenceRef, this`effects
      ensures Value() == Requested(old(Value()), epoch, fenceSeq).0
      ensures effects == old(effects) + Requested(old(Value()), epoch, fenceSeq).1
    {
      var key := FenceKey(epoch, fenceSeq);
      if lastRehydrateFenceRef == Some(key) {
        return;
      }
      lastRehydrateFenceRef := Some(key);
      effects := effects + [Rehydrate(fenceSeq)];
    }

    method HandleProtocol(f: Frame)
      requires f.Hello? || f.Sync? || f.Resync? || f.Ping?
      modifies this
      ensures Value() == Step(old(Value()), Receive(f)).0
      ensures effects == old(effects) + Step(old(Value()), Receive(f)).1
    {
      if f.Resync? {
        var nextEpoch := Or(f.streamEpoch, f.payloadEpoch);
        if f.epochChanged || Clash(streamEpochRef, nextEpoch) {
          effects := effects + [StoreReset];
        }
        streamEpochRef := nextEpoch;
        lastSeqRef := 0;
        RequestRehydrate(nextEpoch, OrElse(Or(f.fenceSeq, f.maxSeq), 0));
      } else if f.Sync? {
        streamEpochRef := Or(f.streamEpoch, f.payloadEpoch);
        lastSeqRef := Max(0, OrElse(Or(f.fenceSeq, f.seqNo), 0));
        PersistCursor();
        RequestRehydrate(streamEpochRef, lastSeqRef);
      } else if f.Hello? {
        var max := OrElse(f.maxSeq, 0);
        var serverEpoch := Or(f.streamEpoch, f.payloadEpoch);
        if Clash(streamEpochRef, serverEpoch) {
          effects := effects + [StoreReset];
          lastSeqRef := 0;
          RequestRehydrate(serverEpoch, max);
        }
        streamEpochRef := serverEpoch;
        if max < lastSeqRef {
          lastSeqRef := max;
        }
        PersistCursor();
      }
    }

    method OnMessage(f: Frame)
      modifies this
      ensures Value() == Step(old(Value()), Receive(f)).0
      ensures effects == old(effects) + Step(old(Value()), Receive(f)).1
    {
      if f.Unreadable? {
        effects := effects + [Closed(4008)];
        return;
      }
      if f.Untyped? {
        return;
      }
      if !f.Business? {
        HandleProtocol(f);
        return;
      }
      if Clash(f.streamEpoch, streamEpochRef) {
        effects := effects + [Closed(4002)];
        return;
      }
      if Known(f.streamEpoch) {
        streamEpochRef := f.streamEpoch;
      }
      if f.seqNo.Some? && f.seqNo.value > 0 {
        if f.seqNo.value <= lastSeqRef {
          return;
        }
        if f.seqNo.value != lastSeqRef + 1 {
          effects := effects + [Closed(4003)];
          return;
        }
        lastSeqRef := f.seqNo.value;
        PersistCursor();
      }
      effects := effects + [Applied(f)];
    }

    method Connect(storageKey: string)
      modifies this
      ensures Value() == Step(old(Value()), Input.Connect(storageKey)).0 && effects == old(effects)
    {
      if cursorKeyRef != Some(storageKey) {
        var stored := if storageKey in storage then storage[storageKey] else Cursor(None, 0);
        cursorKeyRef := Some(storageKey);
        streamEpochRef := stored.epoch;
        lastSeqRef := if stored.seqNo >= 0 then stored.seqNo else 0;
        lastRehydrateFenceRef := None;
      }
    }

    method HandleBackendOriginChange()
      modifies this
      ensures Value() == Step(old(Value()), OriginChange).0
      ensures effects == old(effects) + Step(old(Value()), OriginChange).1
    {
      effects := effects + [StoreReset];
      cursorKeyRef := None;
      streamEpochRef := None;
      lastSeqRef := 0;
      lastRehydrateFenceRef := None;
    }
  }

  // ---------------------------------------------------------------- whole runs

  /** The sequenced events applied since the cursor last moved to `base` other than by applying. */
  datatype Window = Window(base: int, events: seq<Frame>)

  predicate Sequenced(f: Frame) {
    f.Business? && f.seqNo.Some? && f.seqNo.value > 0
  }

  function SequencedIn(effects: seq<Effect>): seq<Frame> {
    if effects == [] then []
    else (if effects[0].Applied? && Sequenced(effects[0].frame) then [effects[0].frame] else [])
         + SequencedIn(effects[1..])
  }

  function Track(c: Client, w: Window, input: Input): Window {
    var (c', effects) := Step(c, input);
    if !(input.Receive? && input.frame.Business?) && (c'.lastSeq != c.lastSeq || c'.epoch != c.epoch)
    then Window(c'.lastSeq, [])
    else w.(events := w.events + SequencedIn(effects))
  }

  function Run(c: Client, w: Window, inputs: seq<Input>): (Client, Window)
    decreases |inputs|
  {
    if inputs == [] then (c, w)
    else Run(Step(c, inputs[0]).0, Track(c, w, inputs[0]), inputs[1..])
  }

  /** The window holds the sequence numbers `base + 1` to `lastSeq`, each once and in order. */
  ghost predicate Contiguous(c: Client, w: Window) {
    && w.base + |w.events| == c.lastSeq
    && forall k | 0 <= k < |w.events| :: w.events[k].Business? && w.events[k].seqNo == Some(w.base + 1 + k)
  }

  /** Whatever the transport does, only the next event in sequence is ever applied. */
  lemma {:induction false} AppliedInSequence(c: Client, w: Window, inputs: seq<Input>)
    requires Contiguous(c, w)
    ensures Contiguous(Run(c, w, inputs).0, Run(c, w, inputs).1)
    decreases |inputs|
  {
    if inputs != [] {
      StepKeepsSequence(c, w, inputs[0]);
      AppliedInSequence(Step(c, inputs[0]).0, Track(c, w, inputs[0]), inputs[1..]);
    }
  }

  lemma StepKeepsSequence(c: Client, w: Window, input: Input)
    requires Contiguous(c, w)
    ensures Contiguous(Step(c, input).0, Track(c, w, input))
  {
    if input.Receive? && input.frame.Business? {
      BusinessKeepsSequence(c, w, input.frame);
    } else {
      OthersApplyNothing(c, input);
      assert w.events + [] == w.events;
    }
  }

  /** Only business events are applied. */
  lemma OthersApplyNothing(c: Client, input: Input)
    requires !(input.Receive? && input.frame.Business?)
    ensures SequencedIn(Step(c, input).1) == []
  {
    var effects := Step(c, input).1;
    if effects != [] {
      assert SequencedIn(effects[1..]) == [] by { assert |effects| <= 2; }
    }
  }

  lemma BusinessKeepsSequence(c: Client, w: Window, f: Frame)
    requires Contiguous(c, w) && f.Business?
    ensures Contiguous(Step(c, Receive(f)).0, Track(c, w, Receive(f)))
  {
    var effects := Step(c, Receive(f)).1;
    assert w.events + [] == w.events;
    if effects != [] {
      assert effects[1..] == [] && SequencedIn(effects[1..]) == [];
    }
  }

  /** The server's log, one sequence of events per epoch. */
  type Log = (Epoch, int) -> Event

  /** The epoch a frame belongs to: its own, or else that of the stream it arrives on. */
  function EpochOf(c: Client, f: Frame): Option<Epoch>
    requires f.Business?
  {
    if Known(f.streamEpoch) then f.streamEpoch else c.epoch
  }

  /** A sequenced frame belongs to some epoch and carries the log entry of it. */
  ghost predicate Genuine(log: Log, c: Client, input: Input) {
    input.Receive? && Sequenced(input.frame) ==>
      && Known(EpochOf(c, input.frame))
      && input.frame.body == log(EpochOf(c, input.frame).value, input.frame.seqNo.value)
  }

  ghost predicate GenuineRun(log: Log, c: Client, inputs: seq<Input>)
    decreases |inputs|
  {
    inputs != [] ==> Genuine(log, c, inputs[0]) && GenuineRun(log, Step(c, inputs[0]).0, inputs[1..])
  }

  /** The window is the slice `base + 1 .. lastSeq` of the log of the client's epoch. */
  ghost predicate IsSlice(log: Log, c: Client, w: Window) {
    && Contiguous(c, w)
    && (w.events != [] ==> Known(c.epoch))
    && forall k | 0 <= k < |w.events| :: w.events[k].body == log(c.epoch.value, w.base + 1 + k)
  }

  lemma {:induction false} AppliedSliceOfLog(log: Log, c: Client, w: Window, inputs: seq<Input>)
    requires IsSlice(log, c, w) && GenuineRun(log, c, inputs)
    ensures IsSlice(log, Run(c, w, inputs).0, Run(c, w, inputs).1)
    decreases |inputs|
  {
    if inputs != [] {
      StepKeepsSlice(log, c, w, inputs[0]);
      AppliedSliceOfLog(log, Step(c, inputs[0]).0, Track(c, w, inputs[0]), inputs[1..]);
    }
  }

  lemma StepKeepsSlice(log: Log, c: Client, w: Window, input: Input)
    requires IsSlice(log, c, w) && Genuine(log, c, input)
    ensures IsSlice(log, Step(c, input).0, Track(c, w, input))
  {
    StepKeepsSequence(c, w, input);
    var effects := Step(c, input).1;
    if effects != [] {
      assert SequencedIn(effects[1..]) == [] by { assert |effects| <= 2; }
    }
  }

  /** The frames of `epoch` numbered `from` to `from + n - 1`, in order. */
  function Replay(log: Log, epoch: Epoch, from: int, n: nat): seq<Input> {
    seq(n, i requires 0 <= i < n => Receive(Business(Some(epoch), Some(from + i), log(epoch, from + i))))
  }

  /**
   Catching up: a replay that starts at or below the next expected number is applied exactly from
   there on, however much of it the client had already seen.
   */
  lemma {:induction false} ReplayCatchesUp(log: Log, epoch: Epoch, c: Client, w: Window, from: int, n: nat)
    requires Contiguous(c, w) && 0 < from <= c.lastSeq + 1
    requires epoch != "" && (Known(c.epoch) ==> c.epoch == Some(epoch))
    ensures var (c', w') := Run(c, w, Replay(log, epoch, from, n));
            && c'.lastSeq == Max(c.lastSeq, from + n - 1)
            && w'.base == w.base && w.events <= w'.events
            && forall k | |w.events| <= k < |w'.events| ::
                 w'.events[k].Business? && w'.events[k].body == log(epoch, w.base + 1 + k)
    decreases n
  {
    if n > 0 {
      var inputs := Replay(log, epoch, from, n);
      StepKeepsSequence(c, w, inputs[0]);
      assert inputs[1..] == Replay(log, epoch, from + 1, n - 1);
      assert SequencedIn([Applied(inputs[0].frame)]) == [inputs[0].frame];
      ReplayCatchesUp(log, epoch, Step(c, inputs[0]).0, Track(c, w, inputs[0]), from + 1, n - 1);
    }
  }

  /** A hello from a server that is at or past the cursor in the same epoch changes nothing. */
  lemma HelloAtOrPastCursor(c: Client, w: Window, f: Frame)
    requires f.Hello? && c.epoch == Or(f.streamEpoch, f.payloadEpoch) && c.lastSeq <= OrElse(f.maxSeq, 0)
    ensures var c' := Step(c, Receive(f)).0;
            c'.lastSeq == c.lastSeq && c'.epoch == c.epoch && Track(c, w, Receive(f)) == w
  {
    assert w.events + [] == w.events;
  }

  /**
   Reconnecting: the same cursor key, a hello at or past the cursor and a replay from anywhere up to
   the next number continue the window without a gap or a repetition.
   */
  lemma ReconnectContinues(log: Log, epoch: Epoch, c: Client, w: Window, key: string, max: int, from: int, n: nat)
    requires Contiguous(c, w) && c.cursorKey == Some(key) && c.epoch == Some(epoch) && epoch != ""
    requires c.lastSeq <= max && 0 < from <= c.lastSeq + 1
    ensures var hello := Receive(Hello(Some(epoch), None, Some(max)));
            var (c', w') := Run(c, w, [Connect(key), hello] + Replay(log, epoch, from, n));
            && c'.lastSeq == Max(c.lastSeq, from + n - 1)
            && Contiguous(c', w') && w'.base == w.base && w.events <= w'.events
            && forall k | |w.events| <= k < |w'.events| :: w'.events[k].body == log(epoch, w.base + 1 + k)
  {
    var hello := Receive(Hello(Some(epoch), None, Some(max)));
    var replay := Replay(log, epoch, from, n);
    var inputs := [Connect(key), hello] + replay;
    assert inputs[1..] == [hello] + replay && ([hello] + replay)[1..] == replay;
    assert Step(c, Connect(key)).0 == c && Track(c, w, Connect(key)) == w by { assert w.events + [] == w.events; }
    HelloAtOrPastCursor(c, w, hello.frame);
    var c1 := Step(c, hello).0;
    ReplayCatchesUp(log, epoch, c1, w, from, n);
    AppliedInSequence(c1, w, replay);
  }

  // ---------------------------------------------------------------- resets and reloads

  predicate Rehydrates(effects: seq<Effect>) {
    exists k | 0 <= k < |effects| :: effects[k].Rehydrate?
  }

  /** A frame that clears the store asks for its contents again, except at a repeated fence. */
  lemma ResetRehydratesUnlessFenceRepeats(c: Client, f: Frame)
    requires StoreReset in Step(c, Receive(f)).1
    ensures Rehydrates(Step(c, Receive(f)).1) <==> c.lastFence != Some(FenceOf(f))
  {
    var effects := Step(c, Receive(f)).1;
    if c.lastFence != Some(FenceOf(f)) {
      assert effects[1].Rehydrate?;
    }
  }

  /** So a repeated epoch-change resync empties the store and leaves it empty. */
  lemma RepeatedResyncLeavesStoreEmpty(c: Client, f: Frame)
    requires f.Resync? && f.epochChanged
    ensures Step(Step(c, Receive(f)).0, Receive(f)).1 == [StoreReset]
  {
  }

  function Reloaded(c: Client, key: string): Client {
    Connected(Client(0, None, None, None, c.stored), key)
  }

  ghost predicate SurvivesReload(c: Client, key: string) {
    Reloaded(c, key).lastSeq == c.lastSeq && Reloaded(c, key).epoch == c.epoch
  }

  /**
   A frame after which storage does not give the cursor back: a resync or an adopted epoch is not
   written, and a hello with a negative maximum is written as a number that loading refuses.
   */
  predicate MovesSilently(c: Client, f: Frame) {
    || (f.Hello? && OrElse(f.maxSeq, 0) < 0)
    || (f.Resync? && (c.lastSeq != 0 || c.epoch != Or(f.streamEpoch, f.payloadEpoch)))
    || (f.Business? && Known(f.streamEpoch) && !Known(c.epoch)
        && !(Sequenced(f) && f.seqNo.value == c.lastSeq + 1))
  }

  /** A page reload resumes at the same cursor unless the last frame moved it silently. */
  lemma ReloadResumesCursor(c: Client, key: string, f: Frame)
    requires c.cursorKey == Some(key) && SurvivesReload(c, key)
    ensures SurvivesReload(Step(c, Receive(f)).0, key) <==> !MovesSilently(c, f)
  {
  }

  // ---------------------------------------------------------------- where the cursor moves

  /** Asking for the contents at a fence, unless it was the last one asked for. */
  predicate AsksAt(c: Client, c': Client, effects: seq<Effect>, epoch: Option<Epoch>, fence: int) {
    var key := Fence(if epoch.Some? then epoch.value else "unknown", fence);
    && c'.lastFence == Some(key)
    && effects == if c.lastFence == Some(key) then [] else [Rehydrate(fence)]
  }

  /** The epoch a protocol frame names: its own before that of its payload. */
  predicate NamesEpoch(f: Frame, epoch: Option<Epoch>)
    requires f.Hello? || f.Sync? || f.Resync?
  {
    epoch == if f.streamEpoch.Some? then f.streamEpoch else f.payloadEpoch
  }

  /** The number a sync names: its fence before its own number. */
  predicate SyncsAt(f: Frame, n: int)
    requires f.Sync?
  {
    f.fenceSeq == Some(n) || (f.fenceSeq.None? && (f.seqNo == Some(n) || (f.seqNo.None? && n == 0)))
  }

  /** After a sync at a fence the cursor is at that fence, stored, and the contents are asked for there. */
  lemma SyncMovesToFence(c: Client, f: Frame, n: nat, epoch: Option<Epoch>)
    requires f.Sync? && SyncsAt(f, n) && NamesEpoch(f, epoch)
    ensures var (c', effects) := Step(c, Receive(f));
            && c'.lastSeq == n && c'.epoch == epoch && c'.cursorKey == c.cursorKey
            && AsksAt(c, c', effects, epoch, n)
            && (c.cursorKey.Some? ==> c.cursorKey.value in c'.stored && c'.stored[c.cursorKey.value] == Cursor(epoch, n))
  {
  }

  /** The window holds exactly the events `base + 1` to `base + n` of the log, as they were sent. */
  ghost predicate HoldsEvents(log: Log, epoch: Epoch, w: Window, base: int, n: nat) {
    && w.base == base && |w.events| == n
    && forall k | 0 <= k < n :: w.events[k] == Business(Some(epoch), Some(base + 1 + k), log(epoch, base + 1 + k))
  }

  /** The cursor is at `seqNo`, and events of `epoch` are not refused. */
  predicate At(c: Client, seqNo: int, epoch: Epoch) {
    c.lastSeq == seqNo && (Known(c.epoch) ==> c.epoch == Some(epoch))
  }

  /** A replay from right after the cursor is applied whole, each event once and in order. */
  lemma {:induction false} ReplayFromCursor(log: Log, epoch: Epoch, c: Client, w: Window, base: int, done: nat, n: nat)
    requires epoch != "" && base >= 0 && At(c, base + done, epoch) && HoldsEvents(log, epoch, w, base, done)
    ensures var (c', w') := Run(c, w, Replay(log, epoch, base + 1 + done, n));
            c'.lastSeq == base + done + n && HoldsEvents(log, epoch, w', base, done + n)
    decreases n
  {
    if n > 0 {
      var next := base + 1 + done;
      var inputs := Replay(log, epoch, next, n);
      assert inputs[1..] == Replay(log, epoch, next + 1, n - 1);
      OneMore(log, epoch, c, w, base, done);
      ReplayFromCursor(log, epoch, Step(c, inputs[0]).0, Track(c, w, inputs[0]), base, done + 1, n - 1);
    }
  }

  lemma OneMore(log: Log, epoch: Epoch, c: Client, w: Window, base: int, done: nat)
    requires epoch != "" && base >= 0 && At(c, base + done, epoch) && HoldsEvents(log, epoch, w, base, done)
    ensures var input := Receive(Business(Some(epoch), Some(base + 1 + done), log(epoch, base + 1 + done)));
            && At(Step(c, input).0, base + done + 1, epoch)
            && HoldsEvents(log, epoch, Track(c, w, input), base, done + 1)
  {
    var f := Business(Some(epoch), Some(base + 1 + done), log(epoch, base + 1 + done));
    assert SequencedIn([Applied(f)]) == [f];
  }

  /** After a sync at a fence the events behind it are applied from the next one on, all of them. */
  lemma SyncThenReplay(log: Log, epoch: Epoch, c: Client, f: Frame, n: nat, m: nat)
    requires f.Sync? && SyncsAt(f, n) && NamesEpoch(f, Some(epoch)) && epoch != ""
    ensures var c1 := Step(c, Receive(f)).0;
            var (c', w') := Run(c1, Window(n, []), Replay(log, epoch, n + 1, m));
            c'.lastSeq == n + m && HoldsEvents(log, epoch, w', n, m)
  {
    SyncMovesToFence(c, f, n, Some(epoch));
    ReplayFromCursor(log, epoch, Step(c, Receive(f)).0, Window(n, []), n, 0, m);
  }

  /** The number a resync names: its fence before the server's maximum. */
  predicate ResyncsAt(f: Frame, n: int)
    requires f.Resync?
  {
    f.fenceSeq == Some(n) || (f.fenceSeq.None? && (f.maxSeq == Some(n) || (f.maxSeq.None? && n == 0)))
  }

  /**
   After a resync nothing counts as seen; it clears the store when it says that the epoch changed or
   names another one, and asks for the contents at its fence.
   */
  lemma ResyncForgetsCursor(c: Client, f: Frame, n: int, epoch: Option<Epoch>)
    requires f.Resync? && ResyncsAt(f, n) && NamesEpoch(f, epoch)
    ensures var (c', effects) := Step(c, Receive(f));
            var changed := f.epochChanged || (Known(c.epoch) && Known(epoch) && c.epoch != epoch);
            && c'.lastSeq == 0 && c'.epoch == epoch && c'.stored == c.stored
            && (changed ==> effects != [] && effects[0] == StoreReset)
            && AsksAt(c, c', if changed then effects[1..] else effects, epoch, n)
  {
  }

  /**
   After a hello of another epoch nothing above zero counts as seen, and its maximum bounds the cursor;
   the store is cleared and its contents asked for at that maximum.
   */
  lemma HelloOfAnotherEpoch(c: Client, f: Frame, max: int, epoch: Option<Epoch>)
    requires f.Hello? && NamesEpoch(f, epoch) && Known(c.epoch) && Known(epoch) && c.epoch != epoch
    requires f.maxSeq == Some(max) || (f.maxSeq.None? && max == 0)
    ensures var (c', effects) := Step(c, Receive(f));
            && c'.lastSeq == (if max < 0 then max else 0) && c'.epoch == epoch
            && effects != [] && effects[0] == StoreReset && AsksAt(c, c', effects[1..], epoch, max)
            && (c.cursorKey.Some? ==>
                  c.cursorKey.value in c'.stored && c'.stored[c.cursorKey.value] == Cursor(epoch, c'.lastSeq))
  {
  }

  /** Any other hello only lowers the cursor to its maximum, and asks for nothing. */
  lemma HelloOfSameEpoch(c: Client, f: Frame, max: int, epoch: Option<Epoch>)
    requires f.Hello? && NamesEpoch(f, epoch) && !(Known(c.epoch) && Known(epoch) && c.epoch != epoch)
    requires f.maxSeq == Some(max) || (f.maxSeq.None? && max == 0)
    ensures var (c', effects) := Step(c, Receive(f));
            && c'.lastSeq == (if max < c.lastSeq then max else c.lastSeq) && c'.epoch == epoch
            && effects == [] && c'.lastFence == c.lastFence
            && (c.cursorKey.Some? ==>
                  c.cursorKey.value in c'.stored && c'.stored[c.cursorKey.value] == Cursor(epoch, c'.lastSeq))
  {
  }

  /** After a resync, or a hello of another epoch, the new epoch is applied from its first event on. */
  lemma NewEpochFromTheStart(log: Log, epoch: Epoch, c: Client, f: Frame, m: nat)
    requires f.Resync? || (f.Hello? && Known(c.epoch) && c.epoch != Some(epoch) && (f.maxSeq.Some? ==> f.maxSeq.value >= 0))
    requires epoch != "" && NamesEpoch(f, Some(epoch))
    ensures var c1 := Step(c, Receive(f)).0;
            var (c', w') := Run(c1, Window(0, []), Replay(log, epoch, 1, m));
            c'.lastSeq == m && HoldsEvents(log, epoch, w', 0, m)
  {
    if f.Resync? {
      ResyncForgetsCursor(c, f, if f.fenceSeq.Some? then f.fenceSeq.value else if f.maxSeq.Some? then f.maxSeq.value else 0,
                          Some(epoch));
    } else {
      HelloOfAnotherEpoch(c, f, if f.maxSeq.Some? then f.maxSeq.value else 0, Some(epoch));
    }
    ReplayFromCursor(log, epoch, Step(c, Receive(f)).0, Window(0, []), 0, 0, m);
  }

  /**
   An event of another epoch closes the connection with 4002 and one that leaves a gap with 4003, neither
   moving the cursor; one already seen does nothing; the next one, and any without a positive number, is
   applied.
   */
  lemma EventOutcome(c: Client, f: Frame)
    requires f.Business?
    ensures var (c', effects) := Step(c, Receive(f));
            if Known(f.streamEpoch) && Known(c.epoch) && f.streamEpoch != c.epoch then
              c' == c && effects == [Closed(4002)]
            else
              && c'.epoch == (if Known(f.streamEpoch) then f.streamEpoch else c.epoch)
              && if f.seqNo.None? || f.seqNo.value <= 0 then effects == [Applied(f)] && c'.lastSeq == c.lastSeq
                 else if f.seqNo.value <= c.lastSeq then effects == [] && c'.lastSeq == c.lastSeq
                 else if f.seqNo.value > c.lastSeq + 1 then effects == [Closed(4003)] && c'.lastSeq == c.lastSeq
                 else && effects == [Applied(f)] && c'.lastSeq == c.lastSeq + 1
                      && (c.cursorKey.Some? ==> c.cursorKey.value in c'.stored
                                                && c'.stored[c.cursorKey.value] == Cursor(c'.epoch, c.lastSeq + 1))
  {
  }

  /** Connecting under another key resumes at the cursor stored for it, or at nothing without one. */
  lemma ConnectResumes(c: Client, key: string)
    requires c.cursorKey != Some(key)
    ensures var (c', effects) := Step(c, Connect(key));
            && effects == [] && c'.cursorKey == Some(key) && c'.lastFence == None && c'.stored == c.stored
            && (key !in c.stored ==> c'.lastSeq == 0 && c'.epoch == None)
            && (key in c.stored ==>
                  c'.epoch == c.stored[key].epoch && c'.lastSeq == if c.stored[key].seqNo < 0 then 0 else c.stored[key].seqNo)
  {
  }

  /** A frame that cannot be read closes the connection with 4008; pings and untyped frames do nothing. */
  lemma FramesWithoutMeaning(c: Client, f: Frame)
    requires f.Unreadable? || f.Ping? || f.Untyped?
    ensures Step(c, Receive(f)) == (c, if f.Unreadable? then [Closed(4008)] else [])
  {
  }

  /** A change of origin clears the store and starts from nothing, but keeps all stored cursors. */
  lemma OriginStartsOver(c: Client)
    ensures Step(c, OriginChange) == (Client(0, None, None, None, c.stored), [StoreReset])
  {
  }
}
