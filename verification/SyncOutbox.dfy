/**
 The durable sync outbox of desktop/src/syncState.ts and the push loop of
 desktop/src/syncWorkerCore.ts.  Every change of the stored state is one `Op`: load and normalize,
 transform, save.  Between two awaits an `Op` is atomic, so overlapping callers, crashes and reloads
 amount to sequences of `Op`s.  Storage writes are taken to succeed.
 */
module SyncOutbox {
  import opened Prelude

  datatype EntityType = TranscriptSegment | MeetingSummary | Memory

  /** What is to be synchronized; it never changes while the operation waits. */
  datatype Content = Content(
    operationId: string,
    entityType: EntityType,
    entityId: string,
    baseRevision: nat,
    updatedAt: string,
    payload: string)

  datatype ItemStatus = Pending | Sending | Failed

  datatype Item = Item(
    content: Content,
    deviceId: string,
    status: ItemStatus,
    retryCount: nat,
    lastError: Option<string>,
    retryable: bool)

  datatype SyncStatus = Unpaired | Syncing | Synced | SyncFailed

  datatype State = State(
    deviceId: string,
    token: Option<string>,
    cursor: Option<string>,
    status: SyncStatus,
    lastError: Option<string>,
    outbox: seq<Item>,
    revisions: map<string, nat>)

  datatype Op =
    | Enqueue(content: Content, deviceId: string)
    | Mark(id: string)
    | Complete(id: string)
    | Fail(id: string, error: string, retryable: bool)
    | Pair(device: Option<string>, token: string, cursor: Option<string>)
    | Unpair
    | Remember(key: string, revision: nat)
    | Received(cursor: Option<string>)
    | ReceiveFailed(error: string)

  // ---------------------------------------------------------------- the operations, on values

  predicate IsCapture(id: string) {
    "capture:" <= id
  }

  function NormalizeItems(items: seq<Item>): seq<Item> {
    if items == [] then []
    else (if IsCapture(items[0].content.operationId) then []
          else [items[0].(status := if items[0].status == Failed then Failed else Pending)])
         + NormalizeItems(items[1..])
  }

  /** What loading makes of a stored state. */
  function Loaded(s: State): State {
    s.(outbox := NormalizeItems(s.outbox))
  }

  function Find(items: seq<Item>, id: string): Option<Item> {
    if items == [] then None
    else if items[0].content.operationId == id then Some(items[0])
    else Find(items[1..], id)
  }

  function Without(items: seq<Item>, id: string): seq<Item> {
    if items == [] then []
    else (if items[0].content.operationId == id then [] else [items[0]]) + Without(items[1..], id)
  }

  function Map(items: seq<Item>, f: Item -> Item): seq<Item> {
    seq(|items|, i requires 0 <= i < |items| => f(items[i]))
  }

  function Fresh(content: Content, deviceId: string): Item {
    Item(content, deviceId, Pending, 0, None, true)
  }

  function Marked(id: string): Item -> Item {
    (i: Item) => if i.content.operationId == id then i.(status := Sending) else i
  }

  function MarkedFailed(id: string, error: string, retryable: bool): Item -> Item {
    (i: Item) => if i.content.operationId == id
         then i.(status := Failed, retryCount := i.retryCount + 1, lastError := Some(error), retryable := retryable)
         else i
  }

  /** The device a pairing names, unless its id is empty. */
  predicate Names(device: Option<string>) {
    device.Some? && device.value != ""
  }

  function Rehomed(from: string, to: Option<string>): Item -> Item {
    (i: Item) => if i.deviceId == from && Names(to) then i.(deviceId := to.value) else i
  }

  function FirstFailed(items: seq<Item>): Option<Item> {
    if items == [] then None else if items[0].status == Failed then Some(items[0]) else FirstFailed(items[1..])
  }

  /** The saved result of one operation on a loaded state. */
  function Updated(s: State, op: Op): State {
    match op
    case Enqueue(content, deviceId) =>
      if IsCapture(content.operationId) || Find(s.outbox, content.operationId).Some? then s
      else s.(outbox := s.outbox + [Fresh(content, deviceId)])
    case Mark(id) => s.(status := Syncing, outbox := Map(s.outbox, Marked(id)))
    case Complete(id) => s.(outbox := Without(s.outbox, id), status := Synced, lastError := None)
    case Fail(id, error, retryable) =>
      s.(status := SyncFailed, lastError := Some(error), outbox := Map(s.outbox, MarkedFailed(id, error, retryable)))
    case Pair(device, token, cursor) =>
      State(if device.Some? then device.value else s.deviceId, Some(token), cursor, Synced, None,
            Map(s.outbox, Rehomed(s.deviceId, device)),
            if Names(device) && device.value != s.deviceId then map[] else s.revisions)
    case Unpair => s.(token := None, cursor := None, status := Unpaired, lastError := None)
    case Remember(key, revision) =>
      if key in s.revisions && s.revisions[key] >= revision then s else s.(revisions := s.revisions[key := revision])
    case Received(cursor) =>
      var failed := FirstFailed(s.outbox);
      s.(cursor := if cursor.Some? then cursor else s.cursor,
         status := if failed.Some? then SyncFailed else Synced,
         lastError := if failed.Some? then failed.value.lastError else None)
    case ReceiveFailed(error) => s.(status := SyncFailed, lastError := Some(error))
  }

  function Run(stored: State, ops: seq<Op>): State
    decreases |ops|
  {
    if ops == [] then stored else Run(Updated(Loaded(stored), ops[0]), ops[1..])
  }

  lemma {:induction false} RunAppend(stored: State, xs: seq<Op>, ys: seq<Op>)
    ensures Run(stored, xs + ys) == Run(Run(stored, xs), ys)
    decreases |xs|
  {
    if xs == [] {
      assert xs + ys == ys;
    } else {
      assert (xs + ys)[1..] == xs[1..] + ys;
      RunAppend(Updated(Loaded(stored), xs[0]), xs[1..], ys);
    }
  }

  // ---------------------------------------------------------------- conservation

  function Contents(items: seq<Item>): seq<Content> {
    seq(|items|, i requires 0 <= i < |items| => items[i].content)
  }

  function Drop(cs: seq<Content>, id: string): seq<Content> {
    if cs == [] then [] else (if cs[0].operationId == id then [] else [cs[0]]) + Drop(cs[1..], id)
  }

  predicate HasId(cs: seq<Content>, id: string) {
    exists c <- cs :: c.operationId == id
  }

  /** What should be waiting: enqueued operations in order, each until it is completed. */
  function Waiting(cs: seq<Content>, ops: seq<Op>): seq<Content>
    decreases |ops|
  {
    if ops == [] then cs else Waiting(NextWaiting(cs, ops[0]), ops[1..])
  }

  function NextWaiting(cs: seq<Content>, op: Op): seq<Content> {
    match op
    case Enqueue(c, _) => if IsCapture(c.operationId) || HasId(cs, c.operationId) then cs else cs + [c]
    case Complete(id) => Drop(cs, id)
    case _ => cs
  }

  ghost predicate DistinctIds(cs: seq<Content>) {
    && (forall c <- cs :: !IsCapture(c.operationId))
    && forall i, j | 0 <= i < j < |cs| :: cs[i].operationId != cs[j].operationId
  }

  lemma ContentsMembers(items: seq<Item>)
    ensures forall i <- items :: i.content in Contents(items)
    ensures forall c <- Contents(items) :: exists i <- items :: i.content == c
  {
    forall i <- items ensures i.content in Contents(items) {
      var k :| 0 <= k < |items| && items[k] == i;
      assert Contents(items)[k] == i.content;
    }
    forall c <- Contents(items) ensures exists i <- items :: i.content == c {
      var k :| 0 <= k < |items| && Contents(items)[k] == c;
      assert items[k] in items;
    }
  }

  lemma {:induction false} NormalizeKeepsContents(items: seq<Item>)
    requires forall i <- items :: !IsCapture(i.content.operationId)
    ensures Contents(NormalizeItems(items)) == Contents(items)
    ensures |NormalizeItems(items)| == |items|
    ensures forall k | 0 <= k < |items| ::
              NormalizeItems(items)[k] == items[k].(status := if items[k].status == Failed then Failed else Pending)
    decreases |items|
  {
    if items != [] {
      assert items[0] in items;
      NormalizeKeepsContents(items[1..]);
    }
  }

  lemma {:induction false} WithoutContents(items: seq<Item>, id: string)
    ensures Contents(Without(items, id)) == Drop(Contents(items), id)
    decreases |items|
  {
    if items != [] {
      WithoutContents(items[1..], id);
      assert Contents(items)[1..] == Contents(items[1..]);
      assert Contents(Without(items, id)) ==
             (if items[0].content.operationId == id then [] else [items[0].content]) + Contents(Without(items[1..], id));
    }
  }

  lemma {:induction false} FindById(items: seq<Item>, id: string)
    ensures Find(items, id).Some? <==> HasId(Contents(items), id)
    decreases |items|
  {
    if items != [] {
      FindById(items[1..], id);
      assert Contents(items) == [items[0].content] + Contents(items[1..]);
    }
  }

  lemma {:induction false} DropMembers(cs: seq<Content>, id: string)
    ensures forall c :: c in Drop(cs, id) <==> c in cs && c.operationId != id
    ensures DistinctIds(cs) ==> DistinctIds(Drop(cs, id))
    decreases |cs|
  {
    if cs != [] {
      assert cs == [cs[0]] + cs[1..];
      DropMembers(cs[1..], id);
      if DistinctIds(cs) {
        assert DistinctIds(cs[1..]);
        assert forall c <- cs[1..] :: c.operationId != cs[0].operationId;
      }
    }
  }

  lemma MapContents(items: seq<Item>, f: Item -> Item)
    requires forall i <- items :: f(i).content == i.content
    ensures Contents(Map(items, f)) == Contents(items)
  {
  }

  lemma UpdateLoadedContents(s: State, op: Op)
    requires DistinctIds(Contents(s.outbox))
    ensures Contents(Updated(s, op).outbox) == NextWaiting(Contents(s.outbox), op)
  {
    match op
    case Enqueue(c, device) =>
      FindById(s.outbox, c.operationId);
      assert Contents(s.outbox + [Fresh(c, device)]) == Contents(s.outbox) + [c];
    case Complete(id) => WithoutContents(s.outbox, id);
    case Mark(id) => MapContents(s.outbox, Marked(id));
    case Fail(id, e, r) => MapContents(s.outbox, MarkedFailed(id, e, r));
    case Pair(d, _, _) => MapContents(s.outbox, Rehomed(s.deviceId, d));
    case Unpair =>
    case Remember(_, _) =>
    case Received(_) =>
    case ReceiveFailed(_) =>
  }

  lemma NextWaitingDistinct(cs: seq<Content>, op: Op)
    requires DistinctIds(cs)
    ensures DistinctIds(NextWaiting(cs, op))
  {
    if op.Complete? {
      DropMembers(cs, op.id);
    }
  }

  lemma UpdateContents(s: State, op: Op)
    requires DistinctIds(Contents(s.outbox))
    ensures Contents(Updated(Loaded(s), op).outbox) == NextWaiting(Contents(s.outbox), op)
    ensures DistinctIds(NextWaiting(Contents(s.outbox), op))
  {
    ContentsMembers(s.outbox);
    NormalizeKeepsContents(s.outbox);
    UpdateLoadedContents(Loaded(s), op);
    NextWaitingDistinct(Contents(s.outbox), op);
  }

  /**
   Conservation: after any sequence of operations, crashes and reloads anywhere in it, the outbox
   holds every enqueued operation that is not completed, unchanged, once, in order.
   */
  lemma {:induction false} OutboxIsConserved(s: State, ops: seq<Op>)
    requires DistinctIds(Contents(s.outbox))
    ensures Contents(Run(s, ops).outbox) == Waiting(Contents(s.outbox), ops)
    ensures DistinctIds(Contents(Run(s, ops).outbox))
    decreases |ops|
  {
    if ops != [] {
      UpdateContents(s, ops[0]);
      OutboxIsConserved(Updated(Loaded(s), ops[0]), ops[1..]);
    }
  }

  /** An operation leaves the outbox only by being completed. */
  lemma {:induction false} WaitsUntilCompleted(cs: seq<Content>, ops: seq<Op>, c: Content)
    requires c in cs && Complete(c.operationId) !in ops
    ensures c in Waiting(cs, ops)
    decreases |ops|
  {
    if ops != [] {
      assert ops[0] in ops;
      if ops[0].Complete? {
        DropMembers(cs, ops[0].id);
      }
      WaitsUntilCompleted(NextWaiting(cs, ops[0]), ops[1..], c);
    }
  }

  // ---------------------------------------------------------------- selection

  predicate Eligible(i: Item) {
    i.status == Pending || (i.status == Failed && i.retryable)
  }

  function Select(items: seq<Item>): seq<Item> {
    if items == [] then [] else (if Eligible(items[0]) then [items[0]] else []) + Select(items[1..])
  }

  function Take(items: seq<Item>, limit: int): seq<Item> {
    if limit <= 0 then [] else if |items| <= limit then items else items[..limit]
  }

  function Ids(items: seq<Item>): set<string> {
    set i <- items :: i.content.operationId
  }

  predicate GivenUp(i: Item) {
    i.status == Failed && !i.retryable
  }

  lemma {:induction false} SelectMembers(items: seq<Item>)
    ensures forall i :: i in Select(items) <==> i in items && Eligible(i)
    decreases |items|
  {
    if items != [] {
      assert items == [items[0]] + items[1..];
      SelectMembers(items[1..]);
    }
  }

  lemma DistinctCons(c: Content, cs: seq<Content>)
    ensures DistinctIds([c] + cs) <==>
            !IsCapture(c.operationId) && DistinctIds(cs) && forall d <- cs :: d.operationId != c.operationId
  {
    var all := [c] + cs;
    if DistinctIds(all) {
      forall i, j | 0 <= i < j < |cs| ensures cs[i].operationId != cs[j].operationId {
        assert all[i+1] == cs[i] && all[j+1] == cs[j];
      }
      forall d <- cs ensures d.operationId != c.operationId && d in all {
        var k :| 0 <= k < |cs| && cs[k] == d;
        assert all[0] == c && all[k+1] == d;
      }
    }
  }

  lemma {:induction false} SelectDistinct(items: seq<Item>)
    requires DistinctIds(Contents(items))
    ensures DistinctIds(Contents(Select(items)))
    decreases |items|
  {
    if items != [] {
      var c, rest := items[0].content, Select(items[1..]);
      assert Contents(items) == [c] + Contents(items[1..]);
      assert Contents([items[0]] + rest) == [c] + Contents(rest);
      assert Select(items) == if Eligible(items[0]) then [items[0]] + rest else rest;
      DistinctCons(c, Contents(items[1..]));
      DistinctCons(c, Contents(rest));
      SelectDistinct(items[1..]);
      ContentsMembers(items[1..]);
      ContentsMembers(rest);
      SelectMembers(items[1..]);
    }
  }

  /** A reload leaves nothing in flight: each operation is offered again unless it was given up. */
  lemma NothingStuckAfterReload(s: State)
    requires DistinctIds(Contents(s.outbox))
    ensures forall i <- Loaded(s).outbox :: i.status != Sending && (i in Select(Loaded(s).outbox) <==> !GivenUp(i))
  {
    ContentsMembers(s.outbox);
    NormalizeKeepsContents(s.outbox);
    SelectMembers(Loaded(s).outbox);
  }

  /** An item stays at its place when loaded. */
  lemma LoadedAt(s: State, k: nat)
    requires DistinctIds(Contents(s.outbox)) && k < |s.outbox|
    ensures |Loaded(s).outbox| == |s.outbox| && Loaded(s).outbox[k].content == s.outbox[k].content
    ensures Loaded(s).outbox[k].status == if s.outbox[k].status == Failed then Failed else Pending
  {
    ContentsMembers(s.outbox);
    NormalizeKeepsContents(s.outbox);
  }

  lemma OfferedAt(items: seq<Item>, k: nat)
    requires k < |items| && Eligible(items[k])
    ensures items[k].content.operationId in Ids(Select(items))
  {
    SelectMembers(items);
    assert items[k] in Select(items);
  }

  /** Being in flight reserves nothing: an operation just marked as sending is offered again. */
  lemma SendingIsOfferedAgain(s: State, k: nat)
    requires DistinctIds(Contents(s.outbox)) && k < |s.outbox|
    ensures var id := s.outbox[k].content.operationId;
            id in Ids(Select(Loaded(Updated(Loaded(s), Mark(id))).outbox))
  {
    var marked := Updated(Loaded(s), Mark(s.outbox[k].content.operationId));
    UpdateContents(s, Mark(s.outbox[k].content.operationId));
    LoadedAt(s, k);
    LoadedAt(marked, k);
    OfferedAt(Loaded(marked).outbox, k);
  }

  // ---------------------------------------------------------------- known revisions

  /** The operation does not pair with another device than `deviceId`. */
  predicate KeepsDevice(op: Op, deviceId: string) {
    op.Pair? && op.device.Some? ==> op.device.value == deviceId
  }

  /**
   While the device stays the same, the revision known for an entity is the greatest of the one it
   started with and those remembered since.
   */
  lemma {:induction false} RevisionIsGreatestRemembered(s: State, ops: seq<Op>, key: string)
    requires forall op <- ops :: KeepsDevice(op, s.deviceId)
    ensures var known := Run(s, ops).revisions;
            && (key in s.revisions ==> key in known && s.revisions[key] <= known[key])
            && (forall n | Remember(key, n) in ops :: key in known && n <= known[key])
            && (key in known ==> Remember(key, known[key]) in ops || (key in s.revisions && s.revisions[key] == known[key]))
    decreases |ops|
  {
    if ops != [] {
      assert ops == [ops[0]] + ops[1..] && ops[0] in ops;
      assert KeepsDevice(ops[0], s.deviceId);
      RevisionIsGreatestRemembered(Updated(Loaded(s), ops[0]), ops[1..], key);
    }
  }

  /** The token after a run is that of its last pairing, and none after its last unpairing. */
  lemma {:induction false} TokenOfRun(s: State, ops: seq<Op>, k: int)
    requires k < |ops| && (k >= 0 ==> ops[k].Pair? || ops[k].Unpair?)
    requires forall j | 0 <= j < |ops| && k < j :: !ops[j].Pair? && !ops[j].Unpair?
    ensures Run(s, ops).token == if k < 0 then s.token else if ops[k].Pair? then Some(ops[k].token) else None
    decreases |ops|
  {
    if ops != [] {
      assert forall j | 0 <= j < |ops[1..]| :: ops[1..][j] == ops[j+1];
      TokenOfRun(Updated(Loaded(s), ops[0]), ops[1..], if k > 0 then k - 1 else -1);
    }
  }

  /** The operations that set the cursor: pairings, unpairings and received changes that bring one. */
  predicate SetsCursor(op: Op) {
    op.Pair? || op.Unpair? || (op.Received? && op.cursor.Some?)
  }

  /** The cursor after a run is that of the last such operation. */
  lemma {:induction false} CursorOfRun(s: State, ops: seq<Op>, k: int)
    requires k < |ops| && (k >= 0 ==> SetsCursor(ops[k])) && forall j | 0 <= j < |ops| && k < j :: !SetsCursor(ops[j])
    ensures Run(s, ops).cursor == if k < 0 then s.cursor else if ops[k].Unpair? then None else ops[k].cursor
    decreases |ops|
  {
    if ops != [] {
      assert forall j | 0 <= j < |ops[1..]| :: ops[1..][j] == ops[j+1];
      CursorOfRun(Updated(Loaded(s), ops[0]), ops[1..], if k > 0 then k - 1 else -1);
    }
  }

  /** A newly enqueued operation waits at the end, unsent and without an error. */
  lemma EnqueuedItem(s: State, c: Content, device: string)
    requires !IsCapture(c.operationId) && Find(s.outbox, c.operationId).None?
    ensures var outbox := Updated(s, Enqueue(c, device)).outbox;
            |outbox| == |s.outbox| + 1 && outbox[..|s.outbox|] == s.outbox
            && outbox[|s.outbox|] == Item(c, device, Pending, 0, None, true)
  {
  }

  lemma {:induction false} FirstFailedMeans(items: seq<Item>, k: nat)
    requires k <= |items| && (forall j | 0 <= j < k :: items[j].status != Failed)
    requires k < |items| ==> items[k].status == Failed
    ensures FirstFailed(items) == if k < |items| then Some(items[k]) else None
    decreases k
  {
    if k > 0 {
      assert forall j | 0 <= j < k - 1 :: items[1..][j] == items[j+1];
      FirstFailedMeans(items[1..], k - 1);
    }
  }

  /**
   The status shown after each operation: received changes leave a failure standing as long as some
   operation (the first at `k`) has failed, a completion does not.
   */
  lemma ShownStatus(s: State, op: Op, k: nat)
    requires k <= |s.outbox| && (forall j | 0 <= j < k :: s.outbox[j].status != Failed)
    requires k < |s.outbox| ==> s.outbox[k].status == Failed
    ensures var shown := (Updated(s, op).status, Updated(s, op).lastError);
            match op
            case Mark(_) => shown == (Syncing, s.lastError)
            case Complete(_) => shown == (Synced, None)
            case Fail(_, error, _) => shown == (SyncFailed, Some(error))
            case ReceiveFailed(error) => shown == (SyncFailed, Some(error))
            case Pair(_, _, _) => shown == (Synced, None)
            case Unpair => shown == (Unpaired, None)
            case Received(_) => shown == if k < |s.outbox| then (SyncFailed, s.outbox[k].lastError) else (Synced, None)
            case _ => shown == (s.status, s.lastError)
  {
    FirstFailedMeans(s.outbox, k);
  }

  /** Pairing as another device takes the operations of the previous one along, and no others. */
  lemma PairingTakesItemsAlong(s: State, device: string, token: string, cursor: Option<string>)
    requires DistinctIds(Contents(s.outbox)) && device != ""
    ensures var paired := Updated(Loaded(s), Pair(Some(device), token, cursor));
            && paired.deviceId == device && paired.cursor == cursor && |paired.outbox| == |s.outbox|
            && paired.revisions == (if device == s.deviceId then s.revisions else map[])
            && forall k | 0 <= k < |s.outbox| ::
                 && paired.outbox[k].content == s.outbox[k].content
                 && paired.outbox[k].deviceId == if s.outbox[k].deviceId == s.deviceId then device else s.outbox[k].deviceId
  {
    ContentsMembers(s.outbox);
    NormalizeKeepsContents(s.outbox);
  }

  // ---------------------------------------------------------------- pushing

  /** The answer to one push; `died` means the process never sees one. */
  datatype Reply =
    | Applied
    | Duplicate
    | Conflict(current: bool, applyError: Option<string>)
    | Malformed
    | Thrown(error: string)
    | Died

  /** One await: what other callers do meanwhile, then the reply. */
  datatype Wait = Wait(meanwhile: seq<Op>, reply: Reply)

  /** The server has taken the operation, or holds a newer value that was applied here. */
  predicate Accepted(r: Reply) {
    r.Applied? || r.Duplicate? || (r.Conflict? && r.current && r.applyError.None?)
  }

  predicate IsDuplicate(r: Reply) {
    r.Duplicate?
  }

  predicate IsConflict(r: Reply) {
    r.Conflict?
  }

  const NO_CURRENT := "同步冲突响应缺少服务端当前值"
  const BAD_REPLY := "同步服务响应格式无效"

  function Verdict(id: string, r: Reply): seq<Op> {
    if Accepted(r) then [Complete(id)]
    else match r
      case Conflict(current, e) => if current then [Fail(id, e.value, true)] else [Fail(id, NO_CURRENT, false)]
      case Malformed => [Fail(id, BAD_REPLY, true)]
      case Thrown(e) => [Fail(id, e, true)]
      case _ => []
  }

  function PushOps(id: string, w: Wait): seq<Op> {
    [Mark(id)] + w.meanwhile + Verdict(id, w.reply)
  }

  /** The operations of a batch: those of its items in turn, up to the await at which the process dies. */
  function BatchOps(items: seq<Item>, script: seq<Wait>): seq<Op>
    requires |script| >= |items|
    decreases |items|
  {
    if items == [] then []
    else PushOps(items[0].content.operationId, script[0])
         + if script[0].reply.Died? then [] else BatchOps(items[1..], script[1..])
  }

  /** The counters of a batch; `failed` counts the pushes that ended in a failure. */
  datatype BatchResult = BatchResult(attempted: nat, completed: nat, failed: nat, duplicates: nat, conflicts: nat)

  class SyncStore {
    var stored: State

    constructor (deviceId: string)
      ensures stored == State(deviceId, None, None, Unpaired, None, [], map[])
    {
      stored := State(deviceId, None, None, Unpaired, None, [], map[]);
    }

    /** `updateSyncState`: load, transform, save. */
    method Update(op: Op)
      modifies this
      ensures stored == Updated(Loaded(old(stored)), op)
    {
      stored := Updated(Loaded(stored), op);
    }

    method UpdateAll(ops: seq<Op>)
      modifies this
      ensures stored == Run(old(stored), ops)
    {
      for i := 0 to |ops|
        invariant Run(stored, ops[i..]) == Run(old(stored), ops)
      {
        assert ops[i..][0] == ops[i] && ops[i..][1..] == ops[i+1..];
        Update(ops[i]);
      }
    }

    method EnqueueSyncOperation(content: Content, deviceId: string) returns (r: Option<Item>)
      modifies this
      ensures IsCapture(content.operationId) ==> r == None && stored == old(stored)
      ensures !IsCapture(content.operationId) ==>
                && stored == Updated(Loaded(old(stored)), Enqueue(content, deviceId))
                && r == (if Find(Loaded(old(stored)).outbox, content.operationId).Some?
                         then Find(Loaded(old(stored)).outbox, content.operationId)
                         else Some(Fresh(content, deviceId)))
    {
      if IsCapture(content.operationId) {
        return None;
      }
      var existing := Find(Loaded(stored).outbox, content.operationId);
      Update(Enqueue(content, deviceId));
      return if existing.Some? then existing else Some(Fresh(content, deviceId));
    }

    method PendingSyncOperations(limit: int) returns (r: seq<Item>)
      ensures r == Take(Select(Loaded(stored).outbox), limit)
    {
      return Take(Select(Loaded(stored).outbox), limit);
    }
  }

  class SyncWorkerCore {
    const store: SyncStore

    constructor (store: SyncStore)
      ensures this.store == store
    {
      this.store := store;
    }

    /** The loop body of `pushBatch`: mark, push, and complete or fail one operation. */
    method PushOne(id: string, w: Wait) returns (completed: bool, dead: bool)
      modifies store
      ensures store.stored == Run(old(store.stored), PushOps(id, w))
      ensures dead == w.reply.Died? && completed == Accepted(w.reply)
    {
      PushRuns(store.stored, id, w);
      store.Update(Mark(id));
      store.UpdateAll(w.meanwhile);
      if w.reply.Died? {
        return false, true;
      }
      if w.reply.Conflict? && !w.reply.current {
        store.Update(Fail(id, NO_CURRENT, false));
        return false, false;
      }
      if w.reply.Conflict? && w.reply.applyError.Some? {
        store.Update(Fail(id, w.reply.applyError.value, true));
        return false, false;
      }
      if w.reply.Malformed? || w.reply.Thrown? {
        store.Update(Fail(id, if w.reply.Malformed? then BAD_REPLY else w.reply.error, true));
        return false, false;
      }
      store.Update(Complete(id));
      return true, false;
    }

    /**
     One batch against a script of awaits.  The stored state is the outcome of exactly the
     operations of the items handled; unless the process dies, all attempted pushes are counted as
     completed or failed.
     */
    method PushBatch(limit: int, script: seq<Wait>) returns (items: seq<Item>, result: BatchResult, died: bool)
      requires |script| >= |store.stored.outbox|
      modifies store
      ensures items == if old(store.stored).token.Some? then Take(Select(Loaded(old(store.stored)).outbox), limit) else []
      ensures |items| <= |script|
      ensures store.stored == Run(old(store.stored), BatchOps(items, script))
      ensures result.attempted == |items|
      ensures !died ==> result.attempted == result.completed + result.failed
      ensures died <==> exists k | 0 <= k < |items| :: script[k].reply.Died?
      ensures result.completed + result.failed <= |items|
      ensures result.completed == Count(script[..result.completed + result.failed], Accepted)
      ensures result.duplicates == Count(script[..result.completed + result.failed], IsDuplicate)
      ensures result.conflicts == Count(script[..result.completed + result.failed], IsConflict)
    {
      items := [];
      ghost var before := store.stored;
      SelectFits(store.stored);
      if store.stored.token.Some? {
        items := store.PendingSyncOperations(limit);
      }
      result := BatchResult(|items|, 0, 0, 0, 0);
      ghost var ops: seq<Op> := [];
      assert [] + BatchOps(items, script) == BatchOps(items, script);
      for k := 0 to |items|
        invariant store.stored == Run(before, ops)
        invariant ops + BatchOps(items[k..], script[k..]) == BatchOps(items, script)
        invariant result.attempted == |items| && k == result.completed + result.failed
        invariant forall j | 0 <= j < k :: !script[j].reply.Died?
        invariant result.completed == Count(script[..k], Accepted)
        invariant result.duplicates == Count(script[..k], IsDuplicate)
        invariant result.conflicts == Count(script[..k], IsConflict)
      {
        BatchStep(items, script, k, ops);
        CountSnoc(script, k, Accepted);
        CountSnoc(script, k, IsDuplicate);
        CountSnoc(script, k, IsConflict);
        var id := items[k].content.operationId;
        RunAppend(before, ops, PushOps(id, script[k]));
        ops := ops + PushOps(id, script[k]);
        var completed, dead := PushOne(id, script[k]);
        if dead {
          return items, result, true;
        }
        result := BatchResult(
          result.attempted,
          result.completed + if completed then 1 else 0,
          result.failed + if completed then 0 else 1,
          result.duplicates + if script[k].reply.Duplicate? then 1 else 0,
          result.conflicts + if script[k].reply.Conflict? then 1 else 0);
      }
      assert ops + [] == ops;
      return items, result, false;
    }
  }

  /** Handling item `k` moves its operations from the rest of the batch to those done. */
  lemma BatchStep(items: seq<Item>, script: seq<Wait>, k: nat, ops: seq<Op>)
    requires k < |items| <= |script|
    ensures var done := ops + PushOps(items[k].content.operationId, script[k]);
            ops + BatchOps(items[k..], script[k..]) ==
            if script[k].reply.Died? then done else done + BatchOps(items[k+1..], script[k+1..])
  {
    var push := PushOps(items[k].content.operationId, script[k]);
    var later := BatchOps(items[k+1..], script[k+1..]);
    assert items[k..][0] == items[k] && script[k..][0] == script[k];
    assert items[k..][1..] == items[k+1..] && script[k..][1..] == script[k+1..];
    assert ops + (push + later) == ops + push + later;
    assert push + [] == push;
  }

  function Count(ws: seq<Wait>, p: Reply -> bool): nat {
    if ws == [] then 0 else Count(ws[..|ws|-1], p) + if p(ws[|ws|-1].reply) then 1 else 0
  }

  lemma CountSnoc(ws: seq<Wait>, k: nat, p: Reply -> bool)
    requires k < |ws|
    ensures Count(ws[..k+1], p) == Count(ws[..k], p) + if p(ws[k].reply) then 1 else 0
  {
    assert ws[..k+1][..k] == ws[..k];
  }

  lemma {:induction false} NormalizeLength(items: seq<Item>)
    ensures |Select(NormalizeItems(items))| <= |items|
    decreases |items|
  {
    if items != [] {
      NormalizeLength(items[1..]);
      if !IsCapture(items[0].content.operationId) {
        assert NormalizeItems(items)[1..] == NormalizeItems(items[1..]);
      } else {
        assert NormalizeItems(items) == NormalizeItems(items[1..]);
      }
    }
  }

  lemma SelectFits(s: State)
    ensures |Select(Loaded(s).outbox)| <= |s.outbox|
  {
    NormalizeLength(s.outbox);
  }

  /** The state after the marking, the meanwhile and the verdict of one push. */
  lemma PushRuns(s: State, id: string, w: Wait)
    ensures var marked := Run(Updated(Loaded(s), Mark(id)), w.meanwhile);
            Run(s, PushOps(id, w)) == if w.reply.Died? then marked else Updated(Loaded(marked), Verdict(id, w.reply)[0])
  {
    var v := Verdict(id, w.reply);
    var first := [Mark(id)] + w.meanwhile;
    RunAppend(s, first, v);
    assert first[1..] == w.meanwhile && (v != [] ==> v[1..] == []);
  }
}
