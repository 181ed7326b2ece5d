/**
 The agent event pipeline: runtime frames are adapted (backend/app/agents/embedded_runtime.py),
 translated (claude_code_adapter.py), recorded (stream_bridge.py) and folded into a snapshot
 (events.py).  The recognition of timeout messages is the parameter `isTimeout`.
 */
module AgentBridge {
  import opened Prelude

  datatype FrameKind =
    | TurnStarted | MessageDelta | MessageCompleted
    | ToolRequested | ToolCompleted | ToolFailed | ToolDenied
    | TurnCompleted | TurnFailed | TurnCancelled | TurnTimeout
    | OtherKind(name: string)

  datatype TaskState = Pending | Running | Succeeded | Failed | Cancelled | CancelFailed | Timeout | OtherState(name: string)

  datatype EventName =
    | TaskQueued | TaskStarted | TaskTextDelta | TaskMessage | TaskStepStarted | TaskStepFinished
    | TaskArtifactUpdated | TaskPermissionRequired | TaskRunnerStatus
    | TaskCompleted | TaskFailed | TaskCancelled | TaskCancelFailed | TaskTimeout

  datatype StepState = StepRunning | StepFailed | StepSucceeded

  /**
   A task event frame, reduced to the fields the adapter reads; a missing text is "".  `rawRef` is
   the hash under which the frame is recorded.
   */
  datatype Frame = Frame(kind: FrameKind, text: string, message: string, toolUseId: string, name: string, rawRef: string)

  type TimeoutTest = string -> bool

  // ---------------------------------------------------------------- adapting a frame

  datatype Raw =
    | System(subtype: string)
    | AssistantText(text: string, stream: bool)
    | ToolUse(id: string, name: string)
    | ToolResult(id: string, isError: bool)
    | TurnResult(text: string, isError: bool)
    | StateChange(state: TaskState)

  function OrText(a: string, b: string): string {
    if a != "" then a else b
  }

  function RunnerEvent(f: Frame): Raw {
    match f.kind
    case TurnStarted => System("init")
    case MessageDelta => AssistantText(f.text, true)
    case MessageCompleted => AssistantText(f.text, false)
    case ToolRequested => ToolUse(f.toolUseId, f.name)
    case ToolCompleted => ToolResult(f.toolUseId, false)
    case ToolFailed => ToolResult(f.toolUseId, true)
    case ToolDenied => ToolResult(f.toolUseId, true)
    case TurnCompleted => TurnResult(OrText(f.text, f.message), false)
    case TurnFailed => TurnResult(OrText(f.text, f.message), true)
    case TurnCancelled => StateChange(Cancelled)
    case TurnTimeout => StateChange(Timeout)
    case OtherKind(name) => System(OrText(name, "runtime_event"))
  }

  /** After such an event the generator of runtime events returns. */
  predicate EndsStream(r: Raw) {
    r.TurnResult? || (r.StateChange? && r.state in {Cancelled, Timeout, Failed})
  }

  // ---------------------------------------------------------------- translating

  datatype Step = Step(id: string, caption: string, state: StepState)

  /** A task event; absent texts are "". */
  datatype Event = Event(
    event: EventName,
    state: TaskState,
    title: string,
    textDelta: string,
    message: string,
    step: Option<Step>,
    artifacts: seq<string>,
    actions: seq<string>,
    permission: Option<string>,
    durationMs: Option<int>)

  function Plain(event: EventName, state: TaskState, message: string): Event {
    Event(event, state, "", "", message, None, [], [], None, None)
  }

  const TERMINAL_STATES: set<TaskState> := {Succeeded, Failed, Cancelled, CancelFailed, Timeout}
  const TERMINAL_EVENTS: set<EventName> := {TaskCompleted, TaskFailed, TaskCancelled, TaskCancelFailed, TaskTimeout}

  predicate IsTerminal(e: Event) {
    e.event in TERMINAL_EVENTS || e.state in TERMINAL_STATES
  }

  type Labels = map<string, string>

  function ToolLabel(name: string): string {
    if name == "Read" then "正在读取文件"
    else if name == "Write" then "正在生成文件"
    else if name in {"Edit", "MultiEdit"} then "正在修改文件"
    else if name == "Bash" then "正在运行命令"
    else if name in {"WebFetch", "WebSearch"} then "正在检查网页"
    else "正在执行步骤"
  }

  function TranslateResult(isTimeout: TimeoutTest, text: string, isError: bool): Event {
    if isError && isTimeout(text) then Plain(TaskTimeout, Timeout, OrText(text, "任务超时"))
    else if isError then Plain(TaskFailed, Failed, OrText(text, "任务失败"))
    else Plain(TaskCompleted, Succeeded, OrText(text, "任务完成"))
  }

  /** Only `Cancelled` and `Timeout` come from the runtime. */
  function TranslateState(state: TaskState): Event {
    match state
    case Pending => Plain(TaskQueued, Pending, "任务已提交，等待执行")
    case Running => Plain(TaskStarted, Running, "任务开始执行")
    case Succeeded => Plain(TaskCompleted, Succeeded, "任务完成")
    case Failed => Plain(TaskFailed, Failed, "任务失败")
    case Cancelled => Plain(TaskCancelled, Cancelled, "任务已取消")
    case Timeout => Plain(TaskTimeout, Timeout, "任务超时")
    case _ => Plain(TaskRunnerStatus, state, "任务状态更新")
  }

  /** The labels of tool uses seen so far, and the event for a raw one, if it makes any. */
  function Translate(isTimeout: TimeoutTest, labels: Labels, r: Raw, rawRef: string): (Labels, Option<Event>) {
    match r
    case System(subtype) =>
      (labels, Some(if subtype == "init" then Plain(TaskStarted, Running, "任务开始执行")
                    else Plain(TaskRunnerStatus, Running, OrText(subtype, "runner status"))))
    case AssistantText(text, stream) =>
      (labels, if text == "" then None
               else if stream then Some(Plain(TaskTextDelta, Running, "").(textDelta := text))
               else Some(Plain(TaskMessage, Running, text)))
    case ToolUse(id, name) =>
      (if id != "" then labels[id := ToolLabel(name)] else labels,
       Some(Plain(TaskStepStarted, Running, "").(
              step := Some(Step(OrText(id, OrText(rawRef, "step")), ToolLabel(name), StepRunning)))))
    case ToolResult(id, isError) =>
      (labels,
       Some(Plain(TaskStepFinished, Running, "").(
              step := Some(Step(OrText(id, OrText(rawRef, "step")),
                                if isError then "步骤执行失败" else if id in labels then labels[id] else "步骤已完成",
                                if isError then StepFailed else StepSucceeded)))))
    case TurnResult(text, isError) => (labels, Some(TranslateResult(isTimeout, text, isError)))
    case StateChange(state) => (labels, Some(TranslateState(state)))
  }

  // ---------------------------------------------------------------- the bridge

  /** The frame that ends a turn, with the state it ends in. */
  function TurnEnd(isTimeout: TimeoutTest, f: Frame): Option<TaskState> {
    match f.kind
    case TurnCompleted => Some(Succeeded)
    case TurnFailed => Some(if isTimeout(OrText(f.text, f.message)) then Timeout else Failed)
    case TurnCancelled => Some(Cancelled)
    case TurnTimeout => Some(Timeout)
    case _ => None
  }

  /** The events recorded for a stream of frames, up to its first terminal event. */
  function Recorded(isTimeout: TimeoutTest, labels: Labels, frames: seq<Frame>): seq<Event>
    decreases |frames|
  {
    if frames == [] then []
    else
      var (labels', e) := Translate(isTimeout, labels, RunnerEvent(frames[0]), frames[0].rawRef);
      var first := if e.Some? then [e.value] else [];
      if EndsStream(RunnerEvent(frames[0])) || (e.Some? && IsTerminal(e.value)) then first
      else first + Recorded(isTimeout, labels', frames[1..])
  }

  class ClaudeCodeRunnerAdapter {
    var toolLabelsById: Labels

    constructor ()
      ensures toolLabelsById == map[]
    {
      toolLabelsById := map[];
    }

    /** `translate` with its handlers. */
    method TranslateRaw(isTimeout: TimeoutTest, r: Raw, rawRef: string) returns (e: Option<Event>)
      modifies this
      ensures (toolLabelsById, e) == Translate(isTimeout, old(toolLabelsById), r, rawRef)
    {
      match r
      case System(subtype) =>
        if subtype == "init" {
          return Some(Plain(TaskStarted, Running, "任务开始执行"));
        }
        return Some(Plain(TaskRunnerStatus, Running, OrText(subtype, "runner status")));
      case AssistantText(text, stream) =>
        if text == "" {
          return None;
        }
        if stream {
          return Some(Plain(TaskTextDelta, Running, "").(textDelta := text));
        }
        return Some(Plain(TaskMessage, Running, text));
      case ToolUse(id, name) =>
        var caption := ToolLabel(name);
        if id != "" {
          toolLabelsById := toolLabelsById[id := caption];
        }
        var step := Step(OrText(id, OrText(rawRef, "step")), caption, StepRunning);
        return Some(Plain(TaskStepStarted, Running, "").(step := Some(step)));
      case ToolResult(id, isError) =>
        var caption := if id in toolLabelsById then toolLabelsById[id] else "步骤已完成";
        var step := Step(OrText(id, OrText(rawRef, "step")),
                         if isError then "步骤执行失败" else caption,
                         if isError then StepFailed else StepSucceeded);
        return Some(Plain(TaskStepFinished, Running, "").(step := Some(step)));
      case TurnResult(text, isError) =>
        var late := isError && isTimeout(text);
        return Some(Plain(if late then TaskTimeout else if isError then TaskFailed else TaskCompleted,
                          if late then Timeout else if isError then Failed else Succeeded,
                          OrText(text, if late then "任务超时" else if isError then "任务失败" else "任务完成")));
      case StateChange(state) =>
        return Some(TranslateState(state));
    }
  }

  class EmbeddedTaskStreamBridge {
    const adapter: ClaudeCodeRunnerAdapter

    constructor (adapter: ClaudeCodeRunnerAdapter)
      ensures this.adapter == adapter
    {
      this.adapter := adapter;
    }

    /**
     Consumes the frames queued before the end of the stream.  It reports success exactly when one
     of them ends the turn, and what it records holds one terminal event then, as the last, and
     none otherwise.
     */
    method Run(isTimeout: TimeoutTest, frames: seq<Frame>) returns (recorded: seq<Event>, done: bool)
      modifies adapter
      ensures recorded == Recorded(isTimeout, old(adapter.toolLabelsById), frames)
      ensures done <==> exists f <- frames :: TurnEnd(isTimeout, f).Some?
      ensures done ==> recorded != [] && IsTerminal(recorded[|recorded|-1])
      ensures forall k | 0 <= k < |recorded| - (if done then 1 else 0) :: !IsTerminal(recorded[k])
    {
      recorded := [];
      ghost var all := Recorded(isTimeout, adapter.toolLabelsById, frames);
      for i := 0 to |frames|
        invariant all == recorded + Recorded(isTimeout, adapter.toolLabelsById, frames[i..])
        invariant forall f <- frames[..i] :: TurnEnd(isTimeout, f).None?
        invariant forall e <- recorded :: !IsTerminal(e)
      {
        var f := frames[i];
        ghost var before := recorded;
        assert frames[..i+1] == frames[..i] + [f] && frames[i..][0] == f && frames[i..][1..] == frames[i+1..];
        TerminalIffTurnEnd(isTimeout, adapter.toolLabelsById, f);
        RecordedUnfolds(isTimeout, adapter.toolLabelsById, frames[i..]);
        var event := adapter.TranslateRaw(isTimeout, RunnerEvent(f), f.rawRef);
        if event.None? {
          continue;
        }
        recorded := recorded + [event.value];
        if IsTerminal(event.value) {
          assert f in frames;
          return recorded, true;
        }
        assert before + ([event.value] + Recorded(isTimeout, adapter.toolLabelsById, frames[i+1..])) ==
               recorded + Recorded(isTimeout, adapter.toolLabelsById, frames[i+1..]);
      }
      assert frames[..|frames|] == frames && frames[|frames|..] == [];
      assert recorded + [] == recorded;
      return recorded, false;
    }
  }

  /** A run records the event of its first frame, if any, and goes on unless that frame ends the turn. */
  lemma RecordedUnfolds(isTimeout: TimeoutTest, labels: Labels, frames: seq<Frame>)
    requires frames != []
    ensures var (labels', e) := Translate(isTimeout, labels, RunnerEvent(frames[0]), frames[0].rawRef);
            var rest := if TurnEnd(isTimeout, frames[0]).Some? then [] else Recorded(isTimeout, labels', frames[1..]);
            Recorded(isTimeout, labels, frames) == if e.Some? then [e.value] + rest else rest
  {
    var (labels', e) := Translate(isTimeout, labels, RunnerEvent(frames[0]), frames[0].rawRef);
    TerminalIffTurnEnd(isTimeout, labels, frames[0]);
    var rest := Recorded(isTimeout, labels', frames[1..]);
    assert [] + rest == rest;
    if e.Some? {
      assert [e.value] + [] == [e.value];
    }
  }

  /** A frame ends the stream, and yields a terminal event, exactly when it ends the turn. */
  lemma TerminalIffTurnEnd(isTimeout: TimeoutTest, labels: Labels, f: Frame)
    ensures var e := Translate(isTimeout, labels, RunnerEvent(f), f.rawRef).1;
            && (EndsStream(RunnerEvent(f)) <==> TurnEnd(isTimeout, f).Some?)
            && (e.Some? && IsTerminal(e.value) <==> TurnEnd(isTimeout, f).Some?)
            && (TurnEnd(isTimeout, f).Some? ==> e.value.state == TurnEnd(isTimeout, f).value)
  {
  }

  // ---------------------------------------------------------------- the snapshot

  datatype Snapshot = Snapshot(
    status: TaskState,
    title: string,
    progressText: string,
    finalText: string,
    textBuffer: string,
    steps: seq<Step>,
    artifacts: seq<string>,
    durationMs: Option<int>,
    error: string,
    actions: seq<string>,
    permission: Option<string>)

  function DropStep(steps: seq<Step>, id: string): seq<Step> {
    if steps == [] then [] else (if steps[0].id == id then [] else [steps[0]]) + DropStep(steps[1..], id)
  }

  function ReplaceStep(steps: seq<Step>, step: Step): seq<Step> {
    if steps == [] then [] else [if steps[0].id == step.id then step else steps[0]] + ReplaceStep(steps[1..], step)
  }

  predicate HasStep(steps: seq<Step>, id: string) {
    exists s <- steps :: s.id == id
  }

  function Finished(steps: seq<Step>, step: Step): seq<Step> {
    ReplaceStep(steps, step) + if HasStep(steps, step.id) then [] else [step]
  }

  function DefaultProgress(event: EventName): string {
    if event == TaskFailed then "任务失败"
    else if event == TaskTimeout then "任务超时"
    else if event == TaskCancelled then "任务已取消"
    else "取消失败"
  }

  function Prefix(s: string, n: nat): string {
    if |s| <= n then s else s[..n]
  }

  /** What one event makes of a snapshot, branch by branch. */
  function Reduce(p: Snapshot, e: Event): Snapshot {
    var s := p.(status := e.state, title := OrText(e.title, p.title));
    var s1 :=
      if e.event == TaskPermissionRequired then
        s.(progressText := OrText(e.message, "等待授权"), actions := e.actions, permission := e.permission)
      else if e.event == TaskQueued then
        s.(progressText := OrText(e.message, "任务已提交，等待执行"), actions := [], permission := None)
      else if e.event == TaskStarted then s.(progressText := OrText(e.message, "任务开始执行"))
      else if e.event == TaskTextDelta && e.textDelta != "" then
        s.(textBuffer := s.textBuffer + e.textDelta, progressText := "正在整理结果")
      else if e.event == TaskMessage && e.message != "" then
        s.(finalText := e.message, progressText := Prefix(e.message, 120))
      else if e.event == TaskStepStarted && e.step.Some? then
        s.(steps := DropStep(s.steps, e.step.value.id) + [e.step.value],
           progressText := OrText(e.step.value.caption, s.progressText))
      else if e.event == TaskStepFinished && e.step.Some? then
        s.(steps := Finished(s.steps, e.step.value), progressText := OrText(e.step.value.caption, s.progressText))
      else if e.event == TaskArtifactUpdated then
        s.(artifacts := e.artifacts, progressText := OrText(e.message, "产物已更新"))
      else if e.event == TaskCompleted then
        s.(status := Succeeded, finalText := OrText(e.message, OrText(s.finalText, s.textBuffer)),
           progressText := "任务完成", actions := [], permission := None,
           artifacts := if e.artifacts != [] then e.artifacts else s.artifacts)
      else if e.event in {TaskFailed, TaskTimeout, TaskCancelled, TaskCancelFailed} then
        s.(progressText := OrText(e.message, DefaultProgress(e.event)), error := OrText(e.message, s.error), actions := [])
      else s;
    var s2 := if e.message != "" && e.event in {TaskFailed, TaskTimeout} then s1.(error := e.message) else s1;
    if e.durationMs.Some? then s2.(durationMs := e.durationMs) else s2
  }

  /** `_finish_step`: the loop over the existing steps, and the append when none matched. */
  method FinishStep(steps: seq<Step>, step: Step) returns (r: seq<Step>)
    ensures r == Finished(steps, step)
  {
    r := [];
    var found := false;
    for i := 0 to |steps|
      invariant r + ReplaceStep(steps[i..], step) == ReplaceStep(steps, step)
      invariant found == HasStep(steps[..i], step.id)
    {
      assert steps[..i+1] == steps[..i] + [steps[i]] && steps[i..][1..] == steps[i+1..];
      if steps[i].id == step.id {
        r := r + [step];
        found := true;
      } else {
        r := r + [steps[i]];
      }
    }
    assert steps[..|steps|] == steps;
    if !found {
      r := r + [step];
    }
  }

  function Fold(s: Snapshot, events: seq<Event>): Snapshot
    decreases |events|
  {
    if events == [] then s else Fold(Reduce(s, events[0]), events[1..])
  }

  ghost predicate UniqueSteps(steps: seq<Step>) {
    forall i, j | 0 <= i < j < |steps| :: steps[i].id != steps[j].id
  }

  lemma {:induction false} DropStepMembers(steps: seq<Step>, id: string)
    ensures forall s :: s in DropStep(steps, id) <==> s in steps && s.id != id
    ensures UniqueSteps(steps) ==> UniqueSteps(DropStep(steps, id))
    decreases |steps|
  {
    if steps != [] {
      assert steps == [steps[0]] + steps[1..];
      DropStepMembers(steps[1..], id);
      if UniqueSteps(steps) {
        assert forall s <- steps[1..] :: s.id != steps[0].id;
      }
    }
  }

  lemma {:induction false} ReplaceStepMembers(steps: seq<Step>, step: Step)
    ensures |ReplaceStep(steps, step)| == |steps|
    ensures forall k | 0 <= k < |steps| ::
              ReplaceStep(steps, step)[k] == if steps[k].id == step.id then step else steps[k]
    decreases |steps|
  {
    if steps != [] {
      ReplaceStepMembers(steps[1..], step);
    }
  }

  /** The step with the given id. */
  function Lookup(steps: seq<Step>, id: string): Option<Step> {
    if steps == [] then None else if steps[0].id == id then Some(steps[0]) else Lookup(steps[1..], id)
  }

  lemma {:induction false} LookupMeans(steps: seq<Step>, id: string)
    ensures HasStep(steps, id) <==> Lookup(steps, id).Some?
    ensures Lookup(steps, id).Some? ==> Lookup(steps, id).value in steps && Lookup(steps, id).value.id == id
    decreases |steps|
  {
    if steps != [] {
      assert steps == [steps[0]] + steps[1..];
      LookupMeans(steps[1..], id);
    }
  }

  lemma {:induction false} LookupDropped(steps: seq<Step>, j: string, id: string)
    ensures Lookup(DropStep(steps, j), id) == if id == j then None else Lookup(steps, id)
    decreases |steps|
  {
    if steps != [] {
      LookupDropped(steps[1..], j, id);
      var rest := DropStep(steps[1..], j);
      assert ([steps[0]] + rest)[1..] == rest && [] + rest == rest;
    }
  }

  lemma {:induction false} LookupReplaced(steps: seq<Step>, step: Step, id: string)
    ensures Lookup(ReplaceStep(steps, step), id) ==
            if id == step.id && Lookup(steps, id).Some? then Some(step) else Lookup(steps, id)
    decreases |steps|
  {
    if steps != [] {
      LookupReplaced(steps[1..], step, id);
    }
  }

  lemma {:induction false} LookupAppended(steps: seq<Step>, step: Step, id: string)
    ensures Lookup(steps + [step], id) ==
            if Lookup(steps, id).None? && step.id == id then Some(step) else Lookup(steps, id)
    decreases |steps|
  {
    if steps == [] {
      assert [] + [step] == [step] && [step][1..] == [];
    } else {
      assert (steps + [step])[1..] == steps[1..] + [step];
      LookupAppended(steps[1..], step, id);
    }
  }

  /** What the last step event about `id` says. */
  function LastStep(events: seq<Event>, id: string): Option<Step> {
    if events == [] then None
    else
      var e := events[|events|-1];
      if IsStepEvent(e, id) then e.step
      else LastStep(events[..|events|-1], id)
  }

  lemma {:induction false} FoldSnoc(s: Snapshot, events: seq<Event>)
    requires events != []
    ensures Fold(s, events) == Reduce(Fold(s, events[..|events|-1]), events[|events|-1])
    decreases |events|
  {
    if |events| > 1 {
      FoldSnoc(Reduce(s, events[0]), events[1..]);
      assert events[..|events|-1][1..] == events[1..][..|events|-2];
    }
  }

  predicate IsStepEvent(e: Event, id: string) {
    (e.event == TaskStepStarted || e.event == TaskStepFinished) && e.step.Some? && e.step.value.id == id
  }

  function StepsAfter(steps: seq<Step>, e: Event): seq<Step> {
    if e.step.None? then steps
    else if e.event == TaskStepStarted then DropStep(steps, e.step.value.id) + [e.step.value]
    else if e.event == TaskStepFinished then Finished(steps, e.step.value)
    else steps
  }

  lemma StartedSteps(steps: seq<Step>, step: Step)
    requires UniqueSteps(steps)
    ensures UniqueSteps(DropStep(steps, step.id) + [step])
  {
    DropStepMembers(steps, step.id);
    assert forall s <- DropStep(steps, step.id) :: s.id != step.id;
  }

  lemma FinishedSteps(steps: seq<Step>, step: Step)
    requires UniqueSteps(steps)
    ensures UniqueSteps(Finished(steps, step))
  {
    ReplaceStepMembers(steps, step);
  }

  lemma FinishedLookup(steps: seq<Step>, step: Step, id: string)
    ensures Lookup(Finished(steps, step), id) == if id == step.id then Some(step) else Lookup(steps, id)
  {
    LookupReplaced(steps, step, id);
    LookupMeans(steps, step.id);
    if HasStep(steps, step.id) {
      assert ReplaceStep(steps, step) + [] == ReplaceStep(steps, step);
    } else {
      LookupAppended(ReplaceStep(steps, step), step, id);
    }
  }

  lemma StartedLookup(steps: seq<Step>, step: Step, id: string)
    ensures Lookup(DropStep(steps, step.id) + [step], id) == if id == step.id then Some(step) else Lookup(steps, id)
  {
    LookupDropped(steps, step.id, id);
    LookupAppended(DropStep(steps, step.id), step, id);
  }

  lemma StepsAfterUnique(steps: seq<Step>, e: Event)
    requires UniqueSteps(steps)
    ensures UniqueSteps(StepsAfter(steps, e))
  {
    if e.step.Some? {
      StartedSteps(steps, e.step.value);
      FinishedSteps(steps, e.step.value);
    }
  }

  lemma StepsAfterLookup(steps: seq<Step>, e: Event, id: string)
    ensures Lookup(StepsAfter(steps, e), id) == if IsStepEvent(e, id) then e.step else Lookup(steps, id)
  {
    if e.step.Some? {
      StartedLookup(steps, e.step.value, id);
      FinishedLookup(steps, e.step.value, id);
    }
  }

  lemma ReduceSteps(s: Snapshot, e: Event, id: string)
    ensures UniqueSteps(s.steps) ==> UniqueSteps(Reduce(s, e).steps)
    ensures Lookup(Reduce(s, e).steps, id) == if IsStepEvent(e, id) then e.step else Lookup(s.steps, id)
  {
    assert Reduce(s, e).steps == StepsAfter(s.steps, e);
    if UniqueSteps(s.steps) {
      StepsAfterUnique(s.steps, e);
    }
    StepsAfterLookup(s.steps, e, id);
  }

  /**
   The snapshot has one step per id: what the last event about that id reported, or without one the
   step it had before, or none.
   */
  lemma {:induction false} StepsFollowEvents(s: Snapshot, events: seq<Event>, id: string)
    ensures UniqueSteps(s.steps) ==> UniqueSteps(Fold(s, events).steps)
    ensures Lookup(Fold(s, events).steps, id) == Or(LastStep(events, id), Lookup(s.steps, id))
    decreases |events|
  {
    if events != [] {
      var init := events[..|events|-1];
      FoldSnoc(s, events);
      StepsFollowEvents(s, init, id);
      ReduceSteps(Fold(s, init), events[|events|-1], id);
    }
  }

  // ---------------------------------------------------------------- from frames to snapshot

  function DeltaOf(f: Frame): string {
    if f.kind == MessageDelta then f.text else ""
  }

  /** The text streamed by the frames up to the one that ends the turn. */
  function TurnText(isTimeout: TimeoutTest, frames: seq<Frame>): string {
    if frames == [] then ""
    else DeltaOf(frames[0]) + if TurnEnd(isTimeout, frames[0]).Some? then "" else TurnText(isTimeout, frames[1..])
  }

  /** The state of the first frame that ends the turn. */
  function Outcome(isTimeout: TimeoutTest, frames: seq<Frame>): Option<TaskState> {
    if frames == [] then None
    else if TurnEnd(isTimeout, frames[0]).Some? then TurnEnd(isTimeout, frames[0])
    else Outcome(isTimeout, frames[1..])
  }

  /** What an event adds to the text buffer, and the status it leaves. */
  lemma ReduceEffect(s: Snapshot, e: Event)
    ensures Reduce(s, e).textBuffer == s.textBuffer + if e.event == TaskTextDelta then e.textDelta else ""
    ensures Reduce(s, e).status == if e.event == TaskCompleted then Succeeded else e.state
  {
    assert s.textBuffer + "" == s.textBuffer;
  }

  lemma TranslatedEffect(isTimeout: TimeoutTest, labels: Labels, f: Frame)
    ensures var e := Translate(isTimeout, labels, RunnerEvent(f), f.rawRef).1;
            && DeltaOf(f) == (if e.Some? && e.value.event == TaskTextDelta then e.value.textDelta else "")
            && (e.Some? ==>
                  && e.value.state == (if TurnEnd(isTimeout, f).Some? then TurnEnd(isTimeout, f).value else Running)
                  && (e.value.event == TaskCompleted ==> e.value.state == Succeeded))
  {
  }

  /** Folding a run goes frame by frame: the snapshot after the first one, and what it has gained. */
  lemma FirstFrame(isTimeout: TimeoutTest, labels: Labels, s: Snapshot, frames: seq<Frame>)
    returns (labels': Labels, s': Snapshot, made: bool)
    requires frames != []
    ensures Fold(s, Recorded(isTimeout, labels, frames)) ==
            if TurnEnd(isTimeout, frames[0]).Some? then s' else Fold(s', Recorded(isTimeout, labels', frames[1..]))
    ensures s'.textBuffer == s.textBuffer + DeltaOf(frames[0])
    ensures TurnEnd(isTimeout, frames[0]).Some? ==> made && s'.status == TurnEnd(isTimeout, frames[0]).value
    ensures TurnEnd(isTimeout, frames[0]).None? ==> s'.status == if made then Running else s.status
    ensures Recorded(isTimeout, labels, frames) == [] <==>
            !made && Recorded(isTimeout, labels', frames[1..]) == []
  {
    var f := frames[0];
    var e := Translate(isTimeout, labels, RunnerEvent(f), f.rawRef).1;
    labels' := Translate(isTimeout, labels, RunnerEvent(f), f.rawRef).0;
    made := e.Some?;
    s' := if e.Some? then Reduce(s, e.value) else s;
    RecordedUnfolds(isTimeout, labels, frames);
    TerminalIffTurnEnd(isTimeout, labels, f);
    TranslatedEffect(isTimeout, labels, f);
    var rest := if TurnEnd(isTimeout, f).Some? then [] else Recorded(isTimeout, labels', frames[1..]);
    if e.Some? {
      ReduceEffect(s, e.value);
      assert ([e.value] + rest)[1..] == rest;
    } else {
      assert s.textBuffer + "" == s.textBuffer;
    }
  }

  lemma Joined(x: string, y: string, z: string)
    ensures x + y + z == x + (y + z) && x + "" == x
  {
  }

  /** The text streamed in a turn is that of its first frame and of the rest. */
  lemma TurnTextUnfolds(isTimeout: TimeoutTest, x: string, frames: seq<Frame>)
    requires frames != []
    ensures x + TurnText(isTimeout, frames) ==
            if TurnEnd(isTimeout, frames[0]).Some? then x + DeltaOf(frames[0])
            else x + DeltaOf(frames[0]) + TurnText(isTimeout, frames[1..])
  {
    Joined(x, DeltaOf(frames[0]), TurnText(isTimeout, frames[1..]));
    Joined(DeltaOf(frames[0]), "", "");
  }

  /** Folding what a run records, the text buffer grows by exactly the streamed text of the turn. */
  lemma {:induction false} TextOfRun(isTimeout: TimeoutTest, labels: Labels, s: Snapshot, frames: seq<Frame>)
    ensures Fold(s, Recorded(isTimeout, labels, frames)).textBuffer == s.textBuffer + TurnText(isTimeout, frames)
    decreases |frames|
  {
    if |frames| == 0 {
      Joined(s.textBuffer, "", "");
    } else {
      var labels', s', made := FirstFrame(isTimeout, labels, s, frames);
      TurnTextUnfolds(isTimeout, s.textBuffer, frames);
      if TurnEnd(isTimeout, frames[0]).None? {
        TextOfRun(isTimeout, labels', s', frames[1..]);
      }
    }
  }

  /**
   And the status ends as the state of the first frame that ends the turn; while none has, it is
   `Running` as soon as anything is recorded.
   */
  lemma {:induction false} StatusOfRun(isTimeout: TimeoutTest, labels: Labels, s: Snapshot, frames: seq<Frame>)
    ensures Fold(s, Recorded(isTimeout, labels, frames)).status ==
            if Outcome(isTimeout, frames).Some? then Outcome(isTimeout, frames).value
            else if Recorded(isTimeout, labels, frames) == [] then s.status else Running
    decreases |frames|
  {
    if frames != [] {
      var labels', s', made := FirstFrame(isTimeout, labels, s, frames);
      if TurnEnd(isTimeout, frames[0]).None? {
        StatusOfRun(isTimeout, labels', s', frames[1..]);
      }
    }
  }

  // ---------------------------------------------------------------- from frames to steps

  /** The frames of the turn: up to and including the one that ends it. */
  function Turn(isTimeout: TimeoutTest, frames: seq<Frame>): seq<Frame> {
    if frames == [] then []
    else [frames[0]] + if TurnEnd(isTimeout, frames[0]).Some? then [] else Turn(isTimeout, frames[1..])
  }

  const TOOL_KINDS: set<FrameKind> := {ToolRequested, ToolCompleted, ToolFailed, ToolDenied}

  /** The id of the step that a tool frame is about. */
  function StepId(f: Frame): string {
    OrText(f.toolUseId, OrText(f.rawRef, "step"))
  }

  predicate About(f: Frame, id: string) {
    f.kind in TOOL_KINDS && StepId(f) == id
  }

  /** The frame announces the use of a tool under this id. */
  predicate Announces(f: Frame, toolUseId: string) {
    f.kind == ToolRequested && f.toolUseId == toolUseId && toolUseId != ""
  }

  function LabelsAfter(labels: Labels, frames: seq<Frame>): Labels
    decreases |frames|
  {
    if frames == [] then labels else LabelsAfter(NextLabels(labels, frames[0]), frames[1..])
  }

  function NextLabels(labels: Labels, f: Frame): Labels {
    if Announces(f, f.toolUseId) then labels[f.toolUseId := ToolLabel(f.name)] else labels
  }

  /** The step that a tool frame reports. */
  function StepOf(labels: Labels, f: Frame): Step {
    Step(StepId(f),
         if f.kind == ToolRequested then ToolLabel(f.name)
         else if f.kind == ToolCompleted then (if f.toolUseId in labels then labels[f.toolUseId] else "步骤已完成")
         else "步骤执行失败",
         if f.kind == ToolRequested then StepRunning else if f.kind == ToolCompleted then StepSucceeded else StepFailed)
  }

  lemma {:induction false} UnannouncedLabel(labels: Labels, frames: seq<Frame>, id: string)
    requires forall j | 0 <= j < |frames| :: !Announces(frames[j], id)
    ensures id in LabelsAfter(labels, frames) <==> id in labels
    ensures id in labels ==> LabelsAfter(labels, frames)[id] == labels[id]
    decreases |frames|
  {
    if frames != [] {
      assert forall j | 0 <= j < |frames[1..]| :: frames[1..][j] == frames[j+1];
      UnannouncedLabel(NextLabels(labels, frames[0]), frames[1..], id);
    }
  }

  lemma {:induction false} AnnouncedLabel(labels: Labels, frames: seq<Frame>, id: string, k: nat)
    requires k < |frames| && Announces(frames[k], id) && forall j | k < j < |frames| :: !Announces(frames[j], id)
    ensures id in LabelsAfter(labels, frames) && LabelsAfter(labels, frames)[id] == ToolLabel(frames[k].name)
    decreases |frames|
  {
    assert forall j | 0 <= j < |frames[1..]| :: frames[1..][j] == frames[j+1];
    if k == 0 {
      UnannouncedLabel(NextLabels(labels, frames[0]), frames[1..], id);
    } else {
      AnnouncedLabel(NextLabels(labels, frames[0]), frames[1..], id, k - 1);
    }
  }

  /**
   A completed tool carries the label of the last tool use announced under its id (the `k`-th frame), or
   the default label when none was (`k` negative).
   */
  lemma CompletedStepLabel(frames: seq<Frame>, f: Frame, k: int)
    requires f.kind == ToolCompleted && f.toolUseId != "" && k < |frames|
    requires k >= 0 ==> Announces(frames[k], f.toolUseId)
    requires forall j | 0 <= j < |frames| && k < j :: !Announces(frames[j], f.toolUseId)
    ensures StepOf(LabelsAfter(map[], frames), f).caption == if k >= 0 then ToolLabel(frames[k].name) else "步骤已完成"
  {
    if k >= 0 {
      AnnouncedLabel(map[], frames, f.toolUseId, k);
    } else {
      UnannouncedLabel(map[], frames, f.toolUseId);
    }
  }

  /** One frame: the labels it leaves, and the step event it makes, if it is about a tool. */
  lemma TranslatedStep(isTimeout: TimeoutTest, labels: Labels, f: Frame, id: string)
    ensures var (labels', e) := Translate(isTimeout, labels, RunnerEvent(f), f.rawRef);
            && labels' == NextLabels(labels, f)
            && (About(f, id) <==> e.Some? && IsStepEvent(e.value, id))
            && (About(f, id) ==> e.value.step == Some(StepOf(labels, f)))
  {
  }

  /** The step of `id` after some frames, `before` being the one it had. */
  function Track(labels: Labels, before: Option<Step>, frames: seq<Frame>, id: string): Option<Step>
    decreases |frames|
  {
    if frames == [] then before
    else Track(NextLabels(labels, frames[0]), if About(frames[0], id) then Some(StepOf(labels, frames[0])) else before,
               frames[1..], id)
  }

  lemma {:induction false} TrackedSteps(isTimeout: TimeoutTest, labels: Labels, s: Snapshot, frames: seq<Frame>, id: string)
    ensures var end := Fold(s, Recorded(isTimeout, labels, frames));
            && (UniqueSteps(s.steps) ==> UniqueSteps(end.steps))
            && Lookup(end.steps, id) == Track(labels, Lookup(s.steps, id), Turn(isTimeout, frames), id)
    decreases |frames|
  {
    if frames != [] {
      var f := frames[0];
      var e := Translate(isTimeout, labels, RunnerEvent(f), f.rawRef).1;
      var s' := if e.Some? then Reduce(s, e.value) else s;
      var rest := if TurnEnd(isTimeout, f).Some? then [] else Recorded(isTimeout, NextLabels(labels, f), frames[1..]);
      TranslatedStep(isTimeout, labels, f, id);
      RecordedUnfolds(isTimeout, labels, frames);
      if e.Some? {
        ReduceSteps(s, e.value, id);
        assert ([e.value] + rest)[1..] == rest;
      }
      assert Fold(s, Recorded(isTimeout, labels, frames)) == Fold(s', rest);
      TurnUnfolds(isTimeout, frames);
      if TurnEnd(isTimeout, f).None? {
        TrackedSteps(isTimeout, NextLabels(labels, f), s', frames[1..], id);
      }
    }
  }

  lemma TurnUnfolds(isTimeout: TimeoutTest, frames: seq<Frame>)
    requires frames != []
    ensures Turn(isTimeout, frames) != [] && Turn(isTimeout, frames)[0] == frames[0]
    ensures Turn(isTimeout, frames)[1..] == if TurnEnd(isTimeout, frames[0]).Some? then [] else Turn(isTimeout, frames[1..])
  {
  }

  lemma {:induction false} TrackMeans(labels: Labels, before: Option<Step>, frames: seq<Frame>, id: string, k: int)
    requires k < |frames| && (k >= 0 ==> About(frames[k], id))
    requires forall j | 0 <= j < |frames| && k < j :: !About(frames[j], id)
    ensures Track(labels, before, frames, id) ==
            if k >= 0 then Some(StepOf(LabelsAfter(labels, frames[..k]), frames[k])) else before
    decreases |frames|
  {
    if frames != [] {
      var next := if About(frames[0], id) then Some(StepOf(labels, frames[0])) else before;
      assert forall j | 0 <= j < |frames[1..]| :: frames[1..][j] == frames[j+1];
      TrackMeans(NextLabels(labels, frames[0]), next, frames[1..], id, if k > 0 then k - 1 else -1);
      if k > 0 {
        assert frames[..k][1..] == frames[1..][..k-1];
      }
    }
  }

  /**
   From frames to steps: the step of `id` in the snapshot is the one reported by the last tool frame of
   the turn about it (the `k`-th), with the labels announced before; without one (`k` negative) it is
   the step the snapshot had, if any.
   */
  lemma StepsOfRun(isTimeout: TimeoutTest, labels: Labels, s: Snapshot, frames: seq<Frame>, id: string, k: int)
    requires var turn := Turn(isTimeout, frames);
             && k < |turn| && (k >= 0 ==> About(turn[k], id))
             && forall j | 0 <= j < |turn| && k < j :: !About(turn[j], id)
    ensures var turn, end := Turn(isTimeout, frames), Fold(s, Recorded(isTimeout, labels, frames));
            && (UniqueSteps(s.steps) ==> UniqueSteps(end.steps))
            && Lookup(end.steps, id) ==
               if k >= 0 then Some(StepOf(LabelsAfter(labels, turn[..k]), turn[k])) else Lookup(s.steps, id)
  {
    TrackedSteps(isTimeout, labels, s, frames, id);
    TrackMeans(labels, Lookup(s.steps, id), Turn(isTimeout, frames), id, k);
  }

  // ---------------------------------------------------------------- from frames to texts

  /** The snapshot after the event of one frame, if it makes one. */
  function AfterFrame(isTimeout: TimeoutTest, labels: Labels, s: Snapshot, f: Frame): Snapshot {
    var e := Translate(isTimeout, labels, RunnerEvent(f), f.rawRef).1;
    if e.Some? then Reduce(s, e.value) else s
  }

  predicate IsMessage(f: Frame) {
    f.kind == MessageCompleted && f.text != ""
  }

  lemma HeaderOfEvent(s: Snapshot, e: Event)
    ensures Reduce(s, e).title == OrText(e.title, s.title)
    ensures Reduce(s, e).durationMs == Or(e.durationMs, s.durationMs)
  {
  }

  /** The title is the last one given. */
  lemma {:induction false} TitleOfRun(s: Snapshot, events: seq<Event>, k: nat)
    requires k <= |events| && forall j | k <= j < |events| :: events[j].title == ""
    requires k > 0 ==> events[k-1].title != ""
    ensures Fold(s, events).title == if k > 0 then events[k-1].title else s.title
    decreases |events|
  {
    if events != [] {
      var init := events[..|events|-1];
      FoldSnoc(s, events);
      HeaderOfEvent(Fold(s, init), events[|events|-1]);
      if k < |events| {
        TitleOfRun(s, init, k);
      }
    }
  }

  /** The duration is the last one reported. */
  lemma {:induction false} DurationOfRun(s: Snapshot, events: seq<Event>, k: nat)
    requires k <= |events| && forall j | k <= j < |events| :: events[j].durationMs == None
    requires k > 0 ==> events[k-1].durationMs.Some?
    ensures Fold(s, events).durationMs == if k > 0 then events[k-1].durationMs else s.durationMs
    decreases |events|
  {
    if events != [] {
      var init := events[..|events|-1];
      FoldSnoc(s, events);
      HeaderOfEvent(Fold(s, init), events[|events|-1]);
      if k < |events| {
        DurationOfRun(s, init, k);
      }
    }
  }

  /** Events of other sources: a queued task clears what was asked, a permission request and new artifacts replace it. */
  lemma OtherEvents(s: Snapshot, e: Event)
    requires e.title == "" && e.durationMs.None?
    ensures var end := Reduce(s, e);
            && (e.event == TaskQueued ==>
                  end == s.(status := e.state, progressText := end.progressText, actions := [], permission := None))
            && (e.event == TaskPermissionRequired ==>
                  end == s.(status := e.state, progressText := end.progressText, actions := e.actions, permission := e.permission))
            && (e.event == TaskArtifactUpdated ==>
                  end == s.(status := e.state, progressText := end.progressText, artifacts := e.artifacts))
            && (e.event == TaskRunnerStatus ==> end == s.(status := e.state))
            && (e.event in {TaskQueued, TaskPermissionRequired, TaskArtifactUpdated} && e.message != "" ==>
                  end.progressText == e.message)
  {
  }

  /** What a frame within the turn shows as progress. */
  function ProgressAfter(labels: Labels, before: string, f: Frame): string {
    match f.kind
    case TurnStarted => "任务开始执行"
    case MessageDelta => if f.text == "" then before else "正在整理结果"
    case MessageCompleted => if f.text == "" then before else if |f.text| <= 120 then f.text else f.text[..120]
    case ToolRequested => if StepOf(labels, f).caption == "" then before else StepOf(labels, f).caption
    case ToolCompleted => if StepOf(labels, f).caption == "" then before else StepOf(labels, f).caption
    case ToolFailed => if StepOf(labels, f).caption == "" then before else StepOf(labels, f).caption
    case ToolDenied => if StepOf(labels, f).caption == "" then before else StepOf(labels, f).caption
    case OtherKind(name) => if name == "init" then "任务开始执行" else before
    case _ => before
  }

  /** A frame within the turn: what it leaves of the texts, and that it changes nothing else. */
  lemma FrameWithinTurn(isTimeout: TimeoutTest, labels: Labels, s: Snapshot, f: Frame)
    requires TurnEnd(isTimeout, f).None?
    ensures var end := AfterFrame(isTimeout, labels, s, f);
            && end.finalText == (if IsMessage(f) then f.text else s.finalText)
            && end.error == s.error && end.title == s.title && end.artifacts == s.artifacts
            && end.durationMs == s.durationMs && end.actions == s.actions && end.permission == s.permission
            && end.progressText == ProgressAfter(labels, s.progressText, f)
  {
    if f.kind in TOOL_KINDS {
      ToolFrame(isTimeout, labels, s, f);
    }
  }

  /** A tool frame only changes the steps and shows their caption. */
  lemma ToolFrame(isTimeout: TimeoutTest, labels: Labels, s: Snapshot, f: Frame)
    requires f.kind in TOOL_KINDS
    ensures var end := AfterFrame(isTimeout, labels, s, f);
            && end == s.(status := Running, steps := end.steps, progressText := end.progressText)
            && end.progressText == OrText(StepOf(labels, f).caption, s.progressText)
  {
    var e := Translate(isTimeout, labels, RunnerEvent(f), f.rawRef).1;
    TranslatedStep(isTimeout, labels, f, StepId(f));
    assert e.value.step == Some(StepOf(labels, f));
  }

  /** The text a turn ends with: what the frame says, or the default for its kind. */
  function EndText(isTimeout: TimeoutTest, f: Frame): string {
    match f.kind
    case TurnCompleted => if f.text != "" then f.text else if f.message != "" then f.message else "任务完成"
    case TurnFailed =>
      if f.text != "" then f.text else if f.message != "" then f.message
      else if isTimeout("") then "任务超时" else "任务失败"
    case TurnCancelled => "任务已取消"
    case TurnTimeout => "任务超时"
    case _ => ""
  }

  /** The event of the frame that ends the turn: named by its outcome, its message the text of the end. */
  lemma EndEvent(isTimeout: TimeoutTest, labels: Labels, f: Frame)
    requires TurnEnd(isTimeout, f).Some?
    ensures var e := Translate(isTimeout, labels, RunnerEvent(f), f.rawRef).1;
            && e.Some? && e.value.message == EndText(isTimeout, f) && e.value.message != ""
            && e.value == Plain(e.value.event, e.value.state, e.value.message)
            && e.value.event == (if f.kind == TurnCompleted then TaskCompleted
                                 else if f.kind == TurnCancelled then TaskCancelled
                                 else if TurnEnd(isTimeout, f).value == Timeout then TaskTimeout else TaskFailed)
  {
  }

  lemma CompletingEvent(s: Snapshot, state: TaskState, text: string)
    requires text != ""
    ensures var end := Reduce(s, Plain(TaskCompleted, state, text));
            end == s.(status := Succeeded, finalText := text, progressText := "任务完成", actions := [], permission := None)
  {
  }

  lemma FailingEvent(s: Snapshot, name: EventName, state: TaskState, text: string)
    requires text != "" && name in {TaskFailed, TaskTimeout, TaskCancelled}
    ensures var end := Reduce(s, Plain(name, state, text));
            end == s.(status := state, progressText := text, error := text, actions := [])
  {
  }

  /** The frame that ends the turn: completed, it sets the final text; otherwise the error. */
  lemma FrameEndsTurn(isTimeout: TimeoutTest, labels: Labels, s: Snapshot, f: Frame)
    requires TurnEnd(isTimeout, f).Some?
    ensures var end := AfterFrame(isTimeout, labels, s, f);
            var text := EndText(isTimeout, f);
            if f.kind == TurnCompleted then
              end == s.(status := Succeeded, finalText := text, progressText := "任务完成", actions := [], permission := None)
            else
              end == s.(status := TurnEnd(isTimeout, f).value, progressText := text, error := text, actions := [])
  {
    var e := Translate(isTimeout, labels, RunnerEvent(f), f.rawRef).1;
    EndEvent(isTimeout, labels, f);
    TerminalIffTurnEnd(isTimeout, labels, f);
    if f.kind == TurnCompleted {
      CompletingEvent(s, e.value.state, e.value.message);
    } else {
      FailingEvent(s, e.value.event, e.value.state, e.value.message);
    }
  }

  /** Folding a run: the first frame, and then the rest of the turn. */
  lemma FoldUnfolds(isTimeout: TimeoutTest, labels: Labels, s: Snapshot, frames: seq<Frame>)
    requires frames != []
    ensures Fold(s, Recorded(isTimeout, labels, frames)) ==
            if TurnEnd(isTimeout, frames[0]).Some? then AfterFrame(isTimeout, labels, s, frames[0])
            else Fold(AfterFrame(isTimeout, labels, s, frames[0]), Recorded(isTimeout, NextLabels(labels, frames[0]), frames[1..]))
  {
    var f := frames[0];
    var e := Translate(isTimeout, labels, RunnerEvent(f), f.rawRef).1;
    var rest := if TurnEnd(isTimeout, f).Some? then [] else Recorded(isTimeout, NextLabels(labels, f), frames[1..]);
    TranslatedStep(isTimeout, labels, f, "");
    RecordedUnfolds(isTimeout, labels, frames);
    if e.Some? {
      assert ([e.value] + rest)[1..] == rest;
    }
  }

  /** The last message of the turn (its `k`-th frame), or the text there was before (`k` negative). */
  predicate IsLastMessage(turn: seq<Frame>, k: int) {
    k < |turn| && (k >= 0 ==> IsMessage(turn[k])) && forall j | 0 <= j < |turn| && k < j :: !IsMessage(turn[j])
  }

  /**
   The final text of a run is that of the frame that completes it, defaults included, whatever messages
   came before; of a run that is not completed it is the last message.  An error is only left by a turn
   that ends otherwise.
   */
  lemma {:induction false} TextsOfRun(isTimeout: TimeoutTest, labels: Labels, s: Snapshot, frames: seq<Frame>, k: int)
    requires IsLastMessage(Turn(isTimeout, frames), k)
    ensures var turn, end := Turn(isTimeout, frames), Fold(s, Recorded(isTimeout, labels, frames));
            var ended := turn != [] && TurnEnd(isTimeout, turn[|turn|-1]).Some?;
            var completed := ended && turn[|turn|-1].kind == TurnCompleted;
            && (ended <==> Outcome(isTimeout, frames).Some?)
            && end.finalText == (if completed then EndText(isTimeout, turn[|turn|-1])
                                 else if k >= 0 then turn[k].text else s.finalText)
            && end.error == (if ended && !completed then EndText(isTimeout, turn[|turn|-1]) else s.error)
            && (completed ==> end.progressText == "任务完成" && end.actions == [] && end.permission == None)
            && (ended && !completed ==> end.progressText == end.error && end.actions == [])
    decreases |frames|
  {
    if frames != [] {
      var f := frames[0];
      var turn := Turn(isTimeout, frames);
      TurnUnfolds(isTimeout, frames);
      FoldUnfolds(isTimeout, labels, s, frames);
      if TurnEnd(isTimeout, f).Some? {
        FrameEndsTurn(isTimeout, labels, s, f);
        assert |turn| == 1;
      } else {
        FrameWithinTurn(isTimeout, labels, s, f);
        assert forall j | 0 <= j < |turn[1..]| :: turn[1..][j] == turn[j+1];
        TextsOfRun(isTimeout, NextLabels(labels, f), AfterFrame(isTimeout, labels, s, f), frames[1..],
                   if k > 0 then k - 1 else -1);
        assert turn[1..] != [] ==> turn[|turn|-1] == turn[1..][|turn[1..]|-1];
      }
    }
  }
}
