/**
 The server-sent event readers of desktop/src/api.ts (`ragAsk` and `chatAsk`): decoded chunks are
 buffered, cut at blank lines into blocks, and folded into an answer.  JSON decoding is the
 parameter `parse`; a payload is reduced to the fields the readers look at.
 */
module SseStream {
  import opened Prelude
  import opened Strings

  type Citation = string

  datatype Meta = Meta(citations: Option<seq<Citation>>, chosenSource: Option<string>)

  /** A decoded payload; each field is present when it has the type the reader tests for. */
  datatype Payload =
    | NullPayload
    | Payload(kind: Option<string>, error: Option<string>, delta: Option<string>,
              answer: Option<string>, sources: Option<seq<Citation>>, meta: Option<Meta>,
              traceSource: Option<string>)

  type Parser = string -> Option<Payload>

  datatype Reader = Rag | Chat

  datatype Error = Malformed | NullDereference | ServerError | Truncated | Unfinished | EmptyAnswer

  /** What a reader has accumulated; `memory` are the frames handed to `onMemoryFrame`. */
  datatype Stream = Stream(
    answer: string,
    citations: seq<Citation>,
    arbitration: string,
    completed: bool,
    memory: seq<Payload>)

  const EMPTY := Stream("", [], "rag", false, [])

  // ---------------------------------------------------------------- text

  function Concat(chunks: seq<string>): string {
    if chunks == [] then "" else chunks[0] + Concat(chunks[1..])
  }

  lemma {:induction false} ConcatSnoc(chunks: seq<string>, k: nat)
    requires k < |chunks|
    ensures Concat(chunks[..k+1]) == Concat(chunks[..k]) + chunks[k]
    decreases k
  {
    if k > 0 {
      ConcatSnoc(chunks[1..], k - 1);
      assert chunks[..k+1][1..] == chunks[1..][..k] && chunks[..k][1..] == chunks[1..][..k-1];
    }
  }

  /** The rest of the first line that starts with `prefix`. */
  function Field(lines: seq<string>, prefix: string): Option<string> {
    if lines == [] then None
    else if prefix <= lines[0] then Some(lines[0][|prefix|..])
    else Field(lines[1..], prefix)
  }

  // ---------------------------------------------------------------- blocks

  predicate BreakAt(s: string, i: int) {
    0 <= i < |s| - 1 && s[i] == '\n' && s[i+1] == '\n'
  }

  /** The position of the first blank line, `buf.indexOf("\n\n")`. */
  function IndexOfBreak(s: string): (i: int)
    ensures i >= 0 ==> BreakAt(s, i)
    ensures forall k | 0 <= k && (i < 0 || k < i) :: !BreakAt(s, k)
    ensures -1 <= i
  {
    if |s| < 2 then -1
    else if s[0] == '\n' && s[1] == '\n' then 0
    else
      var r := IndexOfBreak(s[1..]);
      assert forall k | 1 <= k :: BreakAt(s, k) <==> BreakAt(s[1..], k - 1);
      if r < 0 then -1 else r + 1
  }

  /** The complete blocks of a text and the unfinished rest. */
  function Blocks(text: string): (seq<string>, string) {
    var i := IndexOfBreak(text);
    if i < 0 then ([], text)
    else
      var (blocks, rest) := Blocks(text[i+2..]);
      ([text[..i]] + blocks, rest)
  }

  /** `blocks` and `rest` cut `text` at each leftmost blank line. */
  ghost predicate Cuts(text: string, blocks: seq<string>, rest: string) {
    if blocks == [] then text == rest && forall i :: !BreakAt(text, i)
    else
      var n := |blocks[0]|;
      && n + 2 <= |text| && text[..n] == blocks[0] && BreakAt(text, n)
      && (forall i | i < n :: !BreakAt(text, i))
      && Cuts(text[n+2..], blocks[1..], rest)
  }

  /** Splitting is the one way to cut a text at its leftmost blank lines. */
  lemma {:induction false} BlocksAreTheCut(text: string, blocks: seq<string>, rest: string)
    ensures Cuts(text, blocks, rest) <==> Blocks(text) == (blocks, rest)
    decreases |text|
  {
    var i := IndexOfBreak(text);
    if i >= 0 {
      if blocks != [] && |blocks[0]| == i && blocks[0] == text[..i] {
        BlocksAreTheCut(text[i+2..], blocks[1..], rest);
        assert blocks == [blocks[0]] + blocks[1..];
      }
    }
  }

  lemma BreakStays(a: string, b: string)
    requires IndexOfBreak(a) >= 0
    ensures IndexOfBreak(a + b) == IndexOfBreak(a)
  {
    var i := IndexOfBreak(a);
    assert forall k | k <= i :: BreakAt(a + b, k) <==> BreakAt(a, k);
  }

  /** A text may be split up to any point first, and on from its rest later. */
  lemma {:induction false} BlocksAppend(a: string, b: string)
    ensures var (blocks, rest) := Blocks(a);
            Blocks(a + b) == (blocks + Blocks(rest + b).0, Blocks(rest + b).1)
    decreases |a|
  {
    var i := IndexOfBreak(a);
    if i >= 0 {
      BreakStays(a, b);
      assert (a + b)[..i] == a[..i] && (a + b)[i+2..] == a[i+2..] + b;
      BlocksAppend(a[i+2..], b);
      var (later, rest) := Blocks(a[i+2..]);
      assert ([a[..i]] + later) + Blocks(rest + b).0 == [a[..i]] + (later + Blocks(rest + b).0);
    } else {
      assert [] + Blocks(a + b).0 == Blocks(a + b).0;
    }
  }

  // ---------------------------------------------------------------- frames

  const MEMORY_KINDS: set<string> := {"memory.status", "memory.sources"}

  predicate IsMemoryFrame(eventType: Option<string>, p: Payload) {
    p.Payload? && eventType.Some? && eventType.value in MEMORY_KINDS && p.kind.Some? && p.kind.value in MEMORY_KINDS
  }

  /** The `done` frame of `ragAsk`. */
  function Finished(s: Stream, p: Payload): Stream
    requires p.Payload?
  {
    var metaCitations := if p.meta.Some? then p.meta.value.citations else None;
    var metaSource := if p.meta.Some? then p.meta.value.chosenSource else None;
    Stream(OrElse(p.answer, s.answer), OrElse(Or(p.sources, metaCitations), s.citations),
           OrElse(Or(p.traceSource, metaSource), s.arbitration), true, s.memory)
  }

  function RagFrame(s: Stream, eventType: Option<string>, p: Payload): Result<Stream, Error> {
    if p.NullPayload? then Err(NullDereference)
    else
      var frameType := Or(p.kind, eventType);
      if frameType == Some("error") || p.error.Some? then Err(ServerError)
      else if IsMemoryFrame(eventType, p) then Ok(s.(memory := s.memory + [p]))
      else if frameType == Some("done") then Ok(Finished(s, p))
      else if p.delta.Some? then Ok(s.(answer := s.answer + p.delta.value))
      else if p.meta.Some? then
        Ok(s.(citations := OrElse(p.meta.value.citations, s.citations),
              arbitration := OrElse(p.meta.value.chosenSource, s.arbitration)))
      else Ok(s)
  }

  function ChatFrame(s: Stream, eventType: Option<string>, p: Payload): Result<Stream, Error> {
    if eventType == Some("error") then Err(ServerError)
    else if p.NullPayload? then Err(NullDereference)
    else if p.error.Some? then Err(ServerError)
    else if IsMemoryFrame(eventType, p) then Ok(s.(memory := s.memory + [p]))
    else if p.delta.Some? then Ok(s.(answer := s.answer + p.delta.value))
    else Ok(s)
  }

  function EventType(block: string): Option<string> {
    match Field(Split(block, '\n'), "event: ")
    case None => None
    case Some(e) => Some(Trim(e))
  }

  function DataOf(block: string): Option<string> {
    Field(Split(block, '\n'), "data: ")
  }

  /** One block: ignored without a data line, `[DONE]` completes, anything else must decode. */
  function Block(reader: Reader, parse: Parser, s: Stream, block: string): Result<Stream, Error> {
    match DataOf(block)
    case None => Ok(s)
    case Some(data) =>
      if data == "[DONE]" then Ok(s.(completed := true))
      else match parse(data)
        case None => Err(Malformed)
        case Some(p) =>
          match reader
          case Rag => RagFrame(s, EventType(block), p)
          case Chat => ChatFrame(s, EventType(block), p)
  }

  /** A reader part way: still going, or stopped by an error after some memory frames. */
  datatype Progress = Going(s: Stream) | Stopped(memory: seq<Payload>, error: Error)

  function Fold(reader: Reader, parse: Parser, p: Progress, blocks: seq<string>): Progress
    decreases |blocks|
  {
    if p.Stopped? || blocks == [] then p
    else Fold(reader, parse, OneBlock(reader, parse, p.s, blocks[0]), blocks[1..])
  }

  function OneBlock(reader: Reader, parse: Parser, s: Stream, block: string): Progress {
    match Block(reader, parse, s, block)
    case Ok(s') => Going(s')
    case Err(e) => Stopped(s.memory, e)
  }

  lemma {:induction false} FoldAppend(reader: Reader, parse: Parser, p: Progress, xs: seq<string>, ys: seq<string>)
    ensures Fold(reader, parse, p, xs + ys) == Fold(reader, parse, Fold(reader, parse, p, xs), ys)
    decreases |xs|
  {
    if xs == [] {
      assert xs + ys == ys;
    } else if p.Going? {
      assert (xs + ys)[1..] == xs[1..] + ys;
      FoldAppend(reader, parse, OneBlock(reader, parse, p.s, xs[0]), xs[1..], ys);
    }
  }

  // ---------------------------------------------------------------- the whole reply

  /** The checks after the last chunk, `rest` being the buffer with the decoder flushed. */
  function Conclude(s: Stream, rest: string): Result<Stream, Error> {
    if !IsBlank(rest) then Err(Truncated)
    else if !s.completed then Err(Unfinished)
    else if IsBlank(s.answer) then Err(EmptyAnswer)
    else Ok(s)
  }

  /** The outcome of the uncut text: the memory frames delivered, and the final state or error. */
  function Outcome(reader: Reader, parse: Parser, text: string, flush: string)
    : (seq<Payload>, Result<Stream, Error>)
  {
    var (blocks, rest) := Blocks(text);
    match Fold(reader, parse, Going(EMPTY), blocks)
    case Stopped(memory, e) => (memory, Err(e))
    case Going(s) => (s.memory, Conclude(s, rest + flush))
  }

  /** The inner loop: takes complete blocks off the buffer until none is left or one is rejected. */
  method ConsumeBlocks(reader: Reader, parse: Parser, start: Stream, buffer: string)
    returns (p: Progress, rest: string)
    ensures p == Fold(reader, parse, Going(start), Blocks(buffer).0)
    ensures p.Going? ==> rest == Blocks(buffer).1 && IndexOfBreak(rest) < 0
  {
    var s := start;
    rest := buffer;
    var nl := IndexOfBreak(rest);
    while nl >= 0
      invariant nl == IndexOfBreak(rest)
      invariant Blocks(rest).1 == Blocks(buffer).1
      invariant Fold(reader, parse, Going(s), Blocks(rest).0) == Fold(reader, parse, Going(start), Blocks(buffer).0)
      decreases |rest|
    {
      var block := rest[..nl];
      assert Blocks(rest).0[0] == block && Blocks(rest).0[1..] == Blocks(rest[nl+2..]).0;
      var next := Block(reader, parse, s, block);
      if next.Err? {
        return Stopped(s.memory, next.error), rest;
      }
      s := next.value;
      rest := rest[nl+2..];
      nl := IndexOfBreak(rest);
    }
    p := Going(s);
  }

  /**
   The read loop of both readers.  Its outcome is that of the concatenated text, so it does not
   depend on where the chunks were cut.
   */
  method Ask(reader: Reader, parse: Parser, chunks: seq<string>, flush: string)
    returns (memory: seq<Payload>, r: Result<Stream, Error>)
    ensures (memory, r) == Outcome(reader, parse, Concat(chunks), flush)
  {
    var buf := "";
    var s := EMPTY;
    var k := 0;
    assert chunks[..0] == [] && IndexOfBreak("") == -1;
    while k < |chunks|
      invariant k <= |chunks| && IndexOfBreak(buf) < 0
      invariant Blocks(Concat(chunks[..k])).1 == buf
      invariant Fold(reader, parse, Going(EMPTY), Blocks(Concat(chunks[..k])).0) == Going(s)
    {
      ghost var seen := Concat(chunks[..k]);
      buf := buf + chunks[k];
      ConcatSnoc(chunks, k);
      BlocksAppend(seen, chunks[k]);
      FoldAppend(reader, parse, Going(EMPTY), Blocks(seen).0, Blocks(buf).0);
      var next, rest := ConsumeBlocks(reader, parse, s, buf);
      if next.Stopped? {
        EarlyStop(reader, parse, chunks, k + 1, flush, next.memory, next.error);
        return next.memory, Err(next.error);
      }
      s, buf := next.s, rest;
      k := k + 1;
    }
    assert chunks[..k] == chunks;
    memory := s.memory;
    if !IsBlank(buf + flush) {
      return memory, Err(Truncated);
    }
    if !s.completed {
      return memory, Err(Unfinished);
    }
    if IsBlank(s.answer) {
      return memory, Err(EmptyAnswer);
    }
    return memory, Ok(s);
  }

  /** An error in the first chunks is the outcome whatever chunks were still to come. */
  lemma EarlyStop(reader: Reader, parse: Parser, chunks: seq<string>, k: nat, flush: string, memory: seq<Payload>, e: Error)
    requires k <= |chunks|
    requires Fold(reader, parse, Going(EMPTY), Blocks(Concat(chunks[..k])).0) == Stopped(memory, e)
    ensures Outcome(reader, parse, Concat(chunks), flush) == (memory, Err(e))
    decreases |chunks| - k
  {
    if k == |chunks| {
      assert chunks[..k] == chunks;
    } else {
      ConcatSnoc(chunks, k);
      var seen := Concat(chunks[..k]);
      BlocksAppend(seen, chunks[k]);
      FoldAppend(reader, parse, Going(EMPTY), Blocks(seen).0, Blocks(Blocks(seen).1 + chunks[k]).0);
      EarlyStop(reader, parse, chunks, k + 1, flush, memory, e);
    }
  }

  // ---------------------------------------------------------------- terminal discipline

  /** A block after which a reader takes the answer for complete. */
  predicate Terminal(reader: Reader, parse: Parser, block: string) {
    var data := DataOf(block);
    && data.Some?
    && (|| data.value == "[DONE]"
        || (&& reader == Rag && parse(data.value).Some? && parse(data.value).value.Payload?
            && Or(parse(data.value).value.kind, EventType(block)) == Some("done")
            && !IsMemoryFrame(EventType(block), parse(data.value).value)))
  }

  /** A block that makes a reader reject the whole reply. */
  predicate Rejected(reader: Reader, parse: Parser, block: string) {
    var data := DataOf(block);
    && data.Some? && data.value != "[DONE]"
    && match parse(data.value)
       case None => true
       case Some(p) =>
         || p.NullPayload? || p.error.Some?
         || (if reader == Rag then Or(p.kind, EventType(block)) else EventType(block)) == Some("error")
  }

  lemma {:induction false} FoldDiscipline(reader: Reader, parse: Parser, s: Stream, blocks: seq<string>)
    ensures Fold(reader, parse, Going(s), blocks).Going? <==>
            forall k | 0 <= k < |blocks| :: !Rejected(reader, parse, blocks[k])
    ensures var p := Fold(reader, parse, Going(s), blocks);
            p.Going? ==>
              (p.s.completed <==>
               s.completed || exists k | 0 <= k < |blocks| :: Terminal(reader, parse, blocks[k]))
    decreases |blocks|
  {
    if blocks != [] {
      var b := blocks[0];
      assert Block(reader, parse, s, b).Ok? <==> !Rejected(reader, parse, b);
      assert forall k | 0 <= k < |blocks[1..]| :: blocks[1..][k] == blocks[k+1];
      if Block(reader, parse, s, b).Ok? {
        var s' := Block(reader, parse, s, b).value;
        assert s'.completed <==> s.completed || Terminal(reader, parse, b);
        FoldDiscipline(reader, parse, s', blocks[1..]);
        assert forall k | 1 <= k < |blocks| :: blocks[k] == blocks[1..][k-1];
      } else {
        assert Rejected(reader, parse, blocks[0]);
      }
    }
  }

  /**
   A reply succeeds exactly when no block is rejected, some block is terminal, nothing but white
   space follows the last blank line, and the answer is not blank.
   */
  lemma SuccessNeedsTerminalFrame(reader: Reader, parse: Parser, text: string, flush: string)
    ensures var (blocks, rest) := Blocks(text);
            Outcome(reader, parse, text, flush).1.Ok? <==>
              && (forall k | 0 <= k < |blocks| :: !Rejected(reader, parse, blocks[k]))
              && (exists k | 0 <= k < |blocks| :: Terminal(reader, parse, blocks[k]))
              && IsBlank(rest + flush)
              && match Fold(reader, parse, Going(EMPTY), blocks)
                 case Going(s) => !IsBlank(s.answer)
                 case Stopped(_, _) => false
  {
    FoldDiscipline(reader, parse, EMPTY, Blocks(text).0);
  }

  /** The deltas of the blocks that `chatAsk` takes as text. */
  function Deltas(parse: Parser, blocks: seq<string>): string {
    if blocks == [] then ""
    else
      var b := blocks[0];
      var p := if DataOf(b).None? || DataOf(b).value == "[DONE]" then None else parse(DataOf(b).value);
      (if p.Some? && p.value.Payload? && !IsMemoryFrame(EventType(b), p.value) then OrElse(p.value.delta, "") else "")
      + Deltas(parse, blocks[1..])
  }

  /** An accepted chat answer is the concatenation of the deltas, in order, none lost or repeated. */
  lemma {:induction false} ChatAnswerIsDeltas(parse: Parser, s: Stream, blocks: seq<string>)
    requires Fold(Chat, parse, Going(s), blocks).Going?
    ensures Fold(Chat, parse, Going(s), blocks).s.answer == s.answer + Deltas(parse, blocks)
    decreases |blocks|
  {
    if blocks != [] {
      ChatAnswerIsDeltas(parse, Block(Chat, parse, s, blocks[0]).value, blocks[1..]);
    }
  }

  /** The payload that `ragAsk` takes answer, citations and source from. */
  function RagPayload(parse: Parser, block: string): Option<Payload> {
    var data := DataOf(block);
    if data.None? || data.value == "[DONE]" then None
    else
      var p := parse(data.value);
      if p.None? || p.value.NullPayload? || IsMemoryFrame(EventType(block), p.value) then None else p
  }

  predicate IsDone(parse: Parser, block: string) {
    RagPayload(parse, block).Some? && Or(RagPayload(parse, block).value.kind, EventType(block)) == Some("done")
  }

  /** The answer a `done` frame fixes, whatever was streamed before. */
  function FixedAnswer(parse: Parser, block: string): Option<string> {
    if IsDone(parse, block) then RagPayload(parse, block).value.answer else None
  }

  /** The text any other frame adds. */
  function RagDelta(parse: Parser, block: string): string {
    if RagPayload(parse, block).Some? && !IsDone(parse, block) then OrElse(RagPayload(parse, block).value.delta, "") else ""
  }

  /** The citations a frame fixes: a `done` frame by its sources or metadata, others by metadata alone. */
  function FixedCitations(parse: Parser, block: string): Option<seq<Citation>> {
    if RagPayload(parse, block).None? then None
    else
      var p := RagPayload(parse, block).value;
      var listed := if p.meta.Some? then p.meta.value.citations else None;
      if IsDone(parse, block) then Or(p.sources, listed) else if p.delta.Some? then None else listed
  }

  /** The source a frame names: a `done` frame by its trace or metadata, others by metadata alone. */
  function FixedSource(parse: Parser, block: string): Option<string> {
    if RagPayload(parse, block).None? then None
    else
      var p := RagPayload(parse, block).value;
      var named := if p.meta.Some? then p.meta.value.chosenSource else None;
      if IsDone(parse, block) then Or(p.traceSource, named) else if p.delta.Some? then None else named
  }

  lemma RagBlock(parse: Parser, s: Stream, block: string)
    requires Block(Rag, parse, s, block).Ok?
    ensures var s' := Block(Rag, parse, s, block).value;
            && s'.answer == (if FixedAnswer(parse, block).Some? then FixedAnswer(parse, block).value
                             else s.answer + RagDelta(parse, block))
            && s'.citations == OrElse(FixedCitations(parse, block), s.citations)
            && s'.arbitration == OrElse(FixedSource(parse, block), s.arbitration)
  {
    assert s.answer + "" == s.answer;
  }

  function RagDeltas(parse: Parser, blocks: seq<string>): string {
    if blocks == [] then "" else RagDelta(parse, blocks[0]) + RagDeltas(parse, blocks[1..])
  }

  lemma Associate(x: string, y: string, z: string)
    ensures x + y + z == x + (y + z)
  {
  }

  /** Without a `done` frame that fixes it, the answer is the streamed text. */
  lemma {:induction false} RagAnswerStreamed(parse: Parser, s: Stream, blocks: seq<string>)
    requires Fold(Rag, parse, Going(s), blocks).Going?
    requires forall j | 0 <= j < |blocks| :: FixedAnswer(parse, blocks[j]).None?
    ensures Fold(Rag, parse, Going(s), blocks).s.answer == s.answer + RagDeltas(parse, blocks)
    decreases |blocks|
  {
    if |blocks| == 0 {
      assert s.answer + "" == s.answer;
    } else {
      RagBlock(parse, s, blocks[0]);
      assert forall j | 0 <= j < |blocks[1..]| :: blocks[1..][j] == blocks[j+1];
      RagAnswerStreamed(parse, Block(Rag, parse, s, blocks[0]).value, blocks[1..]);
      Associate(s.answer, RagDelta(parse, blocks[0]), RagDeltas(parse, blocks[1..]));
    }
  }

  /**
   The answer of a reply: that of the last `done` frame with one (the block before `k`), or the initial
   one if there is none (`k` zero), followed by the deltas after it.
   */
  lemma {:induction false} RagAnswer(parse: Parser, s: Stream, blocks: seq<string>, k: nat)
    requires Fold(Rag, parse, Going(s), blocks).Going? && k <= |blocks|
    requires k > 0 ==> FixedAnswer(parse, blocks[k-1]).Some?
    requires forall j | k <= j < |blocks| :: FixedAnswer(parse, blocks[j]).None?
    ensures Fold(Rag, parse, Going(s), blocks).s.answer ==
            (if k > 0 then FixedAnswer(parse, blocks[k-1]).value else s.answer) + RagDeltas(parse, blocks[k..])
    decreases |blocks|
  {
    if k == 0 {
      assert blocks[0..] == blocks;
      RagAnswerStreamed(parse, s, blocks);
    } else {
      var next, rest := Block(Rag, parse, s, blocks[0]).value, blocks[1..];
      assert forall j | 0 <= j < |rest| :: rest[j] == blocks[j+1];
      assert blocks[k..] == rest[k-1..];
      if k == 1 {
        RagBlock(parse, s, blocks[0]);
        assert rest[0..] == rest;
        RagAnswerStreamed(parse, next, rest);
      } else {
        RagAnswer(parse, next, rest, k - 1);
      }
    }
  }

  /** The citations of a reply are those the last frame with any fixes, or the initial ones. */
  lemma {:induction false} RagCitations(parse: Parser, s: Stream, blocks: seq<string>, k: nat)
    requires Fold(Rag, parse, Going(s), blocks).Going? && k <= |blocks|
    requires k > 0 ==> FixedCitations(parse, blocks[k-1]).Some?
    requires forall j | k <= j < |blocks| :: FixedCitations(parse, blocks[j]).None?
    ensures Fold(Rag, parse, Going(s), blocks).s.citations ==
            if k > 0 then FixedCitations(parse, blocks[k-1]).value else s.citations
    decreases |blocks|
  {
    if blocks != [] {
      RagBlock(parse, s, blocks[0]);
      assert forall j | 0 <= j < |blocks[1..]| :: blocks[1..][j] == blocks[j+1];
      RagCitations(parse, Block(Rag, parse, s, blocks[0]).value, blocks[1..], if k > 0 then k - 1 else 0);
    }
  }

  /** And its source is the one named last, or "rag" at the start. */
  lemma {:induction false} RagSource(parse: Parser, s: Stream, blocks: seq<string>, k: nat)
    requires Fold(Rag, parse, Going(s), blocks).Going? && k <= |blocks|
    requires k > 0 ==> FixedSource(parse, blocks[k-1]).Some?
    requires forall j | k <= j < |blocks| :: FixedSource(parse, blocks[j]).None?
    ensures Fold(Rag, parse, Going(s), blocks).s.arbitration ==
            if k > 0 then FixedSource(parse, blocks[k-1]).value else s.arbitration
    decreases |blocks|
  {
    if blocks != [] {
      RagBlock(parse, s, blocks[0]);
      assert forall j | 0 <= j < |blocks[1..]| :: blocks[1..][j] == blocks[j+1];
      RagSource(parse, Block(Rag, parse, s, blocks[0]).value, blocks[1..], if k > 0 then k - 1 else 0);
    }
  }

  // ---------------------------------------------------------------- memory frames and errors

  predicate IsMemoryKind(kind: Option<string>) {
    kind == Some("memory.status") || kind == Some("memory.sources")
  }

  /** The payload of a memory block: an event and a payload type of that kind. */
  function MemoryPayload(parse: Parser, block: string): Option<Payload> {
    match DataOf(block)
    case None => None
    case Some(data) =>
      if data != "[DONE]" && parse(data).Some? && parse(data).value.Payload?
         && IsMemoryKind(EventType(block)) && IsMemoryKind(parse(data).value.kind)
      then parse(data) else None
  }

  /** The payloads of the memory blocks, in order. */
  function MemoryPayloads(parse: Parser, blocks: seq<string>): seq<Payload> {
    if blocks == [] then []
    else (if MemoryPayload(parse, blocks[0]).Some? then [MemoryPayload(parse, blocks[0]).value] else [])
         + MemoryPayloads(parse, blocks[1..])
  }

  /** The blocks before the first rejected one. */
  function BeforeRejected(reader: Reader, parse: Parser, blocks: seq<string>): seq<string> {
    if blocks == [] || Rejected(reader, parse, blocks[0]) then []
    else [blocks[0]] + BeforeRejected(reader, parse, blocks[1..])
  }

  lemma BlockMemory(reader: Reader, parse: Parser, s: Stream, block: string)
    ensures Block(reader, parse, s, block).Err? <==> Rejected(reader, parse, block)
    ensures Block(reader, parse, s, block).Ok? ==>
              Block(reader, parse, s, block).value.memory ==
              s.memory + if MemoryPayload(parse, block).Some? then [MemoryPayload(parse, block).value] else []
  {
    assert s.memory + [] == s.memory;
  }

  function MemoryOf(p: Progress): seq<Payload> {
    match p
    case Going(s) => s.memory
    case Stopped(memory, _) => memory
  }

  lemma {:induction false} MemoryOfFold(reader: Reader, parse: Parser, s: Stream, blocks: seq<string>)
    ensures MemoryOf(Fold(reader, parse, Going(s), blocks)) ==
            s.memory + MemoryPayloads(parse, BeforeRejected(reader, parse, blocks))
    decreases |blocks|
  {
    if blocks == [] {
      assert s.memory + [] == s.memory;
    } else {
      BlockMemory(reader, parse, s, blocks[0]);
      if Rejected(reader, parse, blocks[0]) {
        assert s.memory + [] == s.memory;
      } else {
        var rest := BeforeRejected(reader, parse, blocks[1..]);
        assert ([blocks[0]] + rest)[1..] == rest;
        MemoryOfFold(reader, parse, Block(reader, parse, s, blocks[0]).value, blocks[1..]);
        MemoryAssociates(s.memory, if MemoryPayload(parse, blocks[0]).Some? then [MemoryPayload(parse, blocks[0]).value] else [],
                         MemoryPayloads(parse, rest));
      }
    }
  }

  lemma MemoryAssociates(x: seq<Payload>, y: seq<Payload>, z: seq<Payload>)
    ensures x + y + z == x + (y + z)
  {
  }

  /**
   Whether a reply ends well or not, the memory frames handed on are the payloads of its memory blocks
   before the first rejected block, in order and once each.
   */
  lemma DeliveredMemory(reader: Reader, parse: Parser, text: string, flush: string)
    ensures Outcome(reader, parse, text, flush).0 ==
            MemoryPayloads(parse, BeforeRejected(reader, parse, Blocks(text).0))
  {
    var blocks := Blocks(text).0;
    MemoryOfFold(reader, parse, EMPTY, blocks);
    assert [] + MemoryPayloads(parse, BeforeRejected(reader, parse, blocks)) ==
           MemoryPayloads(parse, BeforeRejected(reader, parse, blocks));
  }

  /** Why a rejected block is: not decodable, null, or an error told by its type or its payload. */
  function RejectionOf(reader: Reader, parse: Parser, block: string): Error
    requires Rejected(reader, parse, block)
  {
    var p := parse(DataOf(block).value);
    if p.None? then Malformed
    else if p.value.NullPayload? then
      (if reader == Chat && EventType(block) == Some("error") then ServerError else NullDereference)
    else ServerError
  }

  lemma {:induction false} FirstRejectionStops(reader: Reader, parse: Parser, s: Stream, blocks: seq<string>)
    ensures var n := |BeforeRejected(reader, parse, blocks)|;
            var p := Fold(reader, parse, Going(s), blocks);
            && n <= |blocks|
            && (p.Stopped? <==> n < |blocks|)
            && (n < |blocks| ==> Rejected(reader, parse, blocks[n]) && p.error == RejectionOf(reader, parse, blocks[n]))
    decreases |blocks|
  {
    if blocks != [] {
      BlockMemory(reader, parse, s, blocks[0]);
      if !Rejected(reader, parse, blocks[0]) {
        FirstRejectionStops(reader, parse, Block(reader, parse, s, blocks[0]).value, blocks[1..]);
      }
    }
  }

  /**
   The error of a reply: that of its first rejected block; without one, first that text is left over,
   then that no block was terminal, then that the answer is blank.
   */
  lemma ErrorOfReply(reader: Reader, parse: Parser, text: string, flush: string)
    ensures var (blocks, rest) := Blocks(text);
            var n := |BeforeRejected(reader, parse, blocks)|;
            var r := Outcome(reader, parse, text, flush).1;
            && n <= |blocks|
            && (n < |blocks| ==> Rejected(reader, parse, blocks[n]) && r == Err(RejectionOf(reader, parse, blocks[n])))
            && (n == |blocks| ==>
                  && (r == Err(Truncated) <==> !IsBlank(rest + flush))
                  && (r == Err(Unfinished) <==>
                      IsBlank(rest + flush) && forall k | 0 <= k < |blocks| :: !Terminal(reader, parse, blocks[k]))
                  && (r.Err? ==> r.error in {Truncated, Unfinished, EmptyAnswer}))
  {
    FirstRejectionStops(reader, parse, EMPTY, Blocks(text).0);
    FoldDiscipline(reader, parse, EMPTY, Blocks(text).0);
  }

  /** The event name and the data of a block are those of its first line of that kind. */
  lemma {:induction false} FieldIsFirst(lines: seq<string>, prefix: string, k: nat)
    requires k < |lines| && prefix <= lines[k] && forall j | 0 <= j < k :: !(prefix <= lines[j])
    ensures Field(lines, prefix) == Some(lines[k][|prefix|..])
    decreases k
  {
    if k > 0 {
      assert forall j | 0 <= j < k - 1 :: lines[1..][j] == lines[j+1];
      FieldIsFirst(lines[1..], prefix, k - 1);
    }
  }

  /** The data of a block is what follows "data: " on its first such line. */
  lemma DataOfBlock(lines: seq<string>, k: nat)
    requires (forall line <- lines :: '\n' !in line) && k < |lines|
    requires "data: " <= lines[k] && forall j | 0 <= j < k :: !("data: " <= lines[j])
    ensures DataOf(Join(lines, '\n')) == Some(lines[k][|"data: "|..])
  {
    SplitJoin(lines, '\n');
    FieldIsFirst(lines, "data: ", k);
  }

  /** Its event is what follows "event: " on the first such line, trimmed. */
  lemma EventOfBlock(lines: seq<string>, k: nat)
    requires (forall line <- lines :: '\n' !in line) && k < |lines|
    requires "event: " <= lines[k] && forall j | 0 <= j < k :: !("event: " <= lines[j])
    ensures EventType(Join(lines, '\n')) == Some(Trim(lines[k][|"event: "|..]))
  {
    SplitJoin(lines, '\n');
    FieldIsFirst(lines, "event: ", k);
  }
}
