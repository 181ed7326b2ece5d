/**
 `split_into_voiced_segments` of backend/app/adapters/audio_gate.py: a one-pass scan over frames that
 cuts PCM audio into stretches of speech.  Whether one frame is active (its RMS above the
 threshold) is the parameter `isActive`.
 */
module VoicedSegments {
  import opened Prelude

  datatype VoicedSegment = VoicedSegment(startMs: int, endMs: int, audio: seq<Byte>, activeRatio: real)

  /** Frames `start` up to, not including, `end`. */
  datatype Span = Span(start: nat, end: nat)

  // ---------------------------------------------------------------- what a segment is

  ghost predicate Silent(actives: seq<bool>, from: int, to: int) {
    forall k | 0 <= k < |actives| && from <= k < to :: !actives[k]
  }

  /** `gap` frames from `from` on without activity. */
  ghost predicate SilentRun(actives: seq<bool>, from: int, gap: nat) {
    Silent(actives, from, from + gap)
  }

  /**
   A maximal cluster of active frames: it begins and ends on one, holds no `gap` silent frames in a
   row, and `gap` silent frames (or the end of the audio) are on either side.
   */
  ghost predicate IsCluster(actives: seq<bool>, gap: nat, c: Span) {
    && c.start < c.end <= |actives|
    && actives[c.start] && actives[c.end-1]
    && (forall i | c.start <= i <= c.end - gap :: !SilentRun(actives, i, gap))
    && SilentRun(actives, c.start - gap, gap)
    && SilentRun(actives, c.end, gap)
  }

  ghost predicate InOrder(spans: seq<Span>) {
    forall i, j | 0 <= i < j < |spans| :: spans[i].end <= spans[j].start
  }

  /** The spans are all clusters of at least `least` frames, in order. */
  ghost predicate AreClusters(actives: seq<bool>, gap: nat, least: nat, spans: seq<Span>) {
    && InOrder(spans)
    && forall c :: c in spans <==> IsCluster(actives, gap, c) && c.end - c.start >= least
  }

  function CountActive(actives: seq<bool>): nat {
    if actives == [] then 0 else (if actives[0] then 1 else 0) + CountActive(actives[1..])
  }

  lemma {:induction false} CountBound(actives: seq<bool>)
    ensures CountActive(actives) <= |actives|
    ensures CountActive(actives) > 0 <==> true in actives
    decreases |actives|
  {
    if actives != [] {
      CountBound(actives[1..]);
      assert actives == [actives[0]] + actives[1..];
    }
  }

  /** The segment cut out for a span, `frameMs` being the length of a frame. */
  function Cut(audio: seq<Byte>, actives: seq<bool>, frameMs: int, c: Span): VoicedSegment
    requires c.start < c.end <= |actives| && 0 < frameMs && |actives| * (32 * frameMs) <= |audio|
  {
    MulMonotone(c.start, c.end, 32 * frameMs);
    MulMonotone(c.end, |actives|, 32 * frameMs);
    VoicedSegment(c.start * frameMs, c.end * frameMs,
                  audio[c.start * (32 * frameMs)..c.end * (32 * frameMs)],
                  Ratio(actives, c))
  }

  /** The share of active frames in a span. */
  function Ratio(actives: seq<bool>, c: Span): real
    requires c.start < c.end <= |actives|
  {
    CountActive(actives[c.start..c.end]) as real / (c.end - c.start) as real
  }

  /** A segment holds 32 bytes for each millisecond, some of it active. */
  lemma CutSize(audio: seq<Byte>, actives: seq<bool>, frameMs: int, c: Span)
    requires c.start < c.end <= |actives| && actives[c.start]
    requires 0 < frameMs && |actives| * (32 * frameMs) <= |audio|
    ensures var s := Cut(audio, actives, frameMs, c);
            |s.audio| == 32 * (s.endMs - s.startMs) && 0.0 < s.activeRatio <= 1.0
  {
    var part := actives[c.start..c.end];
    assert part[0] in part;
    CountBound(part);
    MulMonotone(c.start, c.end, 32 * frameMs);
    MulMonotone(c.end, |actives|, 32 * frameMs);
    assert c.end * (32 * frameMs) - c.start * (32 * frameMs) == 32 * (c.end * frameMs - c.start * frameMs);
    UnitRatio(CountActive(part), c.end - c.start);
  }

  /** The active frames of a span. */
  function ActiveFrames(actives: seq<bool>, c: Span): set<int> {
    set k | 0 <= k < |actives| && c.start <= k < c.end && actives[k]
  }

  lemma {:induction false} CountIsSize(actives: seq<bool>, from: nat, to: nat)
    requires from <= to <= |actives|
    ensures CountActive(actives[from..to]) == |ActiveFrames(actives, Span(from, to))|
    decreases |actives| - from
  {
    if from == to {
      assert actives[from..to] == [] && ActiveFrames(actives, Span(from, to)) == {};
    } else {
      CountIsSize(actives, from + 1, to);
      assert actives[from..to][1..] == actives[from+1..to];
      var rest := ActiveFrames(actives, Span(from + 1, to));
      assert ActiveFrames(actives, Span(from, to)) == if actives[from] then {from} + rest else rest;
    }
  }

  /** A segment is the stretch of audio between its times, at 32 bytes a millisecond. */
  lemma CutIsAudio(audio: seq<Byte>, actives: seq<bool>, frameMs: int, c: Span)
    requires c.start < c.end <= |actives| && 0 < frameMs && |actives| * (32 * frameMs) <= |audio|
    ensures var s := Cut(audio, actives, frameMs, c);
            && s.startMs == c.start * frameMs && s.endMs == c.end * frameMs
            && 0 <= 32 * s.startMs <= 32 * s.endMs <= |audio|
            && s.audio == audio[32 * s.startMs..32 * s.endMs]
  {
    Bytes(c.start, frameMs);
    Bytes(c.end, frameMs);
    MulMonotone(c.start, c.end, 32 * frameMs);
    MulMonotone(c.end, |actives|, 32 * frameMs);
  }

  lemma Bytes(frame: nat, frameMs: int)
    ensures frame * (32 * frameMs) == 32 * (frame * frameMs)
  {
  }

  /** Its ratio times its frames is the number of active frames in it. */
  lemma RatioCountsActive(audio: seq<Byte>, actives: seq<bool>, frameMs: int, c: Span)
    requires c.start < c.end <= |actives| && 0 < frameMs && |actives| * (32 * frameMs) <= |audio|
    ensures Cut(audio, actives, frameMs, c).activeRatio * (c.end - c.start) as real == |ActiveFrames(actives, c)| as real
  {
    RatioOfSpan(actives, c);
  }

  lemma RatioOfSpan(actives: seq<bool>, c: Span)
    requires c.start < c.end <= |actives|
    ensures Ratio(actives, c) * (c.end - c.start) as real == |ActiveFrames(actives, c)| as real
  {
    CountIsSize(actives, c.start, c.end);
    assert Span(c.start, c.end) == c;
    Quotients(|ActiveFrames(actives, c)| as real, (c.end - c.start) as real);
  }

  lemma Quotients(n: real, d: real)
    requires d > 0.0
    ensures n / d * d == n
  {
  }

  /**
   Every segment of the specification begins and ends on an active frame of the audio, and is the
   audio between its times.
   */
  lemma SegmentsAreAudio(audio: seq<Byte>, isActive: seq<Byte> -> bool, frameMs: int, gap: nat, least: nat,
                         segments: seq<VoicedSegment>, n: nat) returns (c: Span)
    requires 0 < frameMs && gap > 0 && n < |segments|
    requires AreVoiced(audio, Actives(audio, isActive, frameMs), frameMs, gap, least, segments)
    ensures c.start < c.end && c.end - c.start >= least
    ensures IsStretch(audio, frameMs, segments[n], c)
    ensures IsActiveFrame(audio, isActive, frameMs, c.start) && IsActiveFrame(audio, isActive, frameMs, c.end - 1)
  {
    c := SegmentSpan(audio, Actives(audio, isActive, frameMs), frameMs, gap, least, segments, n);
    ActiveAt(audio, isActive, frameMs, c.start);
    ActiveAt(audio, isActive, frameMs, c.end - 1);
  }

  /** The frame that begins after `f` frames is in the audio, 32 bytes a millisecond long, and active. */
  ghost predicate IsActiveFrame(audio: seq<Byte>, isActive: seq<Byte> -> bool, frameMs: int, f: int) {
    && 0 <= 32 * (f * frameMs) <= 32 * (f * frameMs) + 32 * frameMs <= |audio|
    && isActive(audio[32 * (f * frameMs)..32 * (f * frameMs) + 32 * frameMs])
  }

  lemma ActiveAt(audio: seq<Byte>, isActive: seq<Byte> -> bool, frameMs: int, f: nat)
    requires frameMs > 0 && f < |Actives(audio, isActive, frameMs)|
    ensures Actives(audio, isActive, frameMs)[f] == FrameAt(audio, frameMs, f, isActive)
    ensures Actives(audio, isActive, frameMs)[f] ==> IsActiveFrame(audio, isActive, frameMs, f)
  {
    Bytes(f, frameMs);
    Bytes(f + 1, frameMs);
    MulMonotone(f + 1, |Actives(audio, isActive, frameMs)|, 32 * frameMs);
    MulMonotone(0, f, 32 * frameMs);
    assert (f + 1) * frameMs == f * frameMs + frameMs;
  }

  lemma SegmentSpan(audio: seq<Byte>, actives: seq<bool>, frameMs: int, gap: nat, least: nat,
                    segments: seq<VoicedSegment>, n: nat) returns (c: Span)
    requires 0 < frameMs && gap > 0 && n < |segments| && |actives| * (32 * frameMs) <= |audio|
    requires AreVoiced(audio, actives, frameMs, gap, least, segments)
    ensures c.start < c.end <= |actives| && c.end - c.start >= least && actives[c.start] && actives[c.end-1]
    ensures IsStretch(audio, frameMs, segments[n], c)
  {
    var spans := SpansOf(audio, actives, frameMs, gap, least, segments);
    c := SpanAt(audio, actives, frameMs, gap, least, segments, spans, n);
  }

  lemma SpanAt(audio: seq<Byte>, actives: seq<bool>, frameMs: int, gap: nat, least: nat,
               segments: seq<VoicedSegment>, spans: seq<Span>, n: nat) returns (c: Span)
    requires 0 < frameMs && |actives| * (32 * frameMs) <= |audio| && n < |segments|
    requires AreClusters(actives, gap, least, spans) && AreCuts(audio, actives, frameMs, segments, spans)
    ensures c.start < c.end <= |actives| && c.end - c.start >= least && actives[c.start] && actives[c.end-1]
    ensures IsStretch(audio, frameMs, segments[n], c)
  {
    c := spans[n];
    ClusterAt(actives, gap, least, spans, n);
    StretchAt(audio, actives, frameMs, segments, spans, n);
  }

  lemma SpansOf(audio: seq<Byte>, actives: seq<bool>, frameMs: int, gap: nat, least: nat, segments: seq<VoicedSegment>)
    returns (spans: seq<Span>)
    requires 0 < frameMs && |actives| * (32 * frameMs) <= |audio|
    requires AreVoiced(audio, actives, frameMs, gap, least, segments)
    ensures AreClusters(actives, gap, least, spans) && AreCuts(audio, actives, frameMs, segments, spans)
    ensures |spans| == |segments|
  {
    spans :| AreClusters(actives, gap, least, spans) && AreCuts(audio, actives, frameMs, segments, spans);
  }

  /** The segment has the times of the span and the audio between them. */
  ghost predicate IsStretch(audio: seq<Byte>, frameMs: int, s: VoicedSegment, c: Span) {
    && s.startMs == c.start * frameMs && s.endMs == c.end * frameMs
    && 0 <= 32 * s.startMs <= 32 * s.endMs <= |audio|
    && s.audio == audio[32 * s.startMs..32 * s.endMs]
  }

  lemma ClusterAt(actives: seq<bool>, gap: nat, least: nat, spans: seq<Span>, n: nat)
    requires AreClusters(actives, gap, least, spans) && n < |spans|
    ensures var c := spans[n];
            c.start < c.end <= |actives| && c.end - c.start >= least && actives[c.start] && actives[c.end-1]
  {
    assert spans[n] in spans;
  }

  lemma StretchAt(audio: seq<Byte>, actives: seq<bool>, frameMs: int, segments: seq<VoicedSegment>, spans: seq<Span>, n: nat)
    requires 0 < frameMs && |actives| * (32 * frameMs) <= |audio| && AreCuts(audio, actives, frameMs, segments, spans)
    requires n < |spans|
    ensures IsStretch(audio, frameMs, segments[n], spans[n])
  {
    CutIsAudio(audio, actives, frameMs, spans[n]);
  }

  lemma UnitRatio(n: nat, d: nat)
    requires 0 < n <= d
    ensures 0.0 < n as real / d as real <= 1.0
  {
    RatioAtMost(n as real, d as real, 0.0);
    RatioAtMost(n as real, d as real, 1.0);
  }

  // ---------------------------------------------------------------- clusters do not overlap

  lemma OverlappingClustersStartTogether(actives: seq<bool>, gap: nat, c: Span, d: Span)
    requires IsCluster(actives, gap, c) && IsCluster(actives, gap, d) && c.start < d.end && d.start < c.end && gap > 0
    ensures c.start >= d.start
  {
    assert SilentRun(actives, d.start - gap, gap);
  }

  lemma OverlappingClustersEndTogether(actives: seq<bool>, gap: nat, c: Span, d: Span)
    requires IsCluster(actives, gap, c) && IsCluster(actives, gap, d) && c.start < d.end && d.start < c.end && gap > 0
    ensures c.end >= d.end
  {
    assert SilentRun(actives, c.end, gap);
  }

  lemma ClustersAreDisjoint(actives: seq<bool>, gap: nat, c: Span, d: Span)
    requires IsCluster(actives, gap, c) && IsCluster(actives, gap, d) && c.start < d.end && d.start < c.end && gap > 0
    ensures c == d
  {
    OverlappingClustersStartTogether(actives, gap, c, d);
    OverlappingClustersStartTogether(actives, gap, d, c);
    OverlappingClustersEndTogether(actives, gap, c, d);
    OverlappingClustersEndTogether(actives, gap, d, c);
  }

  lemma FirstIsEarliest(s: seq<Span>, c: Span)
    requires InOrder(s) && c in s && s[0].start < s[0].end
    ensures s[0].start <= c.start && (s[0].start == c.start ==> c == s[0])
  {
    var i :| 0 <= i < |s| && s[i] == c;
    if i > 0 {
      assert s[0].end <= s[i].start;
    }
  }

  lemma SameFirst(s: seq<Span>, t: seq<Span>)
    requires InOrder(s) && InOrder(t) && (forall c :: c in s <==> c in t) && forall c <- s :: c.start < c.end
    requires s != [] && t != []
    ensures s[0] == t[0]
  {
    assert s[0] in s && t[0] in t;
    FirstIsEarliest(s, t[0]);
    FirstIsEarliest(t, s[0]);
  }

  lemma RestMembers(s: seq<Span>, c: Span)
    requires s != [] && InOrder(s) && s[0].start < s[0].end
    ensures c in s[1..] <==> c in s && c != s[0]
  {
    assert s == [s[0]] + s[1..];
    if c in s[1..] {
      var k :| 1 <= k < |s| && s[k] == c;
      assert s[0].end <= s[k].start;
    }
  }

  /** The specification leaves no choice: an ordered list of spans is fixed by its members. */
  lemma {:induction false} OrderedSpansAreUnique(s: seq<Span>, t: seq<Span>)
    requires InOrder(s) && InOrder(t) && (forall c :: c in s <==> c in t) && forall c <- s :: c.start < c.end
    ensures s == t
    decreases |s|
  {
    assert s != [] ==> s[0] in s;
    assert t != [] ==> t[0] in t;
    if s != [] {
      SameFirst(s, t);
      forall c ensures c in s[1..] <==> c in t[1..] {
        RestMembers(s, c);
        RestMembers(t, c);
      }
      OrderedSpansAreUnique(s[1..], t[1..]);
      assert s == [s[0]] + s[1..] && t == [t[0]] + t[1..];
    }
  }

  lemma ClustersAreDetermined(actives: seq<bool>, gap: nat, least: nat, s: seq<Span>, t: seq<Span>)
    requires AreClusters(actives, gap, least, s) && AreClusters(actives, gap, least, t)
    ensures s == t
  {
    OrderedSpansAreUnique(s, t);
  }

  // ---------------------------------------------------------------- the scan

  /** Clusters that end by frame `upTo` and are long enough are all in `spans`, and nothing else is. */
  ghost predicate Found(actives: seq<bool>, gap: nat, least: nat, spans: seq<Span>, upTo: nat) {
    forall c :: c in spans <==> IsCluster(actives, gap, c) && c.end - c.start >= least && c.end <= upTo
  }

  /** An open stretch from `start` to `last`, with silence from there to `now`. */
  ghost predicate Open(actives: seq<bool>, gap: nat, start: int, last: int, now: int) {
    && 0 <= start <= last < now <= |actives| && actives[start] && actives[last]
    && now - 1 - last < gap
    && (forall i | start <= i <= last + 1 - gap :: !SilentRun(actives, i, gap))
    && SilentRun(actives, start - gap, gap)
    && Silent(actives, last + 1, now)
  }

  /** What the scan knows before frame `now`. */
  ghost predicate ScanInvariant(actives: seq<bool>, gap: nat, least: nat, spans: seq<Span>,
                                inVoice: bool, start: nat, last: nat, silence: nat, now: nat)
  {
    && now <= |actives| && InOrder(spans)
    && if inVoice
       then Found(actives, gap, least, spans, start) && Open(actives, gap, start, last, now) && silence == now - 1 - last
       else Found(actives, gap, least, spans, now) && SilentRun(actives, now - gap, gap) && silence == 0
  }

  lemma ActiveFrame(actives: seq<bool>, gap: nat, least: nat, spans: seq<Span>,
                    inVoice: bool, start: nat, last: nat, silence: nat, now: nat)
    requires ScanInvariant(actives, gap, least, spans, inVoice, start, last, silence, now)
    requires gap > 0 && now < |actives| && actives[now]
    ensures ScanInvariant(actives, gap, least, spans, true, if inVoice then start else now, now, 0, now + 1)
  {
    if inVoice {
      ExtendStretch(actives, gap, start, last, now);
    }
  }

  lemma SilentFrame(actives: seq<bool>, gap: nat, least: nat, spans: seq<Span>, start: nat, last: nat, now: nat)
    requires ScanInvariant(actives, gap, least, spans, false, start, last, 0, now)
    requires now < |actives| && !actives[now]
    ensures ScanInvariant(actives, gap, least, spans, false, start, last, 0, now + 1)
  {
  }

  /** Another active frame within `gap` frames extends the stretch. */
  lemma ExtendStretch(actives: seq<bool>, gap: nat, start: nat, last: nat, now: nat)
    requires gap > 0 && Open(actives, gap, start, last, now) && now < |actives| && actives[now]
    ensures Open(actives, gap, start, now, now + 1)
  {
    forall i | start <= i <= now + 1 - gap ensures !SilentRun(actives, i, gap) {
      if i > last + 1 - gap {
        assert i <= last < i + gap || i <= now < i + gap;
      }
    }
  }

  /** Closing an open stretch: it is the only cluster that ends after its start. */
  lemma CloseStretch(actives: seq<bool>, gap: nat, least: nat, spans: seq<Span>, start: nat, last: nat, now: nat)
    requires gap > 0 && Open(actives, gap, start, last, last + 1)
    requires last < now <= |actives| && Silent(actives, last + 1, now) && SilentRun(actives, last + 1, gap)
    requires Found(actives, gap, least, spans, start) && InOrder(spans)
    ensures var more := if last + 1 - start >= least then spans + [Span(start, last + 1)] else spans;
            Found(actives, gap, least, more, now) && InOrder(more)
  {
    var span := Span(start, last + 1);
    StretchIsCluster(actives, gap, start, last);
    forall c | IsCluster(actives, gap, c) && start < c.end <= now ensures c == span {
      OnlyStretch(actives, gap, start, last, now, c);
    }
    assert forall c <- spans :: c.end <= start;
    AppendInOrder(spans, span);
  }

  lemma StretchIsCluster(actives: seq<bool>, gap: nat, start: nat, last: nat)
    requires gap > 0 && Open(actives, gap, start, last, last + 1) && SilentRun(actives, last + 1, gap)
    ensures IsCluster(actives, gap, Span(start, last + 1))
  {
  }

  lemma OnlyStretch(actives: seq<bool>, gap: nat, start: nat, last: nat, now: nat, c: Span)
    requires gap > 0 && IsCluster(actives, gap, Span(start, last + 1)) && IsCluster(actives, gap, c)
    requires last < now <= |actives| && Silent(actives, last + 1, now) && start < c.end <= now
    ensures c == Span(start, last + 1)
  {
    assert c.end - 1 <= last;
    ClustersAreDisjoint(actives, gap, c, Span(start, last + 1));
  }

  lemma AppendInOrder(spans: seq<Span>, span: Span)
    requires InOrder(spans) && forall c <- spans :: c.end <= span.start
    ensures InOrder(spans + [span])
  {
    assert forall i | 0 <= i < |spans| :: spans[i] in spans;
  }

  /** The number of whole frames in so many bytes. */
  function FrameCount(bytes: nat, frameMs: int): (n: nat)
    requires frameMs > 0
    ensures n * (32 * frameMs) <= bytes
  {
    FramesFit(bytes, frameMs);
    bytes / 2 / (16 * frameMs)
  }

  lemma FramesFit(bytes: nat, frameMs: int)
    requires frameMs > 0
    ensures 0 <= bytes / 2 / (16 * frameMs)
    ensures bytes / 2 / (16 * frameMs) * (32 * frameMs) <= bytes
  {
    var n := bytes / 2 / (16 * frameMs);
    assert n * (16 * frameMs) <= bytes / 2;
    assert n * (32 * frameMs) == 2 * (n * (16 * frameMs));
  }

  /** The activity of frame `f`; a frame past the end has no bytes. */
  function FrameAt(audio: seq<Byte>, frameMs: int, f: nat, isActive: seq<Byte> -> bool): bool
    requires frameMs > 0
  {
    var from, to := f * (32 * frameMs), (f + 1) * (32 * frameMs);
    isActive(if from <= to <= |audio| then audio[from..to] else [])
  }

  /** The segments are the cuts of the spans, one by one. */
  ghost predicate AreCuts(audio: seq<Byte>, actives: seq<bool>, frameMs: int, segments: seq<VoicedSegment>, spans: seq<Span>)
    requires 0 < frameMs && |actives| * (32 * frameMs) <= |audio|
  {
    && |segments| == |spans|
    && forall i | 0 <= i < |spans| ::
         spans[i].start < spans[i].end <= |actives| && segments[i] == Cut(audio, actives, frameMs, spans[i])
  }

  /** Which frames of the audio are active. */
  function Actives(audio: seq<Byte>, isActive: seq<Byte> -> bool, frameMs: int): (actives: seq<bool>)
    requires frameMs > 0
    ensures |actives| * (32 * frameMs) <= |audio|
  {
    seq(FrameCount(|audio|, frameMs), f requires f >= 0 => FrameAt(audio, frameMs, f, isActive))
  }

  /** The segments are the cuts of exactly the clusters that are long enough, in order. */
  ghost predicate AreVoiced(audio: seq<Byte>, actives: seq<bool>, frameMs: int, gap: nat, least: nat, segments: seq<VoicedSegment>)
    requires 0 < frameMs && |actives| * (32 * frameMs) <= |audio|
  {
    exists spans :: AreClusters(actives, gap, least, spans) && AreCuts(audio, actives, frameMs, segments, spans)
  }

  /** The specification admits one list of segments only. */
  lemma SegmentsAreDetermined(audio: seq<Byte>, actives: seq<bool>, frameMs: int, gap: nat, least: nat,
                              s: seq<VoicedSegment>, t: seq<VoicedSegment>)
    requires 0 < frameMs && |actives| * (32 * frameMs) <= |audio|
    requires AreVoiced(audio, actives, frameMs, gap, least, s) && AreVoiced(audio, actives, frameMs, gap, least, t)
    ensures s == t
  {
    var a :| AreClusters(actives, gap, least, a) && AreCuts(audio, actives, frameMs, s, a);
    var b :| AreClusters(actives, gap, least, b) && AreCuts(audio, actives, frameMs, t, b);
    ClustersAreDetermined(actives, gap, least, a, b);
  }

  method Split(audio: seq<Byte>, isActive: seq<Byte> -> bool, frameMs: int, threshold: int,
               minSegmentMs: int, maxSilenceGapMs: int)
    returns (segments: seq<VoicedSegment>)
    ensures frameMs <= 0 || threshold < 0 || |audio| / 2 < 16 * frameMs ==> segments == []
    ensures frameMs > 0 && threshold >= 0 && |audio| / 2 >= 16 * frameMs ==>
              AreVoiced(audio, Actives(audio, isActive, frameMs), frameMs,
                        Max(1, maxSilenceGapMs / frameMs), Max(1, minSegmentMs / frameMs), segments)
  {
    if frameMs <= 0 || threshold < 0 {
      return [];
    }
    var nSamples := |audio| / 2;
    var frameSamples := 16 * frameMs;
    if nSamples < frameSamples {
      return [];
    }
    var totalFrames := FrameCount(|audio|, frameMs);
    var actives: seq<bool> := [];
    for f := 0 to totalFrames
      invariant |actives| == f
      invariant forall g | 0 <= g < f :: actives[g] == FrameAt(audio, frameMs, g, isActive)
    {
      actives := actives + [FrameAt(audio, frameMs, f, isActive)];
    }
    assert actives == Actives(audio, isActive, frameMs);
    segments := Scan(audio, actives, frameMs, Max(1, maxSilenceGapMs / frameMs), Max(1, minSegmentMs / frameMs));
  }

  /** `_emit`: appends the segment of `c` unless it is too short. */
  method Emit(audio: seq<Byte>, actives: seq<bool>, frameMs: int, least: nat,
              segments: seq<VoicedSegment>, ghost spans: seq<Span>, c: Span)
    returns (longer: seq<VoicedSegment>, ghost more: seq<Span>)
    requires 0 < frameMs && |actives| * (32 * frameMs) <= |audio| && c.start < c.end <= |actives|
    requires AreCuts(audio, actives, frameMs, segments, spans)
    ensures longer == segments + if c.end - c.start < least then [] else [Cut(audio, actives, frameMs, c)]
    ensures AreCuts(audio, actives, frameMs, longer, more)
    ensures more == if c.end - c.start >= least then spans + [c] else spans
  {
    if c.end - c.start < least {
      return segments, spans;
    }
    return segments + [Cut(audio, actives, frameMs, c)], spans + [c];
  }

  method Scan(audio: seq<Byte>, actives: seq<bool>, frameMs: int, gap: nat, least: nat)
    returns (segments: seq<VoicedSegment>)
    requires 0 < frameMs && |actives| * (32 * frameMs) <= |audio| && gap > 0
    ensures AreVoiced(audio, actives, frameMs, gap, least, segments)
  {
    segments := [];
    ghost var spans: seq<Span> := [];
    var inVoice := false;
    var start, lastActive, silenceRun := 0, 0, 0;
    for f := 0 to |actives|
      invariant AreCuts(audio, actives, frameMs, segments, spans)
      invariant 0 <= start && 0 <= lastActive && 0 <= silenceRun
      invariant ScanInvariant(actives, gap, least, spans, inVoice, start, lastActive, silenceRun, f)
    {
      if actives[f] {
        ActiveFrame(actives, gap, least, spans, inVoice, start, lastActive, silenceRun, f);
        if !inVoice {
          inVoice := true;
          start := f;
        }
        lastActive := f;
        silenceRun := 0;
      } else if inVoice {
        silenceRun := silenceRun + 1;
        if silenceRun >= gap {
          CloseStretch(actives, gap, least, spans, start, lastActive, f + 1);
          segments, spans := Emit(audio, actives, frameMs, least, segments, spans, Span(start, lastActive + 1));
          inVoice := false;
          silenceRun := 0;
        }
      } else {
        SilentFrame(actives, gap, least, spans, start, lastActive, f);
      }
    }
    if inVoice {
      CloseStretch(actives, gap, least, spans, start, lastActive, |actives|);
      segments, spans := Emit(audio, actives, frameMs, least, segments, spans, Span(start, lastActive + 1));
    }
  }

  // ---------------------------------------------------------------- the documented rule

  /** The silent frames after which the documentation ends a stretch: silence that exceeds the limit. */
  function DocumentedGap(maxSilenceGapMs: int, frameMs: int): (n: nat)
    requires frameMs > 0
    ensures n > 0
  {
    Max(1, maxSilenceGapMs / frameMs + 1)
  }

  lemma DocumentedGapMeans(maxSilenceGapMs: int, frameMs: int, silenceRun: nat)
    requires frameMs > 0 && silenceRun > 0
    ensures silenceRun >= DocumentedGap(maxSilenceGapMs, frameMs) <==> silenceRun * frameMs > maxSilenceGapMs
  {
    var q := maxSilenceGapMs / frameMs;
    Quotient(maxSilenceGapMs, frameMs);
    if silenceRun > q {
      MulMonotone(q + 1, silenceRun, frameMs);
    } else {
      MulMonotone(silenceRun, q, frameMs);
    }
  }

  lemma Quotient(n: int, d: int)
    requires d > 0
    ensures n / d * d <= n < (n / d + 1) * d
  {
    assert n == n / d * d + n % d;
    assert (n / d + 1) * d == n / d * d + d;
  }

  /** The coded limit is the documented one exactly while the gap is shorter than a frame, else one less. */
  lemma GapsAgreeIff(maxSilenceGapMs: int, frameMs: int)
    requires frameMs > 0
    ensures var coded := Max(1, maxSilenceGapMs / frameMs);
            && (coded == DocumentedGap(maxSilenceGapMs, frameMs) <==> maxSilenceGapMs < frameMs)
            && (maxSilenceGapMs >= frameMs ==> DocumentedGap(maxSilenceGapMs, frameMs) == coded + 1)
  {
    var q := maxSilenceGapMs / frameMs;
    Quotient(maxSilenceGapMs, frameMs);
    if q >= 1 {
      MulMonotone(1, q, frameMs);
    } else {
      MulMonotone(q + 1, 1, frameMs);
    }
  }

  /** Exactly `gap` silent frames from `i` on between two active ones, within the span. */
  ghost predicate ExactGap(actives: seq<bool>, gap: nat, c: Span, i: int) {
    && 0 <= c.start < i && i + gap < c.end <= |actives|
    && actives[i-1] && actives[i+gap] && Silent(actives, i, i + gap)
  }

  ghost predicate HasExactGap(actives: seq<bool>, gap: nat, c: Span) {
    exists i :: ExactGap(actives, gap, c, i)
  }

  /** A silent run of a cluster lies strictly between active frames of it. */
  lemma {:induction false} RunInside(actives: seq<bool>, gap: nat, c: Span, i: int)
    requires gap > 0 && IsCluster(actives, gap + 1, c) && c.start <= i <= c.end - gap && SilentRun(actives, i, gap)
    ensures ExactGap(actives, gap, c, i)
  {
    assert actives[c.start] && actives[c.end-1];
    assert c.start < i && i + gap < c.end;
    assert !SilentRun(actives, i - 1, gap + 1);
    assert !SilentRun(actives, i, gap + 1);
    var k :| 0 <= k < |actives| && i - 1 <= k < i + gap && actives[k];
    var n :| 0 <= n < |actives| && i <= n < i + gap + 1 && actives[n];
  }

  /** A cluster for one more silent frame is a cluster exactly when it holds no exact gap. */
  lemma WiderClusterIff(actives: seq<bool>, gap: nat, c: Span)
    requires gap > 0 && IsCluster(actives, gap + 1, c)
    ensures IsCluster(actives, gap, c) <==> !HasExactGap(actives, gap, c)
  {
    assert SilentRun(actives, c.start - gap - 1, gap + 1) && SilentRun(actives, c.end, gap + 1);
    if HasExactGap(actives, gap, c) {
      var i :| ExactGap(actives, gap, c, i);
      assert SilentRun(actives, i, gap);
    } else {
      forall i | c.start <= i <= c.end - gap ensures !SilentRun(actives, i, gap) {
        if SilentRun(actives, i, gap) {
          RunInside(actives, gap, c, i);
        }
      }
    }
  }

  /** From an active frame on to the end of its cluster. */
  lemma {:induction false} ClusterEnd(actives: seq<bool>, gap: nat, f: nat) returns (end: nat)
    requires gap > 0 && f < |actives| && actives[f]
    ensures f < end <= |actives| && actives[end-1] && SilentRun(actives, end, gap)
    ensures forall i | f <= i <= end - gap :: !SilentRun(actives, i, gap)
    decreases |actives| - f
  {
    if SilentRun(actives, f + 1, gap) {
      end := f + 1;
    } else {
      var k :| 0 <= k < |actives| && f + 1 <= k < f + 1 + gap && actives[k];
      end := ClusterEnd(actives, gap, k);
      forall i | f <= i <= end - gap ensures !SilentRun(actives, i, gap) {
        if i < k {
          assert i <= f < i + gap || i <= k < i + gap;
        }
      }
    }
  }

  /** From an active frame back to the start of its cluster. */
  lemma {:induction false} ClusterStart(actives: seq<bool>, gap: nat, f: nat) returns (start: nat)
    requires gap > 0 && f < |actives| && actives[f]
    ensures start <= f && actives[start] && SilentRun(actives, start - gap, gap)
    ensures forall i | start <= i <= f + 1 - gap :: !SilentRun(actives, i, gap)
    decreases f
  {
    if SilentRun(actives, f - gap, gap) {
      start := f;
    } else {
      var k :| 0 <= k < |actives| && f - gap <= k < f && actives[k];
      start := ClusterStart(actives, gap, k);
      forall i | start <= i <= f + 1 - gap ensures !SilentRun(actives, i, gap) {
        if i > k + 1 - gap {
          assert i <= k < i + gap || i <= f < i + gap;
        }
      }
    }
  }

  /** Every active frame is in a cluster. */
  lemma ClusterAround(actives: seq<bool>, gap: nat, f: nat) returns (c: Span)
    requires gap > 0 && f < |actives| && actives[f]
    ensures IsCluster(actives, gap, c) && c.start <= f < c.end
  {
    var start := ClusterStart(actives, gap, f);
    var end := ClusterEnd(actives, gap, f);
    c := Span(start, end);
    forall i | start <= i <= end - gap ensures !SilentRun(actives, i, gap) {
      if f + 1 - gap < i < f {
        assert i <= f < i + gap;
      }
    }
  }

  /** The cluster for one more silent frame around a cluster holds all of it. */
  lemma WiderHolds(actives: seq<bool>, gap: nat, d: Span, c: Span)
    requires gap > 0 && IsCluster(actives, gap, d) && IsCluster(actives, gap + 1, c) && c.start <= d.start < c.end
    ensures d.end <= c.end
  {
    if d.end > c.end {
      assert SilentRun(actives, c.end, gap + 1);
      assert Silent(actives, c.end, c.end + gap);
      assert SilentRun(actives, c.end, gap);
    }
  }

  ghost predicate Long(c: Span, least: nat) {
    c.end - c.start >= least
  }

  /**
   The documented rule against the code: with one more silent frame allowed the segments are the same if
   and only if none of the segments of the longer limit holds a gap of exactly the coded limit.
   */
  lemma DocumentedSegmentsIff(actives: seq<bool>, gap: nat, least: nat, coded: seq<Span>, documented: seq<Span>)
    requires gap > 0
    requires AreClusters(actives, gap, least, coded) && AreClusters(actives, gap + 1, least, documented)
    ensures coded == documented <==> forall c <- documented :: !HasExactGap(actives, gap, c)
  {
    if coded == documented {
      forall c <- documented ensures !HasExactGap(actives, gap, c) {
        WiderClusterIff(actives, gap, c);
      }
    }
    if forall c <- documented :: !HasExactGap(actives, gap, c) {
      forall c ensures c in coded <==> c in documented {
        if c in documented {
          WiderClusterIff(actives, gap, c);
        }
        if c in coded {
          CodedIsDocumented(actives, gap, least, documented, c);
        }
      }
      OrderedSpansAreUnique(coded, documented);
    }
  }

  lemma CodedIsDocumented(actives: seq<bool>, gap: nat, least: nat, documented: seq<Span>, d: Span)
    requires gap > 0 && AreClusters(actives, gap + 1, least, documented)
    requires forall c <- documented :: !HasExactGap(actives, gap, c)
    requires IsCluster(actives, gap, d) && Long(d, least)
    ensures d in documented
  {
    var c := ClusterAround(actives, gap + 1, d.start);
    WiderHolds(actives, gap, d, c);
    assert c in documented;
    WiderClusterIff(actives, gap, c);
    ClustersAreDisjoint(actives, gap, c, d);
  }

  /**
   When no segment is too short to count, that is: if and only if nowhere in the audio exactly as many
   silent frames as the coded limit lie between two active ones.
   */
  lemma DocumentedRuleIff(actives: seq<bool>, gap: nat, least: nat, coded: seq<Span>, documented: seq<Span>)
    requires gap > 0 && least <= 1
    requires AreClusters(actives, gap, least, coded) && AreClusters(actives, gap + 1, least, documented)
    ensures coded == documented <==> !HasExactGap(actives, gap, Span(0, |actives|))
  {
    DocumentedSegmentsIff(actives, gap, least, coded, documented);
    if c :| c in documented && HasExactGap(actives, gap, c) {
      var i :| ExactGap(actives, gap, c, i);
      assert ExactGap(actives, gap, Span(0, |actives|), i);
    }
    if HasExactGap(actives, gap, Span(0, |actives|)) {
      var i :| ExactGap(actives, gap, Span(0, |actives|), i);
      var c := ClusterAround(actives, gap + 1, i - 1);
      GapInside(actives, gap, c, i);
      assert c in documented;
    }
  }

  lemma GapInside(actives: seq<bool>, gap: nat, c: Span, i: int)
    requires gap > 0 && ExactGap(actives, gap, Span(0, |actives|), i)
    requires IsCluster(actives, gap + 1, c) && c.start <= i - 1 < c.end
    ensures HasExactGap(actives, gap, c)
  {
    assert SilentRun(actives, c.end, gap + 1);
    assert ExactGap(actives, gap, c, i);
  }

  /** One silent frame between two active ones, at a limit of one: the code cuts, the documentation does not. */
  lemma OneSilentFrame(coded: seq<Span>, documented: seq<Span>)
    requires AreClusters([true, false, true], 1, 1, coded) && AreClusters([true, false, true], 2, 1, documented)
    ensures coded == [Span(0, 1), Span(2, 3)] && documented == [Span(0, 3)]
  {
    var actives := [true, false, true];
    var first, second, whole := Span(0, 1), Span(2, 3), Span(0, 3);
    assert actives[0] && !actives[1] && actives[2];
    assert SilentRun(actives, 1, 1) && SilentRun(actives, -1, 1) && SilentRun(actives, 3, 1);
    assert !SilentRun(actives, 0, 1) && !SilentRun(actives, 2, 1);
    forall i | 0 <= i <= 2 && i != 1 ensures !SilentRun(actives, i, 1) {
      assert actives[i];
    }
    assert IsCluster(actives, 1, first);
    assert IsCluster(actives, 1, second);
    assert SilentRun(actives, -2, 2) && SilentRun(actives, 3, 2);
    forall i | 0 <= i <= 1 ensures !SilentRun(actives, i, 2) {
      assert i <= 2 * i < i + 2 && actives[2 * i];
    }
    assert IsCluster(actives, 2, whole);
    forall c | IsCluster(actives, 1, c) ensures c == first || c == second {
      assert c.start != 1;
      ClustersAreDisjoint(actives, 1, c, if c.start == 0 then first else second);
    }
    forall c | IsCluster(actives, 2, c) ensures c == whole {
      ClustersAreDisjoint(actives, 2, c, whole);
    }
    assert AreClusters(actives, 1, 1, [first, second]);
    assert AreClusters(actives, 2, 1, [whole]);
    ClustersAreDetermined(actives, 1, 1, coded, [first, second]);
    ClustersAreDetermined(actives, 2, 1, documented, [whole]);
  }
}
