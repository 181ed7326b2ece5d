/**
 `mergeSegments` of desktop/src/store.ts: transcript segments arriving again are dropped when they
 repeat, or nearly repeat, a segment that is already kept.
 */
module TranscriptMerge {
  import opened Prelude
  import opened EditDistance

  const MAX_PERSISTED_SEGMENTS: nat := 800

  datatype Segment = Segment(
    startMs: Option<int>,
    endMs: Option<int>,
    text: string,
    speakerId: Option<string>,
    speakerLabel: Option<string>)

  /** Strips white space and punctuation and folds case; an uninterpreted text normalizer here. */
  type Normalizer = string -> string

  /** A whole number as JavaScript prints it. */
  function Decimal(n: int): (s: string)
    decreases n < 0, n
  {
    if n < 0 then "-" + Decimal(-n)
    else (if n < 10 then "" else Decimal(n / 10)) + ["0123456789"[n % 10]]
  }

  /** An element of a joined array: a missing one is the empty text. */
  function Shown(n: Option<int>): string {
    if n.Some? then Decimal(n.value) else ""
  }

  /** `segmentKey`: the fields joined by U+0001, a missing speaker counting as the empty one. */
  function Key(s: Segment): string {
    Shown(s.startMs) + "\U{01}" + Shown(s.endMs) + "\U{01}" + s.text + "\U{01}"
    + OrElse(s.speakerId, "") + "\U{01}" + OrElse(s.speakerLabel, "")
  }

  function Speaker(s: Segment): string {
    if s.speakerLabel.Some? then s.speakerLabel.value else OrElse(s.speakerId, "")
  }

  predicate NearDuplicate(norm: Normalizer, x: Segment, y: Segment) {
    var a := norm(x.text);
    var b := norm(y.text);
    var startDelta := Abs(OrElse(x.startMs, 0) - OrElse(y.startMs, 0));
    var endDelta := Abs(OrElse(x.endMs, 0) - OrElse(y.endMs, 0));
    && LikelySame(a, b)
    && (startDelta <= 6000 || endDelta <= 6000)
    && (a == b || Speaker(x) == Speaker(y))
  }

  /** `y` adds nothing to a list that holds `x`. */
  predicate Repeats(norm: Normalizer, x: Segment, y: Segment) {
    Key(x) == Key(y) || NearDuplicate(norm, x, y)
  }

  predicate Covered(norm: Normalizer, kept: seq<Segment>, y: Segment) {
    exists k | 0 <= k < |kept| :: Repeats(norm, kept[k], y)
  }

  function Keep(norm: Normalizer, kept: seq<Segment>, incoming: seq<Segment>): seq<Segment>
    decreases |incoming|
  {
    if incoming == [] then kept
    else Keep(norm, if Covered(norm, kept, incoming[0]) then kept else kept + [incoming[0]], incoming[1..])
  }

  function Newest(s: seq<Segment>): seq<Segment> {
    if |s| <= MAX_PERSISTED_SEGMENTS then s else s[|s| - MAX_PERSISTED_SEGMENTS..]
  }

  function Merged(norm: Normalizer, existing: seq<Segment>, incoming: seq<Segment>): seq<Segment> {
    if incoming == [] then existing else Newest(Keep(norm, existing, incoming))
  }

  method IsNearDuplicateSegment(norm: Normalizer, x: Segment, y: Segment) returns (near: bool)
    ensures near == NearDuplicate(norm, x, y)
  {
    var a := norm(x.text);
    var b := norm(y.text);
    var same := LikelySameTranscript(a, b);
    if !same {
      return false;
    }
    var startDelta := Abs(OrElse(x.startMs, 0) - OrElse(y.startMs, 0));
    var endDelta := Abs(OrElse(x.endMs, 0) - OrElse(y.endMs, 0));
    if !(startDelta <= 6000 || endDelta <= 6000) {
      return false;
    }
    return a == b || Speaker(x) == Speaker(y);
  }

  /** `merged.some(...)` */
  method SomeNearDuplicate(norm: Normalizer, merged: seq<Segment>, seg: Segment) returns (near: bool)
    ensures near == exists k | 0 <= k < |merged| :: NearDuplicate(norm, merged[k], seg)
  {
    for k := 0 to |merged|
      invariant forall j | 0 <= j < k :: !NearDuplicate(norm, merged[j], seg)
    {
      var found := IsNearDuplicateSegment(norm, merged[k], seg);
      if found {
        return true;
      }
    }
    return false;
  }

  method MergeSegments(norm: Normalizer, existing: seq<Segment>, incoming: seq<Segment>)
    returns (r: seq<Segment>)
    ensures r == Merged(norm, existing, incoming)
  {
    if |incoming| == 0 {
      return existing;
    }
    var seen := set s <- existing :: Key(s);
    var merged := existing;
    for i := 0 to |incoming|
      invariant seen == set s <- merged :: Key(s)
      invariant Keep(norm, merged, incoming[i..]) == Keep(norm, existing, incoming)
    {
      var seg := incoming[i];
      assert incoming[i..][0] == seg && incoming[i..][1..] == incoming[i+1..];
      CoveredIff(norm, merged, seg);
      if Key(seg) in seen {
        continue;
      }
      var near := SomeNearDuplicate(norm, merged, seg);
      if near {
        continue;
      }
      seen := seen + {Key(seg)};
      merged := merged + [seg];
    }
    assert incoming[|incoming|..] == [];
    return Newest(merged);
  }

  lemma CoveredIff(norm: Normalizer, kept: seq<Segment>, y: Segment)
    ensures Covered(norm, kept, y) <==>
            || Key(y) in (set s <- kept :: Key(s))
            || exists k | 0 <= k < |kept| :: NearDuplicate(norm, kept[k], y)
  {
    if k :| 0 <= k < |kept| && Key(kept[k]) == Key(y) {
      assert Repeats(norm, kept[k], y);
    }
    if k :| 0 <= k < |kept| && NearDuplicate(norm, kept[k], y) {
      assert Repeats(norm, kept[k], y);
    }
  }

  predicate Within(a: Option<int>, b: Option<int>, ms: nat) {
    0 - ms <= OrElse(a, 0) - OrElse(b, 0) <= ms
  }

  /** The name a segment's speaker goes by: the label before the id, nothing without both. */
  predicate SpokenBy(s: Segment, name: string) {
    s.speakerLabel == Some(name) || (s.speakerLabel.None? && (s.speakerId == Some(name) || (s.speakerId.None? && name == "")))
  }

  /**
   Near duplicates: likely the same once normalized, starts or ends at most 6 seconds apart, and the same
   normalized text or the same speaker.
   */
  lemma NearDuplicateIff(norm: Normalizer, x: Segment, y: Segment)
    ensures NearDuplicate(norm, x, y) <==>
              && LikelySame(norm(x.text), norm(y.text))
              && (Within(x.startMs, y.startMs, 6000) || Within(x.endMs, y.endMs, 6000))
              && (norm(x.text) == norm(y.text) || exists name :: SpokenBy(x, name) && SpokenBy(y, name))
  {
    assert SpokenBy(x, Speaker(x)) && SpokenBy(y, Speaker(y));
  }

  // ---------------------------------------------------------------- what is kept

  lemma {:induction false} KeepExtends(norm: Normalizer, kept: seq<Segment>, incoming: seq<Segment>)
    ensures kept <= Keep(norm, kept, incoming)
    ensures |Keep(norm, kept, incoming)| <= |kept| + |incoming|
    ensures forall k | |kept| <= k < |Keep(norm, kept, incoming)| :: Keep(norm, kept, incoming)[k] in incoming
    decreases |incoming|
  {
    if incoming != [] {
      KeepExtends(norm, if Covered(norm, kept, incoming[0]) then kept else kept + [incoming[0]], incoming[1..]);
    }
  }

  lemma CoveredGrows(norm: Normalizer, kept: seq<Segment>, longer: seq<Segment>, y: Segment)
    requires kept <= longer && Covered(norm, kept, y)
    ensures Covered(norm, longer, y)
  {
    var k :| 0 <= k < |kept| && Repeats(norm, kept[k], y);
    assert Repeats(norm, longer[k], y);
  }

  /** Nothing added repeats what was kept before it. */
  lemma {:induction false} AddedSegmentsAreNew(norm: Normalizer, kept: seq<Segment>, incoming: seq<Segment>)
    ensures var merged := Keep(norm, kept, incoming);
            forall j, k | 0 <= j < k && |kept| <= k < |merged| :: !Repeats(norm, merged[j], merged[k])
    decreases |incoming|
  {
    if incoming != [] {
      var next := if Covered(norm, kept, incoming[0]) then kept else kept + [incoming[0]];
      AddedSegmentsAreNew(norm, next, incoming[1..]);
      KeepExtends(norm, next, incoming[1..]);
      var merged := Keep(norm, kept, incoming);
      forall j, k | 0 <= j < k && |kept| <= k < |merged| ensures !Repeats(norm, merged[j], merged[k]) {
        if k < |next| {
          assert merged[k] == incoming[0] && merged[j] == kept[j];
        }
      }
    }
  }

  /** Every incoming segment is kept or repeats one that is. */
  lemma {:induction false} NothingIsDroppedForNothing(norm: Normalizer, kept: seq<Segment>, incoming: seq<Segment>)
    ensures forall y <- incoming :: Covered(norm, Keep(norm, kept, incoming), y)
    decreases |incoming|
  {
    if incoming != [] {
      var y := incoming[0];
      var next := if Covered(norm, kept, y) then kept else kept + [y];
      if !Covered(norm, kept, y) {
        assert Repeats(norm, next[|kept|], y);
      }
      assert Covered(norm, next, y);
      KeepExtends(norm, next, incoming[1..]);
      CoveredGrows(norm, next, Keep(norm, kept, incoming), y);
      NothingIsDroppedForNothing(norm, next, incoming[1..]);
    }
  }

  ghost predicate Distinct(norm: Normalizer, s: seq<Segment>) {
    forall j, k | 0 <= j < k < |s| :: !Repeats(norm, s[j], s[k])
  }

  /** Merging preserves that no two segments repeat each other. */
  lemma MergeKeepsDistinct(norm: Normalizer, existing: seq<Segment>, incoming: seq<Segment>)
    requires Distinct(norm, existing)
    ensures Distinct(norm, Merged(norm, existing, incoming))
  {
    AddedSegmentsAreNew(norm, existing, incoming);
    KeepExtends(norm, existing, incoming);
    var all := Keep(norm, existing, incoming);
    assert Distinct(norm, all);
  }

  // ---------------------------------------------------------------- merging twice

  lemma {:induction false} KeepAllCovered(norm: Normalizer, kept: seq<Segment>, incoming: seq<Segment>)
    ensures Keep(norm, kept, incoming) == kept <==> forall y <- incoming :: Covered(norm, kept, y)
    decreases |incoming|
  {
    if incoming != [] {
      if Covered(norm, kept, incoming[0]) {
        KeepAllCovered(norm, kept, incoming[1..]);
      } else {
        KeepExtends(norm, kept + [incoming[0]], incoming[1..]);
      }
    }
  }

  lemma NewestIsSuffix(s: seq<Segment>, t: seq<Segment>)
    requires s <= t && |s| < |t| && |s| <= MAX_PERSISTED_SEGMENTS
    ensures Newest(t) != [] && Newest(t)[|Newest(t)|-1] == t[|t|-1]
  {
  }

  /**
   A second merge of the same list changes nothing exactly when every segment of it still repeats
   one that survived the first.
   */
  lemma MergeIdempotentIff(norm: Normalizer, existing: seq<Segment>, incoming: seq<Segment>)
    requires incoming != []
    ensures var once := Merged(norm, existing, incoming);
            Merged(norm, once, incoming) == once <==> forall y <- incoming :: Covered(norm, once, y)
  {
    var once := Merged(norm, existing, incoming);
    var twice := Keep(norm, once, incoming);
    KeepAllCovered(norm, once, incoming);
    KeepExtends(norm, once, incoming);
    if twice != once {
      NewestIsSuffix(once, twice);
      var n := |twice| - 1;
      AddedSegmentsAreNew(norm, once, incoming);
      assert |once| > 0 ==> !Repeats(norm, twice[|once|-1], twice[n]);
    }
  }

  /** While the cap is not exceeded, merging the same list again changes nothing. */
  lemma MergeIdempotentUnderCap(norm: Normalizer, existing: seq<Segment>, incoming: seq<Segment>)
    requires |Keep(norm, existing, incoming)| <= MAX_PERSISTED_SEGMENTS
    ensures Merged(norm, Merged(norm, existing, incoming), incoming) == Merged(norm, existing, incoming)
    ensures existing <= Merged(norm, existing, incoming)
  {
    KeepExtends(norm, existing, incoming);
    if incoming != [] {
      NothingIsDroppedForNothing(norm, existing, incoming);
      MergeIdempotentIff(norm, existing, incoming);
    }
  }

  // ---------------------------------------------------------------- merging twice at the cap

  /** A segment of `k` full-width commas, which normalize to nothing. */
  function Pause(k: nat): Segment {
    Segment(None, None, seq(k, _ => '，'), None, None)
  }

  function Pauses(from: nat, n: nat): seq<Segment> {
    seq(n, k requires 0 <= k < n => Pause(from + k))
  }

  /** Segments of nothing but punctuation repeat only themselves. */
  lemma PausesDiffer(norm: Normalizer, j: nat, k: nat)
    requires norm(Pause(j).text) == ""
    ensures Repeats(norm, Pause(j), Pause(k)) <==> j == k
  {
    assert |Key(Pause(j))| == j + 4 && |Key(Pause(k))| == k + 4;
  }

  /**
   At the cap merging is not idempotent: with 800 segments kept, the list of the oldest of them and a
   new one drops the oldest, and merging the same list again brings it back at the end.
   */
  lemma CapBreaksIdempotence(norm: Normalizer)
    requires forall k: nat :: norm(Pause(k).text) == ""
    ensures var existing, incoming := Pauses(0, 800), [Pause(0), Pause(800)];
            var once := Merged(norm, existing, incoming);
            Distinct(norm, existing) && once == Pauses(1, 800) && Merged(norm, once, incoming) != once
  {
    var existing, incoming := Pauses(0, 800), [Pause(0), Pause(800)];
    forall j, k | 0 <= j < k < 800 ensures !Repeats(norm, existing[j], existing[k]) {
      PausesDiffer(norm, j, k);
    }
    PausesDiffer(norm, 0, 0);
    assert Repeats(norm, existing[0], incoming[0]);
    forall k | 0 <= k < 800 ensures !Repeats(norm, existing[k], incoming[1]) {
      PausesDiffer(norm, k, 800);
    }
    assert incoming[1..] == [Pause(800)] && incoming[1..][1..] == [];
    assert Keep(norm, existing, incoming) == existing + [Pause(800)];
    var once := Merged(norm, existing, incoming);
    assert once == Pauses(1, 800);
    forall k | 0 <= k < 800 ensures !Repeats(norm, once[k], incoming[0]) {
      PausesDiffer(norm, k + 1, 0);
    }
    MergeIdempotentIff(norm, existing, incoming);
    assert incoming[0] in incoming;
  }

  lemma NearDuplicateIsSymmetric(norm: Normalizer, x: Segment, y: Segment)
    ensures NearDuplicate(norm, x, y) == NearDuplicate(norm, y, x)
  {
    LikelySameIsSymmetric(norm(x.text), norm(y.text));
  }
}
