/** Bucketing annotations by time frame and document. */
module Bucketing {
  import opened Collections

  /** `offset` counts the microseconds since the month began. */
  datatype DateTime = DateTime(year: int, month: int, offset: nat)

  datatype Annotation = Annotation(id: nat, updated: DateTime, document: nat, userid: nat, tags: seq<string>)

  datatype Label = Last7Days | MonthOf(year: int, month: int)

  predicate Before(a: DateTime, b: DateTime) {
    a.year < b.year || (a.year == b.year && (a.month < b.month || (a.month == b.month && a.offset < b.offset)))
  }

  /** Most recently updated first. */
  predicate Chronological(annotations: seq<Annotation>) {
    forall i, j :: 0 <= i < j < |annotations| ==> !Before(annotations[i].updated, annotations[j].updated)
  }

  // ----- Documents -----

  datatype DocumentBucket = DocumentBucket(annotations: seq<Annotation>, tags: set<string>, users: set<nat>)

  const EMPTY_BUCKET := DocumentBucket([], {}, {})

  function Append(bucket: DocumentBucket, a: Annotation): DocumentBucket {
    DocumentBucket(bucket.annotations + [a], bucket.tags + Elements(a.tags), bucket.users + {a.userid})
  }

  /** The annotations of one document, in order. */
  function Of(members: seq<Annotation>, document: nat): seq<Annotation> {
    if members == [] then [] else
    var last := |members| - 1;
    Of(members[..last], document) + if members[last].document == document then [members[last]] else []
  }

  /** What the bucket of a document must be. */
  ghost predicate IsBucketOf(bucket: DocumentBucket, members: seq<Annotation>, document: nat) {
    && bucket.annotations == Of(members, document)
    && (forall tag :: tag in bucket.tags <==> exists a :: a in bucket.annotations && tag in a.tags)
    && (forall user :: user in bucket.users <==> exists a :: a in bucket.annotations && a.userid == user)
  }

  lemma AppendToBucket(bucket: DocumentBucket, members: seq<Annotation>, a: Annotation)
    requires IsBucketOf(bucket, members, a.document)
    ensures IsBucketOf(Append(bucket, a), members + [a], a.document)
  {
    var b := Append(bucket, a);
    assert (members + [a])[..|members|] == members;
    assert forall x :: x in b.annotations <==> x in bucket.annotations || x == a;
    assert forall tag :: tag in Elements(a.tags) <==> tag in a.tags;
  }

  lemma OtherBuckets(bucket: DocumentBucket, members: seq<Annotation>, a: Annotation, document: nat)
    requires IsBucketOf(bucket, members, document) && document != a.document
    ensures IsBucketOf(bucket, members + [a], document)
  {
    assert (members + [a])[..|members|] == members;
    assert Of(members, document) + [] == Of(members, document);
  }

  predicate Mentions(members: seq<Annotation>, document: nat) {
    exists i :: 0 <= i < |members| && members[i].document == document
  }

  lemma {:induction false} NoMention(members: seq<Annotation>, document: nat)
    ensures Of(members, document) == [] <==> !Mentions(members, document)
  {
    if members != [] {
      var last := |members| - 1;
      NoMention(members[..last], document);
      assert Mentions(members, document) <==> Mentions(members[..last], document) || members[last].document == document;
    }
  }

  // ----- Time frames -----

  function Cutoff(caption: Label, sevenDaysAgo: DateTime): DateTime {
    match caption
    case Last7Days => sevenDaysAgo
    case MonthOf(year, month) => DateTime(year, month, 0)
  }

  /** The ordered dictionary `documents`, `buckets` holds the bucket of each document. */
  ghost predicate Buckets(documents: seq<nat>, buckets: map<nat, DocumentBucket>, members: seq<Annotation>) {
    && (forall i, j :: 0 <= i < j < |documents| ==> documents[i] != documents[j])
    && buckets.Keys == Elements(documents)
    && (forall d :: d in buckets <==> Mentions(members, d))
    && (forall d :: d in buckets ==> IsBucketOf(buckets[d], members, d))
  }

  lemma BucketsGrow(documents: seq<nat>, buckets: map<nat, DocumentBucket>, members: seq<Annotation>, a: Annotation)
    requires Buckets(documents, buckets, members)
    ensures var d := a.document;
            var bucket := if d in buckets then buckets[d] else EMPTY_BUCKET;
            Buckets(if d in buckets then documents else documents + [d], buckets[d := Append(bucket, a)], members + [a])
  {
    hide IsBucketOf, Append, Mentions;
    var d := a.document;
    var bucket := if d in buckets then buckets[d] else EMPTY_BUCKET;
    if d !in buckets {
      EmptyBucket(members, d);
    }
    AppendToBucket(bucket, members, a);
    forall other: nat
      ensures Mentions(members + [a], other) <==> Mentions(members, other) || other == d
    {
      MoreMentions(members, a, other);
    }
    forall other | other in buckets && other != d
      ensures IsBucketOf(buckets[other], members + [a], other)
    {
      OtherBuckets(buckets[other], members, a, other);
    }
    assert Elements(documents + [d]) == Elements(documents) + {d};
  }

  class Timeframe {
    const caption: Label
    const cutoffTime: DateTime
    /** The keys of the ordered dictionary, and what it holds. */
    var documents: seq<nat>
    var documentBuckets: map<nat, DocumentBucket>
    ghost var members: seq<Annotation>

    ghost predicate Valid()
      reads this
    {
      Buckets(documents, documentBuckets, members)
    }

    constructor (caption: Label, cutoffTime: DateTime)
      ensures this.caption == caption && this.cutoffTime == cutoffTime && members == [] && Valid()
    {
      this.caption := caption;
      this.cutoffTime := cutoffTime;
      documents := [];
      documentBuckets := map[];
      members := [];
    }

    method AppendAnnotation(a: Annotation)
      requires Valid()
      modifies this
      ensures Valid() && members == old(members) + [a]
      ensures documents == if Mentions(old(members), a.document) then old(documents) else old(documents) + [a.document]
    {
      BucketsGrow(documents, documentBuckets, members, a);
      assert a.document in documentBuckets <==> Mentions(members, a.document);
      hide Buckets, Mentions, Append;
      var bucket := EMPTY_BUCKET;
      if a.document in documentBuckets {
        bucket := documentBuckets[a.document];
      } else {
        documents := documents + [a.document];
      }
      documentBuckets := documentBuckets[a.document := Append(bucket, a)];
      members := members + [a];
    }

    predicate WithinCutoff(a: Annotation) {
      !Before(a.updated, cutoffTime)
    }
  }

  lemma MoreMentions(members: seq<Annotation>, a: Annotation, d: nat)
    ensures Mentions(members + [a], d) <==> Mentions(members, d) || d == a.document
  {
    if Mentions(members, d) {
      var i :| 0 <= i < |members| && members[i].document == d;
      assert (members + [a])[i].document == d;
    }
    assert (members + [a])[|members|] == a;
  }

  lemma EmptyBucket(members: seq<Annotation>, d: nat)
    requires !Mentions(members, d)
    ensures IsBucketOf(EMPTY_BUCKET, members, d)
  {
    NoMention(members, d);
  }

  // ----- Which frame an annotation belongs to -----

  function LabelOf(a: Annotation, sevenDaysAgo: DateTime): Label {
    if !Before(a.updated, sevenDaysAgo) then Last7Days else MonthOf(a.updated.year, a.updated.month)
  }

  class TimeframeGenerator {
    const sevenDaysAgo: DateTime
    var timeframes: seq<Timeframe>

    ghost predicate Valid()
      reads this, timeframes
    {
      && |timeframes| <= 1
      && forall t :: t in timeframes ==> t.caption == Last7Days && t.cutoffTime == sevenDaysAgo && t.members == [] && t.Valid()
    }

    constructor (sevenDaysAgo: DateTime)
      ensures Valid() && this.sevenDaysAgo == sevenDaysAgo && timeframes != [] && fresh(timeframes[0])
    {
      this.sevenDaysAgo := sevenDaysAgo;
      var timeframe := new Timeframe(Last7Days, sevenDaysAgo);
      timeframes := [timeframe];
    }

    /** The first pending frame that `a` is within, or else the frame of its month. */
    method Next(a: Annotation) returns (timeframe: Timeframe)
      requires Valid() && (timeframes == [] ==> Before(a.updated, sevenDaysAgo))
      modifies this`timeframes
      ensures Valid() && timeframes == []
      ensures timeframe in old(timeframes) || fresh(timeframe)
      ensures timeframe.caption == LabelOf(a, sevenDaysAgo) && timeframe.cutoffTime == Cutoff(timeframe.caption, sevenDaysAgo)
      ensures timeframe.members == [] && timeframe.Valid()
    {
      while timeframes != []
        invariant Valid() && (forall t :: t in timeframes ==> t in old(timeframes))
        invariant timeframes == [] ==> Before(a.updated, sevenDaysAgo)
        decreases |timeframes|
      {
        timeframe := timeframes[0];
        timeframes := timeframes[1..];
        if timeframe.WithinCutoff(a) {
          return;
        }
      }
      timeframe := new Timeframe(MonthOf(a.updated.year, a.updated.month), DateTime(a.updated.year, a.updated.month, 0));
    }
  }

  /** For an annotation no newer than `p`, the cutoff of the frame of `p` decides whether it
      belongs to the same frame. */
  lemma CutoffDecides(p: Annotation, a: Annotation, sevenDaysAgo: DateTime)
    requires !Before(p.updated, a.updated)
    ensures !Before(a.updated, Cutoff(LabelOf(p, sevenDaysAgo), sevenDaysAgo)) <==>
        LabelOf(a, sevenDaysAgo) == LabelOf(p, sevenDaysAgo)
  {
  }

  lemma CutoffDecidesAt(annotations: seq<Annotation>, i: nat, sevenDaysAgo: DateTime)
    requires Chronological(annotations) && i < |annotations|
    ensures var p, a := annotations[if i > 0 then i - 1 else 0], annotations[i];
            var caption := LabelOf(p, sevenDaysAgo);
            && (!Before(a.updated, Cutoff(caption, sevenDaysAgo)) <==> LabelOf(a, sevenDaysAgo) == caption)
            && (LabelOf(a, sevenDaysAgo) != caption ==> Before(a.updated, sevenDaysAgo))
  {
    BeforeIsIrreflexive(annotations[i].updated);
    CutoffDecides(annotations[if i > 0 then i - 1 else 0], annotations[i], sevenDaysAgo);
  }

  // ----- The result as a value -----

  datatype Frame = Frame(caption: Label, members: seq<Annotation>)

  /** Consecutive annotations with the same caption share a frame. */
  function Frames(annotations: seq<Annotation>, sevenDaysAgo: DateTime): (frames: seq<Frame>)
    ensures annotations == [] <==> frames == []
    ensures frames != [] ==> frames[|frames| - 1].caption == LabelOf(annotations[|annotations| - 1], sevenDaysAgo)
  {
    if annotations == [] then [] else
    var last := |annotations| - 1;
    Place(Frames(annotations[..last], sevenDaysAgo), annotations[last], sevenDaysAgo)
  }

  function Place(frames: seq<Frame>, a: Annotation, sevenDaysAgo: DateTime): seq<Frame> {
    var caption, n := LabelOf(a, sevenDaysAgo), |frames| - 1;
    if frames != [] && frames[n].caption == caption then
      frames[..n] + [Frame(caption, frames[n].members + [a])]
    else
      frames + [Frame(caption, [a])]
  }

  ghost predicate Shows(timeframes: seq<Timeframe>, frames: seq<Frame>)
    reads timeframes
  {
    && |timeframes| == |frames|
    && forall i :: 0 <= i < |frames| ==> timeframes[i].caption == frames[i].caption && timeframes[i].members == frames[i].members
  }

  ghost predicate AllValid(timeframes: seq<Timeframe>, sevenDaysAgo: DateTime)
    reads timeframes
  {
    && (forall i :: 0 <= i < |timeframes| ==>
          timeframes[i].Valid() && timeframes[i].cutoffTime == Cutoff(timeframes[i].caption, sevenDaysAgo))
    && (forall i, j :: 0 <= i < j < |timeframes| ==> timeframes[i] != timeframes[j])
  }

  /** The frames of the first `i` annotations; at first, the frame that awaits annotation 0. */
  function FramesSoFar(annotations: seq<Annotation>, i: nat, sevenDaysAgo: DateTime): (frames: seq<Frame>)
    requires i <= |annotations| && annotations != []
  {
    if i == 0 then [Frame(LabelOf(annotations[0], sevenDaysAgo), [])] else Frames(annotations[..i], sevenDaysAgo)
  }

  predicate CutoffSettles(frames: seq<Frame>, a: Annotation, sevenDaysAgo: DateTime) {
    frames != [] &&
    var caption := frames[|frames| - 1].caption;
    && (!Before(a.updated, Cutoff(caption, sevenDaysAgo)) <==> LabelOf(a, sevenDaysAgo) == caption)
    && (LabelOf(a, sevenDaysAgo) != caption ==> Before(a.updated, sevenDaysAgo))
  }

  lemma FramesGrow(annotations: seq<Annotation>, i: nat, sevenDaysAgo: DateTime)
    requires Chronological(annotations) && i < |annotations|
    ensures var frames := FramesSoFar(annotations, i, sevenDaysAgo);
            && CutoffSettles(frames, annotations[i], sevenDaysAgo)
            && FramesSoFar(annotations, i + 1, sevenDaysAgo) == Place(frames, annotations[i], sevenDaysAgo)
  {
    CutoffDecidesAt(annotations, i, sevenDaysAgo);
    hide LabelOf, Before, Cutoff, Chronological;
    assert annotations[..i + 1][..i] == annotations[..i];
    if i == 0 {
      var caption, a := LabelOf(annotations[0], sevenDaysAgo), annotations[0];
      assert annotations[..0] == [] && annotations[..1] == [a] && [] + [a] == [a];
      assert Place([], a, sevenDaysAgo) == [Frame(caption, [a])];
      assert Place([Frame(caption, [])], a, sevenDaysAgo) == [Frame(caption, [a])];
    }
  }

  /** The loop body: `a` goes to the last frame, or to a new one behind it. */
  method Add(timeframes: seq<Timeframe>, generator: TimeframeGenerator, a: Annotation, ghost frames: seq<Frame>)
    returns (r: seq<Timeframe>)
    requires AllValid(timeframes, generator.sevenDaysAgo) && timeframes != [] && Shows(timeframes, frames)
    requires generator.Valid() && generator.timeframes == []
    requires CutoffSettles(frames, a, generator.sevenDaysAgo)
    modifies generator`timeframes, timeframes[|timeframes| - 1]
    ensures generator.Valid() && generator.timeframes == []
    ensures AllValid(r, generator.sevenDaysAgo) && r != [] && Shows(r, Place(frames, a, generator.sevenDaysAgo))
    ensures forall t :: t in r ==> t in timeframes || fresh(t)
  {
    hide LabelOf, Cutoff, Buckets;
    r := timeframes;
    if !r[|r| - 1].WithinCutoff(a) {
      var next := generator.Next(a);
      assert forall t :: t in timeframes ==> t != next;
      r := r + [next];
    }
    r[|r| - 1].AppendAnnotation(a);
  }

  method Bucket(annotations: seq<Annotation>, sevenDaysAgo: DateTime) returns (timeframes: seq<Timeframe>)
    requires Chronological(annotations)
    ensures AllValid(timeframes, sevenDaysAgo)
    ensures Shows(timeframes, Frames(annotations, sevenDaysAgo))
  {
    hide LabelOf, Cutoff, Chronological, Buckets;
    if annotations == [] {
      return [];
    }
    var generator := new TimeframeGenerator(sevenDaysAgo);
    var first := generator.Next(annotations[0]);
    timeframes := [first];
    ghost var frames := FramesSoFar(annotations, 0, sevenDaysAgo);
    assert AllValid(timeframes, sevenDaysAgo) && Shows(timeframes, frames);
    hide AllValid, Shows, Before, FramesSoFar, Frames, Place, CutoffSettles;
    for i := 0 to |annotations|
      invariant generator.Valid() && generator.timeframes == [] && generator.sevenDaysAgo == sevenDaysAgo
      invariant fresh(generator) && (forall t :: t in timeframes ==> fresh(t))
      invariant AllValid(timeframes, sevenDaysAgo) && timeframes != [] && Shows(timeframes, frames)
      invariant frames == FramesSoFar(annotations, i, sevenDaysAgo)
    {
      FramesGrow(annotations, i, sevenDaysAgo);
      assert timeframes[|timeframes| - 1] in timeframes;
      timeframes := Add(timeframes, generator, annotations[i], frames);
      frames := Place(frames, annotations[i], sevenDaysAgo);
    }
    AllFrames(annotations, sevenDaysAgo);
  }

  lemma AllFrames(annotations: seq<Annotation>, sevenDaysAgo: DateTime)
    requires annotations != []
    ensures FramesSoFar(annotations, |annotations|, sevenDaysAgo) == Frames(annotations, sevenDaysAgo)
  {
    assert annotations[..|annotations|] == annotations;
  }

  // ----- What the frames are -----

  /** All annotations with one label, in order. */
  function Labelled(annotations: seq<Annotation>, caption: Label, sevenDaysAgo: DateTime): seq<Annotation> {
    if annotations == [] then [] else
    var last := |annotations| - 1;
    Labelled(annotations[..last], caption, sevenDaysAgo)
    + if LabelOf(annotations[last], sevenDaysAgo) == caption then [annotations[last]] else []
  }

  predicate HasFrame(frames: seq<Frame>, caption: Label) {
    exists i :: 0 <= i < |frames| && frames[i].caption == caption
  }

  /** The cutoffs decrease, so that no two frames share a label. */
  predicate Descending(frames: seq<Frame>, sevenDaysAgo: DateTime) {
    forall i, j :: 0 <= i < j < |frames| ==>
      Before(Cutoff(frames[j].caption, sevenDaysAgo), Cutoff(frames[i].caption, sevenDaysAgo))
  }

  function Concat(frames: seq<Frame>): seq<Annotation> {
    if frames == [] then [] else Concat(frames[..|frames| - 1]) + frames[|frames| - 1].members
  }

  lemma ConcatPlace(frames: seq<Frame>, a: Annotation, sevenDaysAgo: DateTime)
    ensures Concat(Place(frames, a, sevenDaysAgo)) == Concat(frames) + [a]
  {
    var caption, n := LabelOf(a, sevenDaysAgo), |frames| - 1;
    var placed := Place(frames, a, sevenDaysAgo);
    if frames != [] && frames[n].caption == caption {
      assert placed[..|placed| - 1] == frames[..n];
      assert Concat(frames[..n]) + (frames[n].members + [a]) == (Concat(frames[..n]) + frames[n].members) + [a];
    } else {
      assert placed[..|placed| - 1] == frames;
    }
  }

  /** Cut into consecutive slices, nothing is lost, repeated or moved. */
  lemma {:induction false} FramesSliceTheInput(annotations: seq<Annotation>, sevenDaysAgo: DateTime)
    ensures Concat(Frames(annotations, sevenDaysAgo)) == annotations
  {
    if annotations != [] {
      var last := |annotations| - 1;
      FramesSliceTheInput(annotations[..last], sevenDaysAgo);
      ConcatPlace(Frames(annotations[..last], sevenDaysAgo), annotations[last], sevenDaysAgo);
      assert annotations == annotations[..last] + [annotations[last]];
    }
  }

  /** Each frame holds exactly the annotations with its label, in order. */
  ghost predicate Complete(frames: seq<Frame>, annotations: seq<Annotation>, sevenDaysAgo: DateTime) {
    HoldAll(frames, annotations, sevenDaysAgo) && NothingElse(frames, annotations, sevenDaysAgo)
  }

  ghost predicate HoldAll(frames: seq<Frame>, annotations: seq<Annotation>, sevenDaysAgo: DateTime) {
    forall i :: 0 <= i < |frames| ==> frames[i].members == Labelled(annotations, frames[i].caption, sevenDaysAgo) != []
  }

  ghost predicate NothingElse(frames: seq<Frame>, annotations: seq<Annotation>, sevenDaysAgo: DateTime) {
    forall caption :: !HasFrame(frames, caption) ==> Labelled(annotations, caption, sevenDaysAgo) == []
  }

  lemma CutoffsDecrease(p: Annotation, a: Annotation, sevenDaysAgo: DateTime)
    requires !Before(p.updated, a.updated) && LabelOf(p, sevenDaysAgo) != LabelOf(a, sevenDaysAgo)
    ensures Before(Cutoff(LabelOf(a, sevenDaysAgo), sevenDaysAgo), Cutoff(LabelOf(p, sevenDaysAgo), sevenDaysAgo))
  {
  }

  lemma PlaceKeepsDescending(frames: seq<Frame>, p: Annotation, a: Annotation, sevenDaysAgo: DateTime)
    requires Descending(frames, sevenDaysAgo) && !Before(p.updated, a.updated)
    requires frames != [] && frames[|frames| - 1].caption == LabelOf(p, sevenDaysAgo)
    ensures Descending(Place(frames, a, sevenDaysAgo), sevenDaysAgo)
  {
    hide Before, Cutoff, LabelOf;
    var n := |frames| - 1;
    var placed := Place(frames, a, sevenDaysAgo);
    if frames[n].caption != LabelOf(a, sevenDaysAgo) {
      CutoffsDecrease(p, a, sevenDaysAgo);
      forall i | 0 <= i <= n
        ensures Before(Cutoff(placed[n + 1].caption, sevenDaysAgo), Cutoff(placed[i].caption, sevenDaysAgo))
      {
        if i < n {
          BeforeIsTransitive(Cutoff(placed[n + 1].caption, sevenDaysAgo), Cutoff(frames[n].caption, sevenDaysAgo),
              Cutoff(frames[i].caption, sevenDaysAgo));
        }
      }
    }
  }

  lemma BeforeIsTransitive(a: DateTime, b: DateTime, c: DateTime)
    requires Before(a, b) && Before(b, c)
    ensures Before(a, c)
  {
  }

  lemma BeforeIsIrreflexive(a: DateTime)
    ensures !Before(a, a)
  {
  }

  lemma LabelledGrows(annotations: seq<Annotation>, a: Annotation, caption: Label, sevenDaysAgo: DateTime)
    ensures var before, after := Labelled(annotations, caption, sevenDaysAgo), Labelled(annotations + [a], caption, sevenDaysAgo);
            after == if LabelOf(a, sevenDaysAgo) == caption then before + [a] else before
  {
    assert (annotations + [a])[..|annotations|] == annotations;
  }

  /** Placing changes or adds the last frame only, and its label occurs nowhere else. */
  lemma PlacedFrames(frames: seq<Frame>, a: Annotation, sevenDaysAgo: DateTime)
    requires Descending(Place(frames, a, sevenDaysAgo), sevenDaysAgo)
    ensures var placed, caption := Place(frames, a, sevenDaysAgo), LabelOf(a, sevenDaysAgo);
            var m := |placed| - 1;
            && m <= |frames| <= m + 1 && placed[m].caption == caption
            && (forall i :: 0 <= i < m ==> placed[i] == frames[i] && placed[i].caption != caption)
            && (|frames| == m ==> placed[m].members == [a])
            && (|frames| > m ==> frames[m].caption == caption && placed[m].members == frames[m].members + [a])
  {
    hide Before, Cutoff, LabelOf;
    BeforeIsIrreflexive(Cutoff(LabelOf(a, sevenDaysAgo), sevenDaysAgo));
  }

  lemma CompleteParts(frames: seq<Frame>, annotations: seq<Annotation>, sevenDaysAgo: DateTime)
    ensures Complete(frames, annotations, sevenDaysAgo) <==>
            HoldAll(frames, annotations, sevenDaysAgo) && NothingElse(frames, annotations, sevenDaysAgo)
  {
  }

  lemma PlaceKeepsMembers(frames: seq<Frame>, annotations: seq<Annotation>, a: Annotation, sevenDaysAgo: DateTime)
    requires Complete(frames, annotations, sevenDaysAgo)
    requires Descending(Place(frames, a, sevenDaysAgo), sevenDaysAgo)
    ensures HoldAll(Place(frames, a, sevenDaysAgo), annotations + [a], sevenDaysAgo)
  {
    PlacedFrames(frames, a, sevenDaysAgo);
    hide LabelOf, Place, Labelled, Descending;
    var placed, caption := Place(frames, a, sevenDaysAgo), LabelOf(a, sevenDaysAgo);
    var m := |placed| - 1;
    if |frames| == m {
      NoFrameFor(frames, placed, caption);
    }
    hide NothingElse;
    forall i | 0 <= i <= m
      ensures placed[i].members == Labelled(annotations + [a], placed[i].caption, sevenDaysAgo) != []
    {
      LabelledGrows(annotations, a, placed[i].caption, sevenDaysAgo);
    }
  }

  lemma NoFrameFor(frames: seq<Frame>, placed: seq<Frame>, caption: Label)
    requires |frames| < |placed|
    requires forall i :: 0 <= i < |frames| ==> placed[i] == frames[i] && placed[i].caption != caption
    ensures !HasFrame(frames, caption)
  {
  }

  lemma PlaceKeepsOthersOut(frames: seq<Frame>, annotations: seq<Annotation>, a: Annotation, sevenDaysAgo: DateTime)
    requires NothingElse(frames, annotations, sevenDaysAgo)
    requires Descending(Place(frames, a, sevenDaysAgo), sevenDaysAgo)
    ensures NothingElse(Place(frames, a, sevenDaysAgo), annotations + [a], sevenDaysAgo)
  {
    PlacedFrames(frames, a, sevenDaysAgo);
    hide LabelOf, Place, Labelled, Descending, HasFrame;
    var placed := Place(frames, a, sevenDaysAgo);
    forall other | !HasFrame(placed, other)
      ensures Labelled(annotations + [a], other, sevenDaysAgo) == []
    {
      LabelledGrows(annotations, a, other, sevenDaysAgo);
      NoFrameBefore(frames, placed, LabelOf(a, sevenDaysAgo), other);
    }
  }

  lemma NoFrameBefore(frames: seq<Frame>, placed: seq<Frame>, caption: Label, other: Label)
    requires placed != [] && placed[|placed| - 1].caption == caption && !HasFrame(placed, other)
    requires forall i :: 0 <= i < |frames| ==> i < |placed| && frames[i].caption == placed[i].caption
    ensures other != caption && !HasFrame(frames, other)
  {
  }

  lemma OneFrameDescends(a: Annotation, sevenDaysAgo: DateTime)
    ensures Descending(Place([], a, sevenDaysAgo), sevenDaysAgo)
  {
  }

  lemma PlaceKeepsComplete(frames: seq<Frame>, annotations: seq<Annotation>, a: Annotation, sevenDaysAgo: DateTime)
    requires Complete(frames, annotations, sevenDaysAgo) && Descending(Place(frames, a, sevenDaysAgo), sevenDaysAgo)
    ensures Complete(Place(frames, a, sevenDaysAgo), annotations + [a], sevenDaysAgo)
  {
    CompleteParts(frames, annotations, sevenDaysAgo);
    CompleteParts(Place(frames, a, sevenDaysAgo), annotations + [a], sevenDaysAgo);
    hide Complete, HoldAll, NothingElse, Place, Descending;
    PlaceKeepsMembers(frames, annotations, a, sevenDaysAgo);
    PlaceKeepsOthersOut(frames, annotations, a, sevenDaysAgo);
  }

  /** The last annotation is placed behind, or into, the frames of the others. */
  lemma LastIsPlaced(annotations: seq<Annotation>, sevenDaysAgo: DateTime)
    requires Chronological(annotations) && annotations != []
    requires Descending(Frames(annotations[..|annotations| - 1], sevenDaysAgo), sevenDaysAgo)
    ensures var last := |annotations| - 1;
            var before := Frames(annotations[..last], sevenDaysAgo);
            && Frames(annotations, sevenDaysAgo) == Place(before, annotations[last], sevenDaysAgo)
            && Descending(Place(before, annotations[last], sevenDaysAgo), sevenDaysAgo)
  {
    hide Before, Cutoff, LabelOf, Place, Descending;
    var last := |annotations| - 1;
    if last > 0 {
      assert annotations[..last][last - 1] == annotations[last - 1];
      PlaceKeepsDescending(Frames(annotations[..last], sevenDaysAgo), annotations[last - 1], annotations[last], sevenDaysAgo);
    } else {
      assert Frames(annotations[..last], sevenDaysAgo) == [];
      OneFrameDescends(annotations[last], sevenDaysAgo);
    }
  }

  lemma EmptyFrames(sevenDaysAgo: DateTime)
    ensures Descending([], sevenDaysAgo) && Complete([], [], sevenDaysAgo) && Frames([], sevenDaysAgo) == []
  {
  }

  /** The frames are the labels that occur, newest first, each with all its annotations. */
  lemma {:induction false} FramesAreTheLabels(annotations: seq<Annotation>, sevenDaysAgo: DateTime)
    requires Chronological(annotations)
    ensures var frames := Frames(annotations, sevenDaysAgo);
            Descending(frames, sevenDaysAgo) && Complete(frames, annotations, sevenDaysAgo)
  {
    hide Frames, Place, Descending, Complete, Before;
    if annotations == [] {
      EmptyFrames(sevenDaysAgo);
    } else {
      var last := |annotations| - 1;
      FramesAreTheLabels(annotations[..last], sevenDaysAgo);
      LastIsPlaced(annotations, sevenDaysAgo);
      PlaceKeepsComplete(Frames(annotations[..last], sevenDaysAgo), annotations[..last], annotations[last], sevenDaysAgo);
      assert annotations == annotations[..last] + [annotations[last]];
    }
  }

  lemma {:induction false} LabelledMembers(annotations: seq<Annotation>, caption: Label, sevenDaysAgo: DateTime, a: Annotation)
    ensures a in Labelled(annotations, caption, sevenDaysAgo) <==> a in annotations && LabelOf(a, sevenDaysAgo) == caption
  {
    if annotations != [] {
      LabelledMembers(annotations[..|annotations| - 1], caption, sevenDaysAgo, a);
      assert annotations == annotations[..|annotations| - 1] + [annotations[|annotations| - 1]];
    }
  }

  /** Every annotation is within the cutoff of its own frame and of no earlier one, and the
      members of a month frame all date from that month. */
  lemma MembersAreWithinTheirCutoff(annotations: seq<Annotation>, sevenDaysAgo: DateTime, i: nat, a: Annotation)
    requires Chronological(annotations) && i < |Frames(annotations, sevenDaysAgo)|
    requires a in Frames(annotations, sevenDaysAgo)[i].members
    ensures var frames := Frames(annotations, sevenDaysAgo);
            && !Before(a.updated, Cutoff(frames[i].caption, sevenDaysAgo))
            && (forall j :: 0 <= j < i ==> Before(a.updated, Cutoff(frames[j].caption, sevenDaysAgo)))
            && (frames[i].caption.MonthOf? ==>
                  frames[i].caption == MonthOf(a.updated.year, a.updated.month) && Before(a.updated, sevenDaysAgo))
  {
    hide Complete, Descending, Frames, Labelled, Chronological;
    var frames := Frames(annotations, sevenDaysAgo);
    FramesAreTheLabels(annotations, sevenDaysAgo);
    MembersOfComplete(frames, annotations, sevenDaysAgo, i, a);
    forall j | 0 <= j < i
      ensures Before(a.updated, Cutoff(frames[j].caption, sevenDaysAgo))
    {
      var b := SomeMember(frames, annotations, sevenDaysAgo, j);
      LaterFrame(frames, sevenDaysAgo, i, j, b, a);
    }
  }

  lemma MembersOfComplete(frames: seq<Frame>, annotations: seq<Annotation>, sevenDaysAgo: DateTime, i: nat, a: Annotation)
    requires Complete(frames, annotations, sevenDaysAgo) && i < |frames| && a in frames[i].members
    ensures a in annotations && LabelOf(a, sevenDaysAgo) == frames[i].caption
  {
    LabelledMembers(annotations, frames[i].caption, sevenDaysAgo, a);
  }

  lemma SomeMember(frames: seq<Frame>, annotations: seq<Annotation>, sevenDaysAgo: DateTime, j: nat) returns (b: Annotation)
    requires Complete(frames, annotations, sevenDaysAgo) && j < |frames|
    ensures b in annotations && LabelOf(b, sevenDaysAgo) == frames[j].caption
  {
    b := frames[j].members[0];
    MembersOfComplete(frames, annotations, sevenDaysAgo, j, b);
  }

  lemma LaterFrame(frames: seq<Frame>, sevenDaysAgo: DateTime, i: nat, j: nat, b: Annotation, a: Annotation)
    requires Descending(frames, sevenDaysAgo) && j < i < |frames|
    requires LabelOf(a, sevenDaysAgo) == frames[i].caption && LabelOf(b, sevenDaysAgo) == frames[j].caption
    ensures Before(a.updated, Cutoff(frames[j].caption, sevenDaysAgo))
  {
    assert Before(Cutoff(frames[i].caption, sevenDaysAgo), Cutoff(frames[j].caption, sevenDaysAgo));
  }

  /** Each annotation lands in exactly one frame, and there in the bucket of its document. */
  lemma ExactlyOneFrame(annotations: seq<Annotation>, sevenDaysAgo: DateTime, a: Annotation)
    requires Chronological(annotations) && a in annotations
    ensures var frames := Frames(annotations, sevenDaysAgo);
            && (exists i :: 0 <= i < |frames| && a in frames[i].members)
            && (forall i, j :: 0 <= i < j < |frames| ==> !(a in frames[i].members && a in frames[j].members))
            && (forall i, d :: 0 <= i < |frames| && a in frames[i].members ==>
                  (a in Of(frames[i].members, d) <==> d == a.document))
  {
    hide Frames, Chronological, Before, Cutoff, LabelOf, Of;
    var frames := Frames(annotations, sevenDaysAgo);
    FramesAreTheLabels(annotations, sevenDaysAgo);
    LabelledMembers(annotations, LabelOf(a, sevenDaysAgo), sevenDaysAgo, a);
    assert HasFrame(frames, LabelOf(a, sevenDaysAgo));
    forall i, j | 0 <= i < j < |frames|
      ensures !(a in frames[i].members && a in frames[j].members)
    {
      LabelledMembers(annotations, frames[i].caption, sevenDaysAgo, a);
      LabelledMembers(annotations, frames[j].caption, sevenDaysAgo, a);
      BeforeIsIrreflexive(Cutoff(frames[i].caption, sevenDaysAgo));
    }
    forall i, d | 0 <= i < |frames| && a in frames[i].members
      ensures a in Of(frames[i].members, d) <==> d == a.document
    {
      OfMembers(frames[i].members, d, a);
    }
  }

  lemma {:induction false} OfMembers(members: seq<Annotation>, document: nat, a: Annotation)
    ensures a in Of(members, document) <==> a in members && a.document == document
  {
    if members != [] {
      OfMembers(members[..|members| - 1], document, a);
      assert members == members[..|members| - 1] + [members[|members| - 1]];
    }
  }
}
