/**
 * The review loop: pre-labels become pixel rectangles, reviewed rectangles become annotations, and
 * each sample gets one new revision. Coordinates are real numbers.
 */
module Review {
  import opened Prelude

  /** A normalised box, centre and size, and a pixel rectangle, two corners. */
  datatype Box = Box(cx: real, cy: real, w: real, h: real)

  datatype Rect = Rect(x1: real, y1: real, x2: real, y2: real)

  // ---- Geometry ----

  ghost predicate ValidDims(width: int, height: int) {
    width > 0 && height > 0
  }

  function ToRect(b: Box, width: real, height: real): Rect {
    Rect((b.cx - b.w / 2.0) * width, (b.cy - b.h / 2.0) * height,
         (b.cx + b.w / 2.0) * width, (b.cy + b.h / 2.0) * height)
  }

  function Lower(a: real, b: real): real {
    if a <= b then a else b
  }

  function Upper(a: real, b: real): real {
    if a <= b then b else a
  }

  function ToBox(r: Rect, width: real, height: real): Box
    requires width > 0.0 && height > 0.0
  {
    var left, right := Lower(r.x1, r.x2), Upper(r.x1, r.x2);
    var top, bottom := Lower(r.y1, r.y2), Upper(r.y1, r.y2);
    Box((left + right) / (2.0 * width), (top + bottom) / (2.0 * height),
        (right - left) / width, (bottom - top) / height)
  }

  ghost function Abs(x: real): real {
    if x < 0.0 then -x else x
  }

  lemma Divided(x: real, q: real, d: real)
    requires d > 0.0 && x == q * d
    ensures x / d == q
  {
  }

  /** One axis there and back: the centre survives, the size comes back without its sign. */
  lemma AxisBack(c: real, s: real, d: real)
    requires d > 0.0
    ensures var a, b := (c - s / 2.0) * d, (c + s / 2.0) * d;
            && (Lower(a, b) + Upper(a, b)) / (2.0 * d) == c
            && (Upper(a, b) - Lower(a, b)) / d == Abs(s)
  {
    var a, b := (c - s / 2.0) * d, (c + s / 2.0) * d;
    assert b - a == s * d;
    assert a + b == c * (2.0 * d);
    Divided(a + b, c, 2.0 * d);
    if s >= 0.0 {
      assert s * d >= 0.0;
      Divided(b - a, s, d);
    } else {
      assert s * d <= 0.0;
      assert a - b == (-s) * d;
      Divided(a - b, -s, d);
    }
  }

  /** The conversions are inverse on a box exactly when its sizes are not negative. */
  lemma BoxRoundTripIff(b: Box, width: real, height: real)
    requires width > 0.0 && height > 0.0
    ensures ToBox(ToRect(b, width, height), width, height) == b <==> b.w >= 0.0 && b.h >= 0.0
  {
    AxisBack(b.cx, b.w, width);
    AxisBack(b.cy, b.h, height);
  }

  lemma AxisForth(p: real, q: real, d: real)
    requires d > 0.0
    ensures var c, s := (Lower(p, q) + Upper(p, q)) / (2.0 * d), (Upper(p, q) - Lower(p, q)) / d;
            (c - s / 2.0) * d == Lower(p, q) && (c + s / 2.0) * d == Upper(p, q)
  {
    var lo, hi := Lower(p, q), Upper(p, q);
    var c, s := (lo + hi) / (2.0 * d), (hi - lo) / d;
    assert s * d == hi - lo;
    assert c * (2.0 * d) == lo + hi;
    assert c * d == (lo + hi) / 2.0;
    assert (s / 2.0) * d == (hi - lo) / 2.0;
  }

  /** The other way round a rectangle comes back with its corners put in order. */
  lemma RectRoundTrip(r: Rect, width: real, height: real)
    requires width > 0.0 && height > 0.0
    ensures ToRect(ToBox(r, width, height), width, height)
         == Rect(Lower(r.x1, r.x2), Lower(r.y1, r.y2), Upper(r.x1, r.x2), Upper(r.y1, r.y2))
  {
    AxisForth(r.x1, r.x2, width);
    AxisForth(r.y1, r.y2, height);
  }

  // ---- Push ----

  datatype Annotation = Annotation(classKey: Option<string>, coords: seq<real>)

  datatype Image = Image(annotations: seq<Annotation>, width: int, height: int)

  /** A shape on a frame; anything but a rectangle has no box to read. */
  datatype Shape = Shape(frame: int, rectangle: bool, labelId: int, points: Rect)

  ghost function BoxOf(a: Annotation): Box
    requires |a.coords| == 4
  {
    Box(a.coords[0], a.coords[1], a.coords[2], a.coords[3])
  }

  /** A pre-label is pushed if its class has a label and it has four coordinates. */
  ghost predicate Pushed(a: Annotation, labels: map<string, int>) {
    a.classKey.Some? && a.classKey.value in labels && |a.coords| == 4
  }

  ghost function KeptAnnotations(annotations: seq<Annotation>, labels: map<string, int>): seq<Annotation> {
    if annotations == [] then []
    else
      var n := |annotations| - 1;
      KeptAnnotations(annotations[..n], labels)
      + if Pushed(annotations[n], labels) then [annotations[n]] else []
  }

  ghost function ShapeOf(frame: nat, a: Annotation, labels: map<string, int>, image: Image): Shape
    requires Pushed(a, labels)
  {
    Shape(frame, true, labels[a.classKey.value], ToRect(BoxOf(a), image.width as real, image.height as real))
  }

  ghost function FrameShapes(frame: nat, image: Image, labels: map<string, int>, count: nat): seq<Shape>
    requires count <= |image.annotations|
  {
    if count == 0 then []
    else
      var a := image.annotations[count - 1];
      FrameShapes(frame, image, labels, count - 1)
      + if Pushed(a, labels) then [ShapeOf(frame, a, labels, image)] else []
  }

  ghost function AllShapes(images: seq<Image>, labels: map<string, int>): seq<Shape> {
    if images == [] then []
    else
      var n := |images| - 1;
      AllShapes(images[..n], labels) + FrameShapes(n, images[n], labels, |images[n].annotations|)
  }

  /** Building the shapes fails exactly when a kept pre-label sits on an image without a size. */
  method BuildShapes(images: seq<Image>, labels: map<string, int>) returns (shapes: Result<seq<Shape>>)
    ensures shapes.Err? <==> exists i :: 0 <= i < |images| && !ValidDims(images[i].width, images[i].height)
                               && exists a :: a in images[i].annotations && Pushed(a, labels)
    ensures shapes.Ok? ==> shapes.value == AllShapes(images, labels)
  {
    var built: seq<Shape> := [];
    for frame := 0 to |images|
      invariant built == AllShapes(images[..frame], labels)
      invariant forall i, a :: 0 <= i < frame && a in images[i].annotations && Pushed(a, labels) ==>
        ValidDims(images[i].width, images[i].height)
    {
      var img := images[frame];
      for k := 0 to |img.annotations|
        invariant built == AllShapes(images[..frame], labels) + FrameShapes(frame, img, labels, k)
        invariant forall a :: a in img.annotations[..k] && Pushed(a, labels) ==> ValidDims(img.width, img.height)
      {
        var a := img.annotations[k];
        assert a in img.annotations && img.annotations[..k + 1] == img.annotations[..k] + [a];
        if a.classKey.Some? && a.classKey.value in labels && |a.coords| == 4 {
          if img.width <= 0 || img.height <= 0 { return Err; }
          var box := Box(a.coords[0], a.coords[1], a.coords[2], a.coords[3]);
          var rect := ToRect(box, img.width as real, img.height as real);
          built := built + [Shape(frame, true, labels[a.classKey.value], rect)];
        }
      }
      assert img.annotations[..|img.annotations|] == img.annotations;
      assert images[..frame + 1][..frame] == images[..frame];
    }
    assert images[..|images|] == images;
    shapes := Ok(built);
  }

  // ---- Pull ----

  ghost function Reviewed(s: Shape, names: map<int, string>, width: int, height: int): Annotation
    requires ValidDims(width, height)
  {
    var b := ToBox(s.points, width as real, height as real);
    Annotation(if s.labelId in names then Some(names[s.labelId]) else None, [b.cx, b.cy, b.w, b.h])
  }

  /** The annotations of one frame, in the order of the server's shapes. */
  ghost function Group(shapes: seq<Shape>, names: map<int, string>, dims: seq<(int, int)>, frame: nat): seq<Annotation>
    requires frame < |dims| && ValidDims(dims[frame].0, dims[frame].1)
  {
    if shapes == [] then []
    else
      var n := |shapes| - 1;
      Group(shapes[..n], names, dims, frame)
      + if shapes[n].rectangle && shapes[n].frame == frame
        then [Reviewed(shapes[n], names, dims[frame].0, dims[frame].1)] else []
  }

  /** A rectangle whose frame number is below the number of frames; it may still be negative. */
  ghost predicate Taken(s: Shape, dims: seq<(int, int)>) {
    s.rectangle && s.frame < |dims|
  }

  /** The place a frame number denotes in a list: from the end if it is negative, if anywhere. */
  ghost function At(frame: int, dims: seq<(int, int)>): Option<nat>
    requires frame < |dims|
  {
    if frame >= 0 then Some(frame) else if -frame <= |dims| then Some(|dims| + frame) else None
  }

  /** Reading the shape does not raise: its frame exists and has a size. */
  ghost predicate Readable(s: Shape, dims: seq<(int, int)>)
    requires Taken(s, dims)
  {
    At(s.frame, dims).Some? && ValidDims(dims[At(s.frame, dims).value].0, dims[At(s.frame, dims).value].1)
  }

  /** The annotations filed under one frame number, in the order of the server's shapes. */
  ghost function Filed(shapes: seq<Shape>, names: map<int, string>, dims: seq<(int, int)>, frame: int)
    : seq<Annotation>
  {
    if shapes == [] then []
    else
      var n, s := |shapes| - 1, shapes[|shapes| - 1];
      Filed(shapes[..n], names, dims, frame)
      + if Taken(s, dims) && s.frame == frame && Readable(s, dims)
        then [Reviewed(s, names, dims[At(frame, dims).value].0, dims[At(frame, dims).value].1)] else []
  }

  /** The frame numbers that rectangles were taken from, each with its annotations. */
  ghost predicate Pulled(byFrame: map<int, seq<Annotation>>, shapes: seq<Shape>, names: map<int, string>,
                         dims: seq<(int, int)>)
  {
    && (forall f :: f in byFrame <==> exists s :: s in shapes && Taken(s, dims) && s.frame == f)
    && forall f :: f in byFrame ==> byFrame[f] == Filed(shapes, names, dims, f)
  }

  /**
   * Group the reviewed rectangles by frame; frames without any are left out. A rectangle without a
   * frame, or on a sample without a size, is an error.
   */
  method PullReview(shapes: seq<Shape>, names: map<int, string>, dims: seq<(int, int)>)
    returns (byFrame: Result<map<int, seq<Annotation>>>)
    ensures byFrame.Err? <==> exists s :: s in shapes && Taken(s, dims) && !Readable(s, dims)
    ensures byFrame.Ok? ==> Pulled(byFrame.value, shapes, names, dims)
  {
    hide Filed;
    var grouped: map<int, seq<Annotation>> := map[];
    for i := 0 to |shapes|
      invariant forall s :: s in shapes[..i] && Taken(s, dims) ==> Readable(s, dims)
      invariant forall f :: f in grouped <==> exists s :: s in shapes[..i] && Taken(s, dims) && s.frame == f
      invariant forall f :: f in grouped ==> grouped[f] == Filed(shapes[..i], names, dims, f)
    {
      var s := shapes[i];
      assert s in shapes && shapes[..i + 1] == shapes[..i] + [s];
      forall f: int { FiledOne(shapes[..i], s, names, dims, f); }
      if s.rectangle && s.frame < |dims| {
        if s.frame < -|dims| { return Err; }
        var (w, h) := dims[if s.frame >= 0 then s.frame else |dims| + s.frame];
        if w <= 0 || h <= 0 { return Err; }
        var b := ToBox(s.points, w as real, h as real);
        var name := if s.labelId in names then Some(names[s.labelId]) else None;
        var before := if s.frame in grouped then grouped[s.frame] else [];
        if s.frame !in grouped { NothingYet(shapes[..i], names, dims, s.frame); }
        grouped := grouped[s.frame := before + [Annotation(name, [b.cx, b.cy, b.w, b.h])]];
      }
    }
    assert shapes[..|shapes|] == shapes;
    byFrame := Ok(grouped);
  }

  lemma FiledOne(shapes: seq<Shape>, s: Shape, names: map<int, string>, dims: seq<(int, int)>, frame: int)
    ensures Filed(shapes + [s], names, dims, frame)
         == Filed(shapes, names, dims, frame)
            + if Taken(s, dims) && s.frame == frame && Readable(s, dims)
              then [Reviewed(s, names, dims[At(frame, dims).value].0, dims[At(frame, dims).value].1)] else []
  {
    assert (shapes + [s])[..|shapes|] == shapes;
  }

  lemma {:induction false} NothingYet(shapes: seq<Shape>, names: map<int, string>, dims: seq<(int, int)>, frame: int)
    requires forall s :: s in shapes && Taken(s, dims) ==> s.frame != frame
    ensures Filed(shapes, names, dims, frame) == []
  {
    if shapes != [] {
      var n := |shapes| - 1;
      assert shapes[n] in shapes;
      NothingYet(shapes[..n], names, dims, frame);
    }
  }

  /** For a frame with a size, what is filed under its number are its reviewed rectangles. */
  lemma {:induction false} FiledIsGroup(shapes: seq<Shape>, names: map<int, string>, dims: seq<(int, int)>, frame: nat)
    requires frame < |dims| && ValidDims(dims[frame].0, dims[frame].1)
    ensures Filed(shapes, names, dims, frame) == Group(shapes, names, dims, frame)
  {
    if shapes != [] {
      FiledIsGroup(shapes[..|shapes| - 1], names, dims, frame);
    }
  }

  // ---- The unchanged review ----

  /** Label ids and names are two views of one table. */
  ghost predicate LabelsMatch(labels: map<string, int>, names: map<int, string>) {
    forall key :: key in labels ==> labels[key] in names && names[labels[key]] == key
  }

  ghost predicate SizesPositive(annotations: seq<Annotation>, labels: map<string, int>) {
    forall a :: a in annotations && Pushed(a, labels) ==> a.coords[2] >= 0.0 && a.coords[3] >= 0.0
  }

  lemma ReviewedBack(frame: nat, a: Annotation, labels: map<string, int>, names: map<int, string>, image: Image)
    requires Pushed(a, labels) && LabelsMatch(labels, names) && ValidDims(image.width, image.height)
    requires a.coords[2] >= 0.0 && a.coords[3] >= 0.0
    ensures Reviewed(ShapeOf(frame, a, labels, image), names, image.width, image.height) == a
  {
    var b := BoxOf(a);
    BoxRoundTripIff(b, image.width as real, image.height as real);
    assert a.coords == [b.cx, b.cy, b.w, b.h];
  }

  lemma {:induction false} GroupJoins(a: seq<Shape>, b: seq<Shape>, names: map<int, string>, dims: seq<(int, int)>,
                                      frame: nat)
    requires frame < |dims| && ValidDims(dims[frame].0, dims[frame].1)
    ensures Group(a + b, names, dims, frame) == Group(a, names, dims, frame) + Group(b, names, dims, frame)
    decreases |b|
  {
    if b == [] {
      assert a + b == a;
    } else {
      var n := |b| - 1;
      GroupJoins(a, b[..n], names, dims, frame);
      assert (a + b)[..|a + b| - 1] == a + b[..n] && (a + b)[|a + b| - 1] == b[n];
    }
  }

  lemma {:induction false} OwnFrame(frame: nat, image: Image, labels: map<string, int>, names: map<int, string>,
                                    dims: seq<(int, int)>, count: nat)
    requires count <= |image.annotations| && frame < |dims| && dims[frame] == (image.width, image.height)
    requires ValidDims(image.width, image.height) && LabelsMatch(labels, names)
    requires SizesPositive(image.annotations, labels)
    ensures Group(FrameShapes(frame, image, labels, count), names, dims, frame)
         == KeptAnnotations(image.annotations[..count], labels)
  {
    if count > 0 {
      var a := image.annotations[count - 1];
      OwnFrame(frame, image, labels, names, dims, count - 1);
      assert a in image.annotations;
      assert image.annotations[..count][..count - 1] == image.annotations[..count - 1];
      if Pushed(a, labels) {
        ReviewedBack(frame, a, labels, names, image);
        var shapes := FrameShapes(frame, image, labels, count);
        assert shapes[..|shapes| - 1] == FrameShapes(frame, image, labels, count - 1);
      } else {
        assert FrameShapes(frame, image, labels, count) == FrameShapes(frame, image, labels, count - 1);
      }
    }
  }

  lemma {:induction false} ForeignFrame(at: nat, image: Image, labels: map<string, int>, names: map<int, string>,
                                        dims: seq<(int, int)>, frame: nat, count: nat)
    requires count <= |image.annotations| && at != frame
    requires frame < |dims| && ValidDims(dims[frame].0, dims[frame].1)
    ensures Group(FrameShapes(at, image, labels, count), names, dims, frame) == []
  {
    if count > 0 {
      ForeignFrame(at, image, labels, names, dims, frame, count - 1);
      var shapes := FrameShapes(at, image, labels, count);
      if Pushed(image.annotations[count - 1], labels) {
        assert shapes[..|shapes| - 1] == FrameShapes(at, image, labels, count - 1);
      } else {
        assert FrameShapes(at, image, labels, count) == FrameShapes(at, image, labels, count - 1);
      }
    }
  }

  /** Pushing and pulling back gives each frame its kept pre-labels, in order and unchanged. */
  lemma {:induction false} PushPull(images: seq<Image>, labels: map<string, int>, names: map<int, string>,
                                    dims: seq<(int, int)>, frame: nat)
    requires LabelsMatch(labels, names) && frame < |dims| && ValidDims(dims[frame].0, dims[frame].1)
    requires frame < |images| ==>
      dims[frame] == (images[frame].width, images[frame].height) && SizesPositive(images[frame].annotations, labels)
    ensures Group(AllShapes(images, labels), names, dims, frame)
         == if frame < |images| then KeptAnnotations(images[frame].annotations, labels) else []
    decreases |images|
  {
    if images != [] {
      var n := |images| - 1;
      var last := images[n];
      PushPull(images[..n], labels, names, dims, frame);
      GroupJoins(AllShapes(images[..n], labels), FrameShapes(n, last, labels, |last.annotations|), names, dims, frame);
      if n == frame {
        OwnFrame(frame, last, labels, names, dims, |last.annotations|);
        assert last.annotations[..|last.annotations|] == last.annotations;
      } else {
        ForeignFrame(n, last, labels, names, dims, frame, |last.annotations|);
      }
    }
  }

  // ---- Sync ----

  type Sample = string

  datatype Revision = Revision(sample: Sample, no: int, payload: seq<Annotation>)

  /** The highest revision number of a sample, if it has any. */
  function Latest(revs: seq<Revision>, s: Sample): Option<int> {
    if revs == [] then None
    else
      var n := |revs| - 1;
      var before := Latest(revs[..n], s);
      if revs[n].sample == s && (before.None? || revs[n].no > before.value) then Some(revs[n].no) else before
  }

  /** It is the number of a revision of the sample, none of which has a higher one. */
  lemma {:induction false} LatestIsHighest(revs: seq<Revision>, s: Sample)
    ensures var no := Latest(revs, s);
      && (no.None? <==> forall r :: r in revs ==> r.sample != s)
      && (no.Some? ==> (exists r :: r in revs && r.sample == s && r.no == no.value)
                       && forall r :: r in revs && r.sample == s ==> r.no <= no.value)
  {
    if revs != [] {
      var n := |revs| - 1;
      LatestIsHighest(revs[..n], s);
      assert revs == revs[..n] + [revs[n]];
      if Latest(revs[..n], s).Some? {
        var r :| r in revs[..n] && r.sample == s && r.no == Latest(revs[..n], s).value;
        assert r in revs;
      }
      assert revs[n] in revs;
    }
  }

  datatype SyncResult = NoSamples | Nothing | Resumed(revs: seq<Revision>)

  ghost function FrameOf(byFrame: map<int, seq<Annotation>>, frame: int): seq<Annotation> {
    if frame in byFrame then byFrame[frame] else []
  }

  /** Sample `i` gets the next revision of its own, holding exactly what its frame was reviewed to. */
  ghost predicate NextRevision(before: seq<Revision>, r: Revision, s: Sample, payload: seq<Annotation>) {
    && r.sample == s && r.payload == payload
    && r.no == (match Latest(before, s) case Some(no) => no + 1 case None => 1)
  }

  /** The samples a review can write to: those with a revision, or all with a fallback ontology. */
  ghost predicate Writable(revs: seq<Revision>, s: Sample, fallback: bool) {
    fallback || Latest(revs, s).Some?
  }

  /** The revisions table once the first `count` samples are written. */
  ghost function Synced(revs: seq<Revision>, sampleIds: seq<Sample>, byFrame: map<int, seq<Annotation>>, fallback: bool,
                  count: nat): (table: seq<Revision>)
    requires count <= |sampleIds|
    ensures revs <= table
  {
    if count == 0 then revs
    else
      var table := Synced(revs, sampleIds, byFrame, fallback, count - 1);
      var sid, prev := sampleIds[count - 1], Latest(table, sampleIds[count - 1]);
      if prev.Some? then table + [Revision(sid, prev.value + 1, FrameOf(byFrame, count - 1))]
      else if fallback then table + [Revision(sid, 1, FrameOf(byFrame, count - 1))]
      else table
  }

  /** A review that would be lost whole is refused; otherwise the gate resumes on the new table. */
  method SyncReview(revs: seq<Revision>, sampleIds: seq<Sample>, byFrame: map<int, seq<Annotation>>, fallback: bool)
    returns (result: SyncResult)
    requires forall f :: f in byFrame ==> byFrame[f] != []
    ensures result.NoSamples? <==> sampleIds == []
    ensures result.Nothing? <==>
      sampleIds != [] && byFrame != map[] && forall s :: s in sampleIds ==> !Writable(revs, s, fallback)
    ensures result.Resumed? ==> result.revs == Synced(revs, sampleIds, byFrame, fallback, |sampleIds|)
  {
    if sampleIds == [] { return NoSamples; }
    hide Latest, Synced;
    var table, written := WriteAll(revs, sampleIds, byFrame, fallback);
    NothingWrittenIff(revs, sampleIds, byFrame, fallback);
    if byFrame != map[] && written == 0 { return Nothing; }
    result := Resumed(table);
  }

  /** The loop over the samples, which counts what it writes. */
  method WriteAll(revs: seq<Revision>, sampleIds: seq<Sample>, byFrame: map<int, seq<Annotation>>, fallback: bool)
    returns (table: seq<Revision>, written: nat)
    ensures table == Synced(revs, sampleIds, byFrame, fallback, |sampleIds|) && written == |table| - |revs|
  {
    hide Latest;
    table, written := revs, 0;
    for frame := 0 to |sampleIds|
      invariant table == Synced(revs, sampleIds, byFrame, fallback, frame)
      invariant written == |table| - |revs|
    {
      var sid := sampleIds[frame];
      var prev := Latest(table, sid);
      var boxes := if frame in byFrame then byFrame[frame] else [];
      if prev.Some? {
        table, written := table + [Revision(sid, prev.value + 1, boxes)], written + 1;
      } else if fallback {
        table, written := table + [Revision(sid, 1, boxes)], written + 1;
      }
    }
  }

  lemma {:induction false} LatestStays(revs: seq<Revision>, more: seq<Revision>, s: Sample)
    requires revs <= more && Latest(revs, s).Some?
    ensures Latest(more, s).Some?
    decreases |more|
  {
    if |more| > |revs| {
      LatestStays(revs, more[..|more| - 1], s);
    } else {
      assert more == revs;
    }
  }

  lemma {:induction false} SyncedPrefix(revs: seq<Revision>, sampleIds: seq<Sample>, byFrame: map<int, seq<Annotation>>,
                                        fallback: bool, i: nat, count: nat)
    requires i <= count <= |sampleIds|
    ensures Synced(revs, sampleIds, byFrame, fallback, i) <= Synced(revs, sampleIds, byFrame, fallback, count)
  {
    if i < count { SyncedPrefix(revs, sampleIds, byFrame, fallback, i, count - 1); }
  }

  /** A writable sample gets its next revision when its turn comes; any other changes nothing. */
  lemma SyncOne(revs: seq<Revision>, sampleIds: seq<Sample>, byFrame: map<int, seq<Annotation>>, fallback: bool, i: nat)
    requires i < |sampleIds|
    ensures var before := Synced(revs, sampleIds, byFrame, fallback, i);
      var after := Synced(revs, sampleIds, byFrame, fallback, i + 1);
      if Writable(before, sampleIds[i], fallback)
      then |after| == |before| + 1 && NextRevision(before, after[|before|], sampleIds[i], FrameOf(byFrame, i))
      else after == before
  {
  }

  lemma {:induction false} NothingWritten(revs: seq<Revision>, sampleIds: seq<Sample>,
                                          byFrame: map<int, seq<Annotation>>,
                                          fallback: bool, count: nat)
    requires count <= |sampleIds| && forall s :: s in sampleIds ==> !Writable(revs, s, fallback)
    ensures Synced(revs, sampleIds, byFrame, fallback, count) == revs
  {
    if count > 0 {
      assert sampleIds[count - 1] in sampleIds;
      NothingWritten(revs, sampleIds, byFrame, fallback, count - 1);
    }
  }

  lemma NothingWrittenIff(revs: seq<Revision>, sampleIds: seq<Sample>, byFrame: map<int, seq<Annotation>>,
                          fallback: bool)
    ensures |Synced(revs, sampleIds, byFrame, fallback, |sampleIds|)| == |revs|
       <==> forall s :: s in sampleIds ==> !Writable(revs, s, fallback)
  {
    hide Latest, FrameOf;
    if s :| s in sampleIds && Writable(revs, s, fallback) {
      var i :| 0 <= i < |sampleIds| && sampleIds[i] == s;
      var before := Synced(revs, sampleIds, byFrame, fallback, i);
      if Latest(revs, s).Some? { LatestStays(revs, before, s); }
      SyncOne(revs, sampleIds, byFrame, fallback, i);
      SyncedPrefix(revs, sampleIds, byFrame, fallback, i + 1, |sampleIds|);
    } else {
      NothingWritten(revs, sampleIds, byFrame, fallback, |sampleIds|);
    }
  }

  lemma {:induction false} SyncedLength(revs: seq<Revision>, sampleIds: seq<Sample>, byFrame: map<int, seq<Annotation>>,
                                        fallback: bool, count: nat)
    requires count <= |sampleIds| && forall s :: s in sampleIds ==> Writable(revs, s, fallback)
    ensures |Synced(revs, sampleIds, byFrame, fallback, count)| == |revs| + count
  {
    if count > 0 {
      SyncedLength(revs, sampleIds, byFrame, fallback, count - 1);
      var before, sid := Synced(revs, sampleIds, byFrame, fallback, count - 1), sampleIds[count - 1];
      assert sid in sampleIds;
      if !fallback { LatestStays(revs, before, sid); }
    }
  }

  /** Exactly one new revision per sample, boxes or not, each the next in its sample's line. */
  lemma OneRevisionPerSample(revs: seq<Revision>, sampleIds: seq<Sample>, byFrame: map<int, seq<Annotation>>,
                             fallback: bool, i: nat)
    requires i < |sampleIds| && forall s :: s in sampleIds ==> Writable(revs, s, fallback)
    ensures var table := Synced(revs, sampleIds, byFrame, fallback, |sampleIds|);
            && |table| == |revs| + |sampleIds|
            && NextRevision(table[..|revs| + i], table[|revs| + i], sampleIds[i], FrameOf(byFrame, i))
  {
    var before := Synced(revs, sampleIds, byFrame, fallback, i);
    var table := Synced(revs, sampleIds, byFrame, fallback, |sampleIds|);
    SyncedLength(revs, sampleIds, byFrame, fallback, i);
    SyncedLength(revs, sampleIds, byFrame, fallback, |sampleIds|);
    SyncedPrefix(revs, sampleIds, byFrame, fallback, i, |sampleIds|);
    SyncedPrefix(revs, sampleIds, byFrame, fallback, i + 1, |sampleIds|);
    SyncOne(revs, sampleIds, byFrame, fallback, i);
    assert sampleIds[i] in sampleIds;
    if !fallback { LatestStays(revs, before, sampleIds[i]); }
    hide Synced, NextRevision, Latest, FrameOf;
    assert before == table[..|revs| + i];
  }

  /**
   * The review round trip: if the server hands back per frame what was pushed, each sample's new
   * revision holds its kept pre-labels, in order and unchanged, and frames without boxes hold none.
   */
  lemma ReviewRoundTrip(images: seq<Image>, labels: map<string, int>, names: map<int, string>, server: seq<Shape>,
                        dims: seq<(int, int)>, byFrame: map<int, seq<Annotation>>, frame: nat)
    requires LabelsMatch(labels, names) && |dims| == |images| && frame < |images|
    requires forall i :: 0 <= i < |images| ==>
      && dims[i] == (images[i].width, images[i].height) && ValidDims(images[i].width, images[i].height)
      && SizesPositive(images[i].annotations, labels)
    requires Group(server, names, dims, frame) == Group(AllShapes(images, labels), names, dims, frame)
    requires Pulled(byFrame, server, names, dims)
    ensures FrameOf(byFrame, frame) == KeptAnnotations(images[frame].annotations, labels)
  {
    PushPull(images, labels, names, dims, frame);
    FiledIsGroup(server, names, dims, frame);
    hide Filed, Group, LabelsMatch, SizesPositive;
    if frame !in byFrame { NothingYet(server, names, dims, frame); }
  }

  /** End to end: exactly one revision per sample, holding the sample's kept pre-labels. */
  lemma ReviewEndToEnd(images: seq<Image>, labels: map<string, int>, names: map<int, string>, server: seq<Shape>,
                       dims: seq<(int, int)>, byFrame: map<int, seq<Annotation>>,
                       revs: seq<Revision>, sampleIds: seq<Sample>, fallback: bool, i: nat)
    requires LabelsMatch(labels, names) && |dims| == |images| == |sampleIds| && i < |images|
    requires forall k :: 0 <= k < |images| ==>
      && dims[k] == (images[k].width, images[k].height) && ValidDims(images[k].width, images[k].height)
      && SizesPositive(images[k].annotations, labels)
    requires Group(server, names, dims, i) == Group(AllShapes(images, labels), names, dims, i)
    requires Pulled(byFrame, server, names, dims)
    requires forall s :: s in sampleIds ==> Writable(revs, s, fallback)
    ensures var table := Synced(revs, sampleIds, byFrame, fallback, |sampleIds|);
            && |table| == |revs| + |sampleIds|
            && table[|revs| + i].sample == sampleIds[i]
            && table[|revs| + i].payload == KeptAnnotations(images[i].annotations, labels)
  {
    ReviewRoundTrip(images, labels, names, server, dims, byFrame, i);
    OneRevisionPerSample(revs, sampleIds, byFrame, fallback, i);
  }
}
