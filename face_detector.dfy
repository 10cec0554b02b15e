/**
 * The deterministic parts of `ARFaceDetectorView`: choosing the capture
 * format, the EXIF orientation for a device orientation, the mask insets
 * per mask category, and one refresh step of the face-tracking requests.
 */
module FaceDetector {
  import opened Wrappers

  // ---------------------------------------------------------------------------
  // highestResolution420Format(for:)

  /** `kCVPixelFormatType_420YpCbCr8BiPlanarFullRange`, the four-char code '420f'. */
  const Subtype420: int := 0x34323066

  /** A capture format: its media subtype and its video dimensions. */
  datatype Format = Format(subtype: int, width: int, height: int)

  /** A `CGSize` built from the chosen dimensions. */
  datatype Resolution = Resolution(width: int, height: int)

  /** The selected format with its resolution. */
  datatype FormatChoice = FormatChoice(format: Format, resolution: Resolution)

  predicate Is420(f: Format)
  {
    f.subtype == Subtype420
  }

  /**
   * Format `i` is the one to choose: a 420 format at least as wide as every
   * 420 format and strictly wider than every 420 format before it.
   */
  predicate IsWidest420(formats: seq<Format>, i: int)
  {
    0 <= i < |formats| && Is420(formats[i]) &&
    (forall j :: 0 <= j < |formats| && Is420(formats[j]) ==> formats[j].width <= formats[i].width) &&
    (forall j :: 0 <= j < i && Is420(formats[j]) ==> formats[j].width < formats[i].width)
  }

  /** At most one format is the one to choose. */
  lemma Widest420Unique(formats: seq<Format>, i: int, j: int)
    requires IsWidest420(formats, i) && IsWidest420(formats, j)
    ensures i == j
  {
  }

  /**
   * The selection loop: the first 420 format is taken, and a later one
   * replaces it only when strictly wider.
   */
  method HighestResolution420Format(formats: seq<Format>) returns (choice: Option<FormatChoice>)
    ensures choice.None? <==> forall k :: 0 <= k < |formats| ==> !Is420(formats[k])
    ensures choice.Some? ==> exists i :: IsWidest420(formats, i) && choice.value.format == formats[i]
    ensures choice.Some? ==>
      choice.value.resolution == Resolution(choice.value.format.width, choice.value.format.height)
  {
    var highest: Option<Format> := None;
    var width, height := 0, 0;
    ghost var best := 0;
    for k := 0 to |formats|
      invariant highest.None? <==> forall j :: 0 <= j < k ==> !Is420(formats[j])
      invariant highest.Some? ==>
        0 <= best < k && Is420(formats[best]) && highest.value == formats[best] &&
        width == formats[best].width && height == formats[best].height &&
        (forall j :: 0 <= j < k && Is420(formats[j]) ==> formats[j].width <= width) &&
        (forall j :: 0 <= j < best && Is420(formats[j]) ==> formats[j].width < width)
    {
      var format := formats[k];
      if format.subtype == Subtype420 {
        if highest.None? || format.width > width {
          highest := Some(format);
          width, height := format.width, format.height;
          best := k;
        }
      }
    }
    if highest.Some? {
      choice := Some(FormatChoice(highest.value, Resolution(width, height)));
      assert IsWidest420(formats, best);
    } else {
      choice := None;
    }
  }

  // ---------------------------------------------------------------------------
  // exifOrientationForDeviceOrientation(_:)

  datatype DeviceOrientation =
    Unknown | Portrait | PortraitUpsideDown | LandscapeLeft | LandscapeRight | FaceUp | FaceDown

  datatype ImageOrientation =
    Up | UpMirrored | Down | DownMirrored | Left | LeftMirrored | Right | RightMirrored
  {
    /** The mirrored EXIF orientations. */
    predicate IsMirrored()
    {
      this in {UpMirrored, DownMirrored, LeftMirrored, RightMirrored}
    }
  }

  /** The EXIF orientation used for frames of the front camera. */
  function ExifOrientation(o: DeviceOrientation): (e: ImageOrientation)
    ensures e.IsMirrored()
    ensures e == LeftMirrored <==> o !in {PortraitUpsideDown, LandscapeLeft, LandscapeRight}
  {
    match o
    case PortraitUpsideDown => RightMirrored
    case LandscapeLeft => DownMirrored
    case LandscapeRight => UpMirrored
    case _ => LeftMirrored
  }

  /**
   * The three named orientations get three distinct EXIF values; portrait,
   * face up, face down and unknown all share `leftMirrored`.
   */
  lemma ExifOrientationCases(o: DeviceOrientation, p: DeviceOrientation)
    ensures ExifOrientation(PortraitUpsideDown) == RightMirrored
    ensures ExifOrientation(LandscapeLeft) == DownMirrored
    ensures ExifOrientation(LandscapeRight) == UpMirrored
    ensures ExifOrientation(o) == ExifOrientation(p) <==>
      o == p || (o !in {PortraitUpsideDown, LandscapeLeft, LandscapeRight} &&
                 p !in {PortraitUpsideDown, LandscapeLeft, LandscapeRight})
  {
  }

  // ---------------------------------------------------------------------------
  // The mask-inset switch of the landmark handler

  datatype MaskCategory = Ball | Funny | Glasses | Ancient

  /** `UIEdgeInsets`. */
  datatype Insets = Insets(top: real, left: real, bottom: real, right: real)

  /** A `CGRect`, origin and size. */
  datatype Rect = Rect(x: real, y: real, width: real, height: real)

  /** The vertical extent `v` of each mask. */
  function VerticalExtent(c: MaskCategory): real
  {
    match c
    case Ball => 500.0
    case Funny => 300.0
    case Glasses => 200.0
    case Ancient => 350.0
  }

  /** The horizontal extent `h` of each mask. */
  function HorizontalExtent(c: MaskCategory): real
  {
    match c
    case Ball => 200.0
    case Funny => 200.0
    case Glasses => 100.0
    case Ancient => 50.0
  }

  /**
   * The insets of the mask around the face: both sides and the bottom are
   * negative (they grow the frame), the top is `v` except for the ancient
   * mask, whose top is `-v / 4`.
   */
  function MaskInsets(c: MaskCategory): (i: Insets)
    ensures i.left == i.right == -HorizontalExtent(c) && i.bottom == -VerticalExtent(c)
    ensures c != Ancient ==> i.top == VerticalExtent(c)
    ensures c == Ancient ==> i.top == -VerticalExtent(c) / 4.0
  {
    var v := VerticalExtent(c);
    var h := HorizontalExtent(c);
    match c
    case Ancient => Insets(-v / 4.0, -h, -v, -h)
    case _ => Insets(v, -h, -v, -h)
  }

  /**
   * `CGRect.inset(by:)`: each edge moves inwards by its inset, so the left
   * and top edges move by `left` and `top`, and the right and bottom edges
   * move back by `right` and `bottom`.
   */
  function InsetBy(r: Rect, i: Insets): (s: Rect)
    ensures s.x == r.x + i.left && s.x + s.width == r.x + r.width - i.right
    ensures s.y == r.y + i.top && s.y + s.height == r.y + r.height - i.bottom
  {
    Rect(r.x + i.left, r.y + i.top, r.width - i.left - i.right, r.height - i.top - i.bottom)
  }

  /**
   * The mask frame is the face bounds widened by `2h`; the ball, funny and
   * glasses masks keep the face's height and move down by `v`, the ancient
   * mask grows by `5v/4` and reaches `v/4` above the face.
   */
  lemma MaskFrame(face: Rect, c: MaskCategory)
    ensures var m := InsetBy(face, MaskInsets(c));
      m.width == face.width + 2.0 * HorizontalExtent(c) &&
      m.x == face.x - HorizontalExtent(c)
    ensures c != Ancient ==> var m := InsetBy(face, MaskInsets(c));
      m.height == face.height && m.y == face.y + VerticalExtent(c)
    ensures c == Ancient ==> var m := InsetBy(face, MaskInsets(c));
      m.height == face.height + 5.0 * VerticalExtent(c) / 4.0 &&
      m.y == face.y - VerticalExtent(c) / 4.0
  {
  }

  // ---------------------------------------------------------------------------
  // One refresh of the tracking requests

  /** A Vision result: its confidence and whether it is a detected-object observation. */
  datatype Observation = Observation(confidence: real, isDetectedObject: bool)

  /** A `VNTrackObjectRequest`: the fields the refresh reads and writes. */
  datatype TrackRequest = TrackRequest(
    isLastFrame: bool,
    inputObservation: Option<Observation>,
    results: Option<seq<Observation>>)

  /** Observations must be more confident than this to keep being tracked. */
  const ConfidenceThreshold: real := 0.3

  /**
   * Taking `results[0]` traps on an empty result list; the loop reads it for
   * every request up to the one where it stops.
   */
  predicate ResultsReadable(r: TrackRequest)
  {
    r.results.Some? ==> |r.results.value| > 0
  }

  /** The refresh can go on past this request: it has a first result that is an observation. */
  predicate Usable(r: TrackRequest)
  {
    r.results.Some? && |r.results.value| > 0 && r.results.value[0].isDetectedObject
  }

  /**
   * What the refresh does to one request in place: a request still tracking
   * follows a confident observation, and is marked last-frame otherwise.
   */
  function Advance(r: TrackRequest): (a: TrackRequest)
    requires Usable(r)
    ensures a.results == r.results
    ensures r.isLastFrame ==> a == r
    ensures !r.isLastFrame ==>
      (a.isLastFrame <==> r.results.value[0].confidence <= ConfidenceThreshold)
    ensures !r.isLastFrame && r.results.value[0].confidence > ConfidenceThreshold ==>
      a.inputObservation == Some(r.results.value[0])
    ensures !r.isLastFrame && r.results.value[0].confidence <= ConfidenceThreshold ==>
      a.inputObservation == r.inputObservation
  {
    var observation := r.results.value[0];
    if r.isLastFrame then r
    else if observation.confidence > ConfidenceThreshold then r.(inputObservation := Some(observation))
    else r.(isLastFrame := true)
  }

  /** The position of the first request that stops the refresh, or the count. */
  function FirstUnusable(rs: seq<TrackRequest>): (u: nat)
    ensures u <= |rs|
    ensures forall k :: 0 <= k < u ==> Usable(rs[k])
    ensures u < |rs| ==> !Usable(rs[u])
  {
    if rs == [] then 0
    else if !Usable(rs[0]) then 0
    else 1 + FirstUnusable(rs[1..])
  }

  /** The new tracking list: the advanced requests that were not already last-frame, in order. */
  function Survivors(rs: seq<TrackRequest>): seq<TrackRequest>
    requires forall k :: 0 <= k < |rs| ==> Usable(rs[k])
  {
    if rs == [] then []
    else
      var last := rs[|rs| - 1];
      var tail := if last.isLastFrame then [] else [Advance(last)];
      Survivors(rs[..|rs| - 1]) + tail
  }

  /** A request survives iff it was not last-frame; it survives advanced. */
  lemma {:induction false} SurvivorsMembership(rs: seq<TrackRequest>, x: TrackRequest)
    requires forall k :: 0 <= k < |rs| ==> Usable(rs[k])
    ensures x in Survivors(rs) <==>
      exists k :: 0 <= k < |rs| && !rs[k].isLastFrame && x == Advance(rs[k])
  {
    if rs != [] {
      var init := rs[..|rs| - 1];
      SurvivorsMembership(init, x);
      assert forall k :: 0 <= k < |init| ==> init[k] == rs[k];
      if x in Survivors(rs) && x !in Survivors(init) {
        assert !rs[|rs| - 1].isLastFrame && x == Advance(rs[|rs| - 1]);
      }
    }
  }

  /** The refresh keeps the list order: it distributes over concatenation. */
  lemma {:induction false} SurvivorsKeepOrder(a: seq<TrackRequest>, b: seq<TrackRequest>)
    requires forall k :: 0 <= k < |a| ==> Usable(a[k])
    requires forall k :: 0 <= k < |b| ==> Usable(b[k])
    ensures forall k :: 0 <= k < |a + b| ==> Usable((a + b)[k])
    ensures Survivors(a + b) == Survivors(a) + Survivors(b)
  {
    assert forall k :: 0 <= k < |a + b| ==> (a + b)[k] == if k < |a| then a[k] else b[k - |a|];
    if b == [] {
      assert a + b == a;
    } else {
      var init := b[..|b| - 1];
      assert (a + b)[..|a + b| - 1] == a + init;
      SurvivorsKeepOrder(a, init);
    }
  }

  /** Every survivor is still tracking, unless this step just marked it last-frame. */
  lemma {:induction false} SurvivorsJustMarked(rs: seq<TrackRequest>, k: nat)
    requires forall j :: 0 <= j < |rs| ==> Usable(rs[j])
    requires k < |Survivors(rs)|
    ensures Survivors(rs)[k].isLastFrame ==>
      exists j :: 0 <= j < |rs| && !rs[j].isLastFrame &&
        rs[j].results.value[0].confidence <= ConfidenceThreshold && Survivors(rs)[k] == Advance(rs[j])
  {
    SurvivorsMembership(rs, Survivors(rs)[k]);
  }

  /**
   * The loop over the tracking requests after they were performed. `after`
   * is the state of every request once the loop stops (requests before the
   * first unusable one were advanced in place); `next` is the new
   * `trackingRequests`, or `None` when the loop returned early and the list
   * was left as it was.
   */
  method RefreshTracking(requests: seq<TrackRequest>) returns (after: seq<TrackRequest>, next: Option<seq<TrackRequest>>)
    requires FirstUnusable(requests) < |requests| ==> ResultsReadable(requests[FirstUnusable(requests)])
    ensures |after| == |requests|
    ensures forall k :: 0 <= k < |requests| ==>
      after[k] == if k < FirstUnusable(requests) then Advance(requests[k]) else requests[k]
    ensures next.None? <==> exists k :: 0 <= k < |requests| && !Usable(requests[k])
    ensures next.Some? ==> next.value == Survivors(requests)
  {
    after := requests;
    var newTrackingRequests: seq<TrackRequest> := [];
    for i := 0 to |requests|
      invariant i <= FirstUnusable(requests)
      invariant |after| == |requests|
      invariant forall k :: 0 <= k < |requests| ==>
        after[k] == if k < i then Advance(requests[k]) else requests[k]
      invariant newTrackingRequests == Survivors(requests[..i])
    {
      var trackingRequest := requests[i];
      if trackingRequest.results.None? {
        return after, None;
      }
      var observation := trackingRequest.results.value[0];
      if !observation.isDetectedObject {
        return after, None;
      }
      var updated := trackingRequest;
      if !trackingRequest.isLastFrame {
        if observation.confidence > ConfidenceThreshold {
          updated := trackingRequest.(inputObservation := Some(observation));
        } else {
          updated := trackingRequest.(isLastFrame := true);
        }
        after := after[i := updated];
        assert requests[..i + 1][..i] == requests[..i];
        newTrackingRequests := newTrackingRequests + [updated];
      } else {
        assert requests[..i + 1][..i] == requests[..i];
      }
    }
    assert requests[..|requests|] == requests;
    next := Some(newTrackingRequests);
  }
}
