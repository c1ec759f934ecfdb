/** Shared vocabulary of the model: optional values, Python's raise-or-return,
    Python truthiness, image sizes, and the external effects (HTTP calls, sleeps,
    frame saves, WhatsApp messages) that the orchestrator emits in order. */
module Common {

  datatype Option<+T> = None | Some(value: T)

  /** A Python call either returns a value or raises an exception. */
  datatype Outcome<+T> = Returned(value: T) | Raised

  /** A result together with the effects performed while computing it, in order. */
  datatype Traced<+T> = Traced(result: T, calls: seq<Effect>)

  /** The Python values that the publish functions return: an id string,
      True/False, or None. */
  datatype Value = Str(text: string) | Bool(flag: bool) | NoneValue

  /** Python truthiness of those values. */
  predicate Truthy(v: Value)
  {
    match v
    case Str(t) => t != ""
    case Bool(b) => b
    case NoneValue => false
  }

  /** Truthiness of an optional string (None and "" are falsy). */
  predicate TruthyText(o: Option<string>)
  {
    o.Some? && o.value != ""
  }

  /** Python's int() applied to a float: truncation toward zero. */
  function Trunc(x: real): (r: int)
    ensures x >= 0.0 ==> 0 <= r && r as real <= x < r as real + 1.0
    ensures x < 0.0 ==> r <= 0 && x <= r as real
  {
    if x >= 0.0 then x.Floor else -((-x).Floor)
  }

  /** Scaling by a positive factor keeps a strict order. */
  lemma ScaleStrict(f: real, a: real, b: real)
    requires f > 0.0 && a < b
    ensures f * a < f * b
  {
    assert f * b - f * a == f * (b - a);
  }

  /** Scaling a non-negative amount by a factor of at most one never enlarges it. */
  lemma ScaleAtMostOne(x: real, q: real)
    requires x >= 0.0 && 0.0 <= q <= 1.0
    ensures 0.0 <= x * q <= x
  {
    assert x - x * q == x * (1.0 - q);
  }

  /** Width and height of an image or video frame, in pixels. */
  datatype Size = Size(width: nat, height: nat)

  /** Where an overlay of a given size is pasted onto a base image or video. */
  datatype Placement = Placement(x: int, y: int, size: Size)

  /** How post_to_facebook sends the photo: as a binary file or as a URL. */
  datatype UploadMode = Binary(path: string) | ByUrl(url: string)

  /** Which WhatsApp text the orchestrator sends: the acknowledgement of
      received media, the replies to the text commands, the failure reply of
      the intake job, and the preview text around a caption. The exact wording
      of each is the orchestrator's NoticeText. */
  datatype Notice =
    | MediaReceived(video: bool)
    | NoDraft
    | Published
    | PublishFailed
    | DraftCleared
    | CaptionEdited(caption: string)
    | IntakeFailed
    | PreviewCaption(caption: string)

  /** One externally visible effect. HTTP calls are recorded when attempted,
      whatever their answer; a sleep is a counted tick of the given length. */
  datatype Effect =
    | Sleep(seconds: nat)
    | FbPhotoPost(mode: UploadMode, caption: string)
    | FbPictureLookup(photoId: string)
    | FbVideoPost(videoUrl: string, description: string)
    | IgCreate(imageUrl: string, caption: string)
    | IgReelCreate(videoUrl: string, caption: string)
    | IgStatusPoll(creationId: Option<string>)
    | IgPublish(creationId: Option<string>)
    | SaveFrame(path: string, time: real)
    | Reply(to: string, notice: Notice)
    | PreviewMedia(to: string, mediaUrl: string)
    | PreviewText(to: string, notice: Notice)

  predicate IsInstagramCall(e: Effect)
  {
    e.IgCreate? || e.IgReelCreate? || e.IgStatusPoll? || e.IgPublish?
  }

  predicate IsMessage(e: Effect)
  {
    e.Reply? || e.PreviewMedia? || e.PreviewText?
  }

  /** No call in the trace reaches Instagram. */
  predicate NoInstagramCall(calls: seq<Effect>)
  {
    forall i :: 0 <= i < |calls| ==> !IsInstagramCall(calls[i])
  }

  /** The WhatsApp messages of a trace, in order. */
  function Messages(calls: seq<Effect>): (r: seq<Effect>)
    ensures |r| <= |calls|
    ensures forall e :: e in r <==> e in calls && IsMessage(e)
  {
    if calls == [] then []
    else Messages(calls[..|calls| - 1]) + (if IsMessage(calls[|calls| - 1]) then [calls[|calls| - 1]] else [])
  }

  /** How many times an effect occurs in a trace. */
  function Occurrences(calls: seq<Effect>, e: Effect): (n: nat)
    ensures n <= |calls|
    ensures n == 0 <==> e !in calls
  {
    if calls == [] then 0
    else Occurrences(calls[..|calls| - 1], e) + (if calls[|calls| - 1] == e then 1 else 0)
  }

  lemma {:induction false} OccurrencesAppend(a: seq<Effect>, b: seq<Effect>, e: Effect)
    ensures Occurrences(a + b, e) == Occurrences(a, e) + Occurrences(b, e)
    decreases |b|
  {
    if b == [] {
      assert a + b == a;
    } else {
      assert (a + b)[..|a + b| - 1] == a + b[..|b| - 1];
      OccurrencesAppend(a, b[..|b| - 1], e);
    }
  }

  lemma {:induction false} MessagesAppend(a: seq<Effect>, b: seq<Effect>)
    ensures Messages(a + b) == Messages(a) + Messages(b)
    decreases |b|
  {
    if b == [] {
      assert a + b == a;
    } else {
      assert (a + b)[..|a + b| - 1] == a + b[..|b| - 1];
      MessagesAppend(a, b[..|b| - 1]);
    }
  }

  /** The first index in [from, bound) at which `ok` fails, or bound when it
      holds throughout: where a loop that stops at the first failure stops. */
  function FirstFailure(ok: nat -> bool, from: nat, bound: nat): (k: nat)
    ensures from <= bound ==> from <= k <= bound
    ensures forall j :: from <= j < k && j < bound ==> ok(j)
    ensures k < bound ==> !ok(k)
    decreases bound - from
  {
    if from >= bound then bound
    else if !ok(from) then from
    else FirstFailure(ok, from + 1, bound)
  }

  /** FirstFailure is the least failing index: every index before k
      succeeds, and k is either the bound or a failure. */
  lemma {:induction false} FirstFailureIs(ok: nat -> bool, from: nat, k: nat, bound: nat)
    requires from <= k <= bound
    requires forall j :: from <= j < k ==> ok(j)
    requires k == bound || !ok(k)
    ensures FirstFailure(ok, from, bound) == k
    decreases k - from
  {
    if from < k {
      FirstFailureIs(ok, from + 1, k, bound);
    }
  }
}
