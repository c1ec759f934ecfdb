/** The Meta Graph API calls of official_api.py. Every answer the network
    could give is an oracle in MetaApi; each operation returns its Python
    return value together with the HTTP requests and sleeps it performed, in
    order. With dry_run every post operation succeeds at once and performs
    nothing. */
module OfficialApi {
  import opened Common
  import opened Text

  const DryRunPhotoId: string := "DRY_RUN_ID_123"
  /** post_to_instagram issues the create request this many times... */
  const IgCreateRounds: nat := 10
  /** ...sleeping this long before each. */
  const IgCreateDelay: nat := 2
  /** post_reel_to_instagram polls the container status at most this often... */
  const ReelPollBudget: nat := 20
  /** ...sleeping this long before each poll. */
  const ReelPollDelay: nat := 5
  const Finished: string := "FINISHED"
  const Error: string := "ERROR"

  /** The answer to the Facebook photo upload: the JSON "id" (None when the
      key is missing), or an exception (an HTTP error status, the network,
      a missing token). */
  datatype FbResponse = FbAccepted(id: Option<string>) | FbRaised

  /** The answer to one Instagram container-create request. */
  datatype CreateResponse = CreateReply(status: int, id: Option<string>) | CreateRaised

  /** The answer to the reel container-create request; its status code is
      not checked, only the JSON "id" is read. */
  datatype ReelCreateResponse = ReelCreated(id: Option<string>) | ReelCreateRaised

  /** The answer to the photo lookup: the parsed JSON body, or an exception
      (the network, a missing token, a body that is not JSON). In the body,
      `images` is None when that key is missing, and the source of an image
      is None when it has none. */
  datatype PictureResponse = PictureBody(images: Option<seq<Option<string>>>) | PictureRaised

  /** The answer to one status poll: the JSON "status_code", or an exception. */
  datatype PollResponse = PollReply(statusCode: Option<string>) | PollRaised

  /** Everything the Graph API answers during one publish. Requests that are
      repeated are answered by their 0-based index. */
  datatype MetaApi = MetaApi(
    localFiles: set<string>,          // the paths for which os.path.exists holds
    fbPhoto: FbResponse,
    fbPicture: PictureResponse,
    fbVideoOk: bool,                  // the video upload answers 2xx
    igCreate: nat -> CreateResponse,
    igPublishOk: bool,                // the photo publish answers 2xx with JSON
    reelCreate: ReelCreateResponse,
    reelPoll: nat -> PollResponse,
    reelPublishOk: bool)              // the reel publish answers with JSON

  /** A path names a video when it ends in ".mp4", in any case. */
  predicate IsVideoPath(path: string)
  {
    EndsWith(Lower(path), ".mp4")
  }

  /** `block` repeated `count` times: the trace of a loop whose every round
      performs the same calls. */
  function Repeat(block: seq<Effect>, count: nat): seq<Effect>
  {
    if count == 0 then [] else Repeat(block, count - 1) + block
  }

  /** A repeated block performs no call that the block does not. */
  lemma {:induction false} RepeatMembers(block: seq<Effect>, count: nat)
    ensures forall e :: e in Repeat(block, count) ==> e in block
  {
    if count > 0 {
      RepeatMembers(block, count - 1);
    }
  }

  /** An effect performed once per round occurs once per round in the trace. */
  lemma {:induction false} RepeatOccurrences(block: seq<Effect>, count: nat, e: Effect)
    requires Occurrences(block, e) == 1
    ensures Occurrences(Repeat(block, count), e) == count
  {
    if count > 0 {
      RepeatOccurrences(block, count - 1, e);
      OccurrencesAppend(Repeat(block, count - 1), block, e);
    }
  }

  /** The round at index j of a repeated two-call block. */
  lemma {:induction false} RepeatPairLength(a: Effect, b: Effect, count: nat)
    ensures |Repeat([a, b], count)| == 2 * count
  {
    if count > 0 {
      RepeatPairLength(a, b, count - 1);
    }
  }

  lemma {:induction false} RepeatPairAt(a: Effect, b: Effect, count: nat, j: nat)
    requires j < count
    ensures |Repeat([a, b], count)| == 2 * count
    ensures Repeat([a, b], count)[2 * j] == a && Repeat([a, b], count)[2 * j + 1] == b
  {
    RepeatPairLength(a, b, count);
    if j < count - 1 {
      RepeatPairAt(a, b, count - 1, j);
    } else {
      RepeatPairLength(a, b, count - 1);
    }
  }

  lemma PairOccurrences(a: Effect, b: Effect, e: Effect)
    ensures Occurrences([a, b], e) == (if a == e then 1 else 0) + (if b == e then 1 else 0)
  {
    assert [a, b][..1] == [a];
    assert [a][..0] == [];
  }

  /** post_to_facebook: a binary upload when the path exists locally, a `url`
      payload otherwise. Returns the post id, None when the answer has no id,
      or False when anything raises. */
  function PostToFacebook(pathOrUrl: string, caption: string, dryRun: bool, api: MetaApi): (r: Traced<Value>)
    ensures dryRun ==> r == Traced(Str(DryRunPhotoId), [])
    ensures !dryRun ==> |r.calls| == 1 && r.calls[0].FbPhotoPost? && NoInstagramCall(r.calls)
    ensures r.result != Bool(true)
  {
    var mode := if pathOrUrl in api.localFiles then Binary(pathOrUrl) else ByUrl(pathOrUrl);
    if dryRun then Traced(Str(DryRunPhotoId), [])
    else
      var r := match api.fbPhoto
               case FbAccepted(Some(id)) => Str(id)
               case FbAccepted(None) => NoneValue
               case FbRaised => Bool(false);
      Traced(r, [FbPhotoPost(mode, caption)])
  }

  /** The upload is one request whose mode depends only on the local file
      system; the answer's id is returned as is, and an exception becomes
      False. */
  lemma FacebookUpload(pathOrUrl: string, caption: string, api: MetaApi)
    ensures var r := PostToFacebook(pathOrUrl, caption, false, api);
      && |r.calls| == 1 && r.calls[0].FbPhotoPost? && r.calls[0].caption == caption
      && (r.calls[0].mode.Binary? <==> pathOrUrl in api.localFiles)
      && (r.calls[0].mode == Binary(pathOrUrl) || r.calls[0].mode == ByUrl(pathOrUrl))
      && (api.fbPhoto.FbRaised? ==> r.result == Bool(false))
      && (api.fbPhoto.FbAccepted? ==>
            match api.fbPhoto.id
            case Some(id) => r.result == Str(id)
            case None => r.result == NoneValue)
      && !IsInstagramCall(r.calls[0])
  {
  }

  /** `data['images'][0]['source']` of the lookup answer, or None when the
      request or any of the three subscripts raises. The HTTP status is not
      checked: an error body has no images and also gives None. */
  function PictureSource(p: PictureResponse): (source: Option<string>)
    ensures source.Some? <==>
      p.PictureBody? && p.images.Some? && |p.images.value| > 0 && p.images.value[0].Some?
    ensures source.Some? ==> source == p.images.value[0]
  {
    match p
    case PictureRaised => None
    case PictureBody(None) => None
    case PictureBody(Some(images)) => if images == [] then None else images[0]
  }

  /** get_fb_picture_url: one Graph lookup of the photo id, which yields
      the CDN source of its first image, or None. */
  function GetFbPictureUrl(photoId: string, api: MetaApi): (r: Traced<Option<string>>)
    ensures r.calls == [FbPictureLookup(photoId)] && NoInstagramCall(r.calls)
    ensures r.result.Some? <==> PictureSource(api.fbPicture).Some?
    ensures r.result.Some? ==> r.result == api.fbPicture.images.value[0]
  {
    Traced(PictureSource(api.fbPicture), [FbPictureLookup(photoId)])
  }

  /** post_video_to_facebook: True on a 2xx answer, False otherwise. */
  function PostVideoToFacebook(videoUrl: string, caption: string, dryRun: bool, api: MetaApi): (r: Traced<bool>)
    ensures r.result <==> dryRun || api.fbVideoOk
    ensures dryRun <==> r.calls == []
    ensures !dryRun ==> r.calls == [FbVideoPost(videoUrl, caption)] && NoInstagramCall(r.calls)
  {
    if dryRun then Traced(true, [])
    else Traced(api.fbVideoOk, [FbVideoPost(videoUrl, caption)])
  }

  /** A create answer that lets the loop go on: status 200 and a readable body. */
  predicate Accepted(r: CreateResponse)
  {
    r.CreateReply? && r.status == 200
  }

  function CreateAccepted(api: MetaApi): nat -> bool
  {
    (i: nat) => Accepted(api.igCreate(i))
  }

  /** The id a create answer carries; only read when it was accepted. */
  function CreatedId(r: CreateResponse): Option<string>
  {
    if r.CreateReply? then r.id else None
  }

  /** `count` rounds of the create loop: a 2-unit sleep, then one create. */
  function CreateRounds(imageUrl: string, caption: string, count: nat): seq<Effect>
  {
    Repeat([Sleep(IgCreateDelay), IgCreate(imageUrl, caption)], count)
  }

  /** post_to_instagram in closed form: the create request is repeated ten
      times; the first rejected one ends the call with False; if all ten are
      accepted, the id of the last is published once. */
  function IgPhotoSpec(imageUrl: string, caption: string, dryRun: bool, api: MetaApi): Traced<bool>
  {
    if dryRun then Traced(true, [])
    else
      var k := FirstFailure(CreateAccepted(api), 0, IgCreateRounds);
      if k < IgCreateRounds then Traced(false, CreateRounds(imageUrl, caption, k + 1))
      else Traced(api.igPublishOk,
                  CreateRounds(imageUrl, caption, IgCreateRounds)
                  + [IgPublish(CreatedId(api.igCreate(IgCreateRounds - 1)))])
  }

  /** post_to_instagram as written: `for i in range(10)` reassigning the
      creation id, then one publish with the last one. */
  method PostToInstagram(imageUrl: string, caption: string, dryRun: bool, api: MetaApi)
    returns (ok: bool, calls: seq<Effect>)
    ensures Traced(ok, calls) == IgPhotoSpec(imageUrl, caption, dryRun, api)
  {
    if dryRun {
      return true, [];
    }
    calls := [];
    var creationId: Option<string> := None;
    var i := 0;
    while i < IgCreateRounds
      invariant 0 <= i <= IgCreateRounds
      invariant forall j :: 0 <= j < i ==> CreateAccepted(api)(j)
      invariant calls == CreateRounds(imageUrl, caption, i)
      invariant i > 0 ==> creationId == CreatedId(api.igCreate(i - 1))
    {
      calls := calls + [Sleep(IgCreateDelay), IgCreate(imageUrl, caption)];
      var req1 := api.igCreate(i);
      if !Accepted(req1) {
        FirstFailureIs(CreateAccepted(api), 0, i, IgCreateRounds);
        return false, calls;
      }
      creationId := req1.id;
      i := i + 1;
    }
    FirstFailureIs(CreateAccepted(api), 0, IgCreateRounds, IgCreateRounds);
    calls := calls + [IgPublish(creationId)];
    ok := api.igPublishOk;
  }

  predicate AllCreatesAccepted(api: MetaApi)
  {
    forall j :: 0 <= j < IgCreateRounds ==> Accepted(api.igCreate(j))
  }

  predicate NoPublish(calls: seq<Effect>)
  {
    forall i :: 0 <= i < |calls| ==> !calls[i].IgPublish?
  }

  /** With every create accepted, post_to_instagram performs exactly ten
      rounds of a 2-unit sleep and a create, then publishes once with the id
      of the tenth create, and returns what the publish returns. */
  lemma IgPhotoPublishesLastId(imageUrl: string, caption: string, api: MetaApi)
    requires AllCreatesAccepted(api)
    ensures var r := IgPhotoSpec(imageUrl, caption, false, api);
      && r.result == api.igPublishOk
      && |r.calls| == 2 * IgCreateRounds + 1
      && (forall j :: 0 <= j < IgCreateRounds ==>
            r.calls[2 * j] == Sleep(IgCreateDelay) && r.calls[2 * j + 1] == IgCreate(imageUrl, caption))
      && r.calls[2 * IgCreateRounds] == IgPublish(api.igCreate(IgCreateRounds - 1).id)
  {
    FirstFailureIs(CreateAccepted(api), 0, IgCreateRounds, IgCreateRounds);
    RepeatPairLength(Sleep(IgCreateDelay), IgCreate(imageUrl, caption), IgCreateRounds);
    var r := IgPhotoSpec(imageUrl, caption, false, api);
    forall j | 0 <= j < IgCreateRounds
      ensures r.calls[2 * j] == Sleep(IgCreateDelay) && r.calls[2 * j + 1] == IgCreate(imageUrl, caption)
    {
      RepeatPairAt(Sleep(IgCreateDelay), IgCreate(imageUrl, caption), IgCreateRounds, j);
    }
  }

  /** The first rejected create (a status other than 200, or an exception)
      ends post_to_instagram with False; that create was its last request and
      nothing was published. */
  lemma IgPhotoRejectionStopsBeforePublish(imageUrl: string, caption: string, api: MetaApi, k: nat)
    requires k < IgCreateRounds && !Accepted(api.igCreate(k))
    requires forall j :: 0 <= j < k ==> Accepted(api.igCreate(j))
    ensures var r := IgPhotoSpec(imageUrl, caption, false, api);
      && !r.result
      && NoPublish(r.calls)
      && |r.calls| == 2 * (k + 1)
      && r.calls[2 * k + 1] == IgCreate(imageUrl, caption)
  {
    FirstFailureIs(CreateAccepted(api), 0, k, IgCreateRounds);
    RepeatPairAt(Sleep(IgCreateDelay), IgCreate(imageUrl, caption), k + 1, k);
    var r := IgPhotoSpec(imageUrl, caption, false, api);
    RepeatMembers([Sleep(IgCreateDelay), IgCreate(imageUrl, caption)], k + 1);
    forall i | 0 <= i < |r.calls|
      ensures !r.calls[i].IgPublish?
    {
      assert r.calls[i] in [Sleep(IgCreateDelay), IgCreate(imageUrl, caption)];
    }
  }

  /** post_to_instagram succeeds exactly when all ten creates and the
      publish succeed. */
  lemma IgPhotoSucceedsIff(imageUrl: string, caption: string, api: MetaApi)
    ensures IgPhotoSpec(imageUrl, caption, false, api).result <==> AllCreatesAccepted(api) && api.igPublishOk
  {
    var k := FirstFailure(CreateAccepted(api), 0, IgCreateRounds);
    if k < IgCreateRounds {
      assert !Accepted(api.igCreate(k));
    } else {
      assert forall j :: 0 <= j < IgCreateRounds ==> CreateAccepted(api)(j);
    }
  }

  /** A poll answer after which the loop goes on polling: a readable body
      whose status is neither FINISHED nor ERROR. */
  function StillProcessing(api: MetaApi): nat -> bool
  {
    (i: nat) => api.reelPoll(i).PollReply? &&
                api.reelPoll(i).statusCode != Some(Finished) &&
                api.reelPoll(i).statusCode != Some(Error)
  }

  /** `count` rounds of the poll loop: a 5-unit sleep, then one status poll. */
  function PollRounds(creationId: Option<string>, count: nat): seq<Effect>
  {
    Repeat([Sleep(ReelPollDelay), IgStatusPoll(creationId)], count)
  }

  /** post_reel_to_instagram in closed form. A failed create returns False.
      Otherwise the status is polled until the first answer that is not
      "still processing", at most twenty times: an exception there propagates
      (the poll is outside any try), ERROR returns False, and FINISHED or
      an exhausted budget go on to one publish. */
  function ReelSpec(videoUrl: string, caption: string, dryRun: bool, api: MetaApi): Traced<Outcome<bool>>
  {
    if dryRun then Traced(Returned(true), [])
    else
      var create := [IgReelCreate(videoUrl, caption)];
      match api.reelCreate
      case ReelCreateRaised => Traced(Returned(false), create)
      case ReelCreated(id) =>
        var k := FirstFailure(StillProcessing(api), 0, ReelPollBudget);
        if k == ReelPollBudget then
          Traced(Returned(api.reelPublishOk), create + PollRounds(id, ReelPollBudget) + [IgPublish(id)])
        else
          var polled := create + PollRounds(id, k + 1);
          match api.reelPoll(k)
          case PollRaised => Traced(Raised, polled)
          case PollReply(status) =>
            if status == Some(Error) then Traced(Returned(false), polled)
            else Traced(Returned(api.reelPublishOk), polled + [IgPublish(id)])
  }

  /** post_reel_to_instagram as written: one create, then `for _ in
      range(20)` with a break on FINISHED and a return on ERROR, then one
      publish. */
  method PostReelToInstagram(videoUrl: string, caption: string, dryRun: bool, api: MetaApi)
    returns (r: Outcome<bool>, calls: seq<Effect>)
    ensures Traced(r, calls) == ReelSpec(videoUrl, caption, dryRun, api)
  {
    if dryRun {
      return Returned(true), [];
    }
    calls := [IgReelCreate(videoUrl, caption)];
    if api.reelCreate.ReelCreateRaised? {
      return Returned(false), calls;
    }
    var creationId := api.reelCreate.id;
    ghost var create := calls;
    var i := 0;
    while i < ReelPollBudget
      invariant 0 <= i <= ReelPollBudget
      invariant forall j :: 0 <= j < i ==> StillProcessing(api)(j)
      invariant calls == create + PollRounds(creationId, i)
    {
      calls := calls + [Sleep(ReelPollDelay), IgStatusPoll(creationId)];
      var reply := api.reelPoll(i);
      if reply.PollRaised? {
        FirstFailureIs(StillProcessing(api), 0, i, ReelPollBudget);
        return Raised, calls;
      }
      var status := reply.statusCode;
      if status == Some(Finished) {
        FirstFailureIs(StillProcessing(api), 0, i, ReelPollBudget);
        break;
      }
      if status == Some(Error) {
        FirstFailureIs(StillProcessing(api), 0, i, ReelPollBudget);
        return Returned(false), calls;
      }
      i := i + 1;
    }
    if i == ReelPollBudget {
      FirstFailureIs(StillProcessing(api), 0, ReelPollBudget, ReelPollBudget);
    }
    calls := calls + [IgPublish(creationId)];
    r := Returned(api.reelPublishOk);
  }

  /** How often the reel trace with k + 1 poll rounds counts each effect. */
  lemma ReelPollCounts(videoUrl: string, caption: string, id: Option<string>, count: nat)
    ensures var polled := [IgReelCreate(videoUrl, caption)] + PollRounds(id, count);
      && Occurrences(polled, Sleep(ReelPollDelay)) == count
      && Occurrences(polled, IgStatusPoll(id)) == count
      && Occurrences(polled, IgPublish(id)) == 0
  {
    var block := [Sleep(ReelPollDelay), IgStatusPoll(id)];
    var create := [IgReelCreate(videoUrl, caption)];
    forall e | e == Sleep(ReelPollDelay) || e == IgStatusPoll(id) || e == IgPublish(id)
      ensures Occurrences(create + PollRounds(id, count), e) == Occurrences(PollRounds(id, count), e)
    {
      OccurrencesAppend(create, PollRounds(id, count), e);
    }
    PairOccurrences(Sleep(ReelPollDelay), IgStatusPoll(id), Sleep(ReelPollDelay));
    PairOccurrences(Sleep(ReelPollDelay), IgStatusPoll(id), IgStatusPoll(id));
    RepeatOccurrences(block, count, Sleep(ReelPollDelay));
    RepeatOccurrences(block, count, IgStatusPoll(id));
    RepeatMembers(block, count);
    assert IgPublish(id) !in create + PollRounds(id, count);
  }

  /** The same counts once the publish is appended: it occurs once, last. */
  lemma ReelPublishCounts(videoUrl: string, caption: string, id: Option<string>, count: nat)
    ensures var calls := [IgReelCreate(videoUrl, caption)] + PollRounds(id, count) + [IgPublish(id)];
      && Occurrences(calls, Sleep(ReelPollDelay)) == count
      && Occurrences(calls, IgStatusPoll(id)) == count
      && Occurrences(calls, IgPublish(id)) == 1
      && calls[|calls| - 1] == IgPublish(id)
  {
    ReelPollCounts(videoUrl, caption, id, count);
    var polled := [IgReelCreate(videoUrl, caption)] + PollRounds(id, count);
    forall e | e == Sleep(ReelPollDelay) || e == IgStatusPoll(id) || e == IgPublish(id)
      ensures Occurrences(polled + [IgPublish(id)], e) == Occurrences(polled, e) + Occurrences([IgPublish(id)], e)
    {
      OccurrencesAppend(polled, [IgPublish(id)], e);
    }
    assert [IgPublish(id)][..0] == [];
  }

  /** The first status ERROR ends the reel post with False, without a
      publish, after one sleep and one poll per status read. */
  lemma ReelErrorStopsWithoutPublish(videoUrl: string, caption: string, api: MetaApi, k: nat)
    requires api.reelCreate.ReelCreated?
    requires k < ReelPollBudget && api.reelPoll(k) == PollReply(Some(Error))
    requires forall j :: 0 <= j < k ==> StillProcessing(api)(j)
    ensures var r := ReelSpec(videoUrl, caption, false, api);
      && r.result == Returned(false)
      && NoPublish(r.calls)
      && Occurrences(r.calls, Sleep(ReelPollDelay)) == k + 1
      && Occurrences(r.calls, IgStatusPoll(api.reelCreate.id)) == k + 1
  {
    var id := api.reelCreate.id;
    FirstFailureIs(StillProcessing(api), 0, k, ReelPollBudget);
    var polled := [IgReelCreate(videoUrl, caption)] + PollRounds(id, k + 1);
    assert ReelSpec(videoUrl, caption, false, api) == Traced(Returned(false), polled);
    ReelPollCounts(videoUrl, caption, id, k + 1);
    PolledHasNoPublish(videoUrl, caption, id, k + 1);
  }

  /** Creating the container and polling it never publishes. */
  lemma PolledHasNoPublish(videoUrl: string, caption: string, id: Option<string>, count: nat)
    ensures NoPublish([IgReelCreate(videoUrl, caption)] + PollRounds(id, count))
  {
    var polled := [IgReelCreate(videoUrl, caption)] + PollRounds(id, count);
    RepeatMembers([Sleep(ReelPollDelay), IgStatusPoll(id)], count);
    forall i | 0 <= i < |polled|
      ensures !polled[i].IgPublish?
    {
      if i > 0 {
        assert polled[i] in PollRounds(id, count);
      }
    }
  }

  /** The first status FINISHED stops the polling after k + 1 sleeps and
      polls and publishes exactly once, as the last request. */
  lemma ReelFinishedPublishesOnce(videoUrl: string, caption: string, api: MetaApi, k: nat)
    requires api.reelCreate.ReelCreated?
    requires k < ReelPollBudget && api.reelPoll(k) == PollReply(Some(Finished))
    requires forall j :: 0 <= j < k ==> StillProcessing(api)(j)
    ensures var r := ReelSpec(videoUrl, caption, false, api);
      var id := api.reelCreate.id;
      && r.result == Returned(api.reelPublishOk)
      && Occurrences(r.calls, IgPublish(id)) == 1
      && r.calls[|r.calls| - 1] == IgPublish(id)
      && Occurrences(r.calls, Sleep(ReelPollDelay)) == k + 1
      && Occurrences(r.calls, IgStatusPoll(id)) == k + 1
  {
    var id := api.reelCreate.id;
    FirstFailureIs(StillProcessing(api), 0, k, ReelPollBudget);
    assert ReelSpec(videoUrl, caption, false, api).calls
      == [IgReelCreate(videoUrl, caption)] + PollRounds(id, k + 1) + [IgPublish(id)];
    ReelPublishCounts(videoUrl, caption, id, k + 1);
  }

  /** Twenty answers that are neither FINISHED nor ERROR do not fail the post:
      after twenty sleeps and polls the reel is published anyway. */
  lemma ReelBudgetExhaustedStillPublishes(videoUrl: string, caption: string, api: MetaApi)
    requires api.reelCreate.ReelCreated?
    requires forall j :: 0 <= j < ReelPollBudget ==> StillProcessing(api)(j)
    ensures var r := ReelSpec(videoUrl, caption, false, api);
      var id := api.reelCreate.id;
      && r.result == Returned(api.reelPublishOk)
      && Occurrences(r.calls, IgPublish(id)) == 1
      && r.calls[|r.calls| - 1] == IgPublish(id)
      && Occurrences(r.calls, Sleep(ReelPollDelay)) == ReelPollBudget
      && Occurrences(r.calls, IgStatusPoll(id)) == ReelPollBudget
  {
    FirstFailureIs(StillProcessing(api), 0, ReelPollBudget, ReelPollBudget);
    ReelPublishCounts(videoUrl, caption, api.reelCreate.id, ReelPollBudget);
  }

  /** An exception while polling is not caught: the reel post raises, and
      nothing is published. */
  lemma ReelPollExceptionPropagates(videoUrl: string, caption: string, api: MetaApi, k: nat)
    requires api.reelCreate.ReelCreated?
    requires k < ReelPollBudget && api.reelPoll(k) == PollRaised
    requires forall j :: 0 <= j < k ==> StillProcessing(api)(j)
    ensures ReelSpec(videoUrl, caption, false, api).result == Raised
    ensures NoPublish(ReelSpec(videoUrl, caption, false, api).calls)
  {
    var id := api.reelCreate.id;
    FirstFailureIs(StillProcessing(api), 0, k, ReelPollBudget);
    assert ReelSpec(videoUrl, caption, false, api)
      == Traced(Raised, [IgReelCreate(videoUrl, caption)] + PollRounds(id, k + 1));
    PolledHasNoPublish(videoUrl, caption, id, k + 1);
  }

  /** A failed container create ends the reel post with False at once: no
      sleep, no status poll and no publish. */
  lemma ReelCreateFailureStops(videoUrl: string, caption: string, api: MetaApi)
    requires api.reelCreate.ReelCreateRaised?
    ensures ReelSpec(videoUrl, caption, false, api) == Traced(Returned(false), [IgReelCreate(videoUrl, caption)])
  {
  }

  /** The create, n poll rounds of container id0 and possibly its publish
      poll any container at most n times, sleep at most n times and
      publish at most once. */
  lemma ReelTraceBound(videoUrl: string, caption: string, id0: Option<string>, n: nat, published: bool,
                       id: Option<string>, calls: seq<Effect>)
    requires calls == [IgReelCreate(videoUrl, caption)] + PollRounds(id0, n)
                      + (if published then [IgPublish(id0)] else [])
    ensures Occurrences(calls, IgStatusPoll(id)) <= n
    ensures Occurrences(calls, Sleep(ReelPollDelay)) <= n
    ensures Occurrences(calls, IgPublish(id)) <= 1
  {
    var polled := [IgReelCreate(videoUrl, caption)] + PollRounds(id0, n);
    if published {
      ReelPublishCounts(videoUrl, caption, id0, n);
    } else {
      assert calls == polled;
      ReelPollCounts(videoUrl, caption, id0, n);
    }
    if id != id0 {
      RepeatMembers([Sleep(ReelPollDelay), IgStatusPoll(id0)], n);
      PolledHasNoPublish(videoUrl, caption, id0, n);
      assert IgStatusPoll(id) !in polled;
      assert IgPublish(id) !in polled;
    }
  }

  /** Whatever the API answers, a reel post polls any container at most
      twenty times, sleeps at most twenty times and publishes at most once. */
  lemma ReelPollsAtMostBudget(videoUrl: string, caption: string, dryRun: bool, api: MetaApi, id: Option<string>)
    ensures var r := ReelSpec(videoUrl, caption, dryRun, api);
      && Occurrences(r.calls, IgStatusPoll(id)) <= ReelPollBudget
      && Occurrences(r.calls, Sleep(ReelPollDelay)) <= ReelPollBudget
      && Occurrences(r.calls, IgPublish(id)) <= 1
  {
    if dryRun {
      assert ReelSpec(videoUrl, caption, dryRun, api).calls == [];
    } else if api.reelCreate.ReelCreateRaised? {
      ReelCreateFailureStops(videoUrl, caption, api);
    } else {
      CreatedReelBound(videoUrl, caption, api, id);
    }
  }

  /** The bound once the container exists: the loop stops after k + 1
      rounds at the first answer that ends it, or after twenty. */
  lemma CreatedReelBound(videoUrl: string, caption: string, api: MetaApi, id: Option<string>)
    requires api.reelCreate.ReelCreated?
    ensures var r := ReelSpec(videoUrl, caption, false, api);
      && Occurrences(r.calls, IgStatusPoll(id)) <= ReelPollBudget
      && Occurrences(r.calls, Sleep(ReelPollDelay)) <= ReelPollBudget
      && Occurrences(r.calls, IgPublish(id)) <= 1
  {
    var id0 := api.reelCreate.id;
    var k := FirstFailure(StillProcessing(api), 0, ReelPollBudget);
    var ends := api.reelPoll(k);
    var n := if k == ReelPollBudget then ReelPollBudget else k + 1;
    var published := k == ReelPollBudget || (ends.PollReply? && ends.statusCode != Some(Error));
    var calls := [IgReelCreate(videoUrl, caption)] + PollRounds(id0, n)
                 + (if published then [IgPublish(id0)] else []);
    assert ReelSpec(videoUrl, caption, false, api).calls == calls;
    ReelTraceBound(videoUrl, caption, id0, n, published, id, calls);
  }

  /** Two pending answers and then FINISHED: three 5-unit sleeps (one before
      every poll) and a single publish. */
  lemma ReelTwoPendingThenFinished(videoUrl: string, caption: string, api: MetaApi)
    requires api.reelCreate.ReelCreated?
    requires api.reelPoll(0) == PollReply(Some("IN_PROGRESS"))
    requires api.reelPoll(1) == PollReply(Some("IN_PROGRESS"))
    requires api.reelPoll(2) == PollReply(Some(Finished))
    ensures var r := ReelSpec(videoUrl, caption, false, api);
      && Occurrences(r.calls, Sleep(ReelPollDelay)) == 3
      && Occurrences(r.calls, IgPublish(api.reelCreate.id)) == 1
  {
    assert StillProcessing(api)(0) && StillProcessing(api)(1);
    ReelFinishedPublishesOnce(videoUrl, caption, api, 2);
  }

  /** With dry_run every post operation succeeds without any request:
      post_to_facebook with the fixed id "DRY_RUN_ID_123", the others with
      True. */
  lemma DryRunMakesNoCalls(path: string, caption: string, api: MetaApi)
    ensures PostToFacebook(path, caption, true, api) == Traced(Str(DryRunPhotoId), [])
    ensures Truthy(PostToFacebook(path, caption, true, api).result)
    ensures PostVideoToFacebook(path, caption, true, api) == Traced(true, [])
    ensures IgPhotoSpec(path, caption, true, api) == Traced(true, [])
    ensures ReelSpec(path, caption, true, api) == Traced(Returned(true), [])
  {
  }

  /** The module-level execute_post: both platforms are called one after the
      other, whatever the first returns, with the public URL of the file;
      the result is Python's `fb and ig`. A reel poll exception propagates. */
  function ExecutePost(mediaPath: string, caption: string, dryRun: bool, baseUrl: string, api: MetaApi)
    : (r: Traced<Outcome<Value>>)
    ensures r.result.Raised? ==> IsVideoPath(mediaPath) && !dryRun
    ensures dryRun ==> r.calls == [] && r.result.Returned? && Truthy(r.result.value)
  {
    var url := PublicUrl(baseUrl, mediaPath);
    if IsVideoPath(mediaPath) then
      var fb := PostVideoToFacebook(url, caption, dryRun, api);
      var ig := ReelSpec(url, caption, dryRun, api);
      var r := match ig.result
               case Raised => Raised
               case Returned(ok) => Returned(Bool(fb.result && ok));
      Traced(r, fb.calls + ig.calls)
    else
      var fb := PostToFacebook(url, caption, dryRun, api);
      var ig := IgPhotoSpec(url, caption, dryRun, api);
      Traced(Returned(if Truthy(fb.result) then Bool(ig.result) else fb.result), fb.calls + ig.calls)
  }

  /** Outside dry run the module-level execute_post reaches both platforms
      even when Facebook fails, and its value is truthy exactly when both
      platform results are. */
  lemma ExecutePostCallsBoth(mediaPath: string, caption: string, baseUrl: string, api: MetaApi)
    ensures var r := ExecutePost(mediaPath, caption, false, baseUrl, api);
      var url := PublicUrl(baseUrl, mediaPath);
      && |r.calls| >= 2
      && (IsVideoPath(mediaPath) ==>
            && r.calls[0] == FbVideoPost(url, caption)
            && r.calls[1] == IgReelCreate(url, caption)
            && (r.result.Returned? ==>
                  (Truthy(r.result.value) <==> api.fbVideoOk && ReelSpec(url, caption, false, api).result.value)))
      && (!IsVideoPath(mediaPath) ==>
            && r.calls[0].FbPhotoPost?
            && r.calls[1] == Sleep(IgCreateDelay) && r.calls[2] == IgCreate(url, caption)
            && r.result.Returned?
            && (Truthy(r.result.value) <==>
                  Truthy(PostToFacebook(url, caption, false, api).result) && AllCreatesAccepted(api) && api.igPublishOk))
  {
    var url := PublicUrl(baseUrl, mediaPath);
    if IsVideoPath(mediaPath) {
      VideoPostCallsBoth(url, caption, api);
    } else {
      PhotoPostCallsBoth(url, caption, api);
    }
  }

  /** A video goes to the Facebook video endpoint first and then to the reel
      container; the answer needs both. */
  lemma VideoPostCallsBoth(url: string, caption: string, api: MetaApi)
    ensures var fb := PostVideoToFacebook(url, caption, false, api);
      var ig := ReelSpec(url, caption, false, api);
      var calls := fb.calls + ig.calls;
      && |calls| >= 2 && calls[0] == FbVideoPost(url, caption) && calls[1] == IgReelCreate(url, caption)
      && (ig.result.Returned? ==> (fb.result && ig.result.value <==> api.fbVideoOk && ig.result.value))
  {
  }

  /** A photo goes to Facebook first and then, after the first pause, to
      the Instagram container; the answer needs both. */
  lemma PhotoPostCallsBoth(url: string, caption: string, api: MetaApi)
    ensures var fb := PostToFacebook(url, caption, false, api);
      var ig := IgPhotoSpec(url, caption, false, api);
      var calls := fb.calls + ig.calls;
      && |calls| >= 3 && calls[0].FbPhotoPost?
      && calls[1] == Sleep(IgCreateDelay) && calls[2] == IgCreate(url, caption)
      && (ig.result <==> AllCreatesAccepted(api) && api.igPublishOk)
  {
    IgPhotoSucceedsIff(url, caption, api);
    var k := FirstFailure(CreateAccepted(api), 0, IgCreateRounds);
    var n := if k < IgCreateRounds then k + 1 else IgCreateRounds;
    RepeatPairAt(Sleep(IgCreateDelay), IgCreate(url, caption), n, 0);
  }
}
