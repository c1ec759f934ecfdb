/** The orchestrator of main.py: the publish choreography execute_post, the
    text-command state machine of the WhatsApp webhook, and the background
    intake job that turns received media into a draft. The draft store is the
    DraftStore object the handlers mutate; each handler is proved against a
    pure step function over a snapshot of the store. */
module Orchestrator {
  import opened Common
  import opened Text
  import opened StateManager
  import opened OfficialApi
  import opened Notifications
  import ImageOps
  import VideoOps
  import Graph

  const DefaultContext: string := "Maak een professionele post."
  const PostCommand: string := "POST"
  const CancelCommands: set<string> := {"VERWIJDER", "CANCEL"}

  /** The first lines of the reply to an edited caption, up to the caption. */
  const EditHeader: string := "*Beschrijving aangepast!*\n\nHier is de nieuwe versie:\n------------------\n"
  /** The line under every preview caption, up to the command list. */
  const PreviewFooter: string := "\n\n------------------\nAntwoord *POST* om te publiceren.\n"
    + "Antwoord *VERWIJDER* om te annuleren.\n"
    + "Antwoord met een andere omschrijving om deze te vervangen."

  /** The Dutch wording of each message the orchestrator sends. */
  function NoticeText(n: Notice): string
  {
    match n
    case MediaReceived(video) => (if video then "Video" else "Foto") + " ontvangen, een moment geduld..."
    case NoDraft => "Geen concept gevonden. Stuur eerst media."
    case Published => "Gepubliceerd op social media."
    case PublishFailed => "Publicatie mislukt. Controleer de logs."
    case DraftCleared => "Concept verwijderd."
    case CaptionEdited(caption) =>
      EditHeader + caption + "\n------------------\nAntwoord *POST* om te publiceren."
    case IntakeFailed => "Er is iets fout gegaan bij het verwerken van de media."
    case PreviewCaption(caption) => caption + PreviewFooter
  }

  /** The acknowledgement names the kind of media: it starts with "Video"
      exactly for a video. */
  lemma AcknowledgementNamesMedia(video: bool)
    ensures NoticeText(MediaReceived(video))[..5] == "Video" <==> video
  {
    var t := NoticeText(MediaReceived(video));
    if video {
      assert t[..5] == "Video";
    } else {
      assert t[..5] == "Foto ";
    }
  }

  /** The reply to an edit echoes the new caption verbatim, right after the
      header. */
  lemma EditReplyEchoesCaption(caption: string)
    ensures var t := NoticeText(CaptionEdited(caption));
      |EditHeader| + |caption| <= |t| && t[|EditHeader|..|EditHeader| + |caption|] == caption
  {
    var rest := "\n------------------\nAntwoord *POST* om te publiceren.";
    var t := NoticeText(CaptionEdited(caption));
    assert t == EditHeader + caption + rest;
    assert (EditHeader + caption + rest)[|EditHeader|..|EditHeader| + |caption|] == caption;
  }

  /** The preview text opens with the caption and then lists the commands. */
  lemma PreviewStartsWithCaption(caption: string)
    ensures var t := NoticeText(PreviewCaption(caption));
      |caption| <= |t| && t[..|caption|] == caption && t[|caption|..] == PreviewFooter
  {
    var t := NoticeText(PreviewCaption(caption));
    assert t == caption + PreviewFooter;
  }

  /** The image flow's second step: Instagram is given public_url in dry run
      and otherwise the CDN URL Facebook reports for the uploaded photo. */
  function InstagramImageUrl(fbId: string, publicUrl: string, dryRun: bool, api: MetaApi): Traced<Option<string>>
  {
    if dryRun then Traced(Some(publicUrl), []) else GetFbPictureUrl(fbId, api)
  }

  /** execute_post. A video goes to both platforms by its public URL,
      independently. An image is uploaded to Facebook from the local file;
      only a truthy id leads to the CDN lookup, and only a truthy URL leads
      to Instagram. The answer is True exactly when both platforms report
      success. An exception from the reel status poll propagates. */
  function ExecutePost(mediaPath: string, caption: string, dryRun: bool, baseUrl: string, api: MetaApi)
    : (r: Traced<Outcome<bool>>)
    ensures r.result.Raised? ==> IsVideoPath(mediaPath) && !dryRun
    ensures !IsVideoPath(mediaPath) && !dryRun ==>
      && |r.calls| >= 1
      && r.calls[0] == FbPhotoPost(if mediaPath in api.localFiles then Binary(mediaPath) else ByUrl(mediaPath), caption)
  {
    var publicUrl := PublicUrl(baseUrl, mediaPath);
    if IsVideoPath(mediaPath) then
      var fb := PostVideoToFacebook(publicUrl, caption, dryRun, api);
      var ig := ReelSpec(publicUrl, caption, dryRun, api);
      var r := match ig.result
               case Raised => Raised
               case Returned(ok) => Returned(fb.result && ok);
      Traced(r, fb.calls + ig.calls)
    else
      var fb := PostToFacebook(mediaPath, caption, dryRun, api);
      match fb.result
      case Str(id) =>
        if id == "" then Traced(Returned(false), fb.calls)
        else
          var url := InstagramImageUrl(id, publicUrl, dryRun, api);
          if !TruthyText(url.result) then Traced(Returned(false), fb.calls + url.calls)
          else
            var ig := IgPhotoSpec(url.result.value, caption, dryRun, api);
            Traced(Returned(ig.result), fb.calls + url.calls + ig.calls)
      case _ => Traced(Returned(false), fb.calls)
  }

  /** execute_post returns True exactly when both platforms succeed: for a
      video, the Facebook upload and the reel; for an image, the Facebook
      upload (a non-empty id), the CDN lookup (a non-empty URL) and the
      Instagram post of that URL. */
  lemma ExecutePostSucceedsIff(mediaPath: string, caption: string, baseUrl: string, api: MetaApi)
    ensures var r := ExecutePost(mediaPath, caption, false, baseUrl, api);
      var publicUrl := PublicUrl(baseUrl, mediaPath);
      && (IsVideoPath(mediaPath) ==>
            (r.result == Returned(true) <==>
               api.fbVideoOk && ReelSpec(publicUrl, caption, false, api).result == Returned(true)))
      && (!IsVideoPath(mediaPath) ==>
            && r.result.Returned?
            && (r.result.value <==>
                  && Truthy(PostToFacebook(mediaPath, caption, false, api).result)
                  && TruthyText(PictureSource(api.fbPicture))
                  && AllCreatesAccepted(api) && api.igPublishOk))
  {
    if !IsVideoPath(mediaPath) && TruthyText(PictureSource(api.fbPicture)) {
      IgPhotoSucceedsIff(PictureSource(api.fbPicture).value, caption, api);
    }
  }

  /** A falsy Facebook id (None, "", or False after an exception) skips the
      lookup and Instagram: the only call is the upload. */
  lemma ImageSkipsInstagramWhenFacebookFails(mediaPath: string, caption: string, dryRun: bool,
                                             baseUrl: string, api: MetaApi)
    requires !IsVideoPath(mediaPath)
    requires !Truthy(PostToFacebook(mediaPath, caption, dryRun, api).result)
    ensures var r := ExecutePost(mediaPath, caption, dryRun, baseUrl, api);
      && r.result == Returned(false)
      && r.calls == PostToFacebook(mediaPath, caption, dryRun, api).calls
      && NoInstagramCall(r.calls)
  {
  }

  /** Outside dry run, a lookup that yields no URL skips Instagram: the
      calls are the upload and the lookup of the returned id. */
  lemma ImageSkipsInstagramWhenLookupFails(mediaPath: string, caption: string, baseUrl: string, api: MetaApi)
    requires !IsVideoPath(mediaPath)
    requires api.fbPhoto.FbAccepted? && TruthyText(api.fbPhoto.id)
    requires !TruthyText(PictureSource(api.fbPicture))
    ensures var r := ExecutePost(mediaPath, caption, false, baseUrl, api);
      && r.result == Returned(false)
      && |r.calls| == 2 && r.calls[0].FbPhotoPost?
      && r.calls[1] == FbPictureLookup(api.fbPhoto.id.value)
      && NoInstagramCall(r.calls)
  {
  }

  /** In dry run nothing is requested and the post succeeds; an image is
      handed to Instagram by its public URL without a lookup. */
  lemma DryRunPostsNothing(mediaPath: string, caption: string, baseUrl: string, api: MetaApi)
    ensures ExecutePost(mediaPath, caption, true, baseUrl, api) == Traced(Returned(true), [])
    ensures InstagramImageUrl(DryRunPhotoId, PublicUrl(baseUrl, mediaPath), true, api)
      == Traced(Some(PublicUrl(baseUrl, mediaPath)), [])
  {
    PublicUrlShape(baseUrl, mediaPath);
  }

  /** What the webhook receives: NumMedia (already an int), the raw Body,
      From, MediaContentType0 and MediaUrl0. */
  datatype Inbound = Inbound(numMedia: int, body: string, sender: string, mimeType: string, mediaUrl: string)

  /** The background task the webhook schedules for received media. */
  datatype IntakeJob = IntakeJob(mediaUrl: string, mimeType: string, contextText: string, sender: string)

  /** The outcome of one webhook call: the store afterwards, the effects in
      order, the scheduled intake job if any, and whether the handler raised. */
  datatype Handled = Handled(drafts: map<string, Draft>, effects: seq<Effect>, job: Option<IntakeJob>, raised: bool)

  predicate IsCancel(command: string)
  {
    command in CancelCommands
  }

  /** How a POST publishes a draft: given the media path and the caption,
      the platform calls made and what execute_post returned or raised. */
  type Publish = (string, string) -> Traced<Outcome<bool>>

  /** The publisher the webhook uses: execute_post, never in dry-run mode. */
  function Publisher(baseUrl: string, api: MetaApi): Publish
  {
    (path: string, caption: string) => ExecutePost(path, caption, false, baseUrl, api)
  }

  /** The POST command: publish the draft, then clear it and confirm on
      success, or report the failure and keep it. An exception from
      execute_post leaves the draft and sends nothing. */
  function PostStep(drafts: map<string, Draft>, who: string, d: Draft, publish: Publish): Handled
  {
    var post := publish(d.imagePath, d.caption);
    match post.result
    case Raised => Handled(drafts, post.calls, None, true)
    case Returned(ok) =>
      if ok then Handled(Cleared(drafts, who), post.calls + SendReply(who, Published), None, false)
      else Handled(drafts, post.calls + SendReply(who, PublishFailed), None, false)
  }

  /** handle_whatsapp on a snapshot of the store, with the publisher as a
      parameter. The body is stripped first. Media is acknowledged and queued
      without touching the store. Text from a sender without a draft gets the
      no-draft reply. Otherwise the upper-cased body is the command: POST
      publishes the draft and clears it only on success (an exception leaves
      it and sends nothing), VERWIJDER or CANCEL clears it, and any other
      text becomes the caption. */
  function WhatsappStep(drafts: map<string, Draft>, msg: Inbound, publish: Publish): (h: Handled)
    ensures h.job.Some? <==> msg.numMedia > 0
    ensures h.drafts.Keys <= drafts.Keys
    ensures h.raised ==> h.drafts == drafts
  {
    var text := Strip(msg.body);
    var who := msg.sender;
    if msg.numMedia > 0 then
      Handled(drafts, SendReply(who, MediaReceived(Contains(msg.mimeType, "video"))),
              Some(IntakeJob(msg.mediaUrl, msg.mimeType, text, who)), false)
    else
      match Lookup(drafts, who)
      case None => Handled(drafts, SendReply(who, NoDraft), None, false)
      case Some(d) =>
        var command := Upper(text);
        if command == PostCommand then PostStep(drafts, who, d, publish)
        else if IsCancel(command) then
          Handled(Cleared(drafts, who), SendReply(who, DraftCleared), None, false)
        else
          var updated := CaptionUpdated(drafts, who, text);
          Handled(updated, SendReply(who, CaptionEdited(updated[who].caption)), None, false)
  }

  /** handle_whatsapp against the store object, as written: get, then clear
      or update in place, then get again to echo the new caption. The
      publisher is execute_post with the app's base URL and platform. */
  method HandleWhatsapp(store: DraftStore, msg: Inbound, baseUrl: string, api: MetaApi)
    returns (effects: seq<Effect>, job: Option<IntakeJob>, raised: bool)
    modifies store
    ensures Handled(store.drafts, effects, job, raised) == WhatsappStep(old(store.drafts), msg, Publisher(baseUrl, api))
  {
    effects, job, raised := HandleWith(store, msg, Publisher(baseUrl, api));
  }

  /** The body of handle_whatsapp with the publisher as a parameter. */
  method HandleWith(store: DraftStore, msg: Inbound, publish: Publish)
    returns (effects: seq<Effect>, job: Option<IntakeJob>, raised: bool)
    modifies store
    ensures Handled(store.drafts, effects, job, raised) == WhatsappStep(old(store.drafts), msg, publish)
  {
    var incoming := Strip(msg.body);
    var who := msg.sender;
    if msg.numMedia > 0 {
      effects := SendReply(who, MediaReceived(Contains(msg.mimeType, "video")));
      return effects, Some(IntakeJob(msg.mediaUrl, msg.mimeType, incoming, who)), false;
    }
    var current := store.Get(who);
    if current.None? {
      return SendReply(who, NoDraft), None, false;
    }
    var command := Upper(incoming);
    ghost var before := store.drafts;
    job, raised := None, false;
    if command == PostCommand {
      assert WhatsappStep(before, msg, publish) == PostStep(before, who, current.value, publish);
      var post := publish(current.value.imagePath, current.value.caption);
      effects := post.calls;
      if post.result.Raised? {
        raised := true;
      } else if post.result.value {
        store.Clear(who);
        effects := effects + SendReply(who, Published);
      } else {
        effects := effects + SendReply(who, PublishFailed);
      }
    } else if command == "VERWIJDER" || command == "CANCEL" {
      assert IsCancel(command);
      store.Clear(who);
      effects := SendReply(who, DraftCleared);
    } else {
      assert !IsCancel(command);
      store.UpdateCaption(who, incoming);
      var updated := store.Get(who);
      effects := SendReply(who, CaptionEdited(updated.value.caption));
    }
  }

  /** Media: exactly one message, the acknowledgement; the stripped body
      travels to the intake job as context; the store is neither read nor
      changed, and nothing is published. */
  lemma MediaIsQueued(drafts: map<string, Draft>, msg: Inbound, publish: Publish)
    requires msg.numMedia > 0
    ensures var h := WhatsappStep(drafts, msg, publish);
      && h.drafts == drafts && !h.raised
      && h.effects == [Reply(msg.sender, MediaReceived(Contains(msg.mimeType, "video")))]
      && h.job == Some(IntakeJob(msg.mediaUrl, msg.mimeType, Strip(msg.body), msg.sender))
  {
  }

  /** Text from a sender without a draft: the store is unchanged and the only
      effect is the no-draft reply. */
  lemma TextWithoutDraft(drafts: map<string, Draft>, msg: Inbound, publish: Publish)
    requires msg.numMedia <= 0 && Lookup(drafts, msg.sender).None?
    ensures WhatsappStep(drafts, msg, publish) == Handled(drafts, [Reply(msg.sender, NoDraft)], None, false)
  {
  }

  /** POST clears the draft if and only if publishing returns True; in every
      other case the draft is exactly as before, so the user can retry. The
      draft's own path and caption are what gets published, and the
      reply (if any) comes after every platform call. */
  lemma PostClearsIffPublished(drafts: map<string, Draft>, msg: Inbound, publish: Publish)
    requires msg.numMedia <= 0 && msg.sender in drafts
    requires Upper(Strip(msg.body)) == PostCommand
    ensures var h := WhatsappStep(drafts, msg, publish);
      var d := drafts[msg.sender];
      var post := publish(d.imagePath, d.caption);
      && (Lookup(h.drafts, msg.sender).None? <==> post.result == Returned(true))
      && (post.result != Returned(true) ==> h.drafts == drafts)
      && SameExcept(h.drafts, drafts, msg.sender)
      && post.calls <= h.effects
      && (h.raised <==> post.result.Raised?)
      && (h.raised ==> h.effects == post.calls)
      && (post.result == Returned(true) ==> h.effects == post.calls + [Reply(msg.sender, Published)])
      && (post.result == Returned(false) ==> h.effects == post.calls + [Reply(msg.sender, PublishFailed)])
  {
    var d := drafts[msg.sender];
    assert WhatsappStep(drafts, msg, publish) == PostStep(drafts, msg.sender, d, publish);
  }

  /** VERWIJDER or CANCEL, in any case and with surrounding blanks, removes
      the draft and confirms; a second cancel then finds no draft. */
  lemma CancelClears(drafts: map<string, Draft>, msg: Inbound, publish: Publish)
    requires msg.numMedia <= 0 && msg.sender in drafts
    requires IsCancel(Upper(Strip(msg.body)))
    ensures var h := WhatsappStep(drafts, msg, publish);
      && h.drafts == Cleared(drafts, msg.sender)
      && Lookup(h.drafts, msg.sender).None?
      && SameExcept(h.drafts, drafts, msg.sender)
      && h.effects == [Reply(msg.sender, DraftCleared)]
      && WhatsappStep(h.drafts, msg, publish) == Handled(h.drafts, [Reply(msg.sender, NoDraft)], None, false)
  {
    var command := Upper(Strip(msg.body));
    assert command != PostCommand;
    var cleared := Cleared(drafts, msg.sender);
    assert WhatsappStep(drafts, msg, publish) == Handled(cleared, SendReply(msg.sender, DraftCleared), None, false);
    TextWithoutDraft(cleared, msg, publish);
  }

  /** Any other text replaces the caption by the stripped body in its own
      case, whatever the old caption was; the media path stays, and the reply
      echoes exactly the new caption. */
  lemma EditReplacesCaption(drafts: map<string, Draft>, msg: Inbound, publish: Publish)
    requires msg.numMedia <= 0 && msg.sender in drafts
    requires Upper(Strip(msg.body)) != PostCommand && !IsCancel(Upper(Strip(msg.body)))
    ensures var h := WhatsappStep(drafts, msg, publish);
      && Lookup(h.drafts, msg.sender) == Some(Draft(drafts[msg.sender].imagePath, Strip(msg.body)))
      && SameExcept(h.drafts, drafts, msg.sender)
      && h.effects == [Reply(msg.sender, CaptionEdited(Strip(msg.body)))]
      && !h.raised && h.job.None?
  {
    var text := Strip(msg.body);
    var updated := CaptionUpdated(drafts, msg.sender, text);
    UpdateReplacesCaptionOnly(drafts, msg.sender, text);
    assert WhatsappStep(drafts, msg, publish)
      == Handled(updated, SendReply(msg.sender, CaptionEdited(updated[msg.sender].caption)), None, false);
  }

  /** A webhook call never changes another sender's draft. */
  lemma OtherUsersUntouched(drafts: map<string, Draft>, msg: Inbound, publish: Publish)
    ensures SameExcept(WhatsappStep(drafts, msg, publish).drafts, drafts, msg.sender)
  {
    var command := Upper(Strip(msg.body));
    if msg.numMedia > 0 {
      MediaIsQueued(drafts, msg, publish);
    } else if msg.sender !in drafts {
      TextWithoutDraft(drafts, msg, publish);
    } else if command == PostCommand {
      PostClearsIffPublished(drafts, msg, publish);
    } else if IsCancel(command) {
      CancelClears(drafts, msg, publish);
    } else {
      EditReplacesCaption(drafts, msg, publish);
    }
  }

  /** The store after a series of webhook calls, handled one at a time. */
  function Replay(drafts: map<string, Draft>, msgs: seq<Inbound>, publish: Publish): map<string, Draft>
  {
    if msgs == [] then drafts
    else WhatsappStep(Replay(drafts, msgs[..|msgs| - 1], publish), msgs[|msgs| - 1], publish).drafts
  }

  /** However many messages other senders send, a user's draft stays as it is. */
  lemma {:induction false} OthersNeverTouchDraft(drafts: map<string, Draft>, msgs: seq<Inbound>, user: string,
                                                 publish: Publish)
    requires forall i :: 0 <= i < |msgs| ==> msgs[i].sender != user
    ensures Lookup(Replay(drafts, msgs, publish), user) == Lookup(drafts, user)
  {
    if msgs != [] {
      var prefix := msgs[..|msgs| - 1];
      OthersNeverTouchDraft(drafts, prefix, user, publish);
      OtherUsersUntouched(Replay(drafts, prefix, publish), msgs[|msgs| - 1], publish);
    }
  }

  /** Editing and then sending POST publishes the draft's media with the
      edited text, not the caption the agent wrote. */
  lemma EditThenPostPublishesEdit(drafts: map<string, Draft>, edit: Inbound, post: Inbound, publish: Publish)
    requires edit.numMedia <= 0 && edit.sender in drafts
    requires Upper(Strip(edit.body)) != PostCommand && !IsCancel(Upper(Strip(edit.body)))
    requires post.numMedia <= 0 && post.sender == edit.sender && Upper(Strip(post.body)) == PostCommand
    ensures var afterEdit := WhatsappStep(drafts, edit, publish).drafts;
      var published := publish(drafts[edit.sender].imagePath, Strip(edit.body));
      var h := WhatsappStep(afterEdit, post, publish);
      && published.calls <= h.effects
      && (Lookup(h.drafts, edit.sender).None? <==> published.result == Returned(true))
  {
    var afterEdit := WhatsappStep(drafts, edit, publish).drafts;
    EditReplacesCaption(drafts, edit, publish);
    PostClearsIffPublished(afterEdit, post, publish);
  }

  /** The outside world of one intake job: the download (a local path or an
      exception), the downloaded video and image files, the branded clip the
      key frames are cut from, the captioning service, and Twilio. */
  datatype IntakeWorld = IntakeWorld(
    download: Outcome<string>,
    video: VideoOps.VideoFile,
    clip: VideoOps.Clip,
    image: ImageOps.ImageFile,
    captioner: (seq<string>, string) -> string,
    twilio: Twilio)

  /** The context handed to the agent: the user's text, or the default
      request when it is empty. */
  function ContextFor(text: string): (context: string)
    ensures context != ""
    ensures text != "" ==> context == text
  {
    if text == "" then DefaultContext else text
  }

  /** A download is treated as a video when the MIME type mentions video
      or the saved file ends in ".mp4" (case-sensitively). */
  predicate IsVideoIntake(mimeType: string, localPath: string)
  {
    Contains(mimeType, "video") || EndsWith(localPath, ".mp4")
  }

  /** The agent's run over the downloaded file, with the effects performed
      before it (the key frames saved for a video). Raised when the branding
      or the image processing raises. */
  function AgentRun(job: IntakeJob, localPath: string, world: IntakeWorld): Traced<Outcome<Graph.AgentState>>
  {
    var context := ContextFor(job.contextText);
    if IsVideoIntake(job.mimeType, localPath) then
      match VideoOps.BrandVideo(world.video)
      case Raised => Traced(Raised, [])
      case Returned(branded) =>
        var frames := VideoOps.KeyframesSpec(world.clip, VideoOps.DefaultFrameCount);
        var input := Graph.InitialState(branded, context, true, Some(frames.result));
        Traced(Graph.Invoke(input, world.image, world.captioner), frames.calls)
    else
      var input := Graph.InitialState(localPath, context, false, None);
      Traced(Graph.Invoke(input, world.image, world.captioner), [])
  }

  /** process_incoming_media on a snapshot of the store: download, agent,
      then save the draft and send the preview. Any exception on the way
      ends it with one failure reply and no draft. */
  function IntakeSpec(drafts: map<string, Draft>, job: IntakeJob, world: IntakeWorld): (r: Traced<map<string, Draft>>)
    ensures forall u :: u != job.sender ==> Lookup(r.result, u) == Lookup(drafts, u)
    ensures r.result == drafts || job.sender in r.result
  {
    var failed := SendReply(job.sender, IntakeFailed);
    match world.download
    case Raised => Traced(drafts, failed)
    case Returned(localPath) =>
      var run := AgentRun(job, localPath, world);
      match run.result
      case Raised => Traced(drafts, run.calls + failed)
      case Returned(st) =>
        var caption := st.generatedCaption.value;
        var path := st.processedPath.value;
        Traced(Saved(drafts, job.sender, path, caption),
               run.calls + PreviewEffects(job.sender, path, PreviewCaption(caption), world.twilio))
  }

  /** process_incoming_media against the store object, as written; the key
      frames come from the extraction loop itself. */
  method ProcessIncomingMedia(store: DraftStore, job: IntakeJob, world: IntakeWorld) returns (effects: seq<Effect>)
    modifies store
    ensures Traced(store.drafts, effects) == IntakeSpec(old(store.drafts), job, world)
  {
    var failed := SendReply(job.sender, IntakeFailed);
    if world.download.Raised? {
      return failed;
    }
    var localPath := world.download.value;
    var context := ContextFor(job.contextText);
    var input: Graph.AgentState;
    effects := [];
    if IsVideoIntake(job.mimeType, localPath) {
      var branded := VideoOps.BrandVideo(world.video);
      if branded.Raised? {
        return failed;
      }
      var keyframes, frameCalls := VideoOps.ExtractKeyframes(world.clip, VideoOps.DefaultFrameCount);
      effects := frameCalls;
      input := Graph.InitialState(branded.value, context, true, Some(keyframes));
    } else {
      input := Graph.InitialState(localPath, context, false, None);
    }
    var result := Graph.Invoke(input, world.image, world.captioner);
    if result.Raised? {
      return effects + failed;
    }
    var finalCaption := result.value.generatedCaption.value;
    var finalPath := result.value.processedPath.value;
    store.Save(job.sender, finalPath, finalCaption);
    effects := effects + PreviewEffects(job.sender, finalPath, PreviewCaption(finalCaption), world.twilio);
  }

  /** The intake job fails when the download raises, or when branding (for a
      video) or image processing (for an image) raises. */
  predicate IntakeFails(job: IntakeJob, world: IntakeWorld)
  {
    || world.download.Raised?
    || (IsVideoIntake(job.mimeType, world.download.value) && VideoOps.BrandVideo(world.video).Raised?)
    || (!IsVideoIntake(job.mimeType, world.download.value) && ImageOps.ProcessImage(world.image).Raised?)
  }

  /** A failed intake leaves the store as it was and sends exactly one
      message, the failure reply, as its last effect. */
  lemma IntakeFailureRepliesOnce(drafts: map<string, Draft>, job: IntakeJob, world: IntakeWorld)
    requires IntakeFails(job, world)
    ensures var r := IntakeSpec(drafts, job, world);
      && r.result == drafts
      && Messages(r.calls) == [Reply(job.sender, IntakeFailed)]
      && r.calls[|r.calls| - 1] == Reply(job.sender, IntakeFailed)
  {
    var r := IntakeSpec(drafts, job, world);
    var failed := SendReply(job.sender, IntakeFailed);
    if world.download.Returned? {
      var run := AgentRun(job, world.download.value, world);
      NoMessagesBeforeAgent(job, world.download.value, world);
      MessagesAppend(run.calls, failed);
      assert failed[..0] == [];
      assert Messages(failed) == failed;
    } else {
      assert failed[..0] == [];
    }
  }

  /** The only effects before the agent returns are saved key frames: no
      message is sent before the failure reply or the preview. */
  lemma NoMessagesBeforeAgent(job: IntakeJob, localPath: string, world: IntakeWorld)
    ensures Messages(AgentRun(job, localPath, world).calls) == []
  {
    var calls := AgentRun(job, localPath, world).calls;
    VideoOps.KeyframesResult(world.clip, VideoOps.DefaultFrameCount);
    assert forall e :: e in calls ==> e.SaveFrame?;
    if Messages(calls) != [] {
      assert Messages(calls)[0] in Messages(calls);
    }
  }

  /** A successful intake saves the sender's draft, only after the agent
      returned: the processed file and the caption the service wrote from
      the frames and the context (the default request when the user sent
      none). A video is posted as its branded file and described from its
      key frames (or the file itself when none were saved); an image as its
      processed file, described from that file. No failure reply is sent,
      and other senders' drafts are untouched. */
  lemma IntakeSuccessSavesDraft(drafts: map<string, Draft>, job: IntakeJob, world: IntakeWorld)
    requires !IntakeFails(job, world)
    ensures var r := IntakeSpec(drafts, job, world);
      var localPath := world.download.value;
      var context := ContextFor(job.contextText);
      && SameExcept(r.result, drafts, job.sender)
      && Reply(job.sender, IntakeFailed) !in r.calls
      && (IsVideoIntake(job.mimeType, localPath) ==>
            var branded := VideoOps.BrandVideo(world.video).value;
            var frames := VideoOps.KeyframesSpec(world.clip, VideoOps.DefaultFrameCount).result;
            var inputs := if |frames| > 0 then frames else [branded];
            Lookup(r.result, job.sender) == Some(Draft(branded, world.captioner(inputs, context))))
      && (!IsVideoIntake(job.mimeType, localPath) ==>
            var processed := ImageOps.ProcessImage(world.image).value;
            Lookup(r.result, job.sender) == Some(Draft(processed, world.captioner([processed], context))))
  {
    var localPath := world.download.value;
    var run := AgentRun(job, localPath, world);
    NoMessagesBeforeAgent(job, localPath, world);
    var st := run.result.value;
    var preview := PreviewEffects(job.sender, st.processedPath.value, PreviewCaption(st.generatedCaption.value), world.twilio);
    assert Reply(job.sender, IntakeFailed) !in preview;
  }
}
