# Social media publishing assistant — a Dafny model of its core

The system is a WhatsApp bot that turns a photo or video sent by a user
into a Facebook and Instagram post. Received media is downloaded, branded
and resized, captioned by a language model, and kept as a per-sender
**draft**. The user then answers in text:

- `POST` publishes the draft to both platforms through the Meta Graph API;
- `VERWIJDER` or `CANCEL` discards it;
- any other text replaces the caption.

This project models the core of that bot and proves properties of it:

- the draft store;
- the webhook's text-command state machine and the background intake job;
- the publish choreography over the two platforms, including Instagram's
  create loop and its reel status polling;
- the two-node agent graph;
- the timestamp, resize, padding and overlay arithmetic of the media tools.

Everything outside the process is an **oracle**, a value that fixes what
the outside answers: HTTP, Twilio, the media libraries and the captioning
service. Operations return their Python result together with the **trace**
of effects they performed, in order: HTTP requests, sleeps, saved frames
and WhatsApp messages.

Modules follow the source files:

| module | models |
|---|---|
| `Common` | shared values; Python truthiness; `int()` truncation; the effect vocabulary |
| `Text` | the Python string operations the bot relies on |
| `StateManager` | `state_manager.py`: class `DraftStore` |
| `ImageOps` | `image_ops.py` |
| `VideoOps` | `video_ops.py` |
| `Graph` | `graph.py` |
| `OfficialApi` | `official_api.py` |
| `Notifications` | Twilio messaging in `notifications.py` and `send_reply` |
| `Orchestrator` | `main.py` |

Code that updates state in place is modelled as methods, each proved equal
to a pure specification function. That covers:

- the draft dictionary;
- the webhook handler;
- the intake job;
- the Instagram create loop and the reel poll loop;
- the key-frame loop.

The lemmas are stated about those specification functions.

The webhook's step function takes the publisher as a parameter, so its
lemmas hold for any publish outcome; the handler instantiates it with
`execute_post`. Each WhatsApp text is recorded as a `Notice` (which message,
with its caption where it echoes one); `Orchestrator.NoticeText` gives the
exact Dutch wording of each.

Behaviour of the code that a reader may not expect; the model follows the
code:

- The reel status loop publishes after its 20th poll even when the
  container never reported FINISHED. Running out of polls is not treated as
  a failure (`OfficialApi.ReelBudgetExhaustedStillPublishes`).
- The Instagram photo flow sends the container-create request ten times,
  each after a 2-second sleep, and publishes only the id of the tenth
  container (`OfficialApi.IgPhotoPublishesLastId`).
- A sleep precedes every status poll. Two pending answers followed by
  FINISHED therefore cost three sleeps, not two
  (`OfficialApi.ReelTwoPendingThenFinished`).
- The reel status poll is outside any `try`, so an exception there
  propagates:
  - `execute_post` raises;
  - the webhook sends no reply and the draft is kept
    (`OfficialApi.ReelPollExceptionPropagates`,
    `Orchestrator.PostClearsIffPublished`).
- Truncating the padded canvas can leave it just outside the allowed
  aspect ratio: a 500x1001 image gets an 800x1001 canvas
  (`ImageOps.PaddedCanvasMayStillBeTooTall`).

## Model

| member | source | states |
|---|---|---|
| Common.Trunc | src/tools/image_ops.py:29 | `int()` of a float truncates toward zero: for x ≥ 0 the result r satisfies r ≤ x < r + 1 |
| Text.StripSpec | src/main.py:225 | `strip()` keeps one contiguous run of the body that starts and ends with a non-space, and removes only whitespace around it |
| Text.StripIdempotent | src/main.py:225 | stripping an already stripped body changes nothing |
| Text.UpperEqualsWord | src/main.py:253-264 | comparing the upper-cased body with a capital keyword is case-insensitive: every character is the keyword's letter in either case, with equal lengths |
| Text.LowerPostIsPublish | src/main.py:253-255 | "post" is the publish command |
| Text.PaddingIsStripped | src/main.py:225 | blanks around a word are removed, so " Post " and "Post" give the same command |
| Text.MixedCaseCancel | src/main.py:225-264 | "Cancel" followed by a newline is the English cancel command |
| Text.ContainsSpec | src/main.py:239 | Python's substring `in` holds exactly when the word occurs at some index |
| Text.Basename | src/main.py:54 | the file name has no '/', ends the path, and follows its last '/' |
| Text.RStripSlash | src/main.py:53 | `rstrip("/")` is a prefix without a trailing '/', and only slashes were removed |
| Text.PublicUrlShape | src/main.py:53-55 | the public URL is never empty and ends with the file's base name |
| StateManager.SaveThenGet | src/tools/state_manager.py:8-18 | after a save, get returns exactly the saved path and caption; other users are unaffected |
| StateManager.UpdateWithoutDraftIsNoop | src/tools/state_manager.py:20-23 | updating the caption of a user without a draft changes nothing and creates no draft |
| StateManager.UpdateReplacesCaptionOnly | src/tools/state_manager.py:20-23 | on an existing draft the caption becomes exactly the new text and the media path stays; other users are unaffected |
| StateManager.ClearThenGet | src/tools/state_manager.py:26-29 | after clear there is no draft; clearing is idempotent, a no-op without a draft, and leaves other users alone |
| StateManager.DraftStore.constructor | src/tools/state_manager.py:6 | the store starts empty |
| StateManager.DraftStore.Save | src/tools/state_manager.py:8-14 | the dictionary entry is created or overwritten in place; nobody else's entry changes |
| StateManager.DraftStore.Get | src/tools/state_manager.py:16-18 | returns the entry exactly when present and changes nothing |
| StateManager.DraftStore.UpdateCaption | src/tools/state_manager.py:20-24 | only an existing entry's caption changes, in place |
| StateManager.DraftStore.Clear | src/tools/state_manager.py:26-30 | the entry is deleted if present; nothing else changes |
| ImageOps.ResizeBounds | src/tools/image_ops.py:26-30 | only images wider than 1080 are scaled; they become exactly 1080 wide with the proportional height truncated; nothing grows |
| ImageOps.FitsIffRatioAllowed | src/tools/image_ops.py:52-61 | the image is left as is exactly when 0.8·h ≤ w ≤ 1.91·h |
| ImageOps.PaddedCanvasCovers | src/tools/image_ops.py:65-81 | a too-tall image gets a canvas int(h·0.8) wide, a too-wide one int(w/1.91) high; the canvas covers the image and the paste offset is centred and non-negative |
| ImageOps.PaddedCanvasMayStillBeTooTall | src/tools/image_ops.py:66-69 | a 500x1001 image gets an 800x1001 canvas pasted at (150, 0), whose ratio is still below 0.8 |
| ImageOps.ValidateAndPadResult | src/tools/image_ops.py:45-93 | the padding step never raises; an allowed ratio, h = 0 or any failure gives back the input path |
| ImageOps.ProcessImageResult | src/tools/image_ops.py:18-43 | process_image raises exactly when the file cannot be opened or saved; otherwise it returns the resized file or its padded copy |
| ImageOps.FlairAtBottom | src/tools/image_ops.py:104-111 | the flair spans the full width and its bottom edge is the image's bottom edge |
| ImageOps.LogoInTopRightCorner | src/tools/image_ops.py:113-123 | the logo is int(0.15·w) wide; its top and right margins are both int(0.02·w); it starts inside the image |
| VideoOps.Timestamps | src/tools/video_ops.py:30 | there are exactly num_frames timestamps |
| VideoOps.TimestampsInterior | src/tools/video_ops.py:30 | for a positive duration the timestamps lie strictly inside the clip, strictly increase, and are duration/(N+1) apart |
| VideoOps.ThirtySecondsFiveFrames | src/tools/video_ops.py:30 | 30 seconds and 5 frames give 5, 10, 15, 20, 25 |
| VideoOps.ExtractKeyframes | src/tools/video_ops.py:21-40 | the frame loop saves frames in timestamp order until the first failure; its paths and saves equal the closed form KeyframesSpec |
| VideoOps.KeyframesResult | src/tools/video_ops.py:26-40 | the result is [] or one path per timestamp, the i-th saved at the i-th timestamp; any failed save gives [] |
| VideoOps.VideoLogoInTopRightCorner | src/tools/video_ops.py:62-71 | the video logo is int(0.15·w) wide, 20 pixels from the top and from the right edge, and inside the frame once w ≥ 24 |
| VideoOps.BrandVideoResult | src/tools/video_ops.py:42-98 | brand_video returns its output file or raises; it raises exactly on an unreadable video, a zero-width asset or a failed write |
| Graph.Invoke | src/agent/graph.py:68-81 | processing runs first, then captioning, then the run ends; a returned state always has a processed path and a caption |
| Graph.VideoPassesThrough | src/agent/graph.py:31-33 | a video's processed path is its input path; it cannot fail; the caption is the service's answer for its frames |
| Graph.ImageFrameIsProcessedFile | src/agent/graph.py:35-47 | an image's processed path and its single analysis frame are the same processed file, which the caption is written from; the run raises exactly when processing does |
| Graph.MediaInputs | src/agent/graph.py:56-59 | the captioning service always gets at least one file: the analysis frames when there are any, else (None or an empty list) the input file |
| OfficialApi.PostToFacebook | src/tools/official_api.py:44-87 | in dry run no request and the fixed id "DRY_RUN_ID_123"; otherwise exactly one Facebook photo request; the result is never True (an id, None or False) |
| OfficialApi.PictureSource | src/tools/official_api.py:96-104 | the lookup yields a URL exactly when the answer parsed and has an `images` list whose first entry has a source, and then it is that source; every other answer gives None |
| OfficialApi.GetFbPictureUrl | src/tools/official_api.py:89-104 | one Graph lookup of the photo id and nothing on Instagram; its value is the first image's source or None |
| OfficialApi.PostVideoToFacebook | src/tools/official_api.py:106-119 | True exactly in dry run or on a successful upload; dry run makes no request, otherwise exactly one video request |
| OfficialApi.FacebookUpload | src/tools/official_api.py:44-87 | the photo upload is one request; it is binary exactly when the path exists locally; it returns the answer's id, None without one, or False on an exception |
| OfficialApi.PostToInstagram | src/tools/official_api.py:123-153 | the ten-round create loop and the publish performed by the method equal the closed form IgPhotoSpec |
| OfficialApi.IgPhotoPublishesLastId | src/tools/official_api.py:132-150 | with every create accepted: ten rounds of a 2-unit sleep and a create, then one publish of the tenth id; the result is the publish's |
| OfficialApi.IgPhotoRejectionStopsBeforePublish | src/tools/official_api.py:132-143 | the first non-200 or failed create returns False; that create is the last request and nothing is published |
| OfficialApi.IgPhotoSucceedsIff | src/tools/official_api.py:123-153 | the photo post succeeds exactly when all ten creates and the publish succeed |
| OfficialApi.PostReelToInstagram | src/tools/official_api.py:155-187 | the create, the poll loop with break and return, and the publish performed by the method equal the closed form ReelSpec |
| OfficialApi.ReelErrorStopsWithoutPublish | src/tools/official_api.py:173-178 | the first ERROR status returns False with no publish, after k+1 sleeps and polls |
| OfficialApi.ReelFinishedPublishesOnce | src/tools/official_api.py:173-184 | the first FINISHED status stops polling after k+1 sleeps and polls; exactly one publish follows, as the last request |
| OfficialApi.ReelBudgetExhaustedStillPublishes | src/tools/official_api.py:173-184 | twenty pending answers end the polling and the reel is published anyway, exactly once |
| OfficialApi.ReelPollExceptionPropagates | src/tools/official_api.py:171-178 | an exception while polling propagates and nothing is published |
| OfficialApi.ReelCreateFailureStops | src/tools/official_api.py:162-168 | a failed container create returns False after that one request: no sleep, no poll, no publish |
| OfficialApi.ReelPollsAtMostBudget | src/tools/official_api.py:155-187 | whatever the API answers, a reel post polls any container at most 20 times, sleeps at most 20 times and publishes at most once |
| OfficialApi.ReelTwoPendingThenFinished | src/tools/official_api.py:173-177 | pending, pending, FINISHED: three 5-unit sleeps and a single publish |
| OfficialApi.DryRunMakesNoCalls | src/tools/official_api.py:68-160 | in dry run every post function returns a truthy success without any request; the photo id is "DRY_RUN_ID_123" |
| OfficialApi.ExecutePost | src/tools/official_api.py:19-40 | the module-level execute_post can raise only for a video outside dry run (the reel poll); in dry run it makes no request and its value is truthy |
| OfficialApi.ExecutePostCallsBoth | src/tools/official_api.py:19-40 | the module-level execute_post calls Facebook and then Instagram whatever Facebook returned; its value is truthy exactly when both results are |
| Notifications.PreviewOrder | src/tools/notifications.py:5-52 | nothing is sent without both credentials and a base URL; otherwise the media link goes first, then after a 1-second pause the caption, and the caption is sent exactly when the media message succeeded |
| Orchestrator.AcknowledgementNamesMedia | src/main.py:238-240 | the media acknowledgement starts with "Video" exactly for a video, otherwise with "Foto" |
| Orchestrator.EditReplyEchoesCaption | src/main.py:272-281 | the reply to an edit contains the stored caption verbatim, right after its fixed header |
| Orchestrator.PreviewStartsWithCaption | src/main.py:163-169 | the preview text is the caption followed by the fixed list of the three commands |
| Orchestrator.ExecutePost | src/main.py:48-94 | execute_post can raise only for a video outside dry run; an image is uploaded to Facebook first, from its local path (binary when the file exists), not from the public URL |
| Orchestrator.ExecutePostSucceedsIff | src/main.py:48-94 | execute_post returns True exactly when both platforms succeed: upload, lookup and Instagram for an image; upload and reel for a video |
| Orchestrator.ImageSkipsInstagramWhenFacebookFails | src/main.py:69-88 | a falsy Facebook id skips the lookup and Instagram; the upload is the only call and the result is False |
| Orchestrator.ImageSkipsInstagramWhenLookupFails | src/main.py:74-86 | a lookup without a URL skips Instagram; the calls are the upload and the lookup of the returned id |
| Orchestrator.DryRunPostsNothing | src/main.py:74-84 | in dry run nothing is requested and the post succeeds; Instagram would get the public URL, without a lookup |
| Orchestrator.WhatsappStep | src/main.py:221-283 | one webhook call schedules an intake job exactly when media is attached, never creates a draft (text only keeps, edits or removes one), and leaves the store as it was when publishing raises |
| Orchestrator.HandleWhatsapp | src/main.py:221-283 | the handler's store updates, replies and scheduled job equal the step function WhatsappStep on the old store, with execute_post (not in dry run) as the publisher |
| Orchestrator.HandleWith | src/main.py:225-283 | the same for any publisher: get, then clear or update the store in place, then get again to echo the caption |
| Orchestrator.MediaIsQueued | src/main.py:236-244 | media gets exactly one acknowledgement, for a video exactly when the MIME type contains "video", and queues an intake job with the stripped body; the store is untouched and nothing is published |
| Orchestrator.TextWithoutDraft | src/main.py:247-251 | text without a draft gets only the no-draft reply and changes nothing |
| Orchestrator.PostClearsIffPublished | src/main.py:253-262 | POST publishes the draft's own path and caption and clears the draft exactly when publishing returns True; otherwise the draft is as it was; the reply follows all platform calls, and an exception sends none |
| Orchestrator.CancelClears | src/main.py:264-266 | VERWIJDER or CANCEL removes the draft and confirms; the same message again finds no draft |
| Orchestrator.EditReplacesCaption | src/main.py:268-281 | any other text becomes the caption, stripped but in its own case, and replaces the old one; the media path stays; the reply echoes exactly the new caption |
| Orchestrator.OtherUsersUntouched | src/main.py:246-283 | a webhook call never changes another sender's draft |
| Orchestrator.OthersNeverTouchDraft | src/main.py:221-283 | any series of messages from other senders leaves a user's draft as it was |
| Orchestrator.EditThenPostPublishesEdit | src/main.py:253-281 | after an edit, POST publishes the draft's media with the edited text rather than the generated caption, and clears the draft exactly when that succeeds |
| Orchestrator.IntakeSpec | src/main.py:116-181 | an intake job changes no other sender's draft, and either leaves the store as it was or leaves its sender with a draft |
| Orchestrator.ProcessIncomingMedia | src/main.py:116-181 | the intake job's draft save and effects equal the closed form IntakeSpec |
| Orchestrator.NoMessagesBeforeAgent | src/main.py:119-150 | before the agent returns, the only effects are saved key frames, never a message |
| Orchestrator.IntakeFailureRepliesOnce | src/main.py:119-181 | a failed download, branding or image processing leaves the store unchanged; exactly one message is sent, the failure reply, as the last effect |
| Orchestrator.IntakeSuccessSavesDraft | src/main.py:121-175 | otherwise the draft is saved once the agent has returned: a video as its branded file captioned from its key frames, an image as its processed file captioned from that file; other drafts stay, and no failure reply is sent |
| Orchestrator.ContextFor | src/main.py:126-129 | the agent always gets a non-empty context: the user's text when there is any, else the default request |

## Left out

- HTTP routes: the FastAPI app, the health check, `/process-upload` and the file saving of `/manual-post` are I/O wrappers. `/manual-post` only calls `execute_post`, which is modelled.
- Orchestrator.HandleWhatsapp: the TwiML response string is not modelled. An exception is reported as the `raised` flag, not as an HTTP 500.
- NumMedia is taken as an already parsed integer; `int()` of a malformed value raising before anything happens is not modelled. A missing MediaUrl0 (None) is not distinguished from a string.
- Twilio transport: `send_reply` and `send_whatsapp_preview` are modelled as message effects, and message SIDs are not modelled. For the preview, client construction and the media send are one success flag (`Twilio.mediaSendOk`).
- Notifications.SendReply: records the reply whenever it is attempted. Missing credentials make `Client(...)` raise inside `send_reply`, which swallows it, so no message leaves; the model has no flag for that and still records the `Reply`.
- src/tools/downloader.py is an oracle that yields a local path or raises; extension detection is not modelled.
- src/agent/gemini_client.py is a total function from frames and context to a caption. Its own fallback strings are part of that function.
- Pixel work (PIL and moviepy resize, blur, paste, composite, encode) is not modelled; only the sizes and offsets are kept.
- Floating point: ratios, `h*0.8`, `w/1.91` and the timestamps are exact `real` arithmetic with truncation. IEEE-754 rounding is not modelled.
- Concurrency: background tasks and overlapping intake jobs are not modelled. An intake job is a separate sequential call on the store.
- `time.sleep` is a counted `Sleep` effect; the preview's 1.0-second pause is `Sleep(1)`.
- Environment variables (BASE_URL, Twilio credentials, the Meta token) are parameters or oracle answers. A missing Meta token makes `get_auth_headers` raise; the model only sees this through the oracle's answers.
- `post_to_facebook` opens a local file outside its `try`. A file that exists but cannot be opened would raise out of `execute_post`; this is not modelled.
- Logging output, src/tools/post.py (a client script) and src/agent/prompts.py (a constant prompt) are not modelled.
- Text: `strip`, `upper` and `lower` are modelled over ASCII. Unicode whitespace and case mapping are not.
- ImageOps.BrandingOverlays: only the flair and logo placement of `apply_branding` is modelled. The graph never calls it, so its file output is not modelled.
- File names built from `uuid4` come from the oracles (`ImageFile`, `VideoFile`, `Clip`).
