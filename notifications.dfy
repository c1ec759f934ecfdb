/** The two WhatsApp senders over Twilio: send_reply in main.py and
    send_whatsapp_preview. Neither ever raises; a message is recorded when it
    is attempted. */
module Notifications {
  import opened Common
  import opened Text

  /** The Twilio side of the environment: the credentials, BASE_URL, and
      whether creating the client and sending the media message succeed. */
  datatype Twilio = Twilio(accountSid: Option<string>, authToken: Option<string>,
                           baseUrl: string, mediaSendOk: bool)

  /** send_reply: one text message; failures are swallowed. */
  function SendReply(to: string, notice: Notice): seq<Effect>
  {
    [Reply(to, notice)]
  }

  /** The preview is sent only when both credentials are set and BASE_URL
      is non-empty after dropping its trailing slashes. */
  predicate PreviewConfigured(t: Twilio)
  {
    TruthyText(t.accountSid) && TruthyText(t.authToken) && RStripSlash(t.baseUrl) != ""
  }

  /** send_whatsapp_preview: the media message with the public URL of the
      file, then a one-second pause and the text message. A failure of the
      media message ends it before the pause. */
  function PreviewEffects(to: string, mediaPath: string, body: Notice, t: Twilio): seq<Effect>
  {
    if !PreviewConfigured(t) then []
    else
      [PreviewMedia(to, PublicUrl(t.baseUrl, mediaPath))]
      + (if t.mediaSendOk then [Sleep(1), PreviewText(to, body)] else [])
  }

  /** Nothing is sent without credentials and a base URL; otherwise the
      media message with the file's public link goes first and the text,
      when sent, last, one second later. */
  lemma PreviewOrder(to: string, mediaPath: string, body: Notice, t: Twilio)
    ensures var e := PreviewEffects(to, mediaPath, body, t);
      && (e == [] <==> !PreviewConfigured(t))
      && (e != [] ==> e[0] == PreviewMedia(to, PublicUrl(t.baseUrl, mediaPath)))
      && (PreviewText(to, body) in e <==> PreviewConfigured(t) && t.mediaSendOk)
      && (PreviewText(to, body) in e ==> e == [e[0], Sleep(1), PreviewText(to, body)])
  {
    var url := PublicUrl(t.baseUrl, mediaPath);
    var e := PreviewEffects(to, mediaPath, body, t);
    if PreviewConfigured(t) && !t.mediaSendOk {
      assert e == [PreviewMedia(to, url)];
    }
  }
}
