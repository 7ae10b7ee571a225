/**
 * The HTTP senders of src/lib/mailer-http.ts (Resend, SendGrid, Mailgun) and
 * `sendMailSmart`, which picks the first configured provider and falls back to
 * SMTP. Environment variables are a `Config`; each provider's HTTP response is
 * an oracle parameter.
 */
module MailerHttp {
  import opened Wrappers
  import opened Js
  import opened Mailer

  datatype Provider = Resend | SendGrid | Mailgun | Smtp

  /** The provider credentials read from the environment. */
  datatype Config = Config(
    resendKey: Option<string>,
    sendGridKey: Option<string>,
    mailgunKey: Option<string>,
    mailgunDomain: Option<string>)

  /** What a provider's endpoint answered. */
  datatype HttpReply = HttpReply(
    ok: bool,
    body: string,                       // the response text, quoted in the error on failure
    id: Option<string>,                 // the `id` field of a JSON answer
    messageIdHeader: Option<string>)    // SendGrid's `x-message-id` header

  /** The request sent to a provider: the provider and the message it carries. */
  datatype Request = Request(provider: Provider, mail: Mail)

  /** What one provider call did: the request it made, if any, and the message id or error. */
  datatype HttpSending = HttpSending(request: Option<Request>, result: Result<Option<string>, MailError>)

  /** Mailgun is usable only when both its key and its domain are set. */
  predicate MailgunConfigured(cfg: Config) {
    Truthy(cfg.mailgunKey) && Truthy(cfg.mailgunDomain)
  }

  /** The credentials a provider needs are present. */
  predicate Configured(cfg: Config, p: Provider) {
    match p
    case Resend => Truthy(cfg.resendKey)
    case SendGrid => Truthy(cfg.sendGridKey)
    case Mailgun => MailgunConfigured(cfg)
    case Smtp => true
  }

  /** The order in which `sendMailSmart` considers providers. */
  const Priority: seq<Provider> := [Resend, SendGrid, Mailgun, Smtp]

  /** `sendMailSmart`'s choice: Resend, then SendGrid, then Mailgun, then SMTP. */
  function ChooseProvider(cfg: Config): (p: Provider)
    ensures Configured(cfg, p)
    ensures exists i :: 0 <= i < |Priority| && Priority[i] == p &&
                        forall j :: 0 <= j < i ==> !Configured(cfg, Priority[j])
  {
    if Truthy(cfg.resendKey) then
      assert Priority[0] == Resend;
      Resend
    else if Truthy(cfg.sendGridKey) then
      assert Priority[1] == SendGrid;
      SendGrid
    else if MailgunConfigured(cfg) then
      assert Priority[2] == Mailgun;
      Mailgun
    else
      assert Priority[3] == Smtp;
      Smtp
  }

  /**
   * The request a configured provider sends: the plain-text fallback is
   * computed first, so an absent html throws before any request.
   */
  function Post(p: Provider, opts: MailOptions): Result<Request, MailError>
  {
    match PlainText(opts.html, opts.text)
    case Err(e) => Err(e)
    case Ok(text) => Ok(Request(p, Mail(opts.to, opts.subject, opts.html, text)))
  }

  /** Resend: key check, request, non-OK answer thrown, otherwise the JSON `id`. */
  function SendWithResend(cfg: Config, opts: MailOptions, reply: HttpReply): (r: HttpSending)
    ensures !Truthy(cfg.resendKey) ==> r == HttpSending(None, Err(KeyMissing))
    ensures r.request.Some? ==>
      r.request.value.provider == Resend && Ok(r.request.value.mail.text) == PlainText(opts.html, opts.text)
    ensures r.request.Some? && !reply.ok ==> r.result == Err(ProviderRejected(reply.body))
    ensures r.result.Ok? ==> r.request.Some? && reply.ok && r.result.value == reply.id
  {
    if !Truthy(cfg.resendKey) then HttpSending(None, Err(KeyMissing))
    else Answer(Post(Resend, opts), reply, reply.id)
  }

  /** SendGrid: as Resend, but the message id is the header, or `'sent'` when the header is absent. */
  function SendWithSendGrid(cfg: Config, opts: MailOptions, reply: HttpReply): (r: HttpSending)
    ensures !Truthy(cfg.sendGridKey) ==> r == HttpSending(None, Err(KeyMissing))
    ensures r.request.Some? ==>
      r.request.value.provider == SendGrid && Ok(r.request.value.mail.text) == PlainText(opts.html, opts.text)
    ensures r.request.Some? && !reply.ok ==> r.result == Err(ProviderRejected(reply.body))
    ensures r.result.Ok? ==> r.request.Some? && reply.ok
    ensures r.result.Ok? && Truthy(reply.messageIdHeader) ==> r.result.value == reply.messageIdHeader
    ensures r.result.Ok? && !Truthy(reply.messageIdHeader) ==> r.result.value == Some("sent")
  {
    if !Truthy(cfg.sendGridKey) then HttpSending(None, Err(KeyMissing))
    else Answer(Post(SendGrid, opts), reply, Some(OrElse(reply.messageIdHeader, "sent")))
  }

  /** Mailgun: needs both key and domain; otherwise as Resend. */
  function SendWithMailgun(cfg: Config, opts: MailOptions, reply: HttpReply): (r: HttpSending)
    ensures !MailgunConfigured(cfg) ==> r == HttpSending(None, Err(KeyMissing))
    ensures r.request.Some? ==>
      r.request.value.provider == Mailgun && Ok(r.request.value.mail.text) == PlainText(opts.html, opts.text)
    ensures r.request.Some? && !reply.ok ==> r.result == Err(ProviderRejected(reply.body))
    ensures r.result.Ok? ==> r.request.Some? && reply.ok && r.result.value == reply.id
  {
    if !MailgunConfigured(cfg) then HttpSending(None, Err(KeyMissing))
    else Answer(Post(Mailgun, opts), reply, reply.id)
  }

  /** Sends a built request and reads the provider's answer. */
  function Answer(req: Result<Request, MailError>, reply: HttpReply, id: Option<string>): HttpSending
  {
    match req
    case Err(e) => HttpSending(None, Err(e))
    case Ok(r) =>
      if !reply.ok then HttpSending(Some(r), Err(ProviderRejected(reply.body)))
      else HttpSending(Some(r), Ok(id))
  }

  /**
   * `sendMailSmart`: delegates to the chosen provider. The SMTP fallback is
   * `sendMail` with the transport's reply `smtp`.
   */
  function SendMailSmart(cfg: Config, opts: MailOptions, reply: HttpReply, smtp: TransportReply): (r: HttpSending)
    ensures r.request.Some? ==> r.request.value.provider == ChooseProvider(cfg)
    ensures r.result != Err(KeyMissing)
    ensures r.result.Ok? ==> r.request.Some?
    ensures r.request.Some? ==> Ok(r.request.value.mail.text) == PlainText(opts.html, opts.text)
  {
    match ChooseProvider(cfg)
    case Resend => SendWithResend(cfg, opts, reply)
    case SendGrid => SendWithSendGrid(cfg, opts, reply)
    case Mailgun => SendWithMailgun(cfg, opts, reply)
    case Smtp =>
      var s := SendMail(opts, smtp);
      HttpSending(
        if s.attempt.Some? then Some(Request(Smtp, s.attempt.value)) else None,
        match s.result case Ok(id) => Ok(Some(id)) case Err(e) => Err(e))
  }
}
