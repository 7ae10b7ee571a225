/**
 * The SMTP mailer of src/lib/mailer.ts: the port setting, the `secure` flag
 * chosen from it, and `sendMail`, which fills in a plain-text body when the
 * caller gave none and hands the message to the transport. The transport is
 * an oracle: its reply is a parameter.
 */
module Mailer {
  import opened Wrappers
  import opened Js
  import Text

  /** A JavaScript number as far as the port setting needs one. */
  datatype JsNumber = Num(n: int) | NaN

  /** Port used when SMTP_PORT is not configured. */
  const DefaultSmtpPort: int := 587

  /** The one port for which the connection uses TLS from the start. */
  const ImplicitTlsPort: int := 465

  predicate IsDigits(s: string) {
    forall i :: 0 <= i < |s| ==> '0' <= s[i] <= '9'
  }

  /** The base-ten value of a string of digits. */
  function DigitsValue(s: string): nat
    requires IsDigits(s)
  {
    if |s| == 0 then 0 else DigitsValue(s[..|s| - 1]) * 10 + (s[|s| - 1] - '0') as nat
  }

  /** The base-ten spelling of `n`, the way a port number is written in the environment. */
  function Decimal(n: nat): string
  {
    if n < 10 then [('0' as int + n) as char]
    else Decimal(n / 10) + [('0' as int + n % 10) as char]
  }

  /** `Number(s)` for a non-empty setting: a plain digit string is read in base ten, anything else is NaN. */
  function ToNumber(s: string): JsNumber
  {
    if |s| > 0 && IsDigits(s) then Num(DigitsValue(s)) else NaN
  }

  /** `Number(process.env.SMTP_PORT || 587)`. */
  function SmtpPort(setting: Option<string>): (port: JsNumber)
    ensures !Truthy(setting) ==> port == Num(DefaultSmtpPort)
  {
    if Truthy(setting) then ToNumber(setting.value) else Num(DefaultSmtpPort)
  }

  /** `smtpPort === 465`. */
  predicate IsSecure(port: JsNumber) {
    port == Num(ImplicitTlsPort)
  }

  lemma {:induction false} DecimalIsDigits(n: nat)
    ensures IsDigits(Decimal(n)) && |Decimal(n)| > 0
  {
    if n >= 10 {
      DecimalIsDigits(n / 10);
    }
  }

  /** Reading back the decimal spelling of a number gives the number: writing a port and parsing it is lossless. */
  lemma {:induction false} DecimalRoundTrip(n: nat)
    ensures IsDigits(Decimal(n)) && DigitsValue(Decimal(n)) == n
  {
    DecimalIsDigits(n);
    if n >= 10 {
      DecimalRoundTrip(n / 10);
      var s := Decimal(n);
      assert s[..|s| - 1] == Decimal(n / 10);
    }
  }

  /** A configured port number is used as given; an unset or empty one gives 587. */
  lemma SmtpPortOfSetting(n: nat)
    ensures SmtpPort(Some(Decimal(n))) == Num(n)
    ensures SmtpPort(None) == Num(DefaultSmtpPort) && SmtpPort(Some("")) == Num(DefaultSmtpPort)
  {
    DecimalRoundTrip(n);
  }

  /** The connection is secure exactly when the setting spells the number 465; by default it is not. */
  lemma SecureIffPort465(setting: Option<string>)
    ensures IsSecure(SmtpPort(setting)) <==>
      Truthy(setting) && IsDigits(setting.value) && DigitsValue(setting.value) == ImplicitTlsPort
    ensures !Truthy(setting) ==> !IsSecure(SmtpPort(setting))
  {
  }

  /** The options a caller passes to `sendMail`. */
  datatype MailOptions = MailOptions(to: Option<string>, subject: Option<string>, html: Option<string>, text: Option<string>)

  /** The message handed to the transport. */
  datatype Mail = Mail(to: Option<string>, subject: Option<string>, html: Option<string>, text: string)

  /** What the transport answers for one message. */
  datatype TransportReply = Accepted(messageId: string) | Rejected(reason: string)

  /** Why sending failed. */
  datatype MailError =
    | HtmlMissing                         // `html.replace` on an absent html throws a TypeError
    | TransportFailed(reason: string)     // the SMTP transport rejected the message
    | KeyMissing                          // an HTTP provider was used without its credentials
    | ProviderRejected(body: string)      // an HTTP provider answered with a non-OK status

  /**
   * The plain-text body: the caller's `text` when truthy, otherwise the html
   * with every tag deleted; an absent html then throws.
   */
  function PlainText(html: Option<string>, text: Option<string>): (r: Result<string, MailError>)
    ensures Truthy(text) ==> r == Ok(text.value)
    ensures !Truthy(text) && html.Some? ==> r == Ok(Text.StripTags(html.value))
    ensures r.Err? <==> !Truthy(text) && html.None?
    ensures r.Ok? && !Truthy(text) ==> |r.value| <= |html.value|
  {
    if Truthy(text) then Ok(text.value)
    else if html.None? then Err(HtmlMissing)
    else Ok(Text.StripTags(html.value))
  }

  /** What one `sendMail` call did: the message it handed to the transport, if any, and its outcome. */
  datatype Sending = Sending(attempt: Option<Mail>, result: Result<string, MailError>)

  /**
   * `sendMail`: completes the plain-text body, hands the message to the
   * transport and returns its message id; every error propagates.
   */
  function SendMail(opts: MailOptions, reply: TransportReply): (r: Sending)
    ensures r.attempt.Some? <==> (Truthy(opts.text) || opts.html.Some?)
    ensures r.attempt.Some? ==>
      r.attempt.value.to == opts.to && r.attempt.value.subject == opts.subject && r.attempt.value.html == opts.html
    ensures r.attempt.Some? ==> Ok(r.attempt.value.text) == PlainText(opts.html, opts.text)
    ensures r.result.Ok? <==> r.attempt.Some? && reply.Accepted?
    ensures r.result.Ok? ==> r.result.value == reply.messageId
    ensures r.attempt.Some? && reply.Rejected? ==> r.result == Err(TransportFailed(reply.reason))
  {
    match PlainText(opts.html, opts.text)
    case Err(e) => Sending(None, Err(e))
    case Ok(text) =>
      var mail := Mail(opts.to, opts.subject, opts.html, text);
      match reply
      case Accepted(id) => Sending(Some(mail), Ok(id))
      case Rejected(reason) => Sending(Some(mail), Err(TransportFailed(reason)))
  }
}
