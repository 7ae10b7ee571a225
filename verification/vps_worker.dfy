/**
 * The job handler of the long-running worker in src/worker/vps-worker.ts:
 * one job in, one result out. The payload is not validated and the html is
 * sent exactly as stored; after a delivery the ledger row of the job's
 * campaign and subscriber is flagged, and a failed flag write fails the job.
 */
module VpsWorker {
  import opened Wrappers
  import opened Mailer
  import opened Queue
  import opened Store

  /** Why the handler threw, which BullMQ records as the job failing. */
  datatype Failure = SendFailed(error: MailError) | LedgerWriteFailed

  /** `{success: true, messageId}`, or a thrown error. */
  datatype JobResult = Succeeded(messageId: string) | Threw(failure: Failure)

  /** The handler's result, the ledger it leaves, and the message it handed to the transport, if any. */
  datatype Outcome = Outcome(result: JobResult, ledger: Ledger, sent: Option<Mail>)

  /** The options passed to `sendMail`: the payload's fields, with no text and no substitution. */
  function OptionsFor(d: JobData): MailOptions {
    MailOptions(d.email, d.subject, d.html, None)
  }

  /**
   * The handler. `reply` is the transport's answer and `ledgerWriteOk`
   * whether the update of `campaign_subscribers` reported no error.
   */
  function Handle(d: JobData, reply: TransportReply, ledgerWriteOk: bool, ledger: Ledger): (r: Outcome)
    ensures r.sent.Some? <==> d.html.Some?
    ensures r.sent.Some? ==> r.sent.value == Mail(d.email, d.subject, d.html, Text.StripTags(d.html.value))
    ensures d.html.None? ==> r == Outcome(Threw(SendFailed(HtmlMissing)), ledger, None)
    ensures d.html.Some? && reply.Rejected? ==> r.result == Threw(SendFailed(TransportFailed(reply.reason)))
    ensures reply.Rejected? ==> r.ledger == ledger
    ensures r.result.Succeeded? <==> d.html.Some? && reply.Accepted? && ledgerWriteOk
    ensures r.result.Succeeded? ==> r.result.messageId == reply.messageId
    ensures r.ledger == if r.result.Succeeded? then MarkSent(ledger, d.campaignId, d.subscriberId) else ledger
    ensures d.html.Some? && reply.Accepted? && !ledgerWriteOk ==> r.result == Threw(LedgerWriteFailed)
  {
    var s := SendMail(OptionsFor(d), reply);
    match s.result
    case Err(e) => Outcome(Threw(SendFailed(e)), ledger, s.attempt)
    case Ok(messageId) =>
      if ledgerWriteOk then Outcome(Succeeded(messageId), MarkSent(ledger, d.campaignId, d.subscriberId), s.attempt)
      else Outcome(Threw(LedgerWriteFailed), ledger, s.attempt)
  }

  /**
   * A failed ledger write fails a job whose message was already delivered, so
   * a retry sends the message a second time.
   */
  lemma LedgerFailureAfterDelivery(d: JobData, id: string, ledger: Ledger)
    requires d.html.Some?
    ensures Handle(d, Accepted(id), false, ledger).sent.Some?
    ensures Handle(d, Accepted(id), false, ledger).result.Threw?
    ensures Handle(d, Accepted(id), true, Handle(d, Accepted(id), false, ledger).ledger).sent ==
            Handle(d, Accepted(id), false, ledger).sent
  {
  }

  /**
   * Handling the same job again after a success leaves the ledger as it was
   * after the first success: the only write is idempotent.
   */
  lemma RetryKeepsLedger(d: JobData, id1: string, id2: string, ledger: Ledger)
    ensures var first := Handle(d, Accepted(id1), true, ledger);
      first.result.Succeeded? ==> Handle(d, Accepted(id2), true, first.ledger).ledger == first.ledger
  {
    if d.html.Some? {
      MarkSentIdempotent(ledger, d.campaignId, d.subscriberId);
    }
  }

  /** The ledger only gains `sent` flags, and only the job's own row can change. */
  lemma HandleLedgerGrows(d: JobData, reply: TransportReply, ledgerWriteOk: bool, ledger: Ledger)
    ensures Grows(ledger, Handle(d, reply, ledgerWriteOk, ledger).ledger)
    ensures forall k :: k in ledger && Handle(d, reply, ledgerWriteOk, ledger).ledger[k] != ledger[k] ==>
      d.campaignId == Some(k.0) && d.subscriberId == Some(k.1)
  {
  }
}
