/**
 * The job handler of src/worker/mailWorker.ts: a null job or a payload
 * without email, subject or html returns quietly; otherwise the html is sent
 * as stored and a transport error is rethrown. The handler has no access to
 * the ledger, so it takes none and returns none.
 */
module MailWorker {
  import opened Wrappers
  import opened Js
  import opened Mailer
  import opened Queue
  import VpsWorker
  import Store

  /** How the handler ends: it returns (the job completes) or it throws (the job fails). */
  datatype JobResult = Returned | Threw(error: MailError)

  datatype Outcome = Outcome(result: JobResult, sent: Option<Mail>)

  /**
   * The handler. `job` is `None` for a null job; a job whose `data` is null
   * reads as a payload with every field absent, as `job.data?.email` does.
   */
  function Handle(job: Option<JobData>, reply: TransportReply): (r: Outcome)
    ensures job.None? ==> r == Outcome(Returned, None)
    ensures job.Some? && !HasRequiredFields(job.value) ==> r == Outcome(Returned, None)
    ensures r.sent.Some? <==> job.Some? && HasRequiredFields(job.value)
    ensures r.sent.Some? ==>
      r.sent.value == Mail(job.value.email, job.value.subject, job.value.html, Text.StripTags(job.value.html.value))
    ensures r.result.Threw? <==> r.sent.Some? && reply.Rejected?
    ensures r.result.Threw? ==> r.result.error == TransportFailed(reply.reason)
  {
    match job
    case None => Outcome(Returned, None)
    case Some(d) =>
      if !Truthy(d.email) || !Truthy(d.subject) || !Truthy(d.html) then Outcome(Returned, None)
      else
        var s := SendMail(MailOptions(d.email, d.subject, d.html, None), reply);
        match s.result
        case Err(e) => Outcome(Threw(e), s.attempt)
        case Ok(_) => Outcome(Returned, s.attempt)
  }

  /**
   * For a valid payload both push-mode handlers hand the transport the same
   * message and fail on the same transport errors; they differ only in that
   * the other one also writes the ledger.
   */
  lemma SameMessageAsVpsWorker(d: JobData, reply: TransportReply, ledgerWriteOk: bool, ledger: Store.Ledger)
    requires HasRequiredFields(d)
    ensures Handle(Some(d), reply).sent == VpsWorker.Handle(d, reply, ledgerWriteOk, ledger).sent
    ensures Handle(Some(d), reply).result.Threw? <==>
      VpsWorker.Handle(d, reply, ledgerWriteOk, ledger).result.Threw? && reply.Rejected?
  {
  }

  /**
   * Where the two differ on input: a payload with an html but an empty email
   * is sent by the other handler and skipped here.
   */
  lemma SkipsWhatVpsWorkerSends(d: JobData, reply: TransportReply, ledgerWriteOk: bool, ledger: Store.Ledger)
    requires d.html.Some? && !Truthy(d.email)
    ensures Handle(Some(d), reply).sent.None?
    ensures VpsWorker.Handle(d, reply, ledgerWriteOk, ledger).sent.Some?
  {
  }
}
