/**
 * The persistent tables the handlers read and write, reduced to what they
 * touch: the delivery ledger (`campaign_subscribers`: one `sent` flag per
 * campaign and subscriber), the campaigns with their status, and the job
 * queue. `JobEnv` collects what the outside world answers while one job is
 * handled.
 */
module Store {
  import opened Wrappers
  import opened Queue
  import Mailer

  /** A ledger row's key: (campaign_id, subscriber_id). */
  type Key = (int, int)

  /** The delivery ledger: the `sent` flag of every campaign/subscriber link. */
  type Ledger = map<Key, bool>

  /**
   * `update({sent: true}).eq('campaign_id', c).eq('subscriber_id', s)`: sets
   * the flag of the one matching row; an absent id matches no row, and no row
   * is created.
   */
  function MarkSent(ledger: Ledger, c: Option<int>, s: Option<int>): (r: Ledger)
    ensures r.Keys == ledger.Keys
    ensures forall k :: k in ledger ==> r[k] == (ledger[k] || (c == Some(k.0) && s == Some(k.1)))
  {
    map k | k in ledger :: ledger[k] || (c == Some(k.0) && s == Some(k.1))
  }

  /** Writing the same row twice is the same as writing it once: a retried job leaves the ledger as one success does. */
  lemma MarkSentIdempotent(ledger: Ledger, c: Option<int>, s: Option<int>)
    ensures MarkSent(MarkSent(ledger, c, s), c, s) == MarkSent(ledger, c, s)
  {
  }

  /** `after` has the same rows as `before` and no flag went from true back to false. */
  predicate Grows(before: Ledger, after: Ledger) {
    before.Keys == after.Keys && forall k :: k in before && before[k] ==> after[k]
  }

  lemma GrowsTransitive(a: Ledger, b: Ledger, c: Ledger)
    requires Grows(a, b) && Grows(b, c)
    ensures Grows(a, c)
  {
  }

  /** No link of campaign `c` is still unsent: the count of `sent = false` rows is 0. */
  predicate NoUnsent(ledger: Ledger, c: int) {
    forall k :: k in ledger && k.0 == c ==> ledger[k]
  }

  datatype CampaignStatus = Draft | Sending | Sent

  datatype Campaign = Campaign(
    name: string,
    subject: string,
    body: string,
    templateId: Option<int>,
    status: CampaignStatus)

  /** The state the handlers share: queue, ledger and campaigns table. */
  datatype World = World(queue: seq<Job>, ledger: Ledger, campaigns: map<int, Campaign>)

  /**
   * What the outside world answers while one job is handled: the transport's
   * reply, whether the ledger write went through, whether the call that
   * resolves the job (`remove` or `moveToCompleted`) succeeded, and whether
   * `moveToFailed` succeeded.
   */
  datatype JobEnv = JobEnv(
    transport: Mailer.TransportReply,
    ledgerWriteOk: bool,
    resolveOk: bool,
    failMoveOk: bool)

  /** One message handed to the transport while job `jobId` was handled. */
  datatype Attempt = Attempt(jobId: nat, mail: Mailer.Mail)
}
