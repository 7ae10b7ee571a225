/**
 * `POST /api/queue/process-now` (src/pages/api/queue/process-now.ts): one
 * pull-mode pass over up to 51 waiting or active jobs. Each job is validated,
 * personalised, sent, recorded in the ledger and removed; invalid payloads and
 * failures are counted as failed and stay queued. Afterwards every campaign
 * seen in the page whose links are all sent is marked `sent`.
 */
module ProcessNow {
  import opened Wrappers
  import opened Js
  import opened Mailer
  import opened Queue
  import opened Store

  /** `getJobs(['waiting', 'active'], 0, 50)`. */
  const FetchEnd: nat := 50
  const PullStates: seq<JobState> := [Waiting, Active]

  function Page(w: World): seq<Job> {
    Fetch(w.queue, PullStates, FetchEnd)
  }

  /**
   * The range applies to each state's list on its own: one pass can take up
   * to 51 waiting and 51 active jobs, and takes every one of them when a state
   * has no more than 51.
   */
  lemma PageBound(w: World)
    ensures |Page(w)| <= 2 * (FetchEnd + 1)
    ensures forall j :: j in Page(w) ==> j in w.queue && (j.state == Waiting || j.state == Active)
    ensures forall j :: j in w.queue && (j.state == Waiting || j.state == Active) && Fits(w.queue, j.state, FetchEnd) ==> j in Page(w)
  {
    FetchSize(w.queue, PullStates, FetchEnd);
    FetchCovers(w.queue, PullStates, FetchEnd);
  }

  /** The message sent for a job that passed validation: personalised html, stripped text. */
  function MailFor(j: Job): Mail
    requires HasRequiredFields(j.data)
  {
    var html := Personalised(j.data.html.value, j.data.subscriberName);
    Mail(j.data.email, j.data.subject, Some(html), Text.StripTags(html))
  }

  // Per-job classification, stated without reference to the fold.

  /** The job passes validation and reaches the transport. */
  predicate Attempted(j: Job) {
    HasRequiredFields(j.data)
  }

  /** The transport accepted the job's message. */
  predicate Delivered(j: Job, e: JobEnv) {
    Attempted(j) && e.transport.Accepted?
  }

  /** The job was delivered and removed, so it counts as sent. */
  predicate Removed(j: Job, e: JobEnv) {
    Delivered(j, e) && e.resolveOk
  }

  /** The job's ledger row gets written: delivered, both ids truthy, and the write went through. */
  predicate WritesLedger(j: Job, e: JobEnv) {
    Delivered(j, e) && TruthyId(j.data.subscriberId) && TruthyId(j.data.campaignId) && e.ledgerWriteOk
  }

  /** The loop's running state: counters, ledger, removed job ids, messages handed to the transport. */
  datatype Tally = Tally(sent: nat, failed: nat, ledger: Ledger, removed: set<nat>, outbox: seq<Attempt>)

  /** One iteration of the `for (const job of jobs)` loop. */
  function Step(t: Tally, j: Job, e: JobEnv): (r: Tally)
    ensures r.sent + r.failed == t.sent + t.failed + 1
    ensures r.sent == t.sent + (if Removed(j, e) then 1 else 0)
    ensures r.removed == t.removed + (if Removed(j, e) then {j.id} else {})
    ensures r.ledger == if WritesLedger(j, e) then MarkSent(t.ledger, j.data.campaignId, j.data.subscriberId) else t.ledger
    ensures r.outbox == t.outbox + if Attempted(j) then [Attempt(j.id, MailFor(j))] else []
  {
    if !HasRequiredFields(j.data) then
      t.(failed := t.failed + 1)
    else
      var html := Personalised(j.data.html.value, j.data.subscriberName);
      var s := SendMail(MailOptions(j.data.email, j.data.subject, Some(html), None), e.transport);
      var outbox := t.outbox + [Attempt(j.id, s.attempt.value)];
      if s.result.Err? then
        t.(failed := t.failed + 1, outbox := outbox)
      else
        var ledger :=
          if TruthyId(j.data.subscriberId) && TruthyId(j.data.campaignId) && e.ledgerWriteOk
          then MarkSent(t.ledger, j.data.campaignId, j.data.subscriberId)
          else t.ledger;
        if e.resolveOk then Tally(t.sent + 1, t.failed, ledger, t.removed + {j.id}, outbox)
        else Tally(t.sent, t.failed + 1, ledger, t.removed, outbox)
  }

  /** The whole loop, as a left fold of `Step` over the page. */
  function Pass(jobs: seq<Job>, env: seq<JobEnv>, ledger: Ledger): (t: Tally)
    requires |env| == |jobs|
    ensures t.sent + t.failed == |jobs|
    ensures Grows(ledger, t.ledger)
    decreases |jobs|
  {
    if |jobs| == 0 then Tally(0, 0, ledger, {}, [])
    else
      var n := |jobs| - 1;
      var t := Pass(jobs[..n], env[..n], ledger);
      Step(t, jobs[n], env[n])
  }

  /** The positions of the page whose job is removed and counted as sent. */
  function RemovedAt(jobs: seq<Job>, env: seq<JobEnv>): set<nat>
    requires |env| == |jobs|
  {
    set i: nat | i < |jobs| && Removed(jobs[i], env[i])
  }

  /** The removed ids are exactly those of the jobs that were delivered and then removed. */
  lemma {:induction false} PassRemoved(jobs: seq<Job>, env: seq<JobEnv>, ledger: Ledger)
    requires |env| == |jobs|
    ensures Pass(jobs, env, ledger).removed == set i | 0 <= i < |jobs| && Removed(jobs[i], env[i]) :: jobs[i].id
    decreases |jobs|
  {
    if |jobs| > 0 {
      var n := |jobs| - 1;
      PassRemoved(jobs[..n], env[..n], ledger);
      assert forall i :: 0 <= i < n ==> jobs[..n][i] == jobs[i] && env[..n][i] == env[i];
    }
  }

  lemma RemovedAtSnoc(jobs: seq<Job>, env: seq<JobEnv>)
    requires |env| == |jobs| > 0
    ensures var n := |jobs| - 1;
      |RemovedAt(jobs, env)| == |RemovedAt(jobs[..n], env[..n])| + if Removed(jobs[n], env[n]) then 1 else 0
  {
    var n := |jobs| - 1;
    var before := RemovedAt(jobs[..n], env[..n]);
    assert forall i :: 0 <= i < n ==> jobs[..n][i] == jobs[i] && env[..n][i] == env[i];
    assert RemovedAt(jobs, env) == before + (if Removed(jobs[n], env[n]) then {n} else {});
    assert n !in before;
  }

  /** `sent` is the number of jobs that were delivered and removed. */
  lemma {:induction false} PassSentCount(jobs: seq<Job>, env: seq<JobEnv>, ledger: Ledger)
    requires |env| == |jobs|
    ensures Pass(jobs, env, ledger).sent == |RemovedAt(jobs, env)|
    decreases |jobs|
  {
    if |jobs| > 0 {
      var n := |jobs| - 1;
      PassSentCount(jobs[..n], env[..n], ledger);
      RemovedAtSnoc(jobs, env);
    }
  }

  /**
   * Every message handed to the transport is the personalised message of a
   * job that passed validation.
   */
  lemma {:induction false} PassOutbox(jobs: seq<Job>, env: seq<JobEnv>, ledger: Ledger)
    requires |env| == |jobs|
    ensures forall a :: a in Pass(jobs, env, ledger).outbox ==>
      exists i :: 0 <= i < |jobs| && Attempted(jobs[i]) && a == Attempt(jobs[i].id, MailFor(jobs[i]))
    decreases |jobs|
  {
    if |jobs| > 0 {
      var n := |jobs| - 1;
      PassOutbox(jobs[..n], env[..n], ledger);
      assert forall i :: 0 <= i < n ==> jobs[..n][i] == jobs[i] && env[..n][i] == env[i];
    }
  }

  /**
   * The ledger after the pass differs from the one before only in rows of
   * delivered jobs with both ids truthy, and those rows read `sent = true`.
   */
  lemma {:induction false} PassLedger(jobs: seq<Job>, env: seq<JobEnv>, ledger: Ledger)
    requires |env| == |jobs|
    ensures forall k :: k in ledger && Pass(jobs, env, ledger).ledger[k] != ledger[k] ==>
      Pass(jobs, env, ledger).ledger[k] &&
      exists i :: 0 <= i < |jobs| && WritesLedger(jobs[i], env[i]) &&
                  k == (jobs[i].data.campaignId.value, jobs[i].data.subscriberId.value)
    ensures forall i :: (0 <= i < |jobs| && WritesLedger(jobs[i], env[i]) &&
      (jobs[i].data.campaignId.value, jobs[i].data.subscriberId.value) in ledger) ==>
      Pass(jobs, env, ledger).ledger[(jobs[i].data.campaignId.value, jobs[i].data.subscriberId.value)]
    decreases |jobs|
  {
    if |jobs| > 0 {
      var n := |jobs| - 1;
      PassLedger(jobs[..n], env[..n], ledger);
      assert forall i :: 0 <= i < n ==> jobs[..n][i] == jobs[i] && env[..n][i] == env[i];
    }
  }

  /**
   * A job that fails validation or whose send fails is never removed; a job
   * that fails validation never reaches the transport.
   */
  lemma FailedJobsStay(jobs: seq<Job>, env: seq<JobEnv>, ledger: Ledger, i: int)
    requires |env| == |jobs| && UniqueIds(jobs)
    requires 0 <= i < |jobs| && !Delivered(jobs[i], env[i])
    ensures jobs[i].id !in Pass(jobs, env, ledger).removed
    ensures !Attempted(jobs[i]) ==> forall a :: a in Pass(jobs, env, ledger).outbox ==> a.jobId != jobs[i].id
  {
    PassRemoved(jobs, env, ledger);
    PassOutbox(jobs, env, ledger);
  }

  /** The touched campaigns: the truthy `campaignId`s of the fetched jobs. */
  function Touched(jobs: seq<Job>): set<int>
  {
    set i | 0 <= i < |jobs| && TruthyId(jobs[i].data.campaignId) :: jobs[i].data.campaignId.value
  }

  /**
   * The completion check: each touched campaign with no unsent link gets
   * `status = 'sent'`. `answered` holds the campaigns whose count query and
   * status update both go through; neither result is checked by the code, so
   * a failure only leaves the campaign as it was.
   */
  function MarkCompleted(campaigns: map<int, Campaign>, ledger: Ledger, touched: set<int>, answered: set<int>): map<int, Campaign>
  {
    map c | c in campaigns ::
      if c in touched && c in answered && NoUnsent(ledger, c) then campaigns[c].(status := Sent) else campaigns[c]
  }

  /**
   * After the check a campaign reads `sent` exactly when it already did, or it
   * was touched, has no unsent link and the database answered; nothing else
   * about any campaign changes.
   */
  lemma MarkCompletedSpec(campaigns: map<int, Campaign>, ledger: Ledger, touched: set<int>, answered: set<int>)
    ensures MarkCompleted(campaigns, ledger, touched, answered).Keys == campaigns.Keys
    ensures forall c :: c in campaigns ==>
      (MarkCompleted(campaigns, ledger, touched, answered)[c].status == Sent <==>
        campaigns[c].status == Sent || (c in touched && c in answered && NoUnsent(ledger, c)))
    ensures forall c :: c in campaigns ==>
      MarkCompleted(campaigns, ledger, touched, answered)[c].(status := campaigns[c].status) == campaigns[c]
    ensures forall c :: c in campaigns && (c !in touched || c !in answered) ==>
      MarkCompleted(campaigns, ledger, touched, answered)[c] == campaigns[c]
  {
  }

  /** Running the completion check again changes nothing: it is safe to repeat. */
  lemma MarkCompletedIdempotent(campaigns: map<int, Campaign>, ledger: Ledger, touched: set<int>, answered: set<int>)
    ensures MarkCompleted(MarkCompleted(campaigns, ledger, touched, answered), ledger, touched, answered)
         == MarkCompleted(campaigns, ledger, touched, answered)
  {
  }

  datatype Response = MethodNotAllowed | NoJobs | Processed(processed: nat, sent: nat, failed: nat)

  /** The handler's answer, the state it leaves behind, and the messages it handed to the transport. */
  datatype Outcome = Outcome(response: Response, world: World, outbox: seq<Attempt>)

  /**
   * The handler. `env` answers for the fetched jobs in page order; `answered`
   * holds the campaigns whose completion queries go through.
   */
  function Handle(m: Method, w: World, env: seq<JobEnv>, answered: set<int>): (r: Outcome)
    requires |env| == |Page(w)|
    ensures m != Post ==> r == Outcome(MethodNotAllowed, w, [])
    ensures m == Post && |Page(w)| == 0 ==> r == Outcome(NoJobs, w, [])
    ensures r.response.Processed? ==>
      r.response.processed == r.response.sent + r.response.failed == |Page(w)|
    ensures Grows(w.ledger, r.world.ledger)
    ensures forall j :: j in r.world.queue ==> j in w.queue
    ensures r.world.campaigns.Keys == w.campaigns.Keys
  {
    if m != Post then Outcome(MethodNotAllowed, w, [])
    else
      var jobs := Page(w);
      if |jobs| == 0 then Outcome(NoJobs, w, [])
      else
        var t := Pass(jobs, env, w.ledger);
        var campaigns := MarkCompleted(w.campaigns, t.ledger, Touched(jobs), answered);
        Outcome(
          Processed(t.sent + t.failed, t.sent, t.failed),
          World(Without(w.queue, t.removed), t.ledger, campaigns),
          t.outbox)
  }

  /**
   * Jobs outside the fetched page are untouched, and a fetched job that was
   * not delivered (invalid payload or failed send) stays in the queue.
   */
  lemma HandleKeepsUndeliveredJobs(m: Method, w: World, env: seq<JobEnv>, answered: set<int>)
    requires |env| == |Page(w)| && UniqueIds(w.queue)
    ensures forall j :: j in w.queue && j !in Page(w) ==> j in Handle(m, w, env, answered).world.queue
    ensures forall i :: 0 <= i < |Page(w)| && !Delivered(Page(w)[i], env[i]) ==> Page(w)[i] in Handle(m, w, env, answered).world.queue
  {
    var jobs := Page(w);
    assert DistinctStates(PullStates);
    FetchUnique(w.queue, PullStates, FetchEnd);
    if m == Post && |jobs| > 0 {
      PassRemoved(jobs, env, w.ledger);
      var removed := Pass(jobs, env, w.ledger).removed;
      assert Handle(m, w, env, answered).world.queue == Without(w.queue, removed);
      OffPageIdsDiffer(w.queue, jobs);
      forall i | 0 <= i < |jobs| && !Delivered(jobs[i], env[i])
        ensures jobs[i] in Handle(m, w, env, answered).world.queue
      {
        FailedJobsStay(jobs, env, w.ledger, i);
      }
    }
  }

  /**
   * The completion rule: after a pass a campaign reads `sent` exactly when it
   * already did, or it was named by a fetched job and the ledger after the
   * pass holds no unsent link for it. Other campaign fields never change.
   */
  lemma HandleCompletion(w: World, env: seq<JobEnv>, answered: set<int>)
    requires |env| == |Page(w)| && |Page(w)| > 0
    ensures forall c :: c in w.campaigns ==>
      (Handle(Post, w, env, answered).world.campaigns[c].status == Sent <==>
        w.campaigns[c].status == Sent ||
        (c in Touched(Page(w)) && c in answered && NoUnsent(Handle(Post, w, env, answered).world.ledger, c)))
    ensures forall c :: c in w.campaigns ==>
      Handle(Post, w, env, answered).world.campaigns[c].(status := w.campaigns[c].status) == w.campaigns[c]
  {
    var t := Pass(Page(w), env, w.ledger);
    MarkCompletedSpec(w.campaigns, t.ledger, Touched(Page(w)), answered);
  }

  /**
   * The completion queries' results are never checked: whether they go
   * through changes neither the answer, nor the queue, nor the ledger, nor
   * the messages sent.
   */
  lemma CompletionFailureUnreported(m: Method, w: World, env: seq<JobEnv>, a1: set<int>, a2: set<int>)
    requires |env| == |Page(w)|
    ensures Handle(m, w, env, a1).response == Handle(m, w, env, a2).response
    ensures Handle(m, w, env, a1).world.queue == Handle(m, w, env, a2).world.queue
    ensures Handle(m, w, env, a1).world.ledger == Handle(m, w, env, a2).world.ledger
    ensures Handle(m, w, env, a1).outbox == Handle(m, w, env, a2).outbox
  {
  }

  /** The body of the handler's loop for one job, with mutable counters; it performs exactly `Step`. */
  method HandleJob(sent0: nat, failed0: nat, ledger0: Ledger, removed0: set<nat>, outbox0: seq<Attempt>, j: Job, e: JobEnv)
    returns (sent: nat, failed: nat, after: Ledger, removed: set<nat>, outbox: seq<Attempt>)
    ensures Tally(sent, failed, after, removed, outbox) == Step(Tally(sent0, failed0, ledger0, removed0, outbox0), j, e)
    ensures sent + failed == sent0 + failed0 + 1
  {
    sent, failed, after, removed, outbox := sent0, failed0, ledger0, removed0, outbox0;
    if !HasRequiredFields(j.data) {
      failed := failed + 1;
    } else {
      var html := Personalised(j.data.html.value, j.data.subscriberName);
      var s := SendMail(MailOptions(j.data.email, j.data.subject, Some(html), None), e.transport);
      outbox := outbox + [Attempt(j.id, s.attempt.value)];
      if s.result.Err? {
        failed := failed + 1;
      } else {
        if TruthyId(j.data.subscriberId) && TruthyId(j.data.campaignId) && e.ledgerWriteOk {
          after := MarkSent(after, j.data.campaignId, j.data.subscriberId);
        }
        if e.resolveOk {
          removed := removed + {j.id};
          sent := sent + 1;
        } else {
          failed := failed + 1;
        }
      }
    }
  }

  /**
   * The loop as the handler writes it, with mutable counters; it computes
   * exactly the fold `Pass`.
   */
  method RunLoop(jobs: seq<Job>, env: seq<JobEnv>, ledger: Ledger)
    returns (sent: nat, failed: nat, after: Ledger, removed: set<nat>, outbox: seq<Attempt>)
    requires |env| == |jobs|
    ensures Tally(sent, failed, after, removed, outbox) == Pass(jobs, env, ledger)
    ensures sent + failed == |jobs|
  {
    sent, failed, after, removed, outbox := 0, 0, ledger, {}, [];
    var i := 0;
    while i < |jobs|
      invariant 0 <= i <= |jobs|
      invariant Tally(sent, failed, after, removed, outbox) == Pass(jobs[..i], env[..i], ledger)
    {
      sent, failed, after, removed, outbox := HandleJob(sent, failed, after, removed, outbox, jobs[i], env[i]);
      assert jobs[..i + 1][..i] == jobs[..i] && env[..i + 1][..i] == env[..i];
      i := i + 1;
    }
    assert jobs[..|jobs|] == jobs && env[..|env|] == env;
  }
}
