/**
 * `POST` to src/worker/process.ts: one pull-mode pass restricted to one
 * campaign. Of up to 51 waiting jobs, those whose `campaignId` equals the
 * requested one are sent with their html as stored; a delivered job is
 * removed and counted. Invalid payloads are skipped without a trace, a failed
 * send leaves the job queued, and the ledger is never written.
 */
module CampaignProcess {
  import opened Wrappers
  import opened Js
  import opened Mailer
  import opened Queue
  import opened Store

  /** `getJobs(["waiting"], 0, 50)`: 51 jobs at most, although the comment above the call says 20. */
  const FetchEnd: nat := 50
  const PullStates: seq<JobState> := [Waiting]

  function Page(w: World): seq<Job> {
    Fetch(w.queue, PullStates, FetchEnd)
  }

  /** `job.data.campaignId === campaignId`. */
  predicate Matches(j: Job, campaignId: int) {
    j.data.campaignId == Some(campaignId)
  }

  /** The message for a matching, valid job: the html exactly as stored, with its stripped text. */
  function MailFor(j: Job): Mail
    requires HasRequiredFields(j.data)
  {
    Mail(j.data.email, j.data.subject, j.data.html, Text.StripTags(j.data.html.value))
  }

  /** The job belongs to the campaign and passes the `!email || !subject || !html` guard. */
  predicate Attempted(j: Job, campaignId: int) {
    Matches(j, campaignId) && HasRequiredFields(j.data)
  }

  /** Sent and then removed: the only jobs counted. */
  predicate Removed(j: Job, e: JobEnv, campaignId: int) {
    Attempted(j, campaignId) && e.transport.Accepted? && e.resolveOk
  }

  /** Counter, removed ids, and messages handed to the transport. */
  datatype Tally = Tally(sent: nat, removed: set<nat>, outbox: seq<Attempt>)

  /** One iteration over the page; jobs of other campaigns are passed over as the filter would drop them. */
  function Step(t: Tally, j: Job, e: JobEnv, campaignId: int): (r: Tally)
    ensures r.sent == t.sent + if Removed(j, e, campaignId) then 1 else 0
    ensures r.removed == t.removed + if Removed(j, e, campaignId) then {j.id} else {}
    ensures r.outbox == t.outbox + if Attempted(j, campaignId) then [Attempt(j.id, MailFor(j))] else []
  {
    if !Matches(j, campaignId) || !HasRequiredFields(j.data) then t
    else
      var s := SendMail(MailOptions(j.data.email, j.data.subject, j.data.html, None), e.transport);
      var outbox := t.outbox + [Attempt(j.id, s.attempt.value)];
      if s.result.Ok? && e.resolveOk then Tally(t.sent + 1, t.removed + {j.id}, outbox)
      else t.(outbox := outbox)
  }

  function Pass(jobs: seq<Job>, env: seq<JobEnv>, campaignId: int): (t: Tally)
    requires |env| == |jobs|
    decreases |jobs|
  {
    if |jobs| == 0 then Tally(0, {}, [])
    else
      var n := |jobs| - 1;
      Step(Pass(jobs[..n], env[..n], campaignId), jobs[n], env[n], campaignId)
  }

  /** The positions of the page holding a job of the campaign. */
  function MatchingAt(jobs: seq<Job>, campaignId: int): set<nat>
  {
    set i: nat | i < |jobs| && Matches(jobs[i], campaignId)
  }

  /** The positions whose job was sent and removed. */
  function RemovedAt(jobs: seq<Job>, env: seq<JobEnv>, campaignId: int): set<nat>
    requires |env| == |jobs|
  {
    set i: nat | i < |jobs| && Removed(jobs[i], env[i], campaignId)
  }

  lemma RemovedAtSnoc(jobs: seq<Job>, env: seq<JobEnv>, campaignId: int)
    requires |env| == |jobs| > 0
    ensures var n := |jobs| - 1;
      |RemovedAt(jobs, env, campaignId)| ==
      |RemovedAt(jobs[..n], env[..n], campaignId)| + if Removed(jobs[n], env[n], campaignId) then 1 else 0
  {
    var n := |jobs| - 1;
    var before := RemovedAt(jobs[..n], env[..n], campaignId);
    assert forall i :: 0 <= i < n ==> jobs[..n][i] == jobs[i] && env[..n][i] == env[i];
    assert RemovedAt(jobs, env, campaignId) == before + (if Removed(jobs[n], env[n], campaignId) then {n} else {});
    assert n !in before;
  }

  /**
   * `sent` counts the jobs of the campaign that were sent and removed, which
   * is never more than the number of the campaign's jobs in the page.
   */
  lemma {:induction false} PassSentCount(jobs: seq<Job>, env: seq<JobEnv>, campaignId: int)
    requires |env| == |jobs|
    ensures Pass(jobs, env, campaignId).sent == |RemovedAt(jobs, env, campaignId)|
    ensures Pass(jobs, env, campaignId).sent <= |MatchingAt(jobs, campaignId)|
    decreases |jobs|
  {
    if |jobs| > 0 {
      var n := |jobs| - 1;
      PassSentCount(jobs[..n], env[..n], campaignId);
      RemovedAtSnoc(jobs, env, campaignId);
    }
    assert RemovedAt(jobs, env, campaignId) <= MatchingAt(jobs, campaignId);
    SubsetSize(RemovedAt(jobs, env, campaignId), MatchingAt(jobs, campaignId));
  }

  lemma SubsetSize<T>(a: set<T>, b: set<T>)
    requires a <= b
    ensures |a| <= |b|
  {
    assert b == a + (b - a);
  }

  /** The removed ids are exactly those of the campaign's jobs that were sent and then removed. */
  lemma {:induction false} PassRemoved(jobs: seq<Job>, env: seq<JobEnv>, campaignId: int)
    requires |env| == |jobs|
    ensures Pass(jobs, env, campaignId).removed ==
      set i | 0 <= i < |jobs| && Removed(jobs[i], env[i], campaignId) :: jobs[i].id
    decreases |jobs|
  {
    if |jobs| > 0 {
      var n := |jobs| - 1;
      PassRemoved(jobs[..n], env[..n], campaignId);
      assert forall i :: 0 <= i < n ==> jobs[..n][i] == jobs[i] && env[..n][i] == env[i];
    }
  }

  /** Every message handed to the transport belongs to a valid job of the campaign and carries its html unchanged. */
  lemma {:induction false} PassOutbox(jobs: seq<Job>, env: seq<JobEnv>, campaignId: int)
    requires |env| == |jobs|
    ensures forall a :: a in Pass(jobs, env, campaignId).outbox ==>
      exists i :: 0 <= i < |jobs| && Attempted(jobs[i], campaignId) && a == Attempt(jobs[i].id, MailFor(jobs[i]))
    ensures forall a :: a in Pass(jobs, env, campaignId).outbox ==> a.mail.html.Some?
    decreases |jobs|
  {
    if |jobs| > 0 {
      var n := |jobs| - 1;
      PassOutbox(jobs[..n], env[..n], campaignId);
      assert forall i :: 0 <= i < n ==> jobs[..n][i] == jobs[i] && env[..n][i] == env[i];
    }
  }

  datatype Response = MethodNotAllowed | MissingCampaignId | SentCount(sent: nat)

  datatype Outcome = Outcome(response: Response, world: World, outbox: seq<Attempt>)

  /** The handler. `env` answers for the fetched page in order; only the campaign's jobs consult it. */
  function Handle(m: Method, campaignId: Option<int>, w: World, env: seq<JobEnv>): (r: Outcome)
    requires |env| == |Page(w)|
    ensures m != Post ==> r == Outcome(MethodNotAllowed, w, [])
    ensures m == Post && !TruthyId(campaignId) ==> r == Outcome(MissingCampaignId, w, [])
    ensures m == Post && TruthyId(campaignId) ==> r.response.SentCount?
    ensures r.world.ledger == w.ledger && r.world.campaigns == w.campaigns
    ensures forall j :: j in r.world.queue ==> j in w.queue
  {
    if m != Post then Outcome(MethodNotAllowed, w, [])
    else if !TruthyId(campaignId) then Outcome(MissingCampaignId, w, [])
    else
      var t := Pass(Page(w), env, campaignId.value);
      Outcome(SentCount(t.sent), w.(queue := Without(w.queue, t.removed)), t.outbox)
  }

  /**
   * With a campaign id, `sent` is the number of the campaign's fetched jobs
   * that were sent and removed, at most the number of its fetched jobs; a page
   * holding none of them answers `{sent: 0}` and changes nothing.
   */
  lemma HandleCounts(campaignId: int, w: World, env: seq<JobEnv>)
    requires |env| == |Page(w)| && campaignId != 0
    ensures Handle(Post, Some(campaignId), w, env).response ==
      SentCount(|RemovedAt(Page(w), env, campaignId)|)
    ensures |RemovedAt(Page(w), env, campaignId)| <= |MatchingAt(Page(w), campaignId)|
    ensures MatchingAt(Page(w), campaignId) == {} ==> Handle(Post, Some(campaignId), w, env) == Outcome(SentCount(0), w, [])
  {
    var jobs := Page(w);
    PassSentCount(jobs, env, campaignId);
    if MatchingAt(jobs, campaignId) == {} {
      NoMatchNoEffect(jobs, env, campaignId);
      assert Without(w.queue, {}) == w.queue by {
        WithoutNothing(w.queue);
      }
    }
  }

  lemma {:induction false} NoMatchNoEffect(jobs: seq<Job>, env: seq<JobEnv>, campaignId: int)
    requires |env| == |jobs| && MatchingAt(jobs, campaignId) == {}
    ensures Pass(jobs, env, campaignId) == Tally(0, {}, [])
    decreases |jobs|
  {
    if |jobs| > 0 {
      var n := |jobs| - 1;
      assert n in MatchingAt(jobs, campaignId) <==> Matches(jobs[n], campaignId);
      assert forall i :: 0 <= i < n ==> jobs[..n][i] == jobs[i];
      assert MatchingAt(jobs[..n], campaignId) <= MatchingAt(jobs, campaignId);
      NoMatchNoEffect(jobs[..n], env[..n], campaignId);
    }
  }

  lemma {:induction false} WithoutNothing(q: seq<Job>)
    ensures Without(q, {}) == q
  {
    if |q| > 0 {
      WithoutNothing(q[1..]);
    }
  }

  /**
   * Jobs of other campaigns, outside the page, with an invalid payload, or
   * whose send or removal failed all stay in the queue.
   */
  lemma HandleKeepsUnsentJobs(campaignId: int, w: World, env: seq<JobEnv>)
    requires |env| == |Page(w)| && campaignId != 0 && UniqueIds(w.queue)
    ensures forall j :: j in w.queue && j !in Page(w) ==> j in Handle(Post, Some(campaignId), w, env).world.queue
    ensures forall i :: 0 <= i < |Page(w)| && !Removed(Page(w)[i], env[i], campaignId) ==>
      Page(w)[i] in Handle(Post, Some(campaignId), w, env).world.queue
  {
    var jobs := Page(w);
    assert DistinctStates(PullStates);
    FetchUnique(w.queue, PullStates, FetchEnd);
    assert UniqueIds(jobs);
    assert Handle(Post, Some(campaignId), w, env).world.queue == Without(w.queue, Pass(jobs, env, campaignId).removed);
    PassRemoved(jobs, env, campaignId);
    var removed := Pass(jobs, env, campaignId).removed;
    OffPageIdsDiffer(w.queue, jobs);
    forall i | 0 <= i < |jobs| && !Removed(jobs[i], env[i], campaignId)
      ensures jobs[i].id !in removed
    {
      forall k | 0 <= k < |jobs| && Removed(jobs[k], env[k], campaignId) ensures jobs[k].id != jobs[i].id {
        assert k != i;
      }
    }
  }
}
