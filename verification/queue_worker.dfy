/**
 * The cron endpoint of src/pages/api/queue/worker.ts: after a bearer-secret
 * check it takes up to 10 waiting jobs and, for each, personalises and sends
 * the mail, writes the ledger when a subscriber id is present, and moves the
 * job to `completed`; any failure moves it to `failed` instead.
 */
module QueueWorker {
  import opened Wrappers
  import opened Js
  import opened Mailer
  import opened Queue
  import opened Store

  /** `getJobs(['waiting'], 0, 9)`: ten jobs at most. */
  const FetchEnd: nat := 9
  const PullStates: seq<JobState> := [Waiting]

  function Page(w: World): seq<Job> {
    Fetch(w.queue, PullStates, FetchEnd)
  }

  // ---------------------------------------------------------------------
  // Authorisation
  // ---------------------------------------------------------------------

  /**
   * The header the code compares against, `Bearer ${process.env.CRON_SECRET}`:
   * an unset secret is rendered as the text "undefined".
   */
  function ExpectedHeaderAsWritten(secret: Option<string>): string {
    "Bearer " + if secret.Some? then secret.value else "undefined"
  }

  /** The check as written: the header must equal the rendered template. */
  predicate AuthorizedAsWritten(header: Option<string>, secret: Option<string>) {
    header == Some(ExpectedHeaderAsWritten(secret))
  }

  /** With no secret configured, the literal header "Bearer undefined" passes the check as written. */
  lemma UnsetSecretAdmitsLiteralUndefined()
    ensures AuthorizedAsWritten(Some("Bearer undefined"), None)
    ensures AuthorizedAsWritten(Some("Bearer "), Some(""))
  {
    assert "Bearer " + "undefined" == "Bearer undefined";
    assert "Bearer " + "" == "Bearer ";
  }

  /** The evident intent: only `Bearer <secret>` for a configured, non-empty secret is let in. */
  predicate Authorized(header: Option<string>, secret: Option<string>) {
    Truthy(secret) && header == Some("Bearer " + secret.value)
  }

  /**
   * The corrected check admits no request when the secret is unset or empty,
   * and agrees with the check as written whenever a secret is configured.
   */
  lemma AuthorizedNeedsSecret(header: Option<string>, secret: Option<string>)
    ensures !Truthy(secret) ==> !Authorized(header, secret)
    ensures Truthy(secret) ==> (Authorized(header, secret) <==> AuthorizedAsWritten(header, secret))
  {
  }

  // ---------------------------------------------------------------------
  // The batch
  // ---------------------------------------------------------------------

  /** The mail for a job with an html body: personalised html, stripped text, other fields as stored. */
  function MailFor(j: Job): Mail
    requires j.data.html.Some?
  {
    var html := Personalised(j.data.html.value, j.data.subscriberName);
    Mail(j.data.email, j.data.subject, Some(html), Text.StripTags(html))
  }

  /** The job reaches the transport: there is no validation, only `html.replace` needs an html. */
  predicate Attempted(j: Job) {
    j.data.html.Some?
  }

  /** The transport accepted the job's message. */
  predicate Delivered(j: Job, e: JobEnv) {
    Attempted(j) && e.transport.Accepted?
  }

  /** Delivered and moved to `completed`: counted as sent. */
  predicate Succeeds(j: Job, e: JobEnv) {
    Delivered(j, e) && e.resolveOk
  }

  /** The ledger write runs when the subscriber id is truthy; the campaign id is not checked. */
  predicate WritesLedger(j: Job, e: JobEnv) {
    Delivered(j, e) && TruthyId(j.data.subscriberId) && e.ledgerWriteOk
  }

  /** The job fails and `moveToFailed` throws, which rejects the whole handler. */
  predicate Crashes(j: Job, e: JobEnv) {
    !Succeeds(j, e) && !e.failMoveOk
  }

  /** Counter, ledger, the state each resolved job was moved to, messages sent, and whether the handler threw. */
  datatype Tally = Tally(sent: nat, ledger: Ledger, moves: map<nat, JobState>, outbox: seq<Attempt>, crashed: bool)

  /** The `catch` branch: `moveToFailed`, which may itself throw. */
  function FailJob(t: Tally, j: Job, e: JobEnv): Tally {
    if e.failMoveOk then t.(moves := t.moves[j.id := Failed]) else t.(crashed := true)
  }

  /** One iteration of the loop; once the handler has thrown, nothing more happens. */
  function Step(t: Tally, j: Job, e: JobEnv): (r: Tally)
    ensures t.crashed ==> r == t
    ensures !t.crashed ==> r.crashed == Crashes(j, e)
    ensures r.sent == t.sent + if !t.crashed && Succeeds(j, e) then 1 else 0
    ensures r.ledger == if !t.crashed && WritesLedger(j, e)
                        then MarkSent(t.ledger, j.data.campaignId, j.data.subscriberId) else t.ledger
    ensures r.outbox == t.outbox + if !t.crashed && Attempted(j) then [Attempt(j.id, MailFor(j))] else []
    ensures !t.crashed && Succeeds(j, e) ==> r.moves == t.moves[j.id := Completed]
    ensures !t.crashed && !Crashes(j, e) && !Succeeds(j, e) ==> r.moves == t.moves[j.id := Failed]
    ensures t.crashed || Crashes(j, e) ==> r.moves == t.moves
  {
    if t.crashed then t
    else if j.data.html.None? then FailJob(t, j, e)
    else
      var html := Personalised(j.data.html.value, j.data.subscriberName);
      var s := SendMail(MailOptions(j.data.email, j.data.subject, Some(html), None), e.transport);
      var t := t.(outbox := t.outbox + [Attempt(j.id, s.attempt.value)]);
      if s.result.Err? then FailJob(t, j, e)
      else
        var t := if TruthyId(j.data.subscriberId) && e.ledgerWriteOk
                 then t.(ledger := MarkSent(t.ledger, j.data.campaignId, j.data.subscriberId))
                 else t;
        if e.resolveOk then t.(sent := t.sent + 1, moves := t.moves[j.id := Completed])
        else FailJob(t, j, e)
  }

  /** The loop over the page, as a left fold. */
  function Pass(jobs: seq<Job>, env: seq<JobEnv>, ledger: Ledger): (t: Tally)
    requires |env| == |jobs|
    ensures t.sent <= |jobs|
    ensures Grows(ledger, t.ledger)
    decreases |jobs|
  {
    if |jobs| == 0 then Tally(0, ledger, map[], [], false)
    else
      var n := |jobs| - 1;
      var t := Pass(jobs[..n], env[..n], ledger);
      assert forall i :: 0 <= i < n ==> jobs[..n][i] == jobs[i] && env[..n][i] == env[i];
      Step(t, jobs[n], env[n])
  }

  /** Some job of the page fails and cannot be moved to `failed`. */
  predicate SomeCrash(jobs: seq<Job>, env: seq<JobEnv>)
    requires |env| == |jobs|
  {
    exists i :: 0 <= i < |jobs| && Crashes(jobs[i], env[i])
  }

  lemma SomeCrashSnoc(jobs: seq<Job>, env: seq<JobEnv>)
    requires |env| == |jobs| > 0
    ensures SomeCrash(jobs, env) <==>
      SomeCrash(jobs[..|jobs| - 1], env[..|jobs| - 1]) || Crashes(jobs[|jobs| - 1], env[|jobs| - 1])
  {
    var n := |jobs| - 1;
    if SomeCrash(jobs, env) && !Crashes(jobs[n], env[n]) {
      var i :| 0 <= i < |jobs| && Crashes(jobs[i], env[i]);
      assert jobs[..n][i] == jobs[i] && env[..n][i] == env[i];
    }
    if SomeCrash(jobs[..n], env[..n]) {
      var i :| 0 <= i < n && Crashes(jobs[..n][i], env[..n][i]);
      assert jobs[..n][i] == jobs[i] && env[..n][i] == env[i];
    }
  }

  /** The handler throws exactly when some fetched job fails and cannot be moved to `failed`. */
  lemma {:induction false} PassCrashes(jobs: seq<Job>, env: seq<JobEnv>, ledger: Ledger)
    requires |env| == |jobs|
    ensures Pass(jobs, env, ledger).crashed <==> SomeCrash(jobs, env)
    decreases |jobs|
  {
    if |jobs| > 0 {
      var n := |jobs| - 1;
      PassCrashes(jobs[..n], env[..n], ledger);
      var before := Pass(jobs[..n], env[..n], ledger);
      assert Pass(jobs, env, ledger) == Step(before, jobs[n], env[n]);
      SomeCrashSnoc(jobs, env);
    }
  }

  /** The positions whose job was delivered and moved to `completed`. */
  function SucceededAt(jobs: seq<Job>, env: seq<JobEnv>): set<nat>
    requires |env| == |jobs|
  {
    set i: nat | i < |jobs| && Succeeds(jobs[i], env[i])
  }

  lemma SucceededAtSnoc(jobs: seq<Job>, env: seq<JobEnv>)
    requires |env| == |jobs| > 0
    ensures var n := |jobs| - 1;
      |SucceededAt(jobs, env)| == |SucceededAt(jobs[..n], env[..n])| + if Succeeds(jobs[n], env[n]) then 1 else 0
  {
    var n := |jobs| - 1;
    var before := SucceededAt(jobs[..n], env[..n]);
    assert forall i :: 0 <= i < n ==> jobs[..n][i] == jobs[i] && env[..n][i] == env[i];
    assert SucceededAt(jobs, env) == before + (if Succeeds(jobs[n], env[n]) then {n} else {});
    assert n !in before;
  }

  /** When the handler does not throw, exactly the fetched jobs are moved. */
  lemma {:induction false} PassMovesEveryJob(jobs: seq<Job>, env: seq<JobEnv>, ledger: Ledger)
    requires |env| == |jobs|
    requires !Pass(jobs, env, ledger).crashed
    ensures Pass(jobs, env, ledger).moves.Keys == IdsOf(jobs)
    decreases |jobs|
  {
    if |jobs| > 0 {
      var n := |jobs| - 1;
      var before := Pass(jobs[..n], env[..n], ledger);
      var after := Pass(jobs, env, ledger);
      assert !before.crashed && after.moves.Keys == before.moves.Keys + {jobs[n].id} by {
        assert after == Step(before, jobs[n], env[n]);
      }
      PassMovesEveryJob(jobs[..n], env[..n], ledger);
      IdsOfSnoc(jobs);
    }
  }

  /** Each of `jobs` is moved, to `completed` when it succeeded and to `failed` otherwise. */
  predicate MovedByOutcome(moves: map<nat, JobState>, jobs: seq<Job>, env: seq<JobEnv>)
    requires |env| == |jobs|
  {
    forall i :: 0 <= i < |jobs| ==>
      jobs[i].id in moves && moves[jobs[i].id] == if Succeeds(jobs[i], env[i]) then Completed else Failed
  }

  /**
   * When the handler does not throw, each fetched job is moved to `completed`
   * when it succeeded and to `failed` otherwise.
   */
  lemma {:induction false} PassMovedState(jobs: seq<Job>, env: seq<JobEnv>, ledger: Ledger)
    requires |env| == |jobs| && UniqueIds(jobs)
    requires !Pass(jobs, env, ledger).crashed
    ensures MovedByOutcome(Pass(jobs, env, ledger).moves, jobs, env)
    decreases |jobs|
  {
    if |jobs| > 0 {
      var n := |jobs| - 1;
      assert forall i :: 0 <= i < n ==> jobs[..n][i] == jobs[i] && env[..n][i] == env[i];
      assert UniqueIds(jobs[..n]);
      var before := Pass(jobs[..n], env[..n], ledger);
      assert Pass(jobs, env, ledger) == Step(before, jobs[n], env[n]);
      assert !before.crashed;
      PassMovedState(jobs[..n], env[..n], ledger);
      MovedStep(before, jobs, env);
    }
  }

  /** One more job that neither throws nor reuses an id keeps every earlier job's move and adds its own. */
  lemma MovedStep(before: Tally, jobs: seq<Job>, env: seq<JobEnv>)
    requires |env| == |jobs| > 0 && UniqueIds(jobs)
    requires !Step(before, jobs[|jobs| - 1], env[|jobs| - 1]).crashed && !before.crashed
    requires MovedByOutcome(before.moves, jobs[..|jobs| - 1], env[..|env| - 1])
    ensures MovedByOutcome(Step(before, jobs[|jobs| - 1], env[|jobs| - 1]).moves, jobs, env)
  {
    var n := |jobs| - 1;
    var moves := Step(before, jobs[n], env[n]).moves;
    assert moves == before.moves[jobs[n].id := if Succeeds(jobs[n], env[n]) then Completed else Failed];
    forall i | 0 <= i < |jobs|
      ensures jobs[i].id in moves && moves[jobs[i].id] == if Succeeds(jobs[i], env[i]) then Completed else Failed
    {
      if i < n {
        assert jobs[..n][i] == jobs[i] && env[..n][i] == env[i];
        assert jobs[i].id != jobs[n].id;
      }
    }
  }

  /** When the handler does not throw, `sent` counts the jobs that succeeded. */
  lemma {:induction false} PassSentCount(jobs: seq<Job>, env: seq<JobEnv>, ledger: Ledger)
    requires |env| == |jobs|
    requires !Pass(jobs, env, ledger).crashed
    ensures Pass(jobs, env, ledger).sent == |SucceededAt(jobs, env)|
    decreases |jobs|
  {
    if |jobs| > 0 {
      var n := |jobs| - 1;
      PassSentCount(jobs[..n], env[..n], ledger);
      SucceededAtSnoc(jobs, env);
    }
  }

  /**
   * Only rows of delivered jobs with a truthy subscriber id change, each to
   * `sent = true`; the campaign id is used as given, even when falsy.
   */
  lemma {:induction false} PassLedger(jobs: seq<Job>, env: seq<JobEnv>, ledger: Ledger)
    requires |env| == |jobs|
    ensures forall k :: k in ledger && Pass(jobs, env, ledger).ledger[k] != ledger[k] ==>
      Pass(jobs, env, ledger).ledger[k] &&
      exists i :: 0 <= i < |jobs| && WritesLedger(jobs[i], env[i]) &&
                  jobs[i].data.campaignId == Some(k.0) && jobs[i].data.subscriberId == Some(k.1)
    decreases |jobs|
  {
    if |jobs| > 0 {
      var n := |jobs| - 1;
      PassLedger(jobs[..n], env[..n], ledger);
      var before := Pass(jobs[..n], env[..n], ledger);
      var after := Pass(jobs, env, ledger);
      assert after == Step(before, jobs[n], env[n]);
      forall k | k in ledger && after.ledger[k] != ledger[k]
        ensures after.ledger[k]
        ensures exists i :: 0 <= i < |jobs| && WritesLedger(jobs[i], env[i]) &&
                  jobs[i].data.campaignId == Some(k.0) && jobs[i].data.subscriberId == Some(k.1)
      {
        if after.ledger[k] != before.ledger[k] {
          assert WritesLedger(jobs[n], env[n]);
        } else {
          var i :| 0 <= i < n && WritesLedger(jobs[..n][i], env[..n][i]) &&
                  jobs[..n][i].data.campaignId == Some(k.0) && jobs[..n][i].data.subscriberId == Some(k.1);
          assert jobs[..n][i] == jobs[i] && env[..n][i] == env[i];
        }
      }
    }
  }

  /** `a` is the personalised message of some job of `jobs` that reaches the transport. */
  predicate FromPage(a: Attempt, jobs: seq<Job>) {
    exists i :: 0 <= i < |jobs| && Attempted(jobs[i]) && a == Attempt(jobs[i].id, MailFor(jobs[i]))
  }

  /** A message from a prefix of the page is from the page. */
  lemma FromPrefix(a: Attempt, jobs: seq<Job>, n: nat)
    requires n <= |jobs| && FromPage(a, jobs[..n])
    ensures FromPage(a, jobs)
  {
    var i :| 0 <= i < n && Attempted(jobs[..n][i]) && a == Attempt(jobs[..n][i].id, MailFor(jobs[..n][i]));
    assert jobs[..n][i] == jobs[i];
  }

  /** Every message handed to the transport is a fetched job's personalised message. */
  lemma {:induction false} PassOutbox(jobs: seq<Job>, env: seq<JobEnv>, ledger: Ledger)
    requires |env| == |jobs|
    ensures forall a :: a in Pass(jobs, env, ledger).outbox ==> FromPage(a, jobs)
    decreases |jobs|
  {
    if |jobs| > 0 {
      var n := |jobs| - 1;
      PassOutbox(jobs[..n], env[..n], ledger);
      var before := Pass(jobs[..n], env[..n], ledger);
      var after := Pass(jobs, env, ledger);
      assert after == Step(before, jobs[n], env[n]);
      forall a | a in after.outbox ensures FromPage(a, jobs) {
        if a in before.outbox {
          FromPrefix(a, jobs, n);
        } else {
          assert Attempted(jobs[n]) && a == Attempt(jobs[n].id, MailFor(jobs[n]));
        }
      }
    }
  }

  datatype Response = Unauthorized | NoJobs | SentCount(sent: nat) | Crashed

  datatype Outcome = Outcome(response: Response, world: World, outbox: seq<Attempt>)

  /**
   * Everything after the authorisation check: fetch the page, run the pass,
   * apply the moves. `env` answers for the fetched jobs in page order.
   */
  function Process(w: World, env: seq<JobEnv>): (r: Outcome)
    requires |env| == |Page(w)|
    ensures r.response != Unauthorized
    ensures |Page(w)| == 0 <==> r.response == NoJobs
    ensures |Page(w)| == 0 ==> r == Outcome(NoJobs, w, [])
    ensures r.response.SentCount? ==> r.response.sent <= |Page(w)| <= FetchEnd + 1
    ensures Grows(w.ledger, r.world.ledger)
    ensures |r.world.queue| == |w.queue|
    ensures forall i :: 0 <= i < |w.queue| && w.queue[i] !in Page(w) && UniqueIds(w.queue) ==>
      r.world.queue[i] == w.queue[i]
    ensures r.world.campaigns == w.campaigns
  {
    var jobs := Page(w);
    if |jobs| == 0 then Outcome(NoJobs, w, [])
    else
      var t := Pass(jobs, env, w.ledger);
      OffPageUnmoved(w, env);
      Outcome(
        if t.crashed then Crashed else SentCount(t.sent),
        World(Resolve(w.queue, t.moves), t.ledger, w.campaigns),
        t.outbox)
  }

  /** A queued job that was not fetched is not moved. */
  lemma OffPageUnmoved(w: World, env: seq<JobEnv>)
    requires |env| == |Page(w)|
    ensures UniqueIds(w.queue) ==> forall i :: 0 <= i < |w.queue| && w.queue[i] !in Page(w) ==>
      w.queue[i].id !in Pass(Page(w), env, w.ledger).moves
  {
    MovesStayInPage(Page(w), env, w.ledger);
    if UniqueIds(w.queue) {
      OffPageIdsDiffer(w.queue, Page(w));
    }
  }

  /** The handler as written: the header is compared with the rendered template. */
  function Handle(header: Option<string>, secret: Option<string>, w: World, env: seq<JobEnv>): (r: Outcome)
    requires |env| == |Page(w)|
    ensures !AuthorizedAsWritten(header, secret) <==> r.response == Unauthorized
    ensures !AuthorizedAsWritten(header, secret) ==> r == Outcome(Unauthorized, w, [])
    ensures AuthorizedAsWritten(header, secret) && |Page(w)| == 0 ==> r == Outcome(NoJobs, w, [])
    ensures r.response.SentCount? ==> r.response.sent <= |Page(w)| <= FetchEnd + 1
    ensures Grows(w.ledger, r.world.ledger)
    ensures |r.world.queue| == |w.queue|
    ensures forall i :: 0 <= i < |w.queue| && w.queue[i] !in Page(w) && UniqueIds(w.queue) ==>
      r.world.queue[i] == w.queue[i]
    ensures r.world.campaigns == w.campaigns
  {
    if !AuthorizedAsWritten(header, secret) then Outcome(Unauthorized, w, [])
    else Process(w, env)
  }

  /** The handler with the corrected check, which needs a configured secret. */
  function HandleCorrected(header: Option<string>, secret: Option<string>, w: World, env: seq<JobEnv>): (r: Outcome)
    requires |env| == |Page(w)|
    ensures !Truthy(secret) ==> r == Outcome(Unauthorized, w, [])
    ensures Truthy(secret) ==> r == Handle(header, secret, w, env)
  {
    AuthorizedNeedsSecret(header, secret);
    if !Authorized(header, secret) then Outcome(Unauthorized, w, [])
    else Process(w, env)
  }

  /**
   * With `CRON_SECRET` unset, the handler as written runs the whole batch for
   * the header "Bearer undefined", exactly as an authorised request would under
   * a configured secret; the corrected handler turns it away untouched.
   */
  lemma {:induction false} UnsetSecretRunsBatch(w: World, env: seq<JobEnv>, s: string)
    requires |env| == |Page(w)| && s != ""
    ensures Handle(Some("Bearer undefined"), None, w, env) == HandleCorrected(Some("Bearer " + s), Some(s), w, env)
    ensures Handle(Some("Bearer undefined"), None, w, env).response != Unauthorized
    ensures HandleCorrected(Some("Bearer undefined"), None, w, env) == Outcome(Unauthorized, w, [])
  {
    UnsetSecretAdmitsLiteralUndefined();
    assert Authorized(Some("Bearer " + s), Some(s));
  }

  /** Only fetched jobs are moved. */
  lemma {:induction false} MovesStayInPage(jobs: seq<Job>, env: seq<JobEnv>, ledger: Ledger)
    requires |env| == |jobs|
    ensures forall id :: id in Pass(jobs, env, ledger).moves ==> exists k :: 0 <= k < |jobs| && jobs[k].id == id
    decreases |jobs|
  {
    if |jobs| > 0 {
      var n := |jobs| - 1;
      MovesStayInPage(jobs[..n], env[..n], ledger);
      assert forall i :: 0 <= i < n ==> jobs[..n][i] == jobs[i];
    }
  }

  /**
   * When no fetched job makes the handler throw, the answer is the number of
   * jobs that succeeded, and every fetched job is now `completed` or `failed`
   * according to its own outcome.
   */
  lemma HandleResolvesPage(header: Option<string>, secret: Option<string>, w: World, env: seq<JobEnv>)
    requires |env| == |Page(w)| && UniqueIds(w.queue) && AuthorizedAsWritten(header, secret)
    requires forall k :: 0 <= k < |env| ==> !Crashes(Page(w)[k], env[k])
    ensures |Page(w)| > 0 ==> Handle(header, secret, w, env).response == SentCount(|SucceededAt(Page(w), env)|)
    ensures forall i, k :: 0 <= i < |w.queue| && 0 <= k < |Page(w)| && w.queue[i] == Page(w)[k] ==>
      Handle(header, secret, w, env).world.queue[i].state == if Succeeds(Page(w)[k], env[k]) then Completed else Failed
  {
    var jobs := Page(w);
    if |jobs| > 0 {
      PassCrashes(jobs, env, w.ledger);
      PassSentCount(jobs, env, w.ledger);
      PassMovedState(jobs, env, w.ledger);
    }
  }
}
