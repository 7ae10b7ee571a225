/**
 * `GET /api/queue/status` (src/pages/api/queue/status.ts): per-campaign
 * counts of waiting and active jobs, grouped by truthy `campaignId`, plus the
 * queue-wide totals of completed and failed jobs.
 */
module QueueStatus {
  import opened Wrappers
  import opened Js
  import opened Queue

  /** The number of jobs in `jobs` whose campaign id is `c`: the reference count. */
  function CountOf(jobs: seq<Job>, c: int): nat
  {
    if |jobs| == 0 then 0
    else CountOf(jobs[..|jobs| - 1], c) + if jobs[|jobs| - 1].data.campaignId == Some(c) then 1 else 0
  }

  /**
   * `groupByCampaign`: a `reduce` over the jobs that adds one to the entry of
   * each truthy campaign id, creating it on first sight.
   */
  function GroupByCampaign(jobs: seq<Job>): map<int, nat>
  {
    if |jobs| == 0 then map[]
    else
      var acc := GroupByCampaign(jobs[..|jobs| - 1]);
      var id := jobs[|jobs| - 1].data.campaignId;
      if !TruthyId(id) then acc
      else acc[id.value := (if id.value in acc then acc[id.value] else 0) + 1]
  }

  /** The group-by holds exactly the truthy ids that occur, each with its number of jobs. */
  lemma {:induction false} GroupByCampaignCounts(jobs: seq<Job>)
    ensures forall c :: c in GroupByCampaign(jobs) <==> c != 0 && CountOf(jobs, c) > 0
    ensures forall c :: c in GroupByCampaign(jobs) ==> GroupByCampaign(jobs)[c] == CountOf(jobs, c)
    decreases |jobs|
  {
    if |jobs| > 0 {
      GroupByCampaignCounts(jobs[..|jobs| - 1]);
    }
  }

  /** One campaign's entry; `completed` and `failed` are never filled in. */
  datatype Entry = Entry(waiting: nat, active: nat, completed: nat, failed: nat)

  /** Every truthy campaign id among `jobs` already has an entry. */
  predicate Covers(status: map<int, Entry>, jobs: seq<Job>) {
    forall i :: 0 <= i < |jobs| && TruthyId(jobs[i].data.campaignId) ==> jobs[i].data.campaignId.value in status
  }

  /**
   * The `for` loops `status[job.data.campaignId].waiting++` (or `.active++`):
   * every job with a truthy campaign id bumps its entry's counter.
   */
  function Bump(status: map<int, Entry>, jobs: seq<Job>, active: bool): (r: map<int, Entry>)
    requires Covers(status, jobs)
    ensures r.Keys == status.Keys
    decreases |jobs|
  {
    if |jobs| == 0 then status
    else
      var n := |jobs| - 1;
      assert Covers(status, jobs[..n]) by {
        assert forall i :: 0 <= i < n ==> jobs[..n][i] == jobs[i];
      }
      var acc := Bump(status, jobs[..n], active);
      var id := jobs[n].data.campaignId;
      if !TruthyId(id) then acc
      else
        var e := acc[id.value];
        acc[id.value := if active then e.(active := e.active + 1) else e.(waiting := e.waiting + 1)]
  }

  /** The bumped counter of each entry grows by the entry's number of jobs; nothing else changes. */
  lemma {:induction false} BumpCounts(status: map<int, Entry>, jobs: seq<Job>, active: bool)
    requires Covers(status, jobs)
    ensures forall c :: c in status && c != 0 ==>
      Bump(status, jobs, active)[c] ==
        if active then status[c].(active := status[c].active + CountOf(jobs, c))
        else status[c].(waiting := status[c].waiting + CountOf(jobs, c))
    ensures 0 in status ==> Bump(status, jobs, active)[0] == status[0]
    decreases |jobs|
  {
    if |jobs| > 0 {
      var n := |jobs| - 1;
      assert Covers(status, jobs[..n]) by {
        assert forall i :: 0 <= i < n ==> jobs[..n][i] == jobs[i];
      }
      BumpCounts(status, jobs[..n], active);
    }
  }

  /** The `details` object: an all-zero entry per grouped id, then the waiting and active loops. */
  function Details(waiting: seq<Job>, active: seq<Job>): (r: map<int, Entry>)
    ensures r.Keys == GroupByCampaign(waiting).Keys + GroupByCampaign(active).Keys
  {
    var ids := GroupByCampaign(waiting).Keys + GroupByCampaign(active).Keys;
    var status := map c | c in ids :: Entry(0, 0, 0, 0);
    GroupByCampaignCounts(waiting);
    GroupByCampaignCounts(active);
    CountOfPositive(waiting);
    CountOfPositive(active);
    var afterWaiting := Bump(status, waiting, false);
    Bump(afterWaiting, active, true)
  }

  /** A job with a truthy campaign id makes that id's count positive. */
  lemma {:induction false} CountOfPositive(jobs: seq<Job>)
    ensures forall i :: 0 <= i < |jobs| && jobs[i].data.campaignId.Some? ==>
      CountOf(jobs, jobs[i].data.campaignId.value) > 0
    decreases |jobs|
  {
    if |jobs| > 0 {
      var n := |jobs| - 1;
      CountOfPositive(jobs[..n]);
      assert forall i :: 0 <= i < n ==> jobs[..n][i] == jobs[i];
    }
  }

  /**
   * `details` has an entry for exactly the truthy campaign ids of waiting or
   * active jobs; each entry counts that campaign's waiting and active jobs,
   * is therefore non-empty, and reports zero completed and failed.
   */
  lemma DetailsSpec(waiting: seq<Job>, active: seq<Job>)
    ensures forall c :: c in Details(waiting, active) <==> c != 0 && (CountOf(waiting, c) > 0 || CountOf(active, c) > 0)
    ensures forall c :: c in Details(waiting, active) ==>
      Details(waiting, active)[c] == Entry(CountOf(waiting, c), CountOf(active, c), 0, 0)
    ensures forall c :: c in Details(waiting, active) ==>
      Details(waiting, active)[c].waiting + Details(waiting, active)[c].active >= 1
  {
    GroupByCampaignCounts(waiting);
    GroupByCampaignCounts(active);
    CountOfPositive(waiting);
    CountOfPositive(active);
    var ids := GroupByCampaign(waiting).Keys + GroupByCampaign(active).Keys;
    var status := map c | c in ids :: Entry(0, 0, 0, 0);
    BumpCounts(status, waiting, false);
    BumpCounts(Bump(status, waiting, false), active, true);
  }

  /** Queue-wide numbers of completed and failed jobs, as `getJobCounts` reports them. */
  datatype Totals = Totals(completed: nat, failed: nat)

  /** The number of jobs in a state. */
  function StateCount(q: seq<Job>, s: JobState): nat {
    |Select(q, {s})|
  }

  datatype Response = Status(details: map<int, Entry>, totals: Totals) | ServerError(message: string)

  const FetchError: string := "Failed to fetch queue status"

  /**
   * The handler. `storeOk` is false when one of the three queue calls throws,
   * which answers 500 with a fixed message.
   */
  function Handle(q: seq<Job>, storeOk: bool): (r: Response)
    ensures !storeOk ==> r == ServerError(FetchError)
    ensures storeOk ==> r.Status? && r.totals == Totals(StateCount(q, Completed), StateCount(q, Failed))
    ensures storeOk ==> forall c :: c in r.details ==> r.details[c].completed == 0 && r.details[c].failed == 0
    ensures storeOk && |q| == 0 ==> r == Status(map[], Totals(0, 0))
  {
    if !storeOk then ServerError(FetchError)
    else
      var d := Details(Select(q, {Waiting}), Select(q, {Active}));
      DetailsSpec(Select(q, {Waiting}), Select(q, {Active}));
      Status(d, Totals(StateCount(q, Completed), StateCount(q, Failed)))
  }

  /**
   * Only waiting and active jobs count: jobs in other states can be added to
   * the queue without changing `details`.
   */
  lemma OtherStatesIgnored(q: seq<Job>, extra: seq<Job>)
    requires forall j :: j in extra ==> j.state !in {Waiting, Active}
    ensures Handle(q + extra, true).details == Handle(q, true).details
  {
    SelectAppend(q, extra, {Waiting});
    SelectAppend(q, extra, {Active});
  }

  lemma {:induction false} SelectAppend(q: seq<Job>, extra: seq<Job>, states: set<JobState>)
    requires forall j :: j in extra ==> j.state !in states
    ensures Select(q + extra, states) == Select(q, states)
    decreases |q|
  {
    if |q| == 0 {
      SelectNone(extra, states);
      assert q + extra == extra;
    } else {
      assert (q + extra)[1..] == q[1..] + extra;
      SelectAppend(q[1..], extra, states);
    }
  }

  lemma {:induction false} SelectNone(q: seq<Job>, states: set<JobState>)
    requires forall j :: j in q ==> j.state !in states
    ensures Select(q, states) == []
    decreases |q|
  {
    if |q| > 0 {
      assert forall j :: j in q[1..] ==> j in q;
      SelectNone(q[1..], states);
    }
  }
}
