/**
 * The mail queue as the handlers see it: jobs with a state and a payload,
 * BullMQ's `getJobs(states, 0, end)` page, and the two ways a handler resolves
 * a job (removing it, or moving it to another state).
 */
module Queue {
  import opened Wrappers
  import opened Js
  import Text
  import Mailer

  /** A job's payload; every field may be missing from the stored JSON. */
  datatype JobData = JobData(
    campaignId: Option<int>,
    subscriberId: Option<int>,
    email: Option<string>,
    subject: Option<string>,
    html: Option<string>,
    subscriberName: Option<string>)

  datatype JobState = Waiting | Active | Completed | Failed | Delayed

  datatype Job = Job(id: nat, state: JobState, data: JobData)

  /** `email`, `subject` and `html` are all truthy. */
  predicate HasRequiredFields(d: JobData) {
    Truthy(d.email) && Truthy(d.subject) && Truthy(d.html)
  }

  /** No two positions of the queue hold jobs with the same id. */
  predicate UniqueIds(q: seq<Job>) {
    forall i, j :: 0 <= i < j < |q| ==> q[i].id != q[j].id
  }

  /** The ids of the jobs in `q`. */
  function IdsOf(q: seq<Job>): set<nat> {
    set j | j in q :: j.id
  }

  /** Appending a job adds its id. */
  lemma IdsOfSnoc(q: seq<Job>)
    requires |q| > 0
    ensures IdsOf(q) == IdsOf(q[..|q| - 1]) + {q[|q| - 1].id}
  {
    assert q == q[..|q| - 1] + [q[|q| - 1]];
  }

  /** The name substituted for the placeholder: the subscriber's name, or "Subscriber". */
  const FallbackName: string := "Subscriber"

  /** `html.replace(/\{\{name\}\}/g, subscriberName || 'Subscriber')`. */
  function Personalised(html: string, name: Option<string>): string
  {
    Text.ReplaceAll(html, Text.NamePlaceholder, OrElse(name, FallbackName))
  }

  /** The jobs of `q` whose state is one of `states`, in queue order. */
  function Select(q: seq<Job>, states: set<JobState>): (r: seq<Job>)
    ensures |r| <= |q|
    ensures forall j :: j in r ==> j in q && j.state in states
    ensures forall j :: j in q && j.state in states ==> j in r
    ensures UniqueIds(q) ==> UniqueIds(r)
  {
    if |q| == 0 then []
    else
      var rest := Select(q[1..], states);
      assert forall j :: j in q[1..] ==> j in q;
      assert forall j :: j in q ==> j == q[0] || j in q[1..];
      assert UniqueIds(q) ==> forall j :: j in rest ==> j.id != q[0].id by {
        if UniqueIds(q) {
          forall j | j in rest ensures j.id != q[0].id {
            var k :| 0 <= k < |q[1..]| && q[1..][k] == j;
            assert q[k + 1] == j;
          }
        }
      }
      if q[0].state in states then [q[0]] + rest else rest
  }

  /** Every job in state `s` fits in one range `0..end`. */
  predicate Fits(q: seq<Job>, s: JobState, end: nat) {
    |Select(q, {s})| <= end + 1
  }

  /** No state is named twice. */
  predicate DistinctStates(states: seq<JobState>) {
    forall i, k :: 0 <= i < k < |states| ==> states[i] != states[k]
  }

  /**
   * `getJobs(states, 0, end)`: BullMQ reads the list of each named state on
   * its own, applies the inclusive range `0..end` to each, and joins the
   * results in the order the states are named.
   */
  function Fetch(q: seq<Job>, states: seq<JobState>, end: nat): (r: seq<Job>)
    ensures forall j :: j in r ==> j in q && j.state in states
    decreases |states|
  {
    if |states| == 0 then []
    else
      var n := |states| - 1;
      var front := Fetch(q, states[..n], end);
      var sel := Select(q, {states[n]});
      var last := Slice(sel, end + 1);
      FetchStepMembers(q, states, front, last, sel);
      front + last
  }

  /** Every job of a named state that has at most `end + 1` jobs is on the page. */
  lemma {:induction false} FetchCovers(q: seq<Job>, states: seq<JobState>, end: nat)
    ensures forall j :: j in q && j.state in states && Fits(q, j.state, end) ==> j in Fetch(q, states, end)
    decreases |states|
  {
    if |states| > 0 {
      var n := |states| - 1;
      FetchCovers(q, states[..n], end);
      FetchStepCovers(q, states, end, Fetch(q, states[..n], end), Slice(Select(q, {states[n]}), end + 1));
    }
  }

  /** With distinct states, a page taken from an id-unique queue is id-unique. */
  lemma {:induction false} FetchUnique(q: seq<Job>, states: seq<JobState>, end: nat)
    requires UniqueIds(q) && DistinctStates(states)
    ensures UniqueIds(Fetch(q, states, end))
    decreases |states|
  {
    if |states| > 0 {
      var n := |states| - 1;
      assert DistinctStates(states[..n]);
      FetchUnique(q, states[..n], end);
      var sel := Select(q, {states[n]});
      SliceUnique(sel, end + 1);
      FetchStepMembers(q, states, Fetch(q, states[..n], end), Slice(sel, end + 1), sel);
      FetchStepUnique(q, states, Fetch(q, states[..n], end), Slice(sel, end + 1));
    }
  }

  lemma FetchStepMembers(q: seq<Job>, states: seq<JobState>, front: seq<Job>, last: seq<Job>, sel: seq<Job>)
    requires |states| > 0 && last <= sel
    requires forall j :: j in sel ==> j in q && j.state == states[|states| - 1]
    requires forall j :: j in front ==> j in q && j.state in states[..|states| - 1]
    ensures forall j :: j in last ==> j in q && j.state == states[|states| - 1]
    ensures forall j :: j in front + last ==> j in q && j.state in states
  {
    var n := |states| - 1;
    assert forall j :: j in last ==> j in sel;
    forall j | j in front + last ensures j in q && j.state in states {
      if j in front {
        var i :| 0 <= i < n && states[..n][i] == j.state;
        assert states[i] == j.state;
      }
    }
  }

  lemma FetchStepUnique(q: seq<Job>, states: seq<JobState>, front: seq<Job>, last: seq<Job>)
    requires |states| > 0 && UniqueIds(q) && DistinctStates(states)
    requires UniqueIds(front) && UniqueIds(last)
    requires forall j :: j in front ==> j in q && j.state in states[..|states| - 1]
    requires forall j :: j in last ==> j in q && j.state == states[|states| - 1]
    ensures UniqueIds(front + last)
  {
    FetchStepDisjoint(q, states, front, last);
    UniqueIdsAppend(front, last);
  }

  /** A prefix of an id-unique sequence is id-unique. */
  lemma SliceUnique(xs: seq<Job>, n: nat)
    requires UniqueIds(xs)
    ensures UniqueIds(Slice(xs, n))
  {
    var p := Slice(xs, n);
    forall i, k | 0 <= i < k < |p| ensures p[i].id != p[k].id {
      assert p[i] == xs[i] && p[k] == xs[k];
    }
  }

  lemma FetchStepCovers(q: seq<Job>, states: seq<JobState>, end: nat, front: seq<Job>, last: seq<Job>)
    requires |states| > 0 && last == Slice(Select(q, {states[|states| - 1]}), end + 1)
    requires forall j :: j in q && j.state in states[..|states| - 1] && Fits(q, j.state, end) ==> j in front
    ensures forall j :: j in q && j.state in states && Fits(q, j.state, end) ==> j in front + last
  {
    var n := |states| - 1;
    var sel := Select(q, {states[n]});
    forall j | j in q && j.state in states && Fits(q, j.state, end)
      ensures j in front + last
    {
      var i :| 0 <= i < |states| && states[i] == j.state;
      if i < n {
        assert states[..n][i] == j.state;
        assert j in front;
      } else {
        assert j.state in {states[n]};
        assert j in sel && |sel| <= end + 1;
        assert last == sel;
      }
    }
  }

  lemma FetchStepDisjoint(q: seq<Job>, states: seq<JobState>, front: seq<Job>, last: seq<Job>)
    requires |states| > 0 && UniqueIds(q) && DistinctStates(states)
    requires forall j :: j in front ==> j in q && j.state in states[..|states| - 1]
    requires forall j :: j in last ==> j in q && j.state == states[|states| - 1]
    ensures forall x, y :: x in front && y in last ==> x.id != y.id
  {
    var n := |states| - 1;
    forall x, y | x in front && y in last ensures x.id != y.id {
      var i :| 0 <= i < n && states[..n][i] == x.state;
      assert states[i] != states[n];
      if x.id == y.id {
        SameIdSameJob(q, x, y);
      }
    }
  }

  /** In a queue without duplicate ids, two of its jobs with the same id are the same job. */
  lemma SameIdSameJob(q: seq<Job>, x: Job, y: Job)
    requires UniqueIds(q) && x in q && y in q && x.id == y.id
    ensures x == y
  {
    var a :| 0 <= a < |q| && q[a] == x;
    var b :| 0 <= b < |q| && q[b] == y;
    assert a == b;
  }

  /** A job of the queue that is not on a page taken from it shares no id with the page. */
  lemma OffPageIdsDiffer(q: seq<Job>, page: seq<Job>)
    requires UniqueIds(q) && forall j :: j in page ==> j in q
    ensures forall j, i :: j in q && j !in page && 0 <= i < |page| ==> page[i].id != j.id
  {
    forall j, i | j in q && j !in page && 0 <= i < |page| ensures page[i].id != j.id {
      if page[i].id == j.id {
        SameIdSameJob(q, page[i], j);
      }
    }
  }

  /** Joining two id-unique sequences with no id in common keeps ids unique. */
  lemma UniqueIdsAppend(a: seq<Job>, b: seq<Job>)
    requires UniqueIds(a) && UniqueIds(b)
    requires forall x, y :: x in a && y in b ==> x.id != y.id
    ensures UniqueIds(a + b)
  {
    forall i, k | 0 <= i < k < |a + b| ensures (a + b)[i].id != (a + b)[k].id {
      if k < |a| {
      } else if i >= |a| {
        assert (a + b)[i] == b[i - |a|] && (a + b)[k] == b[k - |a|];
      } else {
        assert (a + b)[i] in a && (a + b)[k] == b[k - |a|] && b[k - |a|] in b;
      }
    }
  }

  /** Each named state contributes at most `end + 1` jobs. */
  lemma {:induction false} FetchSize(q: seq<Job>, states: seq<JobState>, end: nat)
    ensures |Fetch(q, states, end)| <= |states| * (end + 1)
    decreases |states|
  {
    if |states| > 0 {
      var n := |states| - 1;
      FetchSize(q, states[..n], end);
      AddBound(|Fetch(q, states[..n], end)|, |Slice(Select(q, {states[n]}), end + 1)|, n, end + 1);
    }
  }

  lemma AddBound(a: nat, b: nat, n: nat, m: nat)
    requires a <= n * m && b <= m
    ensures a + b <= (n + 1) * m
  {
  }

  /** For a single state the page is the first `end + 1` jobs of that state, in queue order. */
  lemma FetchOneState(q: seq<Job>, s: JobState, end: nat)
    ensures Fetch(q, [s], end) == Slice(Select(q, {s}), end + 1)
  {
    assert [s][..0] == [];
  }

  /** The queue after `job.remove()` on every job whose id is in `ids`. */
  function Without(q: seq<Job>, ids: set<nat>): (r: seq<Job>)
    ensures |r| <= |q|
    ensures forall j :: j in r <==> j in q && j.id !in ids
  {
    if |q| == 0 then []
    else
      assert forall j :: j in q <==> j == q[0] || j in q[1..];
      (if q[0].id in ids then [] else [q[0]]) + Without(q[1..], ids)
  }

  /** The queue after moving each job whose id is a key of `moves` to the state recorded for it. */
  function Resolve(q: seq<Job>, moves: map<nat, JobState>): (r: seq<Job>)
    ensures |r| == |q|
    ensures forall i :: 0 <= i < |q| ==> r[i].id == q[i].id && r[i].data == q[i].data
    ensures forall i :: 0 <= i < |q| && q[i].id !in moves ==> r[i] == q[i]
    ensures forall i :: 0 <= i < |q| && q[i].id in moves ==> r[i].state == moves[q[i].id]
  {
    seq(|q|, i requires 0 <= i < |q| =>
      if q[i].id in moves then q[i].(state := moves[q[i].id]) else q[i])
  }
}
