/**
 * What holds in every reachable state of the job planner, over any number of plans, when posted
 * job ids are fresh and each job's completion is reported once.
 */
module JobPlannerSafety {
  import opened Collections
  import opened TaskGraph
  import opened JobPlanner

  /** `posted` is every posting in order, `issued` every job id ever handed out, `reported` every finished job. */
  datatype World = World(s: State, posted: seq<Ref>, issued: set<string>, reported: set<string>)

  datatype Event =
    | CreatePlan(planId: string, specs: seq<TaskSpec>)
    | LaunchPlan(planId: string, options: LaunchOptions, replies: seq<Option<string>>)
    | JobCompleted(jobId: string, success: bool)

  ghost predicate Fresh(replies: seq<Option<string>>, used: set<string>) {
    && (forall m :: 0 <= m < |replies| && replies[m].Some? ==> replies[m].value !in used)
    && (forall l, m :: 0 <= l < m < |replies| && replies[l].Some? ==> replies[l] != replies[m])
  }

  ghost predicate Legal(w: World, e: Event) {
    match e
    case CreatePlan(_, _) => true
    case LaunchPlan(_, _, replies) => Fresh(replies, w.issued + w.reported)
    case JobCompleted(jobId, _) => jobId !in w.reported
  }

  function Ids(replies: seq<Option<string>>): set<string> {
    set m | 0 <= m < |replies| && replies[m].Some? :: replies[m].value
  }

  ghost function Step(w: World, e: Event): World {
    match e
    case CreatePlan(planId, specs) => w.(s := Create(w.s, planId, specs))
    case LaunchPlan(planId, options, replies) =>
      if !Launchable(w.s, planId) then w
      else
        var plan := w.s.plans[planId];
        var ready := ToPost(plan.tasks, options);
        World(Launch(w.s, planId, options, replies), w.posted + PostedRefs(plan, ready, replies, |ready|),
              w.issued + Ids(replies), w.reported)
    case JobCompleted(jobId, success) =>
      w.(s := Complete(w.s, jobId, success), reported := w.reported + {jobId})
  }

  const INITIAL := World(State(map[], map[]), [], {}, {})

  ghost function Run(events: seq<Event>): World {
    if events == [] then INITIAL else Step(Run(Front(events)), Last(events))
  }

  ghost predicate LegalRun(events: seq<Event>) {
    events == [] || (LegalRun(Front(events)) && Legal(Run(Front(events)), Last(events)))
  }

  // ----- Invariants of one plan -----

  ghost predicate TaskOk(tasks: seq<Task>, k: nat)
    requires k < |tasks|
  {
    var t := tasks[k];
    && (t.state == Pending <==> t.jobId.None?)
    && t.success == (if t.state == Completed then Some(true) else if t.state == Failed then Some(false) else None)
    && (t.state != Pending ==> DependenciesMet(tasks, t))
  }

  /** Every dependency is a task, and of smaller rank. */
  ghost predicate Ranked(tasks: seq<Task>, rank: map<string, nat>) {
    forall k :: 0 <= k < |tasks| ==> RankedAt(tasks, rank, k)
  }

  ghost predicate RankedAt(tasks: seq<Task>, rank: map<string, nat>, k: nat)
    requires k < |tasks|
  {
    && tasks[k].id in rank
    && forall d :: d in tasks[k].dependencies ==> Find(tasks, d) < |tasks| && d in rank && rank[d] < rank[tasks[k].id]
  }

  ghost predicate DistinctIds(tasks: seq<Task>) {
    forall i, j :: 0 <= i < j < |tasks| ==> tasks[i].id != tasks[j].id
  }

  ghost predicate SomeFailed(tasks: seq<Task>) {
    exists k :: 0 <= k < |tasks| && tasks[k].state == Failed
  }

  ghost predicate StatusOk(plan: Plan) {
    && (plan.status == PlanFailed <==> SomeFailed(plan.tasks))
    && (plan.status == PlanCompleted <==> AllCompleted(plan.tasks))
    && (plan.status == Draft ==> forall k :: 0 <= k < |plan.tasks| ==> plan.tasks[k].state == Pending)
    && plan.status != Cancelled
  }

  ghost predicate PlanOk(plan: Plan) {
    && plan.tasks != []
    && DistinctIds(plan.tasks)
    && (forall k :: 0 <= k < |plan.tasks| ==> TaskOk(plan.tasks, k))
    && StatusOk(plan)
    && exists rank :: Ranked(plan.tasks, rank)
  }

  lemma SameFind(a: seq<Task>, b: seq<Task>, id: string)
    requires SameShape(a, b)
    ensures Find(a, id) == Find(b, id)
  {
    var i, j := Find(a, id), Find(b, id);
    assert i < |a| ==> b[i].id == id;
    assert j < |a| ==> a[j].id == id;
  }

  lemma SameRank(a: seq<Task>, b: seq<Task>)
    requires SameShape(a, b)
    ensures (exists rank :: Ranked(a, rank)) ==> exists rank :: Ranked(b, rank)
  {
    if rank :| Ranked(a, rank) {
      forall k | 0 <= k < |b|
        ensures RankedAt(b, rank, k)
      {
        assert RankedAt(a, rank, k);
        forall d { SameFind(a, b, d); }
      }
      assert Ranked(b, rank);
    }
  }

  // ----- Creating -----

  lemma {:induction false} AdjacencyAt(specs: seq<TaskSpec>, k: nat)
    requires k < |specs| && forall i, j :: 0 <= i < j < |specs| ==> specs[i].id != specs[j].id
    ensures specs[k].id in Adjacency(specs) && Adjacency(specs)[specs[k].id] == specs[k].dependencies
  {
    if k < |specs| - 1 {
      AdjacencyAt(Front(specs), k);
    }
  }

  /** The dependency order found by the cycle check ranks the new tasks. */
  lemma NewPlanOk(planId: string, specs: seq<TaskSpec>)
    requires GoodDefinition(specs)
    ensures PlanOk(Plan(planId, Draft, NewTasks(specs)))
  {
    var tasks := NewTasks(specs);
    var order :| OrdersAll(specs, order);
    var rank: map<string, nat> := map n | n in order :: Position(order, n);
    forall k | 0 <= k < |tasks|
      ensures RankedAt(tasks, rank, k)
    {
      assert specs[k] in specs;
      AdjacencyAt(specs, k);
      forall d | d in tasks[k].dependencies
        ensures Find(tasks, d) < |tasks| && d in rank && rank[d] < rank[tasks[k].id]
      {
        assert Named(specs, d);
        var j :| 0 <= j < |specs| && specs[j].id == d;
        assert tasks[j].id == d;
        var i := Position(order, tasks[k].id);
        assert d in Edges(Adjacency(specs), order[i]);
        assert d in order[..i];
      }
    }
    assert Ranked(tasks, rank);
  }

  // ----- Launching -----

  /** A launch changes only pending tasks that could be posted, and only to posted or still pending. */
  ghost predicate LaunchedFrom(before: seq<Task>, after: seq<Task>) {
    && SameShape(before, after)
    && forall k :: 0 <= k < |before| ==> LaunchedAt(before, after, k)
  }

  ghost predicate LaunchedAt(before: seq<Task>, after: seq<Task>, k: nat)
    requires k < |before| && k < |after|
  {
    || after[k] == before[k]
    || (&& before[k].state == Pending && DependenciesMet(before, before[k])
        && exists reply :: after[k] == PostedTask(before[k], reply))
  }

  lemma LaunchIsLaunchedFrom(tasks: seq<Task>, options: LaunchOptions, replies: seq<Option<string>>)
    ensures var ready := ToPost(tasks, options);
            LaunchedFrom(tasks, PostAll(tasks, ready, replies, |ready|))
  {
    var ready := ToPost(tasks, options);
    var after := PostAll(tasks, ready, replies, |ready|);
    PostAllTasks(tasks, ready, replies, |ready|);
    assert ready[..|ready|] == ready;
    forall k | 0 <= k < |tasks|
      ensures LaunchedAt(tasks, after, k)
    {
      if k in ready {
        var m :| 0 <= m < |ready| && ready[m] == k;
        assert CanPost(tasks, options.taskIds, ready[m]);
        assert after[ready[m]] == PostedTask(tasks[ready[m]], ReplyAt(replies, m));
      }
    }
  }

  lemma LaunchKeepsMet(before: seq<Task>, after: seq<Task>, id: string)
    requires LaunchedFrom(before, after)
    ensures DependencyMet(before, id) <==> DependencyMet(after, id)
  {
    SameFind(before, after, id);
    var i := Find(before, id);
    if i < |before| {
      assert LaunchedAt(before, after, i);
    }
  }

  lemma LaunchKeepsPlanOk(plan: Plan, after: seq<Task>)
    requires PlanOk(plan) && plan.status in {Draft, Active} && LaunchedFrom(plan.tasks, after)
    ensures PlanOk(plan.(status := Active, tasks := after))
  {
    forall k | 0 <= k < |after|
      ensures TaskOk(after, k)
    {
      assert LaunchedAt(plan.tasks, after, k) && TaskOk(plan.tasks, k);
      forall d { LaunchKeepsMet(plan.tasks, after, d); }
    }
    var k :| 0 <= k < |plan.tasks| && plan.tasks[k].state != Completed;
    assert LaunchedAt(plan.tasks, after, k);
    forall i | 0 <= i < |after|
      ensures after[i].state != Failed
    {
      assert LaunchedAt(plan.tasks, after, i);
      assert plan.tasks[i].state != Failed;
    }
    SameRank(plan.tasks, after);
  }

  // ----- Completing -----

  lemma CompletionKeepsPlanOk(plan: Plan, i: nat, success: bool)
    requires PlanOk(plan) && i < |plan.tasks| && plan.tasks[i].state == Posted
    ensures PlanOk(Reported(plan, i, success))
  {
    var plan' := Reported(plan, i, success);
    var before, after := plan.tasks, plan'.tasks;
    assert TaskOk(before, i);
    forall d | DependencyMet(before, d)
      ensures DependencyMet(after, d)
    {
      SameFind(before, after, d);
    }
    forall k | 0 <= k < |after|
      ensures TaskOk(after, k)
    {
      assert TaskOk(before, k);
    }
    SameRank(before, after);
    assert after[i].state != Pending && before[i].state == Posted;
    if !success {
      assert after[i].state == Failed;
    } else {
      assert forall k :: 0 <= k < |after| ==> (after[k].state == Failed <==> before[k].state == Failed);
      assert SomeFailed(after) <==> SomeFailed(before) by {
        if k :| 0 <= k < |before| && before[k].state == Failed { assert after[k].state == Failed; }
        if k :| 0 <= k < |after| && after[k].state == Failed { assert before[k].state == Failed; }
      }
    }
  }

  // ----- The index -----

  ghost predicate JobAt(plans: map<string, Plan>, p: string, i: int, j: string) {
    p in plans && 0 <= i < |plans[p].tasks| && plans[p].tasks[i].jobId == Some(j)
  }

  ghost predicate Listed(plans: map<string, Plan>, ref: Ref, j: string) {
    exists i :: JobAt(plans, ref.planId, i, j) && plans[ref.planId].tasks[i].id == ref.taskId
  }

  /** The index holds exactly the job ids of the cached plans' tasks. */
  ghost predicate IndexExact(plans: map<string, Plan>, index: map<string, Ref>) {
    && (forall p, i, j :: JobAt(plans, p, i, j) ==> j in index && index[j] == Ref(p, plans[p].tasks[i].id))
    && (forall j :: j in index ==> Listed(plans, index[j], j))
  }

  ghost predicate DistinctJobs(tasks: seq<Task>) {
    forall i, k :: 0 <= i < k < |tasks| && tasks[i].jobId.Some? ==> tasks[i].jobId != tasks[k].jobId
  }

  lemma {:induction false} AddJobsLookup(index: map<string, Ref>, plan: Plan, n: nat)
    requires n <= |plan.tasks| && DistinctJobs(plan.tasks)
    ensures var after := AddJobs(index, plan, n);
            && (forall k :: 0 <= k < n && plan.tasks[k].jobId.Some? ==>
                  plan.tasks[k].jobId.value in after
                  && after[plan.tasks[k].jobId.value] == Ref(plan.planId, plan.tasks[k].id))
            && (forall j :: j in after ==> (j in index && after[j] == index[j]) || AddedJob(plan, n, j, after[j]))
            && (forall j :: j in index && !(exists k :: 0 <= k < n && plan.tasks[k].jobId == Some(j)) ==>
                  j in after && after[j] == index[j])
  {
    if n > 0 {
      AddJobsLookup(index, plan, n - 1);
      var before, after := AddJobs(index, plan, n - 1), AddJobs(index, plan, n);
      forall j | j in after
        ensures (j in index && after[j] == index[j]) || AddedJob(plan, n, j, after[j])
      {
        if plan.tasks[n - 1].jobId == Some(j) {
          assert AddedJob(plan, n, j, after[j]);
        } else if AddedJob(plan, n - 1, j, before[j]) {
          assert AddedJob(plan, n, j, after[j]);
        }
      }
    }
  }

  ghost predicate AddedJob(plan: Plan, n: nat, j: string, ref: Ref)
    requires n <= |plan.tasks|
  {
    exists k :: 0 <= k < n && plan.tasks[k].jobId == Some(j) && ref == Ref(plan.planId, plan.tasks[k].id)
  }

  /** An index that is right about the other plans is exact once a plan has been saved. */
  lemma SavedIsExact(s: State, plan: Plan)
    requires forall p, i, j :: p != plan.planId && JobAt(s.plans, p, i, j) ==>
               j in s.index && s.index[j] == Ref(p, s.plans[p].tasks[i].id)
    requires forall j :: j in s.index && s.index[j].planId != plan.planId ==> Listed(s.plans, s.index[j], j)
    requires DistinctJobs(plan.tasks)
    requires forall p, i, j, k :: p != plan.planId && JobAt(s.plans, p, i, j) && 0 <= k < |plan.tasks| ==>
               plan.tasks[k].jobId != Some(j)
    ensures IndexExact(Saved(s, plan).plans, Saved(s, plan).index)
  {
    var s' := Saved(s, plan);
    var others := OtherPlans(s.index, plan.planId);
    AddJobsLookup(others, plan, |plan.tasks|);
    forall p, i, j | JobAt(s'.plans, p, i, j)
      ensures j in s'.index && s'.index[j] == Ref(p, s'.plans[p].tasks[i].id)
    {
      if p != plan.planId {
        assert JobAt(s.plans, p, i, j);
      }
    }
    forall j | j in s'.index
      ensures Listed(s'.plans, s'.index[j], j)
    {
      if AddedJob(plan, |plan.tasks|, j, s'.index[j]) {
        var k :| 0 <= k < |plan.tasks| && plan.tasks[k].jobId == Some(j)
                 && s'.index[j] == Ref(plan.planId, plan.tasks[k].id);
        assert JobAt(s'.plans, plan.planId, k, j);
      } else {
        assert Listed(s.plans, s.index[j], j);
        var i :| JobAt(s.plans, s.index[j].planId, i, j) && s.plans[s.index[j].planId].tasks[i].id == s.index[j].taskId;
        assert JobAt(s'.plans, s.index[j].planId, i, j);
      }
    }
  }

  lemma {:induction false} PostIndexLookup(index: map<string, Ref>, plan: Plan, ready: seq<nat>,
                                           replies: seq<Option<string>>, n: nat)
    requires n <= |ready| && forall m :: 0 <= m < |ready| ==> ready[m] < |plan.tasks|
    requires forall m :: 0 <= m < |replies| && replies[m].Some? ==> replies[m].value !in index
    ensures var after := PostIndex(index, plan, ready, replies, n);
            && (forall j :: j in index ==> j in after && after[j] == index[j])
            && (forall j :: j in after && j !in index ==> after[j].planId == plan.planId)
  {
    if n > 0 {
      PostIndexLookup(index, plan, ready, replies, n - 1);
    }
  }

  // ----- Reachable states -----

  ghost predicate PlansOk(plans: map<string, Plan>) {
    forall p :: p in plans ==> plans[p].planId == p && PlanOk(plans[p])
  }

  ghost predicate JobsAccounted(w: World) {
    forall p, i, j :: JobAt(w.s.plans, p, i, j) ==> JobAccounted(w, p, i, j)
  }

  ghost predicate JobAccounted(w: World, p: string, i: int, j: string)
    requires JobAt(w.s.plans, p, i, j)
  {
    j in w.issued && (w.s.plans[p].tasks[i].state == Posted <==> j !in w.reported)
  }

  ghost predicate NotPending(plans: map<string, Plan>, r: Ref) {
    exists i :: NotPendingAt(plans, r, i)
  }

  ghost predicate NotPendingAt(plans: map<string, Plan>, r: Ref, i: int) {
    && r.planId in plans && 0 <= i < |plans[r.planId].tasks|
    && plans[r.planId].tasks[i].id == r.taskId && plans[r.planId].tasks[i].state != Pending
  }

  /** Each posting comes after the postings of all dependencies of its task. */
  ghost predicate PostedAfterDependencies(plans: map<string, Plan>, posted: seq<Ref>) {
    forall n :: 0 <= n < |posted| ==> DependenciesPostedBefore(plans, posted, n)
  }

  ghost predicate DependenciesPostedBefore(plans: map<string, Plan>, posted: seq<Ref>, n: nat)
    requires n < |posted|
  {
    var r := posted[n];
    && r.planId in plans
    && var tasks := plans[r.planId].tasks;
       forall i, d :: 0 <= i < |tasks| && tasks[i].id == r.taskId && d in tasks[i].dependencies ==>
         Ref(r.planId, d) in posted[..n]
  }

  ghost predicate PostingsOk(plans: map<string, Plan>, posted: seq<Ref>) {
    && NoDup(posted)
    && (forall r :: r in posted <==> NotPending(plans, r))
    && PostedAfterDependencies(plans, posted)
  }

  ghost predicate Inv(w: World) {
    && PlansOk(w.s.plans)
    && IndexExact(w.s.plans, w.s.index)
    && JobsAccounted(w)
    && PostingsOk(w.s.plans, w.posted)
  }

  lemma CreateKeepsInv(w: World, planId: string, specs: seq<TaskSpec>)
    requires Inv(w)
    ensures Inv(Step(w, CreatePlan(planId, specs)))
  {
    if planId !in w.s.plans && GoodDefinition(specs) {
      var plan := Plan(planId, Draft, NewTasks(specs));
      var w' := Step(w, CreatePlan(planId, specs));
      NewPlanOk(planId, specs);
      SavedIsExact(w.s, plan);
      forall p, i, j | JobAt(w'.s.plans, p, i, j)
        ensures JobAccounted(w', p, i, j)
      {
        assert JobAt(w.s.plans, p, i, j) && JobAccounted(w, p, i, j);
      }
      forall r
        ensures NotPending(w'.s.plans, r) <==> NotPending(w.s.plans, r)
      {
        if i :| NotPendingAt(w'.s.plans, r, i) { assert NotPendingAt(w.s.plans, r, i); }
        if i :| NotPendingAt(w.s.plans, r, i) { assert NotPendingAt(w'.s.plans, r, i); }
      }
      forall n | 0 <= n < |w.posted|
        ensures DependenciesPostedBefore(w'.s.plans, w.posted, n)
      {
        assert DependenciesPostedBefore(w.s.plans, w.posted, n);
        assert w.posted[n] in w.posted && NotPending(w.s.plans, w.posted[n]);
      }
    }
  }

  /** Under the invariant the branch for a stale index entry is never taken. */
  lemma IndexedJobsAreReportable(w: World, jobId: string)
    requires Inv(w) && jobId in w.s.index
    ensures Reportable(w.s, jobId).Some?
    ensures jobId !in w.reported ==>
              w.s.plans[w.s.index[jobId].planId].tasks[Reportable(w.s, jobId).value].state == Posted
  {
    var ref := w.s.index[jobId];
    assert Listed(w.s.plans, ref, jobId);
    var i :| JobAt(w.s.plans, ref.planId, i, jobId) && w.s.plans[ref.planId].tasks[i].id == ref.taskId;
    var tasks := w.s.plans[ref.planId].tasks;
    assert PlanOk(w.s.plans[ref.planId]);
    assert Find(tasks, ref.taskId) == i;
  }

  lemma JobsAreDistinct(w: World, p: string, q: string, i: int, k: int, j: string)
    requires Inv(w) && JobAt(w.s.plans, p, i, j) && JobAt(w.s.plans, q, k, j)
    ensures p == q && i == k
  {
    assert w.s.index[j] == Ref(p, w.s.plans[p].tasks[i].id) == Ref(q, w.s.plans[q].tasks[k].id);
    assert PlanOk(w.s.plans[p]);
  }

  lemma PlanJobsAreDistinct(w: World, p: string)
    requires Inv(w) && p in w.s.plans
    ensures DistinctJobs(w.s.plans[p].tasks)
  {
    var tasks := w.s.plans[p].tasks;
    forall k, l | 0 <= k < l < |tasks| && tasks[k].jobId.Some?
      ensures tasks[k].jobId != tasks[l].jobId
    {
      if tasks[k].jobId == tasks[l].jobId {
        JobsAreDistinct(w, p, p, k, l, tasks[k].jobId.value);
      }
    }
  }

  /** A job's completion does not touch the other plans' jobs. */
  lemma CompletionIsExact(w: World, jobId: string, i: nat, plan': Plan)
    requires Inv(w) && jobId in w.s.index && plan'.planId == w.s.index[jobId].planId
             && JobAt(w.s.plans, plan'.planId, i, jobId)
    requires |plan'.tasks| == |w.s.plans[plan'.planId].tasks|
    requires forall k :: 0 <= k < |plan'.tasks| ==> plan'.tasks[k].jobId == w.s.plans[plan'.planId].tasks[k].jobId
    ensures var s' := Saved(w.s.(index := w.s.index - {jobId}), plan'); IndexExact(s'.plans, s'.index)
  {
    var p := plan'.planId;
    PlanJobsAreDistinct(w, p);
    forall q, k, j | q != p && JobAt(w.s.plans, q, k, j)
      ensures j != jobId
    {
      if j == jobId { JobsAreDistinct(w, q, p, k, i, j); }
    }
    forall q, k, j, l | q != p && JobAt(w.s.plans, q, k, j) && 0 <= l < |plan'.tasks|
      ensures plan'.tasks[l].jobId != Some(j)
    {
      if plan'.tasks[l].jobId == Some(j) {
        assert JobAt(w.s.plans, p, l, j);
        JobsAreDistinct(w, q, p, k, l, j);
      }
    }
    SavedIsExact(w.s.(index := w.s.index - {jobId}), plan');
  }

  lemma CompletionKeepsInv(w: World, jobId: string, success: bool)
    requires Inv(w) && jobId !in w.reported
    ensures Inv(Step(w, JobCompleted(jobId, success)))
  {
    var w' := Step(w, JobCompleted(jobId, success));
    if jobId in w.s.index {
      IndexedJobsAreReportable(w, jobId);
      var p, i := w.s.index[jobId].planId, Reportable(w.s, jobId).value;
      var plan' := Reported(w.s.plans[p], i, success);
      assert JobAt(w.s.plans, p, i, jobId);
      CompletionKeepsPlanOk(w.s.plans[p], i, success);
      CompletionIsExact(w, jobId, i, plan');
      SamePostings(w.s.plans, plan', w.posted);
    }
    CompletionKeepsAccounts(w, jobId, success);
  }

  lemma CompletionKeepsAccounts(w: World, jobId: string, success: bool)
    requires Inv(w) && jobId !in w.reported
    ensures var w' := Step(w, JobCompleted(jobId, success));
            forall q, k, j :: JobAt(w'.s.plans, q, k, j) ==> JobAccounted(w', q, k, j)
  {
    var w' := Step(w, JobCompleted(jobId, success));
    if jobId in w.s.index {
      IndexedJobsAreReportable(w, jobId);
      var p, i := w.s.index[jobId].planId, Reportable(w.s, jobId).value;
      assert JobAt(w.s.plans, p, i, jobId);
      forall q, k, j | JobAt(w'.s.plans, q, k, j)
        ensures JobAccounted(w', q, k, j)
      {
        assert JobAt(w.s.plans, q, k, j) && JobAccounted(w, q, k, j);
        if j == jobId { JobsAreDistinct(w, q, p, k, i, j); }
      }
    } else {
      forall q, k, j | JobAt(w'.s.plans, q, k, j)
        ensures JobAccounted(w', q, k, j)
      {
        assert JobAt(w.s.plans, q, k, j) && JobAccounted(w, q, k, j);
      }
    }
  }

  /** A plan that changes in no way that concerns postings leaves their record in order. */
  lemma SamePostings(plans: map<string, Plan>, plan': Plan, posted: seq<Ref>)
    requires PostingsOk(plans, posted) && plan'.planId in plans && SameShape(plans[plan'.planId].tasks, plan'.tasks)
    requires forall k :: 0 <= k < |plan'.tasks| ==>
               (plans[plan'.planId].tasks[k].state == Pending <==> plan'.tasks[k].state == Pending)
    ensures PostingsOk(plans[plan'.planId := plan'], posted)
  {
    var plans' := plans[plan'.planId := plan'];
    forall r
      ensures NotPending(plans', r) <==> NotPending(plans, r)
    {
      if i :| NotPendingAt(plans', r, i) { assert NotPendingAt(plans, r, i); }
      if i :| NotPendingAt(plans, r, i) { assert NotPendingAt(plans', r, i); }
    }
    forall n | 0 <= n < |posted|
      ensures DependenciesPostedBefore(plans', posted, n)
    {
      assert DependenciesPostedBefore(plans, posted, n);
    }
  }

  // ----- A launch in the world -----

  ghost predicate PostedIn(plan: Plan, ready: seq<nat>, replies: seq<Option<string>>, n: nat, r: Ref)
    requires n <= |ready| && forall m :: 0 <= m < |ready| ==> ready[m] < |plan.tasks|
  {
    exists m :: 0 <= m < n && ReplyAt(replies, m).Some? && r == Ref(plan.planId, plan.tasks[ready[m]].id)
  }

  lemma {:induction false} PostedRefsAre(plan: Plan, ready: seq<nat>, replies: seq<Option<string>>, n: nat)
    requires n <= |ready| && forall m :: 0 <= m < |ready| ==> ready[m] < |plan.tasks|
    requires DistinctIds(plan.tasks) && forall l, m :: 0 <= l < m < |ready| ==> ready[l] < ready[m]
    ensures forall r :: r in PostedRefs(plan, ready, replies, n) <==> PostedIn(plan, ready, replies, n, r)
    ensures NoDup(PostedRefs(plan, ready, replies, n))
  {
    if n > 0 {
      PostedRefsAre(plan, ready, replies, n - 1);
      var before := PostedRefs(plan, ready, replies, n - 1);
      var r' := Ref(plan.planId, plan.tasks[ready[n - 1]].id);
      assert forall m :: 0 <= m < n - 1 ==> plan.tasks[ready[m]].id != plan.tasks[ready[n - 1]].id;
      assert !PostedIn(plan, ready, replies, n - 1, r');
      forall r
        ensures r in PostedRefs(plan, ready, replies, n) <==> PostedIn(plan, ready, replies, n, r)
      {
        if PostedIn(plan, ready, replies, n - 1, r) {
          assert PostedIn(plan, ready, replies, n, r);
        }
        if ReplyAt(replies, n - 1).Some? && r == r' {
          assert PostedIn(plan, ready, replies, n, r);
        }
      }
    }
  }

  /** A job id after a launch is an old one or the reply of one posting. */
  lemma JobAfterLaunch(plan: Plan, ready: seq<nat>, replies: seq<Option<string>>, after: seq<Task>, k: nat)
    returns (m: nat)
    requires LaunchFacts(plan, ready, replies, after) && k < |after| && after[k].jobId != plan.tasks[k].jobId
    ensures m < |ready| && ready[m] == k && m < |replies| && replies[m].Some? && after[k].jobId == replies[m]
            && after[k].state == Posted
  {
    assert k in ready;
    m :| 0 <= m < |ready| && ready[m] == k;
    assert after[ready[m]] == PostedTask(plan.tasks[ready[m]], ReplyAt(replies, m));
  }

  lemma UsedJobsAreKnown(w: World, p: string, i: int, j: string)
    requires Inv(w) && JobAt(w.s.plans, p, i, j)
    ensures j in w.issued + w.reported
  {
    assert JobAccounted(w, p, i, j);
  }

  lemma LaunchJobsAreDistinct(w: World, p: string, options: LaunchOptions, replies: seq<Option<string>>)
    requires Inv(w) && Launchable(w.s, p) && Fresh(replies, w.issued + w.reported)
    ensures var after := Launched(w.s.plans[p], options, replies).tasks;
            && DistinctJobs(after)
            && forall q, i, j, k :: q != p && JobAt(w.s.plans, q, i, j) && 0 <= k < |after| ==>
                 after[k].jobId != Some(j)
  {
    var plan := w.s.plans[p];
    var ready := ToPost(plan.tasks, options);
    var after := Launched(plan, options, replies).tasks;
    LaunchHasFacts(plan, options, replies);
    PlanJobsAreDistinct(w, p);
    forall i | 0 <= i < |plan.tasks| && plan.tasks[i].jobId.Some?
      ensures plan.tasks[i].jobId.value in w.issued + w.reported
    {
      UsedJobsAreKnown(w, p, i, plan.tasks[i].jobId.value);
    }
    NewJobsAreDistinct(plan, ready, replies, after, w.issued + w.reported);
    forall q, i, j, k | q != p && JobAt(w.s.plans, q, i, j) && 0 <= k < |after| && after[k].jobId == Some(j)
      ensures false
    {
      UsedJobsAreKnown(w, q, i, j);
      if plan.tasks[k].jobId == after[k].jobId {
        JobsAreDistinct(w, q, p, i, k, j);
      } else {
        var _ := JobAfterLaunch(plan, ready, replies, after, k);
      }
    }
  }

  /** Fresh replies keep the jobs of the launched plan apart. */
  lemma NewJobsAreDistinct(plan: Plan, ready: seq<nat>, replies: seq<Option<string>>, after: seq<Task>,
                           used: set<string>)
    requires LaunchFacts(plan, ready, replies, after) && DistinctJobs(plan.tasks) && Fresh(replies, used)
    requires forall i :: 0 <= i < |plan.tasks| && plan.tasks[i].jobId.Some? ==> plan.tasks[i].jobId.value in used
    ensures DistinctJobs(after)
  {
    forall k, l | 0 <= k < l < |after| && after[k].jobId.Some? && after[k].jobId == after[l].jobId
      ensures false
    {
      if plan.tasks[k].jobId == after[k].jobId {
        if plan.tasks[l].jobId != after[l].jobId {
          var _ := JobAfterLaunch(plan, ready, replies, after, l);
        }
      } else {
        var _ := JobAfterLaunch(plan, ready, replies, after, k);
        if plan.tasks[l].jobId != after[l].jobId {
          var _ := JobAfterLaunch(plan, ready, replies, after, l);
        }
      }
    }
  }

  lemma LaunchIsExact(w: World, p: string, options: LaunchOptions, replies: seq<Option<string>>)
    requires Inv(w) && Launchable(w.s, p) && Fresh(replies, w.issued + w.reported)
    ensures var s' := Launch(w.s, p, options, replies); IndexExact(s'.plans, s'.index)
  {
    var plan := w.s.plans[p];
    var ready := ToPost(plan.tasks, options);
    forall j | j in w.s.index
      ensures j in w.issued + w.reported
    {
      assert Listed(w.s.plans, w.s.index[j], j);
      var i :| JobAt(w.s.plans, w.s.index[j].planId, i, j)
               && w.s.plans[w.s.index[j].planId].tasks[i].id == w.s.index[j].taskId;
      UsedJobsAreKnown(w, w.s.index[j].planId, i, j);
    }
    PostIndexLookup(w.s.index, plan, ready, replies, |ready|);
    LaunchJobsAreDistinct(w, p, options, replies);
    SavedIsExact(w.s.(index := PostIndex(w.s.index, plan, ready, replies, |ready|)), Launched(plan, options, replies));
  }

  lemma LaunchAccountsJobs(w: World, p: string, options: LaunchOptions, replies: seq<Option<string>>)
    requires Inv(w) && Launchable(w.s, p) && Fresh(replies, w.issued + w.reported)
    ensures JobsAccounted(Step(w, LaunchPlan(p, options, replies)))
  {
    var w' := Step(w, LaunchPlan(p, options, replies));
    var plan, after := w.s.plans[p], w'.s.plans[p].tasks;
    var ready := ToPost(plan.tasks, options);
    LaunchHasFacts(plan, options, replies);
    LaunchIsLaunchedFrom(plan.tasks, options, replies);
    forall q, i, j | JobAt(w'.s.plans, q, i, j)
      ensures JobAccounted(w', q, i, j)
    {
      if q != p {
        assert JobAt(w.s.plans, q, i, j) && JobAccounted(w, q, i, j);
      } else if plan.tasks[i].jobId == after[i].jobId {
        assert JobAt(w.s.plans, q, i, j) && JobAccounted(w, q, i, j);
        assert LaunchedAt(plan.tasks, after, i) && TaskOk(plan.tasks, i);
      } else {
        var m := JobAfterLaunch(plan, ready, replies, after, i);
        assert replies[m].value in Ids(replies);
      }
    }
  }

  /** The record of postings stays exact: it gains the tasks that the launch took out of pending. */
  lemma LaunchRecordsPostings(w: World, p: string, options: LaunchOptions, replies: seq<Option<string>>)
    requires Inv(w) && Launchable(w.s, p)
    ensures var w' := Step(w, LaunchPlan(p, options, replies));
            forall r :: r in w'.posted <==> NotPending(w'.s.plans, r)
  {
    var w' := Step(w, LaunchPlan(p, options, replies));
    var plan := w.s.plans[p];
    var ready := ToPost(plan.tasks, options);
    LaunchHasFacts(plan, options, replies);
    PostedRefsAre(plan, ready, replies, |ready|);
    forall r | r in w'.posted
      ensures NotPending(w'.s.plans, r)
    {
      RecordedIsNotPending(w, p, options, replies, r);
    }
    forall r | NotPending(w'.s.plans, r)
      ensures r in w'.posted
    {
      NotPendingIsRecorded(w.s.plans, w.posted, plan, ready, replies, w'.s.plans[p], r);
    }
  }

  lemma RecordedIsNotPending(w: World, p: string, options: LaunchOptions, replies: seq<Option<string>>, r: Ref)
    requires Inv(w) && Launchable(w.s, p) && r in Step(w, LaunchPlan(p, options, replies)).posted
    ensures NotPending(Step(w, LaunchPlan(p, options, replies)).s.plans, r)
  {
    var w' := Step(w, LaunchPlan(p, options, replies));
    var plan, after := w.s.plans[p], w'.s.plans[p].tasks;
    var ready := ToPost(plan.tasks, options);
    LaunchHasFacts(plan, options, replies);
    PostedRefsAre(plan, ready, replies, |ready|);
    if r in w.posted {
      var i :| NotPendingAt(w.s.plans, r, i);
      if r.planId == p {
        LaunchIsLaunchedFrom(plan.tasks, options, replies);
        assert LaunchedAt(plan.tasks, after, i);
      }
      assert NotPendingAt(w'.s.plans, r, i);
    } else {
      var m := NewPosting(plan, ready, replies, r);
      assert NotPendingAt(w'.s.plans, r, ready[m]);
    }
  }

  lemma NotPendingIsRecorded(plans: map<string, Plan>, posted: seq<Ref>, plan: Plan, ready: seq<nat>,
                             replies: seq<Option<string>>, plan': Plan, r: Ref)
    requires plan.planId in plans && plans[plan.planId] == plan && plan'.planId == plan.planId
    requires LaunchFacts(plan, ready, replies, plan'.tasks)
    requires NotPending(plans, r) ==> r in posted
    requires NotPending(plans[plan.planId := plan'], r)
    ensures r in posted || PostedIn(plan, ready, replies, |ready|, r)
  {
    var i :| NotPendingAt(plans[plan.planId := plan'], r, i);
    if NotPendingAt(plans, r, i) {
      assert r in posted;
    } else {
      NewlyPosted(plan, ready, replies, plan'.tasks, i, r);
    }
  }

  /** A task that a launch takes out of pending is one of those it posted. */
  lemma NewlyPosted(plan: Plan, ready: seq<nat>, replies: seq<Option<string>>, after: seq<Task>, i: nat, r: Ref)
    requires LaunchFacts(plan, ready, replies, after)
    requires i < |after| && plan.tasks[i].state == Pending && after[i].state != Pending
    requires r == Ref(plan.planId, plan.tasks[i].id)
    ensures PostedIn(plan, ready, replies, |ready|, r)
  {
    assert i in ready;
    var m :| 0 <= m < |ready| && ready[m] == i;
    assert ReplyAt(replies, m).Some?;
  }

  lemma LaunchPostsOnce(w: World, p: string, options: LaunchOptions, replies: seq<Option<string>>)
    requires Inv(w) && Launchable(w.s, p)
    ensures NoDup(Step(w, LaunchPlan(p, options, replies)).posted)
  {
    var plan := w.s.plans[p];
    var ready := ToPost(plan.tasks, options);
    PostedRefsAre(plan, ready, replies, |ready|);
    forall r | r in PostedRefs(plan, ready, replies, |ready|)
      ensures r !in w.posted
    {
      var m := NewPosting(plan, ready, replies, r);
      NotYetPosted(w, p, ready[m]);
    }
    NoDupConcat(w.posted, PostedRefs(plan, ready, replies, |ready|));
  }

  lemma PostedBefore(plans: map<string, Plan>, posted: seq<Ref>, n: nat, tasks: seq<Task>, k: nat, p: string)
    requires n < |posted| && k < |tasks| && DistinctIds(tasks) && p in plans && SameShape(tasks, plans[p].tasks)
    requires posted[n] == Ref(p, tasks[k].id)
    requires forall d :: d in tasks[k].dependencies ==> Ref(p, d) in posted[..n]
    ensures DependenciesPostedBefore(plans, posted, n)
  {
  }

  /** A new posting is of a task whose dependencies were all posted before the launch. */
  lemma NewPostingInOrder(w: World, p: string, options: LaunchOptions, replies: seq<Option<string>>, n: nat)
    requires Inv(w) && Launchable(w.s, p)
    requires |w.posted| <= n < |Step(w, LaunchPlan(p, options, replies)).posted|
    ensures var w' := Step(w, LaunchPlan(p, options, replies)); DependenciesPostedBefore(w'.s.plans, w'.posted, n)
  {
    var w' := Step(w, LaunchPlan(p, options, replies));
    var plan := w.s.plans[p];
    var ready := ToPost(plan.tasks, options);
    var news := PostedRefs(plan, ready, replies, |ready|);
    assert w'.posted[n] == news[n - |w.posted|] && w'.posted[n] in news;
    var m := NewPosting(plan, ready, replies, w'.posted[n]);
    DependenciesAlreadyPosted(w, p, ready[m]);
    PostAllTasks(plan.tasks, ready, replies, |ready|);
    forall d | d in plan.tasks[ready[m]].dependencies
      ensures Ref(p, d) in w'.posted[..n]
    {
      InPrefix(w.posted, news, n, Ref(p, d));
    }
    PostedBefore(w'.s.plans, w'.posted, n, plan.tasks, ready[m], p);
  }

  lemma OldPostingInOrder(w: World, p: string, options: LaunchOptions, replies: seq<Option<string>>, n: nat)
    requires Inv(w) && Launchable(w.s, p) && n < |w.posted|
    ensures var w' := Step(w, LaunchPlan(p, options, replies)); DependenciesPostedBefore(w'.s.plans, w'.posted, n)
  {
    var w' := Step(w, LaunchPlan(p, options, replies));
    var plan := w.s.plans[p];
    var ready := ToPost(plan.tasks, options);
    assert DependenciesPostedBefore(w.s.plans, w.posted, n);
    PostAllTasks(plan.tasks, ready, replies, |ready|);
    assert w'.posted[..n] == w.posted[..n];
  }

  lemma NewPosting(plan: Plan, ready: seq<nat>, replies: seq<Option<string>>, r: Ref) returns (m: nat)
    requires forall m :: 0 <= m < |ready| ==> ready[m] < |plan.tasks|
    requires DistinctIds(plan.tasks) && forall l, m :: 0 <= l < m < |ready| ==> ready[l] < ready[m]
    requires r in PostedRefs(plan, ready, replies, |ready|)
    ensures m < |ready| && ReplyAt(replies, m).Some? && r == Ref(plan.planId, plan.tasks[ready[m]].id)
  {
    PostedRefsAre(plan, ready, replies, |ready|);
    m :| 0 <= m < |ready| && ReplyAt(replies, m).Some? && r == Ref(plan.planId, plan.tasks[ready[m]].id);
  }

  lemma NotYetPosted(w: World, p: string, k: nat)
    requires Inv(w) && p in w.s.plans && k < |w.s.plans[p].tasks| && w.s.plans[p].tasks[k].state == Pending
    ensures Ref(p, w.s.plans[p].tasks[k].id) !in w.posted
  {
    var r := Ref(p, w.s.plans[p].tasks[k].id);
    assert PlanOk(w.s.plans[p]);
    assert forall i :: 0 <= i < |w.s.plans[p].tasks| && w.s.plans[p].tasks[i].id == r.taskId ==> i == k;
    assert !NotPending(w.s.plans, r);
  }

  lemma DependenciesAlreadyPosted(w: World, p: string, k: nat)
    requires Inv(w) && p in w.s.plans && k < |w.s.plans[p].tasks|
             && DependenciesMet(w.s.plans[p].tasks, w.s.plans[p].tasks[k])
    ensures forall d :: d in w.s.plans[p].tasks[k].dependencies ==> Ref(p, d) in w.posted
  {
    var tasks := w.s.plans[p].tasks;
    forall d | d in tasks[k].dependencies
      ensures Ref(p, d) in w.posted
    {
      assert DependencyMet(tasks, d);
      assert NotPendingAt(w.s.plans, Ref(p, d), Find(tasks, d));
    }
  }

  lemma LaunchKeepsInv(w: World, p: string, options: LaunchOptions, replies: seq<Option<string>>)
    requires Inv(w) && Fresh(replies, w.issued + w.reported)
    ensures Inv(Step(w, LaunchPlan(p, options, replies)))
  {
    if Launchable(w.s, p) {
      var plan := w.s.plans[p];
      LaunchIsLaunchedFrom(plan.tasks, options, replies);
      LaunchKeepsPlanOk(plan, Launched(plan, options, replies).tasks);
      LaunchIsExact(w, p, options, replies);
      LaunchAccountsJobs(w, p, options, replies);
      LaunchRecordsPostings(w, p, options, replies);
      LaunchPostsOnce(w, p, options, replies);
      var w' := Step(w, LaunchPlan(p, options, replies));
      forall n | 0 <= n < |w'.posted|
        ensures DependenciesPostedBefore(w'.s.plans, w'.posted, n)
      {
        if n < |w.posted| {
          OldPostingInOrder(w, p, options, replies, n);
        } else {
          NewPostingInOrder(w, p, options, replies, n);
        }
      }
    }
  }

  lemma StepKeepsInv(w: World, e: Event)
    requires Inv(w) && Legal(w, e)
    ensures Inv(Step(w, e))
  {
    match e
    case CreatePlan(planId, specs) => CreateKeepsInv(w, planId, specs);
    case LaunchPlan(planId, options, replies) => LaunchKeepsInv(w, planId, options, replies);
    case JobCompleted(jobId, success) => CompletionKeepsInv(w, jobId, success);
  }

  // ----- The theorems -----

  lemma {:induction false} ReachableInv(events: seq<Event>)
    requires LegalRun(events)
    ensures Inv(Run(events))
  {
    if events != [] {
      ReachableInv(Front(events));
      StepKeepsInv(Run(Front(events)), Last(events));
    }
  }

  /** What a reader may rely on, spelled out over every run. */
  lemma ReachableStatesAreSafe(events: seq<Event>, p: string)
    requires LegalRun(events) && p in Run(events).s.plans
    ensures var w := Run(events);
            var plan := w.s.plans[p];
            && (forall k, d ::
                  0 <= k < |plan.tasks| && plan.tasks[k].state != Pending && d in plan.tasks[k].dependencies ==>
                    exists i :: 0 <= i < |plan.tasks| && plan.tasks[i].id == d && plan.tasks[i].state == Completed
                                && plan.tasks[i].success == Some(true))
            && (plan.status == PlanFailed <==> exists k :: 0 <= k < |plan.tasks| && plan.tasks[k].state == Failed)
            && (plan.status == PlanCompleted <==>
                  forall k :: 0 <= k < |plan.tasks| ==> plan.tasks[k].state == Completed)
            && IndexExact(w.s.plans, w.s.index)
            && NoDup(w.posted) && PostedAfterDependencies(w.s.plans, w.posted)
            && (plan.status == PlanCompleted ==>
                  forall k :: 0 <= k < |plan.tasks| ==> Ref(p, plan.tasks[k].id) in w.posted)
  {
    ReachableInv(events);
    var w := Run(events);
    var plan := w.s.plans[p];
    forall k, d | 0 <= k < |plan.tasks| && plan.tasks[k].state != Pending && d in plan.tasks[k].dependencies
      ensures exists i :: 0 <= i < |plan.tasks| && plan.tasks[i].id == d && plan.tasks[i].state == Completed
                          && plan.tasks[i].success == Some(true)
    {
      assert TaskOk(plan.tasks, k) && DependencyMet(plan.tasks, d);
      assert TaskOk(plan.tasks, Find(plan.tasks, d));
    }
    if plan.status == PlanCompleted {
      forall k | 0 <= k < |plan.tasks|
        ensures Ref(p, plan.tasks[k].id) in w.posted
      {
        assert NotPendingAt(w.s.plans, Ref(p, plan.tasks[k].id), k);
      }
    }
  }

  ghost function RunFrom(w: World, events: seq<Event>): World {
    if events == [] then w else Step(RunFrom(w, Front(events)), Last(events))
  }

  ghost predicate LegalFrom(w: World, events: seq<Event>) {
    events == [] || (LegalFrom(w, Front(events)) && Legal(RunFrom(w, Front(events)), Last(events)))
  }

  function PostingsOf(posted: seq<Ref>, p: string): seq<Ref> {
    if posted == [] then []
    else PostingsOf(Front(posted), p) + if Last(posted).planId == p then [Last(posted)] else []
  }

  lemma {:induction false} PostingsAppend(a: seq<Ref>, b: seq<Ref>, p: string)
    requires forall r :: r in b ==> r.planId != p
    ensures PostingsOf(a + b, p) == PostingsOf(a, p)
  {
    if b == [] {
      assert a + b == a;
    } else {
      assert Front(a + b) == a + Front(b) && Last(b) in b;
      PostingsAppend(a, Front(b), p);
    }
  }

  /** Once a plan has failed it stays failed and none of its tasks is ever posted again. */
  lemma {:induction false} NothingIsPostedAfterFailure(w: World, p: string, events: seq<Event>)
    requires Inv(w) && p in w.s.plans && w.s.plans[p].status == PlanFailed && LegalFrom(w, events)
    ensures var w' := RunFrom(w, events);
            && Inv(w') && p in w'.s.plans && w'.s.plans[p].status == PlanFailed
            && PostingsOf(w'.posted, p) == PostingsOf(w.posted, p)
  {
    if events != [] {
      NothingIsPostedAfterFailure(w, p, Front(events));
      var w1, e := RunFrom(w, Front(events)), Last(events);
      StepKeepsInv(w1, e);
      match e
      case CreatePlan(_, _) =>
      case LaunchPlan(planId, options, replies) =>
        if Launchable(w1.s, planId) {
          var plan := w1.s.plans[planId];
          var ready := ToPost(plan.tasks, options);
          PostedRefsAre(plan, ready, replies, |ready|);
          PostingsAppend(w1.posted, PostedRefs(plan, ready, replies, |ready|), p);
        }
      case JobCompleted(jobId, success) =>
        FailureStays(w1, p, jobId, success);
    }
  }

  lemma FailureStays(w: World, p: string, jobId: string, success: bool)
    requires Inv(w) && p in w.s.plans && w.s.plans[p].status == PlanFailed && jobId !in w.reported
    ensures var w' := Step(w, JobCompleted(jobId, success)); p in w'.s.plans && w'.s.plans[p].status == PlanFailed
  {
    if jobId in w.s.index {
      IndexedJobsAreReportable(w, jobId);
      var plan := w.s.plans[p];
      assert SomeFailed(plan.tasks);
      var k :| 0 <= k < |plan.tasks| && plan.tasks[k].state == Failed;
      if w.s.index[jobId].planId == p && success {
        var i := Reportable(w.s, jobId).value;
        assert Reported(plan, i, success).tasks[k].state == Failed;
      }
    }
  }
}
