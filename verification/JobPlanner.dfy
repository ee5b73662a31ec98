/**
 * The job planner (agent-gateway/jobPlanner.ts): plans, the job-id index and the three operations
 * that run under a plan's lock.  Identifiers are taken as already normalised.
 */
module JobPlanner {
  import opened Collections
  import opened TaskGraph

  datatype TaskState = Pending | Posted | Completed | Failed

  datatype Task = Task(id: string, dependencies: seq<string>, state: TaskState, attempts: nat,
                       jobId: Option<string>, success: Option<bool>)

  datatype PlanStatus = Draft | Active | PlanCompleted | PlanFailed | Cancelled

  datatype Plan = Plan(planId: string, status: PlanStatus, tasks: seq<Task>)

  datatype Ref = Ref(planId: string, taskId: string)

  datatype State = State(plans: map<string, Plan>, index: map<string, Ref>)

  /** `maxTasks` is None unless a non-negative number was given. */
  datatype LaunchOptions = LaunchOptions(taskIds: Option<set<string>>, maxTasks: Option<nat>)

  const UNRESTRICTED := LaunchOptions(None, None)

  // ----- Looking at a plan -----

  /** The position of the first task with this id, or the number of tasks. */
  function Find(tasks: seq<Task>, id: string): (i: nat)
    ensures i <= |tasks|
    ensures i < |tasks| ==> tasks[i].id == id
    ensures forall j :: 0 <= j < i ==> tasks[j].id != id
  {
    NoneBeforeFirst(tasks, (t: Task) => t.id, id);
    FirstWith(tasks, (t: Task) => t.id, id)
  }

  predicate DependencyMet(tasks: seq<Task>, id: string) {
    var i := Find(tasks, id);
    i < |tasks| && tasks[i].state == Completed && tasks[i].success != Some(false)
  }

  predicate DependenciesMet(tasks: seq<Task>, task: Task) {
    forall d :: d in task.dependencies ==> DependencyMet(tasks, d)
  }

  predicate CanPost(tasks: seq<Task>, taskIds: Option<set<string>>, k: nat)
    requires k < |tasks|
  {
    && tasks[k].state == Pending
    && (taskIds.Some? ==> tasks[k].id in taskIds.value)
    && DependenciesMet(tasks, tasks[k])
  }

  /** The positions among the first `n` tasks that can be posted, in order. */
  function ReadyAmong(tasks: seq<Task>, taskIds: Option<set<string>>, n: nat): (ready: seq<nat>)
    requires n <= |tasks|
    ensures forall m :: 0 <= m < |ready| ==> ready[m] < n && CanPost(tasks, taskIds, ready[m])
    ensures forall l, m :: 0 <= l < m < |ready| ==> ready[l] < ready[m]
    ensures forall k :: 0 <= k < n && CanPost(tasks, taskIds, k) ==> k in ready
  {
    if n == 0 then []
    else if CanPost(tasks, taskIds, n - 1) then ReadyAmong(tasks, taskIds, n - 1) + [n - 1]
    else ReadyAmong(tasks, taskIds, n - 1)
  }

  function ToPost(tasks: seq<Task>, options: LaunchOptions): (ready: seq<nat>)
    ensures forall m :: 0 <= m < |ready| ==> ready[m] < |tasks| && CanPost(tasks, options.taskIds, ready[m])
    ensures forall l, m :: 0 <= l < m < |ready| ==> ready[l] < ready[m]
  {
    var ready := ReadyAmong(tasks, options.taskIds, |tasks|);
    if options.maxTasks.Some? then Take(ready, options.maxTasks.value) else ready
  }

  // ----- Changing a plan -----

  /** The job id that the `m`-th posting of a launch returned; None when it threw. */
  function ReplyAt(replies: seq<Option<string>>, m: nat): Option<string> {
    if m < |replies| then replies[m] else None
  }

  function PostedTask(task: Task, reply: Option<string>): Task {
    if reply.Some? then task.(jobId := reply, state := Posted, attempts := task.attempts + 1)
    else task.(attempts := task.attempts + 1)
  }

  /** The tasks after the first `n` postings. */
  function PostAll(tasks: seq<Task>, ready: seq<nat>, replies: seq<Option<string>>, n: nat): (posted: seq<Task>)
    requires n <= |ready| && forall m :: 0 <= m < |ready| ==> ready[m] < |tasks|
    ensures |posted| == |tasks|
  {
    if n == 0 then tasks
    else
      var before := PostAll(tasks, ready, replies, n - 1);
      before[ready[n - 1] := PostedTask(before[ready[n - 1]], ReplyAt(replies, n - 1))]
  }

  function PostIndex(index: map<string, Ref>, plan: Plan, ready: seq<nat>, replies: seq<Option<string>>,
                     n: nat): map<string, Ref>
    requires n <= |ready| && forall m :: 0 <= m < |ready| ==> ready[m] < |plan.tasks|
  {
    if n == 0 then index
    else
      var before := PostIndex(index, plan, ready, replies, n - 1);
      var reply := ReplyAt(replies, n - 1);
      if reply.Some? then before[reply.value := Ref(plan.planId, plan.tasks[ready[n - 1]].id)] else before
  }

  /** What a launch posted, in order. */
  function PostedRefs(plan: Plan, ready: seq<nat>, replies: seq<Option<string>>, n: nat): seq<Ref>
    requires n <= |ready| && forall m :: 0 <= m < |ready| ==> ready[m] < |plan.tasks|
  {
    if n == 0 then []
    else
      PostedRefs(plan, ready, replies, n - 1)
      + if ReplyAt(replies, n - 1).Some? then [Ref(plan.planId, plan.tasks[ready[n - 1]].id)] else []
  }

  /** The tasks whose posting threw, in order. */
  function SkippedRefs(plan: Plan, ready: seq<nat>, replies: seq<Option<string>>, n: nat): seq<Ref>
    requires n <= |ready| && forall m :: 0 <= m < |ready| ==> ready[m] < |plan.tasks|
  {
    if n == 0 then []
    else
      SkippedRefs(plan, ready, replies, n - 1)
      + if ReplyAt(replies, n - 1).None? then [Ref(plan.planId, plan.tasks[ready[n - 1]].id)] else []
  }

  function Launched(plan: Plan, options: LaunchOptions, replies: seq<Option<string>>): Plan {
    var ready := ToPost(plan.tasks, options);
    plan.(status := Active, tasks := PostAll(plan.tasks, ready, replies, |ready|))
  }

  predicate AllCompleted(tasks: seq<Task>) {
    forall k :: 0 <= k < |tasks| ==> tasks[k].state == Completed
  }

  function Reported(plan: Plan, k: nat, success: bool): Plan
    requires k < |plan.tasks|
  {
    var task := plan.tasks[k].(state := if success then Completed else Failed, success := Some(success));
    var tasks := plan.tasks[k := task];
    var status := if !success then PlanFailed else if AllCompleted(tasks) then PlanCompleted else plan.status;
    plan.(status := status, tasks := tasks)
  }

  // ----- What a launch promises, from the plan before and after it -----

  ghost predicate SameShape(a: seq<Task>, b: seq<Task>) {
    |a| == |b| && forall k :: 0 <= k < |a| ==> a[k].id == b[k].id && a[k].dependencies == b[k].dependencies
  }

  lemma {:induction false} PostAllTasks(tasks: seq<Task>, ready: seq<nat>, replies: seq<Option<string>>, n: nat)
    requires n <= |ready| && forall m :: 0 <= m < |ready| ==> ready[m] < |tasks|
    requires forall l, m :: 0 <= l < m < |ready| ==> ready[l] < ready[m]
    ensures var after := PostAll(tasks, ready, replies, n);
            && SameShape(tasks, after)
            && (forall m :: 0 <= m < n ==> after[ready[m]] == PostedTask(tasks[ready[m]], ReplyAt(replies, m)))
            && (forall k :: 0 <= k < |tasks| && k !in ready[..n] ==> after[k] == tasks[k])
  {
    if n > 0 {
      PostAllTasks(tasks, ready, replies, n - 1);
      assert ready[..n] == ready[..n - 1] + [ready[n - 1]];
      assert ready[n - 1] !in ready[..n - 1];
      assert forall m :: 0 <= m < n - 1 ==> ready[m] != ready[n - 1];
    }
  }

  /** Where the postings of a launch went, position by position. */
  ghost predicate LaunchFacts(plan: Plan, ready: seq<nat>, replies: seq<Option<string>>, after: seq<Task>) {
    && |after| == |plan.tasks|
    && (forall m :: 0 <= m < |ready| ==>
          ready[m] < |after| && after[ready[m]] == PostedTask(plan.tasks[ready[m]], ReplyAt(replies, m)))
    && (forall k :: 0 <= k < |after| && k !in ready ==> after[k] == plan.tasks[k])
  }

  lemma LaunchHasFacts(plan: Plan, options: LaunchOptions, replies: seq<Option<string>>)
    ensures var ready := ToPost(plan.tasks, options);
            LaunchFacts(plan, ready, replies, Launched(plan, options, replies).tasks)
  {
    var ready := ToPost(plan.tasks, options);
    PostAllTasks(plan.tasks, ready, replies, |ready|);
    assert ready[..|ready|] == ready;
  }

  /** A task was tried when its attempts went up: it was posted, or posting it threw. */
  predicate Tried(before: Task, after: Task) {
    after.attempts == before.attempts + 1
  }

  /** A pending, allowed task with met dependencies was tried, with one of two outcomes; any other is as it was. */
  ghost predicate TaskLaunched(before: seq<Task>, after: seq<Task>, taskIds: Option<set<string>>, k: nat)
    requires k < |before| && k < |after|
  {
    if Tried(before[k], after[k]) then
      var b, a := before[k], after[k];
      && b.state == Pending && (taskIds.Some? ==> b.id in taskIds.value) && DependenciesMet(before, b)
      && (a == b.(attempts := b.attempts + 1)
          || (a.jobId.Some? && a == b.(attempts := b.attempts + 1, state := Posted, jobId := a.jobId)))
    else
      after[k] == before[k]
  }

  /** A task that a launch with these options may try. */
  ghost predicate Eligible(tasks: seq<Task>, taskIds: Option<set<string>>, k: nat)
    requires k < |tasks|
  {
    && tasks[k].state == Pending && DependenciesMet(tasks, tasks[k])
    && (taskIds.None? || tasks[k].id in taskIds.value)
  }

  /** The tasks that were tried and were posted or not, in plan order. */
  function TriedRefs(before: Plan, after: Plan, n: nat, posted: bool): seq<Ref>
    requires n <= |before.tasks| && n <= |after.tasks|
  {
    if n == 0 then []
    else
      TriedRefs(before, after, n - 1, posted)
      + if Tried(before.tasks[n - 1], after.tasks[n - 1]) && (after.tasks[n - 1].state == Posted) == posted
        then [Ref(after.planId, after.tasks[n - 1].id)] else []
  }

  /** The jobs that the tried tasks got, in plan order; None for those that were not posted. */
  function TriedJobs(before: seq<Task>, after: seq<Task>, n: nat): seq<Option<string>>
    requires n <= |before| && n <= |after|
  {
    if n == 0 then []
    else
      TriedJobs(before, after, n - 1)
      + if Tried(before[n - 1], after[n - 1])
        then [if after[n - 1].state == Posted then after[n - 1].jobId else None] else []
  }

  function FirstReplies(replies: seq<Option<string>>, n: nat): seq<Option<string>> {
    if n == 0 then [] else FirstReplies(replies, n - 1) + [ReplyAt(replies, n - 1)]
  }

  /** No more tasks are tried than may be, fewer only when no other can be, and none before an earlier one. */
  ghost predicate TriesEarliest(before: seq<Task>, after: seq<Task>, options: LaunchOptions, tried: nat)
    requires |before| == |after|
  {
    && (options.maxTasks.Some? ==> tried <= options.maxTasks.value)
    && (options.maxTasks.None? || tried < options.maxTasks.value ==>
          forall k :: 0 <= k < |before| && Eligible(before, options.taskIds, k) ==> Tried(before[k], after[k]))
    && (forall j, k ::
          0 <= j < k < |before| && Eligible(before, options.taskIds, j) && Tried(before[k], after[k]) ==>
            Tried(before[j], after[j]))
  }

  /** A launch tries the earliest tasks it may, gives them the replies in order, and reports exactly what it tried. */
  ghost predicate LaunchIsRight(before: Plan, after: Plan, options: LaunchOptions, replies: seq<Option<string>>,
                                launched: seq<Ref>, skipped: seq<Ref>) {
    var n, tried := |before.tasks|, |launched| + |skipped|;
    && after.planId == before.planId && after.status == Active && |after.tasks| == n
    && (forall k :: 0 <= k < n ==> TaskLaunched(before.tasks, after.tasks, options.taskIds, k))
    && TriesEarliest(before.tasks, after.tasks, options, tried)
    && launched == TriedRefs(before, after, n, true) && skipped == TriedRefs(before, after, n, false)
    && TriedJobs(before.tasks, after.tasks, n) == FirstReplies(replies, tried)
  }

  /** Exactly the first `m` of the increasing positions are below `n`. */
  ghost predicate SplitsAt(ready: seq<nat>, n: nat, m: nat) {
    && m <= |ready|
    && (forall l, k :: 0 <= l < k < |ready| ==> ready[l] < ready[k])
    && forall l :: 0 <= l < |ready| ==> (l < m <==> ready[l] < n)
  }

  lemma SplitsBefore(ready: seq<nat>, n: nat, m: nat)
    requires n > 0 && SplitsAt(ready, n, m)
    ensures if m > 0 && ready[m - 1] == n - 1 then SplitsAt(ready, n - 1, m - 1)
            else SplitsAt(ready, n - 1, m) && n - 1 !in ready
  {
    if m > 0 && ready[m - 1] == n - 1 {
      assert forall l :: 0 <= l < m - 1 ==> ready[l] < ready[m - 1];
    }
  }

  lemma PostingIsTried(before: Plan, after: Plan, ready: seq<nat>, replies: seq<Option<string>>, m: nat)
    requires LaunchFacts(before, ready, replies, after.tasks) && m < |ready|
    requires before.tasks[ready[m]].state == Pending
    ensures var b, a, reply := before.tasks[ready[m]], after.tasks[ready[m]], ReplyAt(replies, m);
            && a == PostedTask(b, reply) && Tried(b, a) && a.id == b.id
            && (a.state == Posted <==> reply.Some?)
            && (if a.state == Posted then a.jobId else None) == reply
  {
  }

  /** The scan of the first `n` positions has met the first `m` postings. */
  ghost predicate Met(before: Plan, after: Plan, ready: seq<nat>, replies: seq<Option<string>>, n: nat, m: nat)
    requires |after.tasks| == |before.tasks| && n <= |before.tasks| && m <= |ready|
    requires forall l :: 0 <= l < |ready| ==> ready[l] < |before.tasks|
  {
    && TriedRefs(before, after, n, true) == PostedRefs(before, ready, replies, m)
    && TriedRefs(before, after, n, false) == SkippedRefs(before, ready, replies, m)
    && |PostedRefs(before, ready, replies, m)| + |SkippedRefs(before, ready, replies, m)| == m
    && TriedJobs(before.tasks, after.tasks, n) == FirstReplies(replies, m)
  }

  ghost predicate AllPending(tasks: seq<Task>, ready: seq<nat>) {
    forall l :: 0 <= l < |ready| ==> ready[l] < |tasks| && tasks[ready[l]].state == Pending
  }

  /** What holds while the positions of a plan are scanned for its postings. */
  ghost predicate Scanning(before: Plan, after: Plan, ready: seq<nat>, replies: seq<Option<string>>, n: nat, m: nat) {
    && LaunchFacts(before, ready, replies, after.tasks) && after.planId == before.planId
    && AllPending(before.tasks, ready) && n <= |before.tasks| && SplitsAt(ready, n, m)
  }

  lemma OnePostingMet(before: Plan, after: Plan, ready: seq<nat>, replies: seq<Option<string>>, n: nat, m: nat)
    requires LaunchFacts(before, ready, replies, after.tasks) && after.planId == before.planId
    requires n < |before.tasks| && m < |ready| && ready[m] == n && before.tasks[n].state == Pending
    requires Met(before, after, ready, replies, n, m)
    ensures Met(before, after, ready, replies, n + 1, m + 1)
  {
    PostingIsTried(before, after, ready, replies, m);
  }

  lemma NoPostingMet(before: Plan, after: Plan, ready: seq<nat>, replies: seq<Option<string>>, n: nat, m: nat)
    requires LaunchFacts(before, ready, replies, after.tasks)
    requires n < |before.tasks| && m <= |ready| && n !in ready
    requires Met(before, after, ready, replies, n, m)
    ensures Met(before, after, ready, replies, n + 1, m)
  {
    assert after.tasks[n] == before.tasks[n];
    assert !Tried(before.tasks[n], after.tasks[n]);
  }

  lemma ScanPosting(before: Plan, after: Plan, ready: seq<nat>, replies: seq<Option<string>>, n: nat, m: nat)
    requires Scanning(before, after, ready, replies, n, m) && n > 0 && m > 0 && ready[m - 1] == n - 1
    ensures Scanning(before, after, ready, replies, n - 1, m - 1)
    ensures Met(before, after, ready, replies, n - 1, m - 1) ==> Met(before, after, ready, replies, n, m)
  {
    assert SplitsAt(ready, n - 1, m - 1) by {
      SplitsBefore(ready, n, m);
    }
    if Met(before, after, ready, replies, n - 1, m - 1) {
      OnePostingMet(before, after, ready, replies, n - 1, m - 1);
    }
  }

  lemma ScanOther(before: Plan, after: Plan, ready: seq<nat>, replies: seq<Option<string>>, n: nat, m: nat)
    requires Scanning(before, after, ready, replies, n, m) && n > 0 && (m > 0 ==> ready[m - 1] != n - 1)
    ensures Scanning(before, after, ready, replies, n - 1, m)
    ensures Met(before, after, ready, replies, n - 1, m) ==> Met(before, after, ready, replies, n, m)
  {
    assert SplitsAt(ready, n - 1, m) && n - 1 !in ready by {
      SplitsBefore(ready, n, m);
    }
    if Met(before, after, ready, replies, n - 1, m) {
      NoPostingMet(before, after, ready, replies, n - 1, m);
    }
  }

  /** Scanning the plan meets the postings in their order. */
  lemma {:induction false} ScanMeetsPostings(before: Plan, after: Plan, ready: seq<nat>, replies: seq<Option<string>>,
                                             n: nat, m: nat)
    requires Scanning(before, after, ready, replies, n, m)
    ensures Met(before, after, ready, replies, n, m)
  {
    if n > 0 {
      if m > 0 && ready[m - 1] == n - 1 {
        ScanPosting(before, after, ready, replies, n, m);
        ScanMeetsPostings(before, after, ready, replies, n - 1, m - 1);
      } else {
        ScanOther(before, after, ready, replies, n, m);
        ScanMeetsPostings(before, after, ready, replies, n - 1, m);
      }
    }
  }

  lemma TriedIsReady(before: Plan, after: Plan, ready: seq<nat>, replies: seq<Option<string>>, options: LaunchOptions,
                     k: nat)
    requires LaunchFacts(before, ready, replies, after.tasks) && k < |before.tasks|
    requires forall m :: 0 <= m < |ready| ==> CanPost(before.tasks, options.taskIds, ready[m])
    ensures TaskLaunched(before.tasks, after.tasks, options.taskIds, k)
    ensures Tried(before.tasks[k], after.tasks[k]) <==> k in ready
  {
    if k in ready {
      var m :| 0 <= m < |ready| && ready[m] == k;
      PostingIsTried(before, after, ready, replies, m);
      assert CanPost(before.tasks, options.taskIds, ready[m]);
    }
  }

  lemma ReadyIsEarliest(before: Plan, after: Plan, replies: seq<Option<string>>, options: LaunchOptions)
    requires LaunchFacts(before, ToPost(before.tasks, options), replies, after.tasks)
    ensures TriesEarliest(before.tasks, after.tasks, options, |ToPost(before.tasks, options)|)
  {
    var ready := ToPost(before.tasks, options);
    forall k | 0 <= k < |before.tasks|
      ensures Tried(before.tasks[k], after.tasks[k]) <==> k in ready
    {
      TriedIsReady(before, after, ready, replies, options, k);
    }
    CutKeepsOrder(before.tasks, options);
  }

  /** Postings at these positions, in order, make a launch that is right. */
  lemma PostingsAreRight(before: Plan, after: Plan, ready: seq<nat>, options: LaunchOptions,
                         replies: seq<Option<string>>)
    requires LaunchFacts(before, ready, replies, after.tasks) && SplitsAt(ready, |before.tasks|, |ready|)
    requires after.planId == before.planId && after.status == Active
    requires forall m :: 0 <= m < |ready| ==> CanPost(before.tasks, options.taskIds, ready[m])
    requires TriesEarliest(before.tasks, after.tasks, options, |ready|)
    ensures LaunchIsRight(before, after, options, replies,
                          PostedRefs(before, ready, replies, |ready|), SkippedRefs(before, ready, replies, |ready|))
  {
    ScanMeetsPostings(before, after, ready, replies, |before.tasks|, |ready|);
    forall k | 0 <= k < |before.tasks|
      ensures TaskLaunched(before.tasks, after.tasks, options.taskIds, k)
    {
      TriedIsReady(before, after, ready, replies, options, k);
    }
  }

  lemma LaunchDoesRight(plan: Plan, options: LaunchOptions, replies: seq<Option<string>>)
    ensures var ready := ToPost(plan.tasks, options);
            LaunchIsRight(plan, Launched(plan, options, replies), options, replies,
                          PostedRefs(plan, ready, replies, |ready|), SkippedRefs(plan, ready, replies, |ready|))
  {
    var ready, after := ToPost(plan.tasks, options), Launched(plan, options, replies);
    LaunchHasFacts(plan, options, replies);
    ReadyIsEarliest(plan, after, replies, options);
    PostingsAreRight(plan, after, ready, options, replies);
  }

  /** In plan order, no more than may be; an eligible task is missing only when there is no room before it. */
  ghost predicate EarliestEligible(tasks: seq<Task>, options: LaunchOptions, ready: seq<nat>) {
    && (forall m :: 0 <= m < |ready| ==> ready[m] < |tasks| && Eligible(tasks, options.taskIds, ready[m]))
    && (forall l, m :: 0 <= l < m < |ready| ==> ready[l] < ready[m])
    && (options.maxTasks.Some? ==> |ready| <= options.maxTasks.value)
    && (forall k :: 0 <= k < |tasks| && Eligible(tasks, options.taskIds, k) ==>
          k in ready || (options.maxTasks.Some? && |ready| == options.maxTasks.value
                         && forall l :: 0 <= l < |ready| ==> ready[l] < k))
  }

  /** The cut drops only what comes after all that it keeps, and nothing while there is room. */
  lemma CutKeepsOrder(tasks: seq<Task>, options: LaunchOptions)
    ensures EarliestEligible(tasks, options, ToPost(tasks, options))
  {
    var all, ready := ReadyAmong(tasks, options.taskIds, |tasks|), ToPost(tasks, options);
    forall k | 0 <= k < |tasks| && Eligible(tasks, options.taskIds, k) && k !in ready
      ensures options.maxTasks.Some? && |ready| == options.maxTasks.value
      ensures forall l :: 0 <= l < |ready| ==> ready[l] < k
    {
      assert CanPost(tasks, options.taskIds, k) && k in all;
      var p :| 0 <= p < |all| && all[p] == k;
      assert forall l :: 0 <= l < |ready| ==> ready[l] == all[l];
      assert |ready| <= p;
    }
  }

  // ----- The index -----

  function OtherPlans(index: map<string, Ref>, planId: string): map<string, Ref> {
    map j | j in index && index[j].planId != planId :: index[j]
  }

  function AddJobs(index: map<string, Ref>, plan: Plan, n: nat): map<string, Ref>
    requires n <= |plan.tasks|
  {
    if n == 0 then index
    else
      var before := AddJobs(index, plan, n - 1);
      var task := plan.tasks[n - 1];
      if task.jobId.Some? then before[task.jobId.value := Ref(plan.planId, task.id)] else before
  }

  function Reindexed(index: map<string, Ref>, plan: Plan): map<string, Ref> {
    AddJobs(OtherPlans(index, plan.planId), plan, |plan.tasks|)
  }

  function Saved(s: State, plan: Plan): State {
    State(s.plans[plan.planId := plan], Reindexed(s.index, plan))
  }

  // ----- The operations -----

  /** What createJobPlan demands of a definition, with acyclicity as the existence of a dependency order. */
  ghost predicate GoodDefinition(specs: seq<TaskSpec>) {
    && specs != []
    && (forall i, j :: 0 <= i < j < |specs| ==> specs[i].id != specs[j].id)
    && (forall i :: 0 <= i < |specs| ==> specs[i].id !in specs[i].dependencies)
    && (forall i, d :: 0 <= i < |specs| && d in specs[i].dependencies ==> Named(specs, d))
    && exists order :: OrdersAll(specs, order)
  }

  ghost predicate Named(specs: seq<TaskSpec>, id: string) {
    exists j :: 0 <= j < |specs| && specs[j].id == id
  }

  ghost predicate OrdersAll(specs: seq<TaskSpec>, order: seq<string>) {
    DependencyOrder(Adjacency(specs), order) && forall t :: t in specs ==> t.id in order
  }

  function NewTask(spec: TaskSpec): Task {
    Task(spec.id, spec.dependencies, Pending, 0, None, None)
  }

  function NewTasks(specs: seq<TaskSpec>): (tasks: seq<Task>)
    ensures |tasks| == |specs| && forall i :: 0 <= i < |specs| ==> tasks[i] == NewTask(specs[i])
  {
    if specs == [] then [] else NewTasks(Front(specs)) + [NewTask(Last(specs))]
  }

  ghost function Create(s: State, planId: string, specs: seq<TaskSpec>): State {
    if planId in s.plans || !GoodDefinition(specs) then s
    else Saved(s, Plan(planId, Draft, NewTasks(specs)))
  }

  predicate Launchable(s: State, planId: string) {
    planId in s.plans && (s.plans[planId].status == Draft || s.plans[planId].status == Active)
  }

  function Launch(s: State, planId: string, options: LaunchOptions, replies: seq<Option<string>>): State {
    if !Launchable(s, planId) then s
    else
      var plan := s.plans[planId];
      var ready := ToPost(plan.tasks, options);
      Saved(s.(index := PostIndex(s.index, plan, ready, replies, |ready|)), Launched(plan, options, replies))
  }

  /** The position of the task that a completion is for, when index and plan agree on it. */
  function Reportable(s: State, jobId: string): Option<nat> {
    if jobId !in s.index || s.index[jobId].planId !in s.plans then None
    else
      var tasks := s.plans[s.index[jobId].planId].tasks;
      var i := Find(tasks, s.index[jobId].taskId);
      if i < |tasks| && tasks[i].jobId == Some(jobId) then Some(i) else None
  }

  function Complete(s: State, jobId: string, success: bool): State {
    if jobId !in s.index || s.index[jobId].planId !in s.plans then s
    else
      match Reportable(s, jobId)
      case None => s.(index := s.index - {jobId})
      case Some(i) =>
        Saved(s.(index := s.index - {jobId}), Reported(s.plans[s.index[jobId].planId], i, success))
  }

  /** A successful completion that leaves its plan active with a task ready to post. */
  predicate Resumes(s: State, jobId: string, success: bool) {
    && success && Reportable(s, jobId).Some?
    && var plan := Reported(s.plans[s.index[jobId].planId], Reportable(s, jobId).value, success);
       plan.status == Active && ToPost(plan.tasks, UNRESTRICTED) != []
  }

  function CompleteAndResume(s: State, jobId: string, success: bool, replies: seq<Option<string>>): State {
    var s' := Complete(s, jobId, success);
    if Resumes(s, jobId, success) then Launch(s', s.index[jobId].planId, UNRESTRICTED, replies) else s'
  }

  // ----- The code -----

  datatype CreateResult =
    | Created
    | AlreadyExists
    | NoTasks
    | DuplicateTask(id: string)
    | SelfDependency(id: string)
    | UnknownDependency(id: string, dependency: string)
    | CyclicDependency(node: string)

  datatype LaunchResult =
    | PlanNotFound
    | PlanNotActive
    | NothingToLaunch
    | LaunchedTasks(launched: seq<Ref>, skipped: seq<Ref>, pending: seq<string>)

  class Planner {
    var planCache: map<string, Plan>
    var jobIndex: map<string, Ref>

    ghost function View(): State
      reads this
    {
      State(planCache, jobIndex)
    }

    constructor ()
      ensures View() == State(map[], map[])
    {
      planCache, jobIndex := map[], map[];
    }

    method ReindexPlan(plan: Plan)
      modifies `jobIndex
      ensures jobIndex == Reindexed(old(jobIndex), plan)
    {
      var keys := jobIndex.Keys;
      while keys != {}
        invariant keys <= jobIndex.Keys <= old(jobIndex).Keys
        invariant forall j :: j in jobIndex ==> jobIndex[j] == old(jobIndex)[j]
        invariant forall j :: j in jobIndex && j !in keys ==> jobIndex[j].planId != plan.planId
        invariant forall j :: j in old(jobIndex) && j !in jobIndex ==> old(jobIndex)[j].planId == plan.planId
        decreases keys
      {
        var j :| j in keys;
        keys := keys - {j};
        if jobIndex[j].planId == plan.planId {
          jobIndex := jobIndex - {j};
        }
      }
      assert jobIndex == OtherPlans(old(jobIndex), plan.planId);
      for i := 0 to |plan.tasks|
        invariant jobIndex == AddJobs(OtherPlans(old(jobIndex), plan.planId), plan, i)
      {
        if plan.tasks[i].jobId.Some? {
          jobIndex := jobIndex[plan.tasks[i].jobId.value := Ref(plan.planId, plan.tasks[i].id)];
        }
      }
    }

    method SavePlan(plan: Plan)
      modifies this
      ensures View() == Saved(old(View()), plan)
    {
      planCache := planCache[plan.planId := plan];
      ReindexPlan(plan);
    }

    method DependenciesSatisfied(plan: Plan, task: Task) returns (satisfied: bool)
      ensures satisfied <==> DependenciesMet(plan.tasks, task)
    {
      for i := 0 to |task.dependencies|
        invariant forall j :: 0 <= j < i ==> DependencyMet(plan.tasks, task.dependencies[j])
      {
        var k := Find(plan.tasks, task.dependencies[i]);
        assert task.dependencies[i] in task.dependencies;
        if k == |plan.tasks| {
          return false;
        }
        if plan.tasks[k].state != Completed || plan.tasks[k].success == Some(false) {
          return false;
        }
      }
      return true;
    }

    method SelectReady(plan: Plan, options: LaunchOptions) returns (ready: seq<nat>)
      ensures ready == ToPost(plan.tasks, options)
      ensures EarliestEligible(plan.tasks, options, ready)
    {
      CutKeepsOrder(plan.tasks, options);
      ready := [];
      for k := 0 to |plan.tasks|
        invariant ready == ReadyAmong(plan.tasks, options.taskIds, k)
      {
        var task := plan.tasks[k];
        if task.state == Pending && (options.taskIds.Some? ==> task.id in options.taskIds.value) {
          var satisfied := DependenciesSatisfied(plan, task);
          if satisfied {
            ready := ready + [k];
          }
        }
      }
      if options.maxTasks.Some? && options.maxTasks.value <= |ready| {
        ready := ready[..options.maxTasks.value];
      }
    }

    method CreateJobPlan(planId: string, specs: seq<TaskSpec>) returns (result: CreateResult)
      modifies this
      ensures View() == Create(old(View()), planId, specs)
      ensures result.Created? <==> planId !in old(planCache) && GoodDefinition(specs)
      ensures result.AlreadyExists? <==> planId in old(planCache)
      ensures result.NoTasks? <==> planId !in old(planCache) && specs == []
      ensures result.DuplicateTask? ==>
                exists i, j :: 0 <= i < j < |specs| && specs[i].id == specs[j].id == result.id
      ensures result.SelfDependency? ==>
                exists i :: 0 <= i < |specs| && specs[i].id == result.id && result.id in specs[i].dependencies
      ensures result.UnknownDependency? ==>
                && !Named(specs, result.dependency)
                && exists i ::
                     0 <= i < |specs| && specs[i].id == result.id && result.dependency in specs[i].dependencies
      ensures result.CyclicDependency? ==> exists p :: IsCycle(Adjacency(specs), p) && p[0] == result.node
    {
      if planId in planCache {
        return AlreadyExists;
      }
      if |specs| == 0 {
        return NoTasks;
      }
      var seen: set<string> := {};
      var tasks: seq<Task> := [];
      for i := 0 to |specs|
        invariant View() == old(View())
        invariant forall id :: id in seen <==> exists j :: 0 <= j < i && specs[j].id == id
        invariant forall j, k :: 0 <= j < k < i ==> specs[j].id != specs[k].id
        invariant forall j :: 0 <= j < i ==> specs[j].id !in specs[j].dependencies
        invariant |tasks| == i && forall j :: 0 <= j < i ==> tasks[j] == NewTask(specs[j])
      {
        if specs[i].id in seen {
          return DuplicateTask(specs[i].id);
        }
        seen := seen + {specs[i].id};
        if specs[i].id in specs[i].dependencies {
          return SelfDependency(specs[i].id);
        }
        tasks := tasks + [NewTask(specs[i])];
      }
      assert forall id :: id in seen <==> Named(specs, id);
      for i := 0 to |specs|
        invariant View() == old(View())
        invariant forall j, d :: 0 <= j < i && d in specs[j].dependencies ==> d in seen
      {
        for k := 0 to |specs[i].dependencies|
          invariant View() == old(View())
          invariant forall l :: 0 <= l < k ==> specs[i].dependencies[l] in seen
        {
          if specs[i].dependencies[k] !in seen {
            assert specs[i].dependencies[k] in specs[i].dependencies && !GoodDefinition(specs);
            return UnknownDependency(specs[i].id, specs[i].dependencies[k]);
          }
        }
      }
      var cyclicAt, order := AssertNoCycles(specs);
      if cyclicAt.Some? {
        forall o | OrdersAll(specs, o)
          ensures false
        {
          OrdersAllIsAcyclic(specs, o);
        }
        return CyclicDependency(cyclicAt.value);
      }
      assert GoodDefinition(specs) by {
        assert OrdersAll(specs, order);
        assert forall i, d :: 0 <= i < |specs| && d in specs[i].dependencies ==> d in seen;
      }
      assert tasks == NewTasks(specs);
      SavePlan(Plan(planId, Draft, tasks));
      return Created;
    }

    /** The posting loop of a launch; `replies` are the outcomes of the successive postings. */
    method PostTasks(plan: Plan, ready: seq<nat>, replies: seq<Option<string>>)
      returns (after: Plan, launched: seq<Ref>, skipped: seq<Ref>)
      requires forall m :: 0 <= m < |ready| ==> ready[m] < |plan.tasks|
      modifies `jobIndex
      ensures after == plan.(tasks := PostAll(plan.tasks, ready, replies, |ready|))
      ensures launched == PostedRefs(plan, ready, replies, |ready|)
      ensures skipped == SkippedRefs(plan, ready, replies, |ready|)
      ensures jobIndex == PostIndex(old(jobIndex), plan, ready, replies, |ready|)
    {
      after, launched, skipped := plan, [], [];
      for m := 0 to |ready|
        invariant after == plan.(tasks := PostAll(plan.tasks, ready, replies, m))
        invariant launched == PostedRefs(plan, ready, replies, m)
        invariant skipped == SkippedRefs(plan, ready, replies, m)
        invariant jobIndex == PostIndex(old(jobIndex), plan, ready, replies, m)
      {
        PostAllKeepsIds(plan.tasks, ready, replies, m);
        var task := after.tasks[ready[m]];
        var reply := ReplyAt(replies, m);
        if reply.Some? {
          task := task.(jobId := reply, state := Posted, attempts := task.attempts + 1);
          jobIndex := jobIndex[reply.value := Ref(plan.planId, task.id)];
          launched := launched + [Ref(plan.planId, task.id)];
        } else {
          task := task.(attempts := task.attempts + 1);
          skipped := skipped + [Ref(plan.planId, task.id)];
        }
        after := after.(tasks := after.tasks[ready[m] := task]);
      }
    }

    method LaunchJobPlan(planId: string, options: LaunchOptions, replies: seq<Option<string>>)
      returns (result: LaunchResult)
      modifies this
      ensures View() == Launch(old(View()), planId, options, replies)
      ensures result.LaunchedTasks? <==> Launchable(old(View()), planId)
      ensures result.LaunchedTasks? ==>
                var before := old(planCache)[planId];
                && before.planId in planCache
                && var after := planCache[before.planId];
                   && LaunchIsRight(before, after, options, replies, result.launched, result.skipped)
                   && result.pending == PendingIds(after.tasks)
      ensures result.PlanNotFound? <==> planId !in old(planCache)
      ensures result.NothingToLaunch? <==> planId in old(planCache) && old(planCache)[planId].status == PlanCompleted
      ensures !result.LaunchedTasks? ==> View() == old(View())
      ensures result.PlanNotActive? <==>
                planId in old(planCache) && old(planCache)[planId].status in {PlanFailed, Cancelled}
    {
      if planId !in planCache {
        return PlanNotFound;
      }
      var plan := planCache[planId];
      if plan.status == PlanFailed || plan.status == Cancelled {
        return PlanNotActive;
      }
      if plan.status == PlanCompleted {
        return NothingToLaunch;
      }
      plan := plan.(status := Active);
      var ready := SelectReady(plan, options);
      var after, launched, skipped := PostTasks(plan, ready, replies);
      StatusDoesNotMatter(planCache[planId], old(jobIndex), ready, replies, |ready|);
      LaunchDoesRight(planCache[planId], options, replies);
      SavePlan(after);
      return LaunchedTasks(launched, skipped, PendingIds(after.tasks));
    }

    /** The completion, and the launch that follows when it made tasks ready; `replies` are that launch's postings. */
    method HandleJobCompletion(jobId: string, success: bool, replies: seq<Option<string>>)
      modifies this
      ensures View() == CompleteAndResume(old(View()), jobId, success, replies)
    {
      var planId := if jobId in jobIndex then jobIndex[jobId].planId else "";
      var shouldResume := ReportCompletion(jobId, success);
      if shouldResume {
        var _ := LaunchJobPlan(planId, UNRESTRICTED, replies);
      }
    }

    /** The part under the plan's lock. */
    method ReportCompletion(jobId: string, success: bool) returns (shouldResume: bool)
      modifies this
      ensures View() == Complete(old(View()), jobId, success)
      ensures shouldResume <==> Resumes(old(View()), jobId, success)
    {
      if jobId !in jobIndex {
        return false;
      }
      var mapping := jobIndex[jobId];
      if mapping.planId !in planCache {
        return false;
      }
      var plan := planCache[mapping.planId];
      var i := Find(plan.tasks, mapping.taskId);
      if i == |plan.tasks| || plan.tasks[i].jobId != Some(jobId) {
        jobIndex := jobIndex - {jobId};
        return false;
      }
      ghost var was := plan;
      var task := plan.tasks[i].(state := if success then Completed else Failed, success := Some(success));
      plan := plan.(tasks := plan.tasks[i := task]);
      jobIndex := jobIndex - {jobId};
      shouldResume := false;
      if !success {
        plan := plan.(status := PlanFailed);
      } else {
        var remaining := Remaining(plan);
        if |remaining| == 0 {
          plan := plan.(status := PlanCompleted);
        } else if plan.status == Active {
          var ready := SelectReady(plan, UNRESTRICTED);
          shouldResume := |ready| > 0;
        }
      }
      assert plan == Reported(was, i, success);
      SavePlan(plan);
    }

    method Remaining(plan: Plan) returns (remaining: seq<string>)
      ensures remaining == [] <==> AllCompleted(plan.tasks)
    {
      remaining := [];
      for k := 0 to |plan.tasks|
        invariant remaining == [] <==> forall j :: 0 <= j < k ==> plan.tasks[j].state == Completed
      {
        if plan.tasks[k].state != Completed {
          remaining := remaining + [plan.tasks[k].id];
        }
      }
    }
  }

  function PendingIds(tasks: seq<Task>): seq<string> {
    if tasks == [] then []
    else PendingIds(Front(tasks)) + if Last(tasks).state == Pending then [Last(tasks).id] else []
  }

  ghost predicate IsPending(tasks: seq<Task>, id: string) {
    exists k :: 0 <= k < |tasks| && tasks[k].id == id && tasks[k].state == Pending
  }

  /** Exactly the pending tasks, in plan order: first those of one part of a plan, then those of the rest. */
  lemma {:induction false} PendingInOrder(a: seq<Task>, b: seq<Task>)
    ensures PendingIds(a + b) == PendingIds(a) + PendingIds(b)
    ensures |b| == 1 ==> PendingIds(b) == if b[0].state == Pending then [b[0].id] else []
  {
    if b == [] {
      assert a + b == a;
    } else {
      var last := if Last(b).state == Pending then [Last(b).id] else [];
      PendingInOrder(a, Front(b));
      assert Front(a + b) == a + Front(b) && Last(a + b) == Last(b);
      calc {
        PendingIds(a + b);
        PendingIds(a + Front(b)) + last;
        PendingIds(a) + PendingIds(Front(b)) + last;
        PendingIds(a) + (PendingIds(Front(b)) + last);
        PendingIds(a) + PendingIds(b);
      }
    }
  }

  lemma {:induction false} PendingIdsArePending(tasks: seq<Task>, id: string)
    ensures id in PendingIds(tasks) <==> IsPending(tasks, id)
  {
    if tasks != [] {
      var front, last := Front(tasks), Last(tasks);
      PendingIdsArePending(front, id);
      if IsPending(front, id) {
        var k :| 0 <= k < |front| && front[k].id == id && front[k].state == Pending;
        assert tasks[k] == front[k];
      }
    }
  }

  /** A launch loses no task: what was pending has been launched or is still pending. */
  lemma {:induction false} LaunchLosesNoTask(before: Plan, after: Plan, taskIds: Option<set<string>>, n: nat)
    requires |after.tasks| == |before.tasks| && n <= |before.tasks|
    requires forall k :: 0 <= k < n ==> TaskLaunched(before.tasks, after.tasks, taskIds, k)
    ensures |PendingIds(before.tasks[..n])| == |TriedRefs(before, after, n, true)| + |PendingIds(after.tasks[..n])|
  {
    if n > 0 {
      LaunchLosesNoTask(before, after, taskIds, n - 1);
      assert Front(before.tasks[..n]) == before.tasks[..n - 1] && Front(after.tasks[..n]) == after.tasks[..n - 1];
      assert TaskLaunched(before.tasks, after.tasks, taskIds, n - 1);
    }
  }

  lemma AdjacencyKeys(specs: seq<TaskSpec>)
    ensures forall n :: n in Adjacency(specs) <==> exists t :: t in specs && t.id == n
  {
    if specs != [] {
      AdjacencyKeys(Front(specs));
      assert specs == Front(specs) + [Last(specs)];
      assert Last(specs) in specs;
    }
  }

  lemma OrdersAllIsAcyclic(specs: seq<TaskSpec>, order: seq<string>)
    requires OrdersAll(specs, order)
    ensures Acyclic(Adjacency(specs))
  {
    AdjacencyKeys(specs);
    OrderedIsAcyclic(Adjacency(specs), order);
  }

  lemma {:induction false} PostAllKeepsIds(tasks: seq<Task>, ready: seq<nat>, replies: seq<Option<string>>, n: nat)
    requires n <= |ready| && forall m :: 0 <= m < |ready| ==> ready[m] < |tasks|
    ensures forall k :: 0 <= k < |tasks| ==> PostAll(tasks, ready, replies, n)[k].id == tasks[k].id
  {
    if n > 0 {
      PostAllKeepsIds(tasks, ready, replies, n - 1);
    }
  }

  lemma {:induction false} StatusDoesNotMatter(plan: Plan, index: map<string, Ref>, ready: seq<nat>,
                                               replies: seq<Option<string>>, n: nat)
    requires n <= |ready| && forall m :: 0 <= m < |ready| ==> ready[m] < |plan.tasks|
    ensures var active := plan.(status := Active);
            && PostedRefs(active, ready, replies, n) == PostedRefs(plan, ready, replies, n)
            && SkippedRefs(active, ready, replies, n) == SkippedRefs(plan, ready, replies, n)
            && PostIndex(index, active, ready, replies, n) == PostIndex(index, plan, ready, replies, n)
  {
    if n > 0 {
      StatusDoesNotMatter(plan, index, ready, replies, n - 1);
    }
  }

  // ----- Bounded history -----

  /** appendHistory: push, then drop from the front down to the limit. */
  method AppendHistory<T>(history: seq<T>, entry: T, limit: nat) returns (kept: seq<T>)
    ensures kept == Suffix(history + [entry], limit)
  {
    kept := history + [entry];
    if |kept| > limit {
      kept := kept[|kept| - limit..];
    }
  }

  function HistoryAfter<T>(entries: seq<T>, limit: nat): seq<T> {
    if entries == [] then [] else Suffix(HistoryAfter(Front(entries), limit) + [Last(entries)], limit)
  }

  /** However many entries were appended, the history is the last `limit` of all of them. */
  lemma {:induction false} HistoryIsSuffix<T>(entries: seq<T>, limit: nat)
    ensures HistoryAfter(entries, limit) == Suffix(entries, limit)
  {
    if entries != [] {
      HistoryIsSuffix(Front(entries), limit);
      SuffixAppend(Front(entries), Last(entries), limit);
      FrontAndLast(entries);
    }
  }
}
