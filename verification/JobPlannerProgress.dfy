/**
 * Progress of one plan: acyclic dependencies rule out deadlock, and every maximal run in which
 * jobs succeed ends with the plan completed, whatever launches and completions it mixes.
 */
module JobPlannerProgress {
  import opened Collections
  import opened JobPlanner
  import opened JobPlannerSafety

  ghost predicate NoneIn(tasks: seq<Task>, state: TaskState) {
    forall k :: 0 <= k < |tasks| ==> tasks[k].state != state
  }

  /** Walk down unmet dependencies: ranks fall, so the walk ends at a task that can be posted. */
  lemma {:induction false} WalkToReady(tasks: seq<Task>, rank: map<string, nat>, k: nat) returns (ready: nat)
    requires Ranked(tasks, rank) && NoneIn(tasks, Posted) && NoneIn(tasks, Failed)
    requires forall i :: 0 <= i < |tasks| ==> TaskOk(tasks, i)
    requires k < |tasks| && tasks[k].state == Pending
    ensures ready < |tasks| && CanPost(tasks, None, ready)
    decreases (assert RankedAt(tasks, rank, k); rank[tasks[k].id])
  {
    assert RankedAt(tasks, rank, k);
    if DependenciesMet(tasks, tasks[k]) {
      return k;
    }
    var d :| d in tasks[k].dependencies && !DependencyMet(tasks, d);
    var i := Find(tasks, d);
    assert TaskOk(tasks, i) && RankedAt(tasks, rank, i);
    ready := WalkToReady(tasks, rank, i);
  }

  /** An unfinished plan with nothing posted and nothing failed has a task that the next unrestricted launch posts. */
  lemma NoDeadlock(plan: Plan)
    requires PlanOk(plan) && NoneIn(plan.tasks, Posted) && NoneIn(plan.tasks, Failed) && plan.status != PlanCompleted
    ensures plan.status in {Draft, Active} && ToPost(plan.tasks, UNRESTRICTED) != []
  {
    var rank :| Ranked(plan.tasks, rank);
    var k :| 0 <= k < |plan.tasks| && plan.tasks[k].state != Completed;
    var ready := WalkToReady(plan.tasks, rank, k);
    assert ready in ReadyAmong(plan.tasks, None, |plan.tasks|);
  }

  /**
   * No completion is the last thing that happens to an unfinished plan: when a success leaves nothing posted and
   * nothing failed, the plan is completed or the handler goes on to launch what has become ready.
   */
  lemma CompletionNeverStalls(w: World, jobId: string)
    requires Inv(w) && jobId !in w.reported && jobId in w.s.index
    requires var after := Step(w, JobCompleted(jobId, true)).s.plans;
             var p := w.s.index[jobId].planId;
             p in after && NoneIn(after[p].tasks, Posted) && NoneIn(after[p].tasks, Failed)
               && after[p].status != PlanCompleted
    ensures Resumes(w.s, jobId, true)
  {
    IndexedJobsAreReportable(w, jobId);
    var p, i := w.s.index[jobId].planId, Reportable(w.s, jobId).value;
    CompletionKeepsInv(w, jobId, true);
    var after := Step(w, JobCompleted(jobId, true)).s.plans[p];
    assert after == Reported(w.s.plans[p], i, true);
    NoDeadlock(after);
    assert after.tasks[i].state == Completed;
  }

  // ----- Termination -----

  function Weight(state: TaskState): nat {
    match state
    case Pending => 2
    case Posted => 1
    case _ => 0
  }

  function Measure(tasks: seq<Task>): nat {
    if tasks == [] then 0 else Measure(Front(tasks)) + Weight(Last(tasks).state)
  }

  lemma {:induction false} MeasureBound(tasks: seq<Task>)
    ensures Measure(tasks) <= 2 * |tasks|
  {
    if tasks != [] { MeasureBound(Front(tasks)); }
  }

  lemma {:induction false} LighterTasks(a: seq<Task>, b: seq<Task>)
    requires |a| == |b| && forall k :: 0 <= k < |a| ==> Weight(b[k].state) <= Weight(a[k].state)
    ensures Measure(b) <= Measure(a)
    ensures (exists k :: 0 <= k < |a| && Weight(b[k].state) < Weight(a[k].state)) ==> Measure(b) < Measure(a)
  {
    if a != [] {
      LighterTasks(Front(a), Front(b));
      if k :| 0 <= k < |a| && Weight(b[k].state) < Weight(a[k].state) {
        if k < |a| - 1 { assert Weight(Front(b)[k].state) < Weight(Front(a)[k].state); }
      }
    }
  }

  /** A launch, restricted or not, in which at least one posting succeeds. */
  ghost predicate LaunchAdvances(p: Plan, p': Plan, options: LaunchOptions, replies: seq<Option<string>>) {
    && p.status in {Draft, Active}
    && (exists m :: 0 <= m < |ToPost(p.tasks, options)| && ReplyAt(replies, m).Some?)
    && p' == Launched(p, options, replies)
  }

  /** The successful completion of a posted job. */
  ghost predicate ReportAdvances(p: Plan, p': Plan, i: int) {
    0 <= i < |p.tasks| && p.tasks[i].state == Posted && p' == Reported(p, i, true)
  }

  ghost predicate Advances(p: Plan, p': Plan) {
    (exists options, replies :: LaunchAdvances(p, p', options, replies)) || (exists i :: ReportAdvances(p, p', i))
  }

  lemma ReportDecreases(p: Plan, p': Plan, i: int)
    requires PlanOk(p) && NoneIn(p.tasks, Failed) && ReportAdvances(p, p', i)
    ensures PlanOk(p') && NoneIn(p'.tasks, Failed) && |p'.tasks| == |p.tasks| && Measure(p'.tasks) < Measure(p.tasks)
  {
    CompletionKeepsPlanOk(p, i, true);
    assert Weight(p'.tasks[i].state) < Weight(p.tasks[i].state);
    LighterTasks(p.tasks, p'.tasks);
  }

  lemma LaunchIsLighter(p: Plan, p': Plan, options: LaunchOptions, replies: seq<Option<string>>)
    requires LaunchAdvances(p, p', options, replies)
    ensures |p'.tasks| == |p.tasks| && Measure(p'.tasks) < Measure(p.tasks)
    ensures NoneIn(p.tasks, Failed) ==> NoneIn(p'.tasks, Failed)
  {
    LaunchHasFacts(p, options, replies);
    PostingIsLighter(p.tasks, p'.tasks, ToPost(p.tasks, options), options.taskIds, p, replies);
  }

  lemma PostingIsLighter(tasks: seq<Task>, after: seq<Task>, ready: seq<nat>, taskIds: Option<set<string>>, p: Plan,
                         replies: seq<Option<string>>)
    requires tasks == p.tasks && LaunchFacts(p, ready, replies, after)
    requires forall m :: 0 <= m < |ready| ==> CanPost(tasks, taskIds, ready[m])
    requires exists m :: 0 <= m < |ready| && ReplyAt(replies, m).Some?
    ensures |after| == |tasks| && Measure(after) < Measure(tasks)
    ensures NoneIn(tasks, Failed) ==> NoneIn(after, Failed)
  {
    forall k | 0 <= k < |tasks|
      ensures Weight(after[k].state) <= Weight(tasks[k].state)
      ensures tasks[k].state != Failed ==> after[k].state != Failed
    {
      if k in ready {
        var l :| 0 <= l < |ready| && ready[l] == k;
        assert CanPost(tasks, taskIds, ready[l]);
      }
    }
    var m :| 0 <= m < |ready| && ReplyAt(replies, m).Some?;
    assert CanPost(tasks, taskIds, ready[m]);
    assert Weight(after[ready[m]].state) < Weight(tasks[ready[m]].state);
    LighterTasks(tasks, after);
  }

  lemma AdvanceDecreases(p: Plan, p': Plan)
    requires PlanOk(p) && NoneIn(p.tasks, Failed) && Advances(p, p')
    ensures PlanOk(p') && NoneIn(p'.tasks, Failed) && |p'.tasks| == |p.tasks| && Measure(p'.tasks) < Measure(p.tasks)
  {
    if i :| ReportAdvances(p, p', i) {
      ReportDecreases(p, p', i);
    } else {
      var options, replies :| LaunchAdvances(p, p', options, replies);
      LaunchIsLighter(p, p', options, replies);
      LaunchIsLaunchedFrom(p.tasks, options, replies);
      LaunchKeepsPlanOk(p, p'.tasks);
    }
  }

  /** A plan that is not completed can always advance, given fresh job ids for the postings. */
  lemma UnfinishedPlansAdvance(w: World, p: string, replies: seq<Option<string>>) returns (e: Event)
    requires Inv(w) && p in w.s.plans && NoneIn(w.s.plans[p].tasks, Failed) && w.s.plans[p].status != PlanCompleted
    requires Fresh(replies, w.issued + w.reported) && replies != [] && replies[0].Some?
    ensures Legal(w, e)
    ensures p in Step(w, e).s.plans && Advances(w.s.plans[p], Step(w, e).s.plans[p])
  {
    var plan := w.s.plans[p];
    if i :| 0 <= i < |plan.tasks| && plan.tasks[i].state == Posted {
      assert TaskOk(plan.tasks, i);
      var j := plan.tasks[i].jobId.value;
      assert JobAt(w.s.plans, p, i, j) && JobAccounted(w, p, i, j);
      IndexedJobsAreReportable(w, j);
      assert Find(plan.tasks, plan.tasks[i].id) == i;
      e := JobCompleted(j, true);
      assert ReportAdvances(plan, Step(w, e).s.plans[p], i);
    } else {
      NoDeadlock(plan);
      e := LaunchPlan(p, UNRESTRICTED, replies);
      assert ReplyAt(replies, 0).Some?;
      assert LaunchAdvances(plan, Step(w, e).s.plans[p], UNRESTRICTED, replies);
    }
  }

  ghost predicate AdvancingRun(run: seq<Plan>) {
    forall n :: 0 <= n < |run| - 1 ==> Advances(run[n], run[n + 1])
  }

  lemma {:induction false} RunDecreases(run: seq<Plan>, n: nat)
    requires AdvancingRun(run) && n < |run| && PlanOk(run[0]) && NoneIn(run[0].tasks, Failed)
    ensures PlanOk(run[n]) && NoneIn(run[n].tasks, Failed) && |run[n].tasks| == |run[0].tasks|
    ensures Measure(run[n].tasks) + n <= Measure(run[0].tasks)
  {
    if n > 0 {
      RunDecreases(run, n - 1);
      assert Advances(run[n - 1], run[n - 1 + 1]);
      AdvanceDecreases(run[n - 1], run[n]);
    }
  }

  /** No run takes more than two steps per task, and one that can go no further has completed the plan. */
  lemma MaximalRunsComplete(run: seq<Plan>)
    requires run != [] && AdvancingRun(run) && PlanOk(run[0]) && NoneIn(run[0].tasks, Failed)
    ensures |run| - 1 <= 2 * |run[0].tasks|
    ensures (forall next :: !Advances(Last(run), next)) <==> Last(run).status == PlanCompleted
  {
    RunDecreases(run, |run| - 1);
    MeasureBound(run[0].tasks);
    var last := Last(run);
    if last.status != PlanCompleted {
      if i :| 0 <= i < |last.tasks| && last.tasks[i].state == Posted {
        assert ReportAdvances(last, Reported(last, i, true), i);
        assert Advances(last, Reported(last, i, true));
      } else {
        NoDeadlock(last);
        var next := Launched(last, UNRESTRICTED, [Some("")]);
        assert ReplyAt([Some("")], 0).Some?;
        assert LaunchAdvances(last, next, UNRESTRICTED, [Some("")]);
        assert Advances(last, next);
      }
    } else {
      assert AllCompleted(last.tasks);
    }
  }

  // ----- Runs of the planner -----

  lemma {:induction false} RunFromCons(w: World, e: Event, rest: seq<Event>)
    requires Legal(w, e) && LegalFrom(Step(w, e), rest)
    ensures LegalFrom(w, [e] + rest) && RunFrom(w, [e] + rest) == RunFrom(Step(w, e), rest)
  {
    if rest == [] {
      var events := [e] + rest;
      assert events == [e] && Front(events) == [] && Last(events) == e;
      assert LegalFrom(w, []) && RunFrom(w, []) == w;
      assert RunFrom(w, events) == Step(w, e);
    } else {
      RunFromCons(w, e, Front(rest));
      assert Front([e] + rest) == [e] + Front(rest);
    }
  }

  lemma {:induction false} LongerThanAll(used: set<string>) returns (n: nat)
    ensures forall s :: s in used ==> |s| < n
  {
    n := 0;
    if used != {} {
      var s :| s in used;
      n := LongerThanAll(used - {s});
      n := if |s| < n then n else |s| + 1;
    }
  }

  function OfLength(n: nat): (s: string)
    ensures |s| == n
  {
    if n == 0 then "" else OfLength(n - 1) + "0"
  }

  /**
   * From every reachable state an unfailed plan can be brought to completion by a legal run of the planner itself, with
   * fresh job ids, whatever the other plans are doing, in at most twice the pending plus the posted tasks.
   */
  lemma {:induction false} CompletionIsReachable(w: World, p: string) returns (events: seq<Event>)
    requires Inv(w) && p in w.s.plans && NoneIn(w.s.plans[p].tasks, Failed)
    ensures LegalFrom(w, events) && |events| <= Measure(w.s.plans[p].tasks)
    ensures p in RunFrom(w, events).s.plans && RunFrom(w, events).s.plans[p].status == PlanCompleted
    decreases Measure(w.s.plans[p].tasks)
  {
    if w.s.plans[p].status == PlanCompleted {
      events := [];
      assert LegalFrom(w, events) && RunFrom(w, events) == w;
      return;
    }
    var n := LongerThanAll(w.issued + w.reported);
    var replies := [Some(OfLength(n))];
    var e := UnfinishedPlansAdvance(w, p, replies);
    StepKeepsInv(w, e);
    AdvanceDecreases(w.s.plans[p], Step(w, e).s.plans[p]);
    var rest := CompletionIsReachable(Step(w, e), p);
    RunFromCons(w, e, rest);
    events := [e] + rest;
  }

  /** The failed completion of a job of the plan. */
  predicate Fails(w: World, e: Event, p: string) {
    e.JobCompleted? && !e.success && e.jobId in w.s.index && w.s.index[e.jobId].planId == p
  }

  lemma OtherPlansStay(w: World, e: Event, p: string)
    requires Inv(w) && Legal(w, e) && p in w.s.plans
    requires e.LaunchPlan? ==> e.planId != p
    requires e.JobCompleted? ==> e.jobId !in w.s.index || w.s.index[e.jobId].planId != p
    ensures p in Step(w, e).s.plans && Step(w, e).s.plans[p] == w.s.plans[p]
  {
    if e.JobCompleted? && e.jobId in w.s.index {
      IndexedJobsAreReportable(w, e.jobId);
      assert PlanOk(w.s.plans[w.s.index[e.jobId].planId]);
    } else if e.LaunchPlan? && e.planId in w.s.plans {
      assert PlanOk(w.s.plans[e.planId]);
    }
  }

  lemma LaunchIsNotHeavier(plan: Plan, options: LaunchOptions, replies: seq<Option<string>>)
    ensures var after := Launched(plan, options, replies).tasks;
            |after| == |plan.tasks| && Measure(after) <= Measure(plan.tasks)
            && (NoneIn(plan.tasks, Failed) ==> NoneIn(after, Failed))
  {
    LaunchIsLaunchedFrom(plan.tasks, options, replies);
    var after := Launched(plan, options, replies).tasks;
    forall k | 0 <= k < |after|
      ensures Weight(after[k].state) <= Weight(plan.tasks[k].state)
      ensures plan.tasks[k].state != Failed ==> after[k].state != Failed
    {
      assert LaunchedAt(plan.tasks, after, k);
    }
    LighterTasks(plan.tasks, after);
  }

  /**
   * Only a failed job of the plan sets it back: every other legal event keeps it unfailed and never adds to the
   * measure.
   */
  lemma OnlyFailuresSetBack(w: World, e: Event, p: string)
    requires Inv(w) && Legal(w, e) && p in w.s.plans && NoneIn(w.s.plans[p].tasks, Failed) && !Fails(w, e, p)
    ensures var after := Step(w, e).s.plans;
            p in after && NoneIn(after[p].tasks, Failed) && Measure(after[p].tasks) <= Measure(w.s.plans[p].tasks)
  {
    assert w.s.plans[p].planId == p && PlanOk(w.s.plans[p]);
    if e.LaunchPlan? && e.planId == p {
      LaunchIsNotHeavier(w.s.plans[p], e.options, e.replies);
    } else if e.JobCompleted? && e.jobId in w.s.index && w.s.index[e.jobId].planId == p {
      IndexedJobsAreReportable(w, e.jobId);
      var i := Reportable(w.s, e.jobId).value;
      assert ReportAdvances(w.s.plans[p], Step(w, e).s.plans[p], i);
      ReportDecreases(w.s.plans[p], Step(w, e).s.plans[p], i);
    } else {
      OtherPlansStay(w, e, p);
    }
  }

  /** No job of the plan fails along the run. */
  ghost predicate NeverFails(w: World, events: seq<Event>, p: string)
    requires LegalFrom(w, events)
    decreases |events|
  {
    events == [] || (NeverFails(w, Front(events), p) && !Fails(RunFrom(w, Front(events)), Last(events), p))
  }

  /** How many events of the run post a task of the plan or complete one. */
  ghost function Advancing(w: World, events: seq<Event>, p: string): nat
    requires LegalFrom(w, events)
    decreases |events|
  {
    if events == [] then 0
    else
      var before, after := RunFrom(w, Front(events)), RunFrom(w, events);
      var here := p in before.s.plans && p in after.s.plans && Advances(before.s.plans[p], after.s.plans[p]);
      Advancing(w, Front(events), p) + if here then 1 else 0
  }

  /**
   * Along every run in which no job of the plan fails, the plan stays unfailed and the events that advance it are used
   * up by its measure: at most two a task, with any events of any plans between them.
   */
  lemma {:induction false} AdvancesAreBounded(w: World, events: seq<Event>, p: string)
    requires Inv(w) && LegalFrom(w, events) && p in w.s.plans && NoneIn(w.s.plans[p].tasks, Failed)
    requires NeverFails(w, events, p)
    ensures var w' := RunFrom(w, events);
            && Inv(w') && p in w'.s.plans && NoneIn(w'.s.plans[p].tasks, Failed)
            && Measure(w'.s.plans[p].tasks) + Advancing(w, events, p) <= Measure(w.s.plans[p].tasks) <=
                 2 * |w.s.plans[p].tasks|
    decreases |events|
  {
    MeasureBound(w.s.plans[p].tasks);
    if events != [] {
      AdvancesAreBounded(w, Front(events), p);
      var w1, e := RunFrom(w, Front(events)), Last(events);
      StepKeepsInv(w1, e);
      OnlyFailuresSetBack(w1, e, p);
      var before, after := w1.s.plans[p], Step(w1, e).s.plans[p];
      if Advances(before, after) {
        AdvanceDecreases(before, after);
      }
    }
  }

  // ----- The completion handler -----

  /** The handler is a run: the completion, then the launch it asks for. */
  lemma HandlerIsARun(w: World, jobId: string, success: bool, replies: seq<Option<string>>) returns (events: seq<Event>)
    requires jobId !in w.reported && Fresh(replies, w.issued + w.reported + {jobId})
    ensures LegalFrom(w, events) && RunFrom(w, events).s == CompleteAndResume(w.s, jobId, success, replies)
  {
    var report := JobCompleted(jobId, success);
    var rest := if Resumes(w.s, jobId, success) then [LaunchPlan(w.s.index[jobId].planId, UNRESTRICTED, replies)]
                else [];
    if rest != [] {
      assert Front(rest) == [] && RunFrom(Step(w, report), []) == Step(w, report);
      assert w.issued + w.reported + {jobId} == Step(w, report).issued + Step(w, report).reported;
    }
    RunFromCons(w, report, rest);
    events := [report] + rest;
  }

  /**
   * What a success handled with a working wallet leaves: the plan is completed, or a task of it is posted whose
   * completion will call the handler again.
   */
  lemma HandledSuccessLeavesWork(w: World, jobId: string, replies: seq<Option<string>>)
    requires Inv(w) && jobId !in w.reported && jobId in w.s.index
    requires NoneIn(w.s.plans[w.s.index[jobId].planId].tasks, Failed)
    requires replies != [] && replies[0].Some?
    ensures var p := w.s.index[jobId].planId;
            var plans := CompleteAndResume(w.s, jobId, true, replies).plans;
            p in plans && (plans[p].status == PlanCompleted || SomePosted(plans[p].tasks))
  {
    IndexedJobsAreReportable(w, jobId);
    CompletionKeepsInv(w, jobId, true);
    var p, i := w.s.index[jobId].planId, Reportable(w.s, jobId).value;
    var w1 := Step(w, JobCompleted(jobId, true));
    var plan := w1.s.plans[p];
    OnlyFailuresSetBack(w, JobCompleted(jobId, true), p);
    if plan.status != PlanCompleted {
      if SomePosted(plan.tasks) {
        PostedStaysPosted(plan, UNRESTRICTED, replies);
      } else {
        CompletionNeverStalls(w, jobId);
        FirstIsPosted(plan, replies);
      }
    }
  }

  ghost predicate SomePosted(tasks: seq<Task>) {
    exists k :: 0 <= k < |tasks| && tasks[k].state == Posted
  }

  lemma PostedStaysPosted(plan: Plan, options: LaunchOptions, replies: seq<Option<string>>)
    requires SomePosted(plan.tasks)
    ensures SomePosted(Launched(plan, options, replies).tasks)
  {
    LaunchIsLaunchedFrom(plan.tasks, options, replies);
    var after := Launched(plan, options, replies).tasks;
    var k :| 0 <= k < |plan.tasks| && plan.tasks[k].state == Posted;
    assert LaunchedAt(plan.tasks, after, k);
    assert after[k].state == Posted;
  }

  lemma FirstIsPosted(plan: Plan, replies: seq<Option<string>>)
    requires ToPost(plan.tasks, UNRESTRICTED) != [] && replies != [] && replies[0].Some?
    ensures SomePosted(Launched(plan, UNRESTRICTED, replies).tasks)
  {
    LaunchHasFacts(plan, UNRESTRICTED, replies);
    var ready := ToPost(plan.tasks, UNRESTRICTED);
    assert Launched(plan, UNRESTRICTED, replies).tasks[ready[0]].state == Posted;
  }
}
