/**
 * Operations of the planner that overlap in time or come twice.  A completion looks its job up before it takes the
 * lock, and operations on different plans have different locks; neither makes a difference to what whole operations
 * do (their parts are the subject of module JobPlannerSchedules).
 */
module JobPlannerOverlap {
  import opened Collections
  import opened JobPlanner
  import opened JobPlannerSafety

  // ----- Looking up before locking -----

  /** A task that has a job keeps it. */
  lemma StepKeepsJobs(w: World, e: Event, p: string, i: int, j: string)
    requires Inv(w) && Legal(w, e) && JobAt(w.s.plans, p, i, j)
    ensures JobAt(Step(w, e).s.plans, p, i, j)
    ensures Step(w, e).s.plans[p].tasks[i].id == w.s.plans[p].tasks[i].id
  {
    if e.LaunchPlan? {
      LaunchKeepsJobs(w, e, p, i, j);
    } else if e.JobCompleted? {
      CompletionKeepsJobs(w, e, p, i, j);
    }
  }

  lemma LaunchKeepsJobs(w: World, e: Event, p: string, i: int, j: string)
    requires Inv(w) && e.LaunchPlan? && JobAt(w.s.plans, p, i, j)
    ensures JobAt(Step(w, e).s.plans, p, i, j)
    ensures Step(w, e).s.plans[p].tasks[i].id == w.s.plans[p].tasks[i].id
  {
    assert PlanOk(w.s.plans[p]);
    LaunchKeepsJob(w.s.plans[p], e.options, e.replies, i);
    assert e.planId in w.s.plans ==> w.s.plans[e.planId].planId == e.planId;
  }

  lemma CompletionKeepsJobs(w: World, e: Event, p: string, i: int, j: string)
    requires Inv(w) && e.JobCompleted? && JobAt(w.s.plans, p, i, j)
    ensures JobAt(Step(w, e).s.plans, p, i, j)
    ensures Step(w, e).s.plans[p].tasks[i].id == w.s.plans[p].tasks[i].id
  {
    if e.jobId in w.s.index {
      IndexedJobsAreReportable(w, e.jobId);
      assert w.s.plans[w.s.index[e.jobId].planId].planId == w.s.index[e.jobId].planId;
    }
  }

  lemma LaunchKeepsJob(plan: Plan, options: LaunchOptions, replies: seq<Option<string>>, i: nat)
    requires i < |plan.tasks| && TaskOk(plan.tasks, i) && plan.tasks[i].jobId.Some?
    ensures var after := Launched(plan, options, replies).tasks;
            |after| == |plan.tasks| && after[i] == plan.tasks[i]
  {
    LaunchIsLaunchedFrom(plan.tasks, options, replies);
    assert LaunchedAt(plan.tasks, Launched(plan, options, replies).tasks, i);
  }

  lemma StepKeepsLookup(w: World, e: Event, jobId: string)
    requires Inv(w) && Legal(w, e) && jobId in w.s.index
    ensures jobId in Step(w, e).s.index && Step(w, e).s.index[jobId] == w.s.index[jobId]
  {
    var ref := w.s.index[jobId];
    assert Listed(w.s.plans, ref, jobId);
    var i :| JobAt(w.s.plans, ref.planId, i, jobId) && w.s.plans[ref.planId].tasks[i].id == ref.taskId;
    StepKeepsJobs(w, e, ref.planId, i, jobId);
    StepKeepsInv(w, e);
  }

  /** What a completion looked up is what it would look up once it holds the lock, whatever ran in between. */
  lemma {:induction false} EarlierLookupStillHolds(w: World, events: seq<Event>, jobId: string)
    requires Inv(w) && LegalFrom(w, events) && jobId in w.s.index
    ensures var w' := RunFrom(w, events); Inv(w') && jobId in w'.s.index && w'.s.index[jobId] == w.s.index[jobId]
    decreases |events|
  {
    if events != [] {
      EarlierLookupStillHolds(w, Front(events), jobId);
      StepKeepsLookup(RunFrom(w, Front(events)), Last(events), jobId);
      StepKeepsInv(RunFrom(w, Front(events)), Last(events));
    }
  }

  // ----- Operations on different plans -----

  /** An exact index is determined by the plans. */
  lemma ExactIndexIsUnique(plans: map<string, Plan>, a: map<string, Ref>, b: map<string, Ref>)
    requires IndexExact(plans, a) && IndexExact(plans, b)
    ensures a == b
  {
    SubIndex(plans, a, b);
    SubIndex(plans, b, a);
  }

  lemma SubIndex(plans: map<string, Plan>, a: map<string, Ref>, b: map<string, Ref>)
    requires IndexExact(plans, a) && IndexExact(plans, b)
    ensures forall j :: j in a ==> j in b && b[j] == a[j]
  {
    forall j | j in a
      ensures j in b && b[j] == a[j]
    {
      assert Listed(plans, a[j], j);
      var i :| JobAt(plans, a[j].planId, i, j) && plans[a[j].planId].tasks[i].id == a[j].taskId;
    }
  }

  /** The plan that a launch or a completion is about. */
  ghost function PlanOf(w: World, e: Event): Option<string> {
    match e
    case CreatePlan(_, _) => None
    case LaunchPlan(p, _, _) => if p in w.s.plans then Some(p) else None
    case JobCompleted(j, _) => if j in w.s.index then Some(w.s.index[j].planId) else None
  }

  /** The plan afterwards, from the plan and the looked-up task alone. */
  ghost function PlanAfter(plan: Plan, e: Event, taskId: string): Plan {
    match e
    case CreatePlan(_, _) => plan
    case LaunchPlan(_, options, replies) =>
      if plan.status == Draft || plan.status == Active then Launched(plan, options, replies) else plan
    case JobCompleted(_, success) =>
      var i := Find(plan.tasks, taskId);
      if i < |plan.tasks| then Reported(plan, i, success) else plan
  }

  ghost function TaskOf(w: World, e: Event): string {
    if e.JobCompleted? && e.jobId in w.s.index then w.s.index[e.jobId].taskId else ""
  }

  /** A launch or completion changes its own plan and no other. */
  lemma StepChangesOnePlan(w: World, e: Event)
    requires Inv(w) && Legal(w, e) && PlanOf(w, e).Some?
    ensures var p := PlanOf(w, e).value;
            p in w.s.plans && Step(w, e).s.plans == w.s.plans[p := PlanAfter(w.s.plans[p], e, TaskOf(w, e))]
  {
    if e.JobCompleted? {
      IndexedJobsAreReportable(w, e.jobId);
    }
    var p := PlanOf(w, e).value;
    assert w.s.plans[p].planId == p && PlanOk(w.s.plans[p]);
  }

  /** One operation leaves another on a different plan legal, and about the same plan and task. */
  lemma StepKeepsTarget(w: World, e: Event, f: Event)
    requires Inv(w) && Legal(w, e) && Legal(w, f)
    requires PlanOf(w, e).Some? && PlanOf(w, f).Some? && PlanOf(w, e) != PlanOf(w, f)
    ensures PlanOf(Step(w, e), f) == PlanOf(w, f) && TaskOf(Step(w, e), f) == TaskOf(w, f)
  {
    StepChangesOnePlan(w, e);
    if f.JobCompleted? {
      StepKeepsLookup(w, e, f.jobId);
    }
  }

  /** Operations on different plans, each taken as a whole, commute. */
  lemma DifferentPlansCommute(w: World, e: Event, f: Event)
    requires Inv(w) && Legal(w, e) && Legal(w, f) && Legal(Step(w, e), f) && Legal(Step(w, f), e)
    requires PlanOf(w, e).Some? && PlanOf(w, f).Some? && PlanOf(w, e) != PlanOf(w, f)
    ensures Step(Step(w, e), f).s == Step(Step(w, f), e).s
  {
    StepKeepsInv(w, e);
    StepKeepsInv(w, f);
    StepKeepsInv(Step(w, e), f);
    StepKeepsInv(Step(w, f), e);
    StepKeepsTarget(w, e, f);
    StepKeepsTarget(w, f, e);
    StepChangesOnePlan(w, e);
    StepChangesOnePlan(w, f);
    StepChangesOnePlan(Step(w, e), f);
    StepChangesOnePlan(Step(w, f), e);
    SamePlansEitherWay(w.s.plans, PlanOf(w, e).value, PlanOf(w, f).value,
                       PlanAfter(w.s.plans[PlanOf(w, e).value], e, TaskOf(w, e)),
                       PlanAfter(w.s.plans[PlanOf(w, f).value], f, TaskOf(w, f)));
    ExactIndexIsUnique(Step(Step(w, e), f).s.plans, Step(Step(w, e), f).s.index, Step(Step(w, f), e).s.index);
  }

  lemma SamePlansEitherWay(plans: map<string, Plan>, p: string, q: string, a: Plan, b: Plan)
    requires p != q
    ensures plans[p := a][q := b] == plans[q := b][p := a]
  {
  }

  // ----- Reporting a job twice -----

  /**
   * A job reported again finds its index entry back in place.  The second report changes nothing if and only if it
   * repeats the recorded outcome; with the other outcome it overwrites the task and, by the rules of a first report,
   * the status.
   */
  lemma SecondReport(w: World, jobId: string, success: bool)
    requires Inv(w) && jobId in w.s.index && jobId in w.reported
    ensures Reportable(w.s, jobId).Some?
    ensures var p, k := w.s.index[jobId].planId, Reportable(w.s, jobId).value;
            var plan, after := w.s.plans[p], Complete(w.s, jobId, success);
            && plan.tasks[k].success.Some?
            && (after == w.s <==> plan.tasks[k].success == Some(success))
            && after == w.s.(plans := w.s.plans[p := after.plans[p]])
            && after.plans[p].tasks[k].success == Some(success)
            && (!success ==> after.plans[p].status == PlanFailed)
            && (after != w.s && success ==>
                  plan.status == PlanFailed
                  && after.plans[p].status == if AllCompleted(after.plans[p].tasks) then PlanCompleted else PlanFailed)
  {
    IndexedJobsAreReportable(w, jobId);
    var p, k := w.s.index[jobId].planId, Reportable(w.s, jobId).value;
    var plan := w.s.plans[p];
    assert plan.planId == p && PlanOk(plan) && TaskOk(plan.tasks, k);
    assert JobAt(w.s.plans, p, k, jobId) && JobAccounted(w, p, k, jobId);
    SecondReportKeepsIndex(w, jobId, k, success);
    if plan.tasks[k].success == Some(success) {
      SameOutcomeChangesNothing(plan, k, success);
      assert w.s.plans[p := plan] == w.s.plans;
    }
  }

  lemma SecondReportKeepsIndex(w: World, jobId: string, k: nat, success: bool)
    requires Inv(w) && jobId in w.s.index && Reportable(w.s, jobId) == Some(k)
    ensures Complete(w.s, jobId, success).index == w.s.index
  {
    var p := w.s.index[jobId].planId;
    var plan' := Reported(w.s.plans[p], k, success);
    assert plan'.planId == p && JobAt(w.s.plans, p, k, jobId);
    var after := Complete(w.s, jobId, success);
    assert IndexExact(after.plans, after.index) by {
      CompletionIsExact(w, jobId, k, plan');
    }
    assert IndexExact(after.plans, w.s.index) by {
      ReportingKeepsJobs(w.s.plans, p, k, success);
      ExactIndexSurvives(w.s.plans, after.plans, w.s.index);
    }
    ExactIndexIsUnique(after.plans, w.s.index, after.index);
  }

  lemma ReportingKeepsJobs(plans: map<string, Plan>, p: string, k: nat, success: bool)
    requires p in plans && k < |plans[p].tasks|
    ensures var plans' := plans[p := Reported(plans[p], k, success)];
            && (forall q, i, j :: JobAt(plans', q, i, j) <==> JobAt(plans, q, i, j))
            && (forall q :: q in plans ==> SameShape(plans[q].tasks, plans'[q].tasks))
  {
  }

  /** An index is exact for any plans with the same jobs at the same tasks. */
  lemma ExactIndexSurvives(plans: map<string, Plan>, plans': map<string, Plan>, index: map<string, Ref>)
    requires IndexExact(plans, index) && plans.Keys == plans'.Keys
    requires forall q, i, j :: JobAt(plans', q, i, j) <==> JobAt(plans, q, i, j)
    requires forall q :: q in plans ==> SameShape(plans[q].tasks, plans'[q].tasks)
    ensures IndexExact(plans', index)
  {
    forall j | j in index
      ensures Listed(plans', index[j], j)
    {
      assert Listed(plans, index[j], j);
      var i :| JobAt(plans, index[j].planId, i, j) && plans[index[j].planId].tasks[i].id == index[j].taskId;
      assert JobAt(plans', index[j].planId, i, j);
    }
  }

  lemma SameOutcomeChangesNothing(plan: Plan, k: nat, success: bool)
    requires PlanOk(plan) && k < |plan.tasks| && plan.tasks[k].success == Some(success)
    ensures Reported(plan, k, success) == plan
  {
    assert TaskOk(plan.tasks, k);
    assert plan.tasks[k := plan.tasks[k]] == plan.tasks;
  }
}
