/**
 * Operations of the planner taken apart (agent-gateway/jobPlanner.ts).  An operation can be suspended between its
 * parts, and only the lock of its plan keeps others out; whatever schedule the locks allow, the operations have the
 * effect of one after the other.
 */
module JobPlannerSchedules {
  import opened Collections
  import opened JobPlanner
  import opened JobPlannerSafety
  import opened JobPlannerOverlap

  /**
   * A part runs without suspension: a cached plan changes in place, an index entry comes or goes, or a plan is saved.
   */
  datatype Part =
    | Change(plan: Plan)
    | AddJob(jobId: string, ref: Ref)
    | DropJob(jobId: string, ref: Ref)
    | Save(plan: Plan)
  {
    function PlanId(): string {
      match this
      case Change(plan) => plan.planId
      case AddJob(_, ref) => ref.planId
      case DropJob(_, ref) => ref.planId
      case Save(plan) => plan.planId
    }

    /** The jobs whose index entries the part may write or drop, next to the old entries of its own plan. */
    function Jobs(): set<string> {
      match this
      case Change(_) => {}
      case AddJob(j, _) => {j}
      case DropJob(j, _) => {j}
      case Save(plan) => JobRefs(plan).Keys
    }
  }

  function Apply(s: State, part: Part): State {
    match part
    case Change(plan) => s.(plans := s.plans[plan.planId := plan])
    case AddJob(j, ref) => s.(index := s.index[j := ref])
    case DropJob(j, _) => s.(index := s.index - {j})
    case Save(plan) => Saved(s, plan)
  }

  function ApplyAll(s: State, parts: seq<Part>): State {
    if parts == [] then s else Apply(ApplyAll(s, Front(parts)), Last(parts))
  }

  lemma {:induction false} ApplyMore(s: State, a: seq<Part>, b: seq<Part>)
    ensures ApplyAll(s, a + b) == ApplyAll(ApplyAll(s, a), b)
  {
    if b == [] {
      assert a + b == a;
    } else {
      assert Front(a + b) == a + Front(b) && Last(a + b) == Last(b);
      ApplyMore(s, a, Front(b));
    }
  }

  // ----- Parts of different plans commute -----

  /** The index entries that saving a plan writes. */
  function JobRefs(plan: Plan): map<string, Ref> {
    AddJobs(map[], plan, |plan.tasks|)
  }

  lemma {:induction false} AddJobsIsUnion(index: map<string, Ref>, plan: Plan, n: nat)
    requires n <= |plan.tasks|
    ensures AddJobs(index, plan, n) == index + AddJobs(map[], plan, n)
  {
    if n > 0 {
      AddJobsIsUnion(index, plan, n - 1);
    }
  }

  lemma {:induction false} AddedJobsAre(plan: Plan, n: nat)
    requires n <= |plan.tasks|
    ensures var added := AddJobs(map[], plan, n);
            forall j :: j in added ==> added[j].planId == plan.planId && HoldsJob(plan, n, j)
  {
    if n > 0 {
      AddedJobsAre(plan, n - 1);
      var before, added := AddJobs(map[], plan, n - 1), AddJobs(map[], plan, n);
      forall j | j in added
        ensures added[j].planId == plan.planId && HoldsJob(plan, n, j)
      {
        if plan.tasks[n - 1].jobId != Some(j) {
          assert j in before && HoldsJob(plan, n - 1, j);
        }
      }
    }
  }

  ghost predicate HoldsJob(plan: Plan, n: nat, j: string)
    requires n <= |plan.tasks|
  {
    exists k :: 0 <= k < n && plan.tasks[k].jobId == Some(j)
  }

  lemma ReindexedIsUnion(index: map<string, Ref>, plan: Plan)
    ensures Reindexed(index, plan) == OtherPlans(index, plan.planId) + JobRefs(plan)
    ensures forall j :: j in JobRefs(plan) ==> JobRefs(plan)[j].planId == plan.planId
  {
    AddJobsIsUnion(OtherPlans(index, plan.planId), plan, |plan.tasks|);
    AddedJobsAre(plan, |plan.tasks|);
  }

  ghost predicate Independent(a: Part, b: Part) {
    a.PlanId() != b.PlanId() && a.Jobs() !! b.Jobs()
  }

  lemma PartsCommute(s: State, a: Part, b: Part)
    requires Independent(a, b)
    ensures Apply(Apply(s, a), b) == Apply(Apply(s, b), a)
  {
    if a.Save? {
      SaveCommutes(s, a.plan, b);
    } else if b.Save? {
      SaveCommutes(s, b.plan, a);
    }
  }

  lemma SaveCommutes(s: State, plan: Plan, b: Part)
    requires Independent(Save(plan), b)
    ensures Apply(Saved(s, plan), b) == Saved(Apply(s, b), plan)
  {
    match b
    case Change(other) =>
      SamePlansEitherWay(s.plans, plan.planId, other.planId, plan, other);
    case AddJob(j, ref) =>
      ReindexedIsUnion(s.index, plan);
      ReindexedIsUnion(s.index[j := ref], plan);
      WriteCommutes(s.index, plan.planId, JobRefs(plan), j, ref);
    case DropJob(j, _) =>
      ReindexedIsUnion(s.index, plan);
      ReindexedIsUnion(s.index - {j}, plan);
      DropCommutes(s.index, plan.planId, JobRefs(plan), j);
    case Save(other) =>
      SamePlansEitherWay(s.plans, plan.planId, other.planId, plan, other);
      ReindexingsCommute(s.index, plan, other);
  }

  lemma ReindexingsCommute(index: map<string, Ref>, a: Plan, b: Plan)
    requires a.planId != b.planId && JobRefs(a).Keys !! JobRefs(b).Keys
    ensures Reindexed(Reindexed(index, a), b) == Reindexed(Reindexed(index, b), a)
  {
    ReindexedIsUnion(index, a);
    ReindexedIsUnion(index, b);
    ReindexedIsUnion(Reindexed(index, a), b);
    ReindexedIsUnion(Reindexed(index, b), a);
    OthersOfUnion(index, a.planId, JobRefs(a), b.planId);
    OthersOfUnion(index, b.planId, JobRefs(b), a.planId);
    OthersCommute(index, a.planId, b.planId);
    DisjointUnionsCommute(OtherPlans(OtherPlans(index, a.planId), b.planId), JobRefs(a), JobRefs(b));
  }

  lemma WriteCommutes(index: map<string, Ref>, p: string, refs: map<string, Ref>, j: string, ref: Ref)
    requires j !in refs && ref.planId != p
    ensures (OtherPlans(index, p) + refs)[j := ref] == OtherPlans(index[j := ref], p) + refs
  {
  }

  lemma DropCommutes(index: map<string, Ref>, p: string, refs: map<string, Ref>, j: string)
    requires j !in refs
    ensures (OtherPlans(index, p) + refs) - {j} == OtherPlans(index - {j}, p) + refs
  {
  }

  lemma OthersOfUnion(index: map<string, Ref>, p: string, refs: map<string, Ref>, q: string)
    requires p != q && forall j :: j in refs ==> refs[j].planId == p
    ensures OtherPlans(OtherPlans(index, p) + refs, q) == OtherPlans(OtherPlans(index, p), q) + refs
  {
  }

  lemma OthersCommute(index: map<string, Ref>, p: string, q: string)
    ensures OtherPlans(OtherPlans(index, p), q) == OtherPlans(OtherPlans(index, q), p)
  {
  }

  lemma DisjointUnionsCommute(index: map<string, Ref>, a: map<string, Ref>, b: map<string, Ref>)
    requires a.Keys !! b.Keys
    ensures index + a + b == index + b + a
  {
  }

  lemma {:induction false} MovePast(s: State, parts: seq<Part>, x: Part)
    requires forall y :: y in parts ==> Independent(y, x)
    ensures Apply(ApplyAll(s, parts), x) == ApplyAll(Apply(s, x), parts)
  {
    if parts != [] {
      assert Last(parts) in parts;
      MovePast(s, Front(parts), x);
      PartsCommute(ApplyAll(s, Front(parts)), Last(parts), x);
    }
  }

  // ----- The parts of an operation -----

  /** The loop of a launch: every posting changes its task and, when it succeeded, writes the index. */
  function PostParts(plan: Plan, ready: seq<nat>, replies: seq<Option<string>>, n: nat): seq<Part>
    requires n <= |ready| && forall m :: 0 <= m < |ready| ==> ready[m] < |plan.tasks|
  {
    if n == 0 then [Change(plan.(status := Active))]
    else
      var reply := ReplyAt(replies, n - 1);
      PostParts(plan, ready, replies, n - 1)
      + [Change(plan.(status := Active, tasks := PostAll(plan.tasks, ready, replies, n)))]
      + if reply.Some? then [AddJob(reply.value, Ref(plan.planId, plan.tasks[ready[n - 1]].id))] else []
  }

  function LaunchParts(plan: Plan, options: LaunchOptions, replies: seq<Option<string>>): seq<Part> {
    var ready := ToPost(plan.tasks, options);
    PostParts(plan, ready, replies, |ready|) + [Save(Launched(plan, options, replies))]
  }

  /** A completion changes the task, drops the index entry, settles the plan's status and saves. */
  function CompletionParts(plan: Plan, k: nat, jobId: string, ref: Ref, success: bool): seq<Part>
    requires k < |plan.tasks|
  {
    var reported := Reported(plan, k, success);
    [Change(reported.(status := plan.status)), DropJob(jobId, ref), Change(reported), Save(reported)]
  }

  /** The parts of an operation that starts in this state, under its plan's lock. */
  ghost function Parts(s: State, e: Event): seq<Part> {
    match e
    case CreatePlan(p, specs) =>
      if p in s.plans || !GoodDefinition(specs) then [] else [Save(Plan(p, Draft, NewTasks(specs)))]
    case LaunchPlan(p, options, replies) =>
      if Launchable(s, p) then LaunchParts(s.plans[p], options, replies) else []
    case JobCompleted(j, success) =>
      if j !in s.index || s.index[j].planId !in s.plans then []
      else
        match Reportable(s, j)
        case None => [DropJob(j, s.index[j])]
        case Some(k) => CompletionParts(s.plans[s.index[j].planId], k, j, s.index[j], success)
  }

  lemma {:induction false} PostPartsPost(s: State, plan: Plan, ready: seq<nat>, replies: seq<Option<string>>, n: nat)
    requires n <= |ready| && forall m :: 0 <= m < |ready| ==> ready[m] < |plan.tasks|
    ensures ApplyAll(s, PostParts(plan, ready, replies, n)) ==
            State(s.plans[plan.planId := plan.(status := Active, tasks := PostAll(plan.tasks, ready, replies, n))],
                  PostIndex(s.index, plan, ready, replies, n))
  {
    if n == 0 {
      ApplyMore(s, [], [Change(plan.(status := Active))]);
    } else {
      PostPartsPost(s, plan, ready, replies, n - 1);
      var before, reply := PostParts(plan, ready, replies, n - 1), ReplyAt(replies, n - 1);
      var change := Change(plan.(status := Active, tasks := PostAll(plan.tasks, ready, replies, n)));
      ApplyMore(s, before, [change]);
      assert Front([change]) == [];
      if reply.Some? {
        var add := AddJob(reply.value, Ref(plan.planId, plan.tasks[ready[n - 1]].id));
        ApplyMore(s, before + [change], [add]);
        assert Front([add]) == [];
      } else {
        assert before + [change] + [] == before + [change];
      }
    }
  }

  /** Undisturbed, the parts of an operation do what the operation does. */
  lemma PartsAreTheOperation(w: World, e: Event)
    requires Inv(w)
    ensures ApplyAll(w.s, Parts(w.s, e)) == Step(w, e).s
  {
    match e
    case CreatePlan(p, specs) =>
      if p !in w.s.plans && GoodDefinition(specs) {
        ApplyMore(w.s, [], [Save(Plan(p, Draft, NewTasks(specs)))]);
      }
    case LaunchPlan(p, options, replies) =>
      if Launchable(w.s, p) {
        var plan := w.s.plans[p];
        var ready := ToPost(plan.tasks, options);
        PostPartsPost(w.s, plan, ready, replies, |ready|);
        var posted := PostParts(plan, ready, replies, |ready|);
        ApplyMore(w.s, posted, [Save(Launched(plan, options, replies))]);
        SaveForgetsTheCachedPlan(w.s, PostIndex(w.s.index, plan, ready, replies, |ready|),
                                 plan.(status := Active, tasks := PostAll(plan.tasks, ready, replies, |ready|)),
                                 Launched(plan, options, replies));
      }
    case JobCompleted(j, success) =>
      if j in w.s.index {
        IndexedJobsAreReportable(w, j);
        CompletionPartsComplete(w.s, w.s.plans[w.s.index[j].planId], Reportable(w.s, j).value, j, w.s.index[j],
                                success);
      }
  }

  lemma SaveForgetsTheCachedPlan(s: State, index: map<string, Ref>, cached: Plan, plan: Plan)
    requires cached.planId == plan.planId
    ensures Saved(State(s.plans[plan.planId := cached], index), plan) == Saved(s.(index := index), plan)
  {
  }

  lemma CompletionPartsComplete(s: State, plan: Plan, k: nat, jobId: string, ref: Ref, success: bool)
    requires k < |plan.tasks|
    ensures ApplyAll(s, CompletionParts(plan, k, jobId, ref, success)) ==
            Saved(s.(index := s.index - {jobId}), Reported(plan, k, success))
  {
    var reported := Reported(plan, k, success);
    var changed := reported.(status := plan.status);
    FourParts(s, Change(changed), DropJob(jobId, ref), Change(reported), Save(reported));
    assert s.plans[plan.planId := changed][plan.planId := reported] == s.plans[plan.planId := reported];
    SaveForgetsTheCachedPlan(s, s.index - {jobId}, reported, reported);
  }

  lemma FourParts(s: State, a: Part, b: Part, c: Part, d: Part)
    ensures ApplyAll(s, [a, b, c, d]) == Apply(Apply(Apply(Apply(s, a), b), c), d)
  {
    assert Front([a, b, c, d]) == [a, b, c] && Front([a, b, c]) == [a, b] && Front([a, b]) == [a] && Front([a]) == [];
    assert ApplyAll(s, [a]) == Apply(s, a);
    assert ApplyAll(s, [a, b]) == Apply(Apply(s, a), b);
  }

  // ----- Schedules -----

  /** A part that ran, and the number of the operation that it belongs to. */
  datatype Ran = Ran(op: nat, part: Part)

  function Play(s: State, schedule: seq<Ran>): State {
    if schedule == [] then s else Apply(Play(s, Front(schedule)), Last(schedule).part)
  }

  /** The parts of one operation, in the order they ran. */
  function OfOp(schedule: seq<Ran>, op: nat): (parts: seq<Part>)
    ensures forall x :: x in parts ==> Ran(op, x) in schedule
  {
    if schedule == [] then []
    else
      assert schedule == Front(schedule) + [Last(schedule)];
      if Last(schedule).op == op then OfOp(Front(schedule), op) + [Last(schedule).part] else OfOp(Front(schedule), op)
  }

  function WithoutOp(schedule: seq<Ran>, op: nat): (rest: seq<Ran>)
    ensures forall x :: x in rest ==> x in schedule && x.op != op
  {
    if schedule == [] then []
    else
      assert schedule == Front(schedule) + [Last(schedule)];
      if Last(schedule).op != op then WithoutOp(Front(schedule), op) + [Last(schedule)]
      else WithoutOp(Front(schedule), op)
  }

  /** What the locks allow: operations on one plan run one after the other, in the order of their numbers. */
  ghost predicate Locked(schedule: seq<Ran>) {
    schedule == [] ||
    (Locked(Front(schedule)) &&
     forall x :: x in Front(schedule) && x.part.PlanId() == Last(schedule).part.PlanId() ==> x.op <= Last(schedule).op)
  }

  lemma {:induction false} LockedWithout(schedule: seq<Ran>, op: nat)
    requires Locked(schedule)
    ensures Locked(WithoutOp(schedule, op))
  {
    if schedule != [] {
      LockedWithout(Front(schedule), op);
      if Last(schedule).op != op {
        assert Front(WithoutOp(schedule, op)) == WithoutOp(Front(schedule), op);
      }
    }
  }

  lemma {:induction false} OfOpWithout(schedule: seq<Ran>, op: nat, other: nat)
    requires op != other
    ensures OfOp(WithoutOp(schedule, other), op) == OfOp(schedule, op)
  {
    if schedule != [] {
      OfOpWithout(Front(schedule), op, other);
      if Last(schedule).op != other {
        assert Front(WithoutOp(schedule, other)) == WithoutOp(Front(schedule), other);
      }
    }
  }

  /** Parts of different plans are about different jobs. */
  ghost predicate JobsApart(schedule: seq<Ran>) {
    forall x, y :: x in schedule && y in schedule && x.part.PlanId() != y.part.PlanId() ==>
      x.part.Jobs() !! y.part.Jobs()
  }

  /** The last operation's parts can all be moved to the end. */
  lemma {:induction false} LastOpMovesToEnd(s: State, schedule: seq<Ran>, op: nat)
    requires Locked(schedule) && JobsApart(schedule) && forall x :: x in schedule ==> x.op <= op
    ensures Play(s, schedule) == ApplyAll(Play(s, WithoutOp(schedule, op)), OfOp(schedule, op))
  {
    if schedule != [] {
      var front, last := Front(schedule), Last(schedule);
      assert schedule == front + [last];
      LastOpMovesToEnd(s, front, op);
      var rest, parts := WithoutOp(front, op), OfOp(front, op);
      if last.op == op {
        assert Front(OfOp(schedule, op)) == parts;
      } else {
        assert Front(WithoutOp(schedule, op)) == rest;
        forall y | y in parts
          ensures Independent(y, last.part)
        {
          assert Ran(op, y) in front && last in schedule;
        }
        MovePast(Play(s, rest), parts, last.part);
      }
    }
  }

  /**
   * A schedule of these operations: each runs its own parts, from the state that its plan was in when it got the
   * lock.
   */
  ghost predicate Schedules(w: World, events: seq<Event>, schedule: seq<Ran>) {
    && Locked(schedule)
    && (forall x :: x in schedule ==> x.op < |events|)
    && forall k :: 0 <= k < |events| ==> OfOp(schedule, k) == PartsAt(w, events, k)
  }

  ghost function PartsAt(w: World, events: seq<Event>, k: nat): seq<Part>
    requires k < |events|
  {
    Parts(RunFrom(w, events[..k]).s, events[k])
  }

  /** The jobs that a part is about are jobs of its plan's tasks. */
  ghost predicate OwnJobs(plans: map<string, Plan>, part: Part) {
    forall j :: j in part.Jobs() ==> HasJob(plans, part.PlanId(), j)
  }

  ghost predicate HasJob(plans: map<string, Plan>, p: string, j: string) {
    exists i :: JobAt(plans, p, i, j)
  }

  lemma SavesOwnJobs(plans: map<string, Plan>, plan: Plan)
    requires plan.planId in plans && plans[plan.planId].tasks == plan.tasks
    ensures OwnJobs(plans, Save(plan))
  {
    AddedJobsAre(plan, |plan.tasks|);
    forall j | j in JobRefs(plan)
      ensures HasJob(plans, plan.planId, j)
    {
      assert HoldsJob(plan, |plan.tasks|, j);
      var i :| 0 <= i < |plan.tasks| && plan.tasks[i].jobId == Some(j);
      assert JobAt(plans, plan.planId, i, j);
    }
  }

  lemma {:induction false} PostPartsOwnJobs(plans: map<string, Plan>, plan: Plan, ready: seq<nat>,
                                            replies: seq<Option<string>>, n: nat)
    requires n <= |ready| && forall m :: 0 <= m < |ready| ==> ready[m] < |plan.tasks|
    requires plan.planId in plans && LaunchFacts(plan, ready, replies, plans[plan.planId].tasks)
    ensures forall x :: x in PostParts(plan, ready, replies, n) ==> OwnJobs(plans, x)
  {
    if n > 0 {
      PostPartsOwnJobs(plans, plan, ready, replies, n - 1);
      var reply := ReplyAt(replies, n - 1);
      if reply.Some? {
        assert plans[plan.planId].tasks[ready[n - 1]] == PostedTask(plan.tasks[ready[n - 1]], reply);
        assert JobAt(plans, plan.planId, ready[n - 1], reply.value);
        assert HasJob(plans, plan.planId, reply.value);
      }
    }
  }

  lemma PartsOwnJobs(w: World, e: Event, x: Part)
    requires Inv(w) && Legal(w, e) && x in Parts(w.s, e)
    ensures OwnJobs(Step(w, e).s.plans, x)
  {
    var plans := Step(w, e).s.plans;
    match e
    case CreatePlan(p, specs) => SavesOwnJobs(plans, Plan(p, Draft, NewTasks(specs)));
    case LaunchPlan(p, options, replies) =>
      var plan := w.s.plans[p];
      assert plan.planId == p;
      LaunchHasFacts(plan, options, replies);
      var ready := ToPost(plan.tasks, options);
      PostPartsOwnJobs(plans, plan, ready, replies, |ready|);
      SavesOwnJobs(plans, Launched(plan, options, replies));
    case JobCompleted(j, success) =>
      IndexedJobsAreReportable(w, j);
      var ref, k := w.s.index[j], Reportable(w.s, j).value;
      assert w.s.plans[ref.planId].planId == ref.planId;
      assert JobAt(plans, ref.planId, k, j) && HasJob(plans, ref.planId, j);
      SavesOwnJobs(plans, Reported(w.s.plans[ref.planId], k, success));
  }

  lemma {:induction false} RunKeepsInv(w: World, events: seq<Event>)
    requires Inv(w) && LegalFrom(w, events)
    ensures Inv(RunFrom(w, events))
    decreases |events|
  {
    if events != [] {
      RunKeepsInv(w, Front(events));
      StepKeepsInv(RunFrom(w, Front(events)), Last(events));
    }
  }

  /** What a part of an earlier operation is about still belongs to its plan when all operations are through. */
  lemma {:induction false} PartsOwnJobsAtTheEnd(w: World, events: seq<Event>, k: nat, x: Part)
    requires Inv(w) && LegalFrom(w, events) && k < |events| && x in PartsAt(w, events, k)
    ensures OwnJobs(RunFrom(w, events).s.plans, x)
    decreases |events|
  {
    var front := Front(events);
    RunKeepsInv(w, front);
    var before, after := RunFrom(w, front), RunFrom(w, events);
    if k == |events| - 1 {
      assert events[..k] == front;
      PartsOwnJobs(before, events[k], x);
    } else {
      assert events[..k] == front[..k];
      PartsOwnJobsAtTheEnd(w, front, k, x);
      forall j | j in x.Jobs()
        ensures HasJob(after.s.plans, x.PlanId(), j)
      {
        assert HasJob(before.s.plans, x.PlanId(), j);
        var i :| JobAt(before.s.plans, x.PlanId(), i, j);
        StepKeepsJobs(before, Last(events), x.PlanId(), i, j);
      }
    }
  }

  lemma {:induction false} RanIsOfItsOp(schedule: seq<Ran>, x: Ran)
    requires x in schedule
    ensures x.part in OfOp(schedule, x.op)
  {
    assert schedule == Front(schedule) + [Last(schedule)];
    if x in Front(schedule) {
      RanIsOfItsOp(Front(schedule), x);
    }
  }

  lemma ScheduledJobsAreApart(w: World, events: seq<Event>, schedule: seq<Ran>)
    requires Inv(w) && LegalFrom(w, events) && Schedules(w, events, schedule)
    ensures JobsApart(schedule)
  {
    var end := RunFrom(w, events);
    RunKeepsInv(w, events);
    forall x | x in schedule
      ensures OwnJobs(end.s.plans, x.part)
    {
      RanIsOfItsOp(schedule, x);
      PartsOwnJobsAtTheEnd(w, events, x.op, x.part);
    }
    forall x, y, j | x in schedule && y in schedule && j in x.part.Jobs() && j in y.part.Jobs()
      ensures x.part.PlanId() == y.part.PlanId()
    {
      assert OwnJobs(end.s.plans, x.part) && OwnJobs(end.s.plans, y.part);
      assert HasJob(end.s.plans, x.part.PlanId(), j) && HasJob(end.s.plans, y.part.PlanId(), j);
      var i :| JobAt(end.s.plans, x.part.PlanId(), i, j);
      var k :| JobAt(end.s.plans, y.part.PlanId(), k, j);
      JobsAreDistinct(end, x.part.PlanId(), y.part.PlanId(), i, k, j);
    }
  }

  /**
   * However the parts of any number of operations interleave, as long as the locks keep operations on one plan apart:
   * the plans and the index end up as if the operations had run one after the other.
   */
  lemma {:induction false} SchedulesAreSerial(w: World, events: seq<Event>, schedule: seq<Ran>)
    requires Inv(w) && LegalFrom(w, events) && Schedules(w, events, schedule)
    ensures Play(w.s, schedule) == RunFrom(w, events).s
    decreases |events|
  {
    if events == [] {
      assert schedule != [] ==> Last(schedule) in schedule;
    } else {
      var n, front := |events| - 1, Front(events);
      ScheduledJobsAreApart(w, events, schedule);
      LastOpMovesToEnd(w.s, schedule, n);
      EarlierOpsAreScheduled(w, events, schedule);
      SchedulesAreSerial(w, front, WithoutOp(schedule, n));
      RunKeepsInv(w, front);
      PartsAreTheOperation(RunFrom(w, front), Last(events));
      assert events[..n] == front && OfOp(schedule, n) == PartsAt(w, events, n);
    }
  }

  lemma EarlierOpsAreScheduled(w: World, events: seq<Event>, schedule: seq<Ran>)
    requires events != [] && Schedules(w, events, schedule)
    ensures Schedules(w, Front(events), WithoutOp(schedule, |events| - 1))
  {
    var n, front := |events| - 1, Front(events);
    LockedWithout(schedule, n);
    forall k | 0 <= k < n
      ensures OfOp(WithoutOp(schedule, n), k) == PartsAt(w, front, k)
    {
      OfOpWithout(schedule, k, n);
      assert front[..k] == events[..k] && OfOp(schedule, k) == PartsAt(w, events, k);
    }
  }
}
