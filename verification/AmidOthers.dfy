/** Recovery amid others: startup and drain while the API, deletions and the other lane's worker go on. */
module AmidOthers {
  import opened Basics
  import opened Protocol
  import opened Safety
  import opened Delivery
  import opened Worlds
  import opened WorkerCommon
  import opened Credits

  /** The steps of a reconcile that found n jobs missing. */
  function ReconcileSteps(wanted: set<JobStatus>, rows: seq<int>, n: nat): seq<WorkerStep> {
    [ScanQueue(wanted), ScanProcessing, QueryJobs(rows)] + Pushes(n)
  }

  function FullReconcile(rows: seq<int>, n: nat): seq<WorkerStep> {
    ReconcileSteps(UNFINISHED, rows, n)
  }

  predicate SeenAreListed(lane: Lane, seen: set<int>) {
    forall id | id in seen :: Listed(lane, id)
  }

  predicate HasStatus(db: Db, id: int, wanted: set<JobStatus>) {
    id in db.jobs && db.jobs[id].status in wanted
  }

  /** Every job with one of these statuses that was issued by then is on the lists, or still to be pushed. */
  ghost predicate ListedOrPlanned(s: System, t: JobType, issued: map<int, JobType>, wanted: set<JobStatus>) {
    var lane := s.LaneOf(t);
    forall id | IssuedTo(issued, t, id) && HasStatus(s.db, id, wanted) ::
      Listed(lane, id) || (lane.stage.Pushing? && id in lane.stage.todo)
  }

  /** What a reconcile has achieved after k of its steps. */
  ghost predicate Phase(s: System, t: JobType, issued: map<int, JobType>, wanted: set<JobStatus>, k: nat) {
    var lane := s.LaneOf(t);
    if k == 0 then lane.stage.Idle?
    else if k == 1 then
      lane.stage.ScannedQueue? && lane.stage.statuses == wanted && SeenAreListed(lane, lane.stage.seen)
    else if k == 2 then
      lane.stage.ScannedAll? && lane.stage.statuses == wanted && SeenAreListed(lane, lane.stage.seen)
    else
      lane.stage.ScannedAll? || ((lane.stage.Idle? || lane.stage.Pushing?) && ListedOrPlanned(s, t, issued, wanted))
  }

  ghost predicate StillIssued(s: System, issued: map<int, JobType>) {
    forall id | id in issued :: id in s.issued && s.issued[id] == issued[id]
  }

  // ---------------------------------------------------------------- the worker's own steps

  lemma QueryCovers(s: System, t: JobType, issued: map<int, JobType>, wanted: set<JobStatus>, rows: seq<int>)
    requires Inv(s) && StillIssued(s, issued) && Phase(s, t, issued, wanted, 2)
    ensures Phase(Step(s, Work(t, QueryJobs(rows))), t, issued, wanted, 3)
  {
    hide OneJobPerAsset;
    var lane := s.LaneOf(t);
    if Enumerates(rows, Eligible(s.db, t, wanted)) {
      MissingIsPart(rows, lane.stage.seen);
      forall id | IssuedTo(issued, t, id) && HasStatus(s.db, id, wanted)
        ensures Listed(lane, id) || id in Missing(rows, lane.stage.seen)
      {
        assert id in Eligible(s.db, t, wanted);
        assert id in rows;
      }
    }
  }

  lemma PushCovers(s: System, t: JobType, issued: map<int, JobType>, wanted: set<JobStatus>, k: nat)
    requires k >= 3 && Phase(s, t, issued, wanted, k)
    ensures Phase(Step(s, Work(t, PushOrphan)), t, issued, wanted, k + 1)
  {
    var lane := s.LaneOf(t);
    if lane.stage.Pushing? && lane.stage.todo != [] {
      var s', todo := Step(s, Work(t, PushOrphan)), lane.stage.todo;
      assert todo == [todo[0]] + todo[1..];
      assert s'.LaneOf(t).queue == lane.queue + [Id(todo[0])];
    }
  }

  lemma OwnStep(s: System, t: JobType, issued: map<int, JobType>, wanted: set<JobStatus>, rows: seq<int>, n: nat,
                k: nat)
    requires Inv(s) && StillIssued(s, issued) && Phase(s, t, issued, wanted, k)
    requires k < |ReconcileSteps(wanted, rows, n)|
    ensures Phase(Step(s, Work(t, ReconcileSteps(wanted, rows, n)[k])), t, issued, wanted, k + 1)
  {
    if k == 2 { QueryCovers(s, t, issued, wanted, rows); }
    else if k >= 3 { PushCovers(s, t, issued, wanted, k); }
  }

  // ---------------------------------------------------------------- everybody else's

  /** Nobody else changes the status of a job of this lane. */
  lemma OthersKeepStatus(s: System, e: Event, t: JobType, id: int)
    requires Inv(s) && MovesFor(Worker(t), e) && !Restarts(t, e) && IssuedTo(s.issued, t, id)
    ensures var s' := Step(s, e);
            && Grows(s.LaneOf(t), s'.LaneOf(t))
            && (id in s'.db.jobs ==> id in s.db.jobs && s'.db.jobs[id] == s.db.jobs[id])
  {
    hide WorkStep, OneJobPerAsset;
    match e
    case Work(u, w) =>
      WorkElsewhereGrows(s, u, w, t);
      WorkFrames(s.db, s.issued, s.refs, s.LaneOf(u), u, w, t);
    case Outside(o) => OutGrows(s, o, t);
  }

  lemma OthersLeaveLane(s: System, e: Event, t: JobType)
    requires Inv(s) && MovesFor(Worker(t), e) && !Restarts(t, e)
    ensures Grows(s.LaneOf(t), Step(s, e).LaneOf(t))
  {
    hide WorkStep, OneJobPerAsset;
    match e
    case Work(u, w) => WorkElsewhereGrows(s, u, w, t);
    case Outside(o) => OutGrows(s, o, t);
  }

  lemma OthersKeepPhase(s: System, e: Event, t: JobType, issued: map<int, JobType>, wanted: set<JobStatus>, k: nat)
    requires Inv(s) && MovesFor(Worker(t), e) && !Restarts(t, e)
    requires StillIssued(s, issued) && Phase(s, t, issued, wanted, k)
    ensures Phase(Step(s, e), t, issued, wanted, k)
  {
    hide WorkStep, OutStep, Inv, Step;
    var lane, lane' := s.LaneOf(t), Step(s, e).LaneOf(t);
    OthersLeaveLane(s, e, t);
    assert forall raw | raw in lane.queue :: raw in lane'.queue;
    forall id | IssuedTo(issued, t, id) && HasStatus(Step(s, e).db, id, wanted) ensures HasStatus(s.db, id, wanted) {
      OthersKeepStatus(s, e, t, id);
    }
  }

  /** A reconcile along a run: its steps come in their order, with anything by others in between. */
  lemma {:induction false} PhasesHold(s: System, es: seq<Event>, t: JobType, wanted: set<JobStatus>, rows: seq<int>,
                                      n: nat)
    requires Inv(s) && s.LaneOf(t).stage.Idle? && Never(es, e => Restarts(t, e))
    requires Mine(t, es) <= ReconcileSteps(wanted, rows, n)
    ensures Inv(Exec(s, es)) && StillIssued(Exec(s, es), s.issued)
    ensures Phase(Exec(s, es), t, s.issued, wanted, |Mine(t, es)|)
  {
    if es != [] {
      var front, last := es[..|es| - 1], es[|es| - 1];
      var mid := Exec(s, front);
      NeverPrefix(es, e => Restarts(t, e));
      PhasesHold(s, front, t, wanted, rows, n);
      hide Step, Inv, Phase, ReconcileSteps;
      StepKeepsInv(mid, last);
      StepIssues(mid, last);
      if last.Work? && last.t == t {
        assert Mine(t, es) == Mine(t, front) + [last.w];
        assert ReconcileSteps(wanted, rows, n)[|Mine(t, front)|] == last.w;
        OwnStep(mid, t, s.issued, wanted, rows, n, |Mine(t, front)|);
      } else {
        OthersKeepPhase(mid, last, t, s.issued, wanted, |Mine(t, front)|);
      }
    }
  }

  /** A reconcile covers, amid others: after it ran to its end, every job with one of the statuses it asked for
      that was issued before it has a copy on the lists. */
  lemma ReconcileLists(s: System, es: seq<Event>, t: JobType, wanted: set<JobStatus>, rows: seq<int>, n: nat, id: int)
    requires Inv(s) && s.LaneOf(t).stage.Idle? && Never(es, e => Restarts(t, e))
    requires Mine(t, es) == ReconcileSteps(wanted, rows, n) && Exec(s, es).LaneOf(t).stage.Idle?
    ensures Inv(Exec(s, es)) && StillIssued(Exec(s, es), s.issued)
    ensures IssuedTo(s.issued, t, id) && HasStatus(Exec(s, es).db, id, wanted) ==> Listed(Exec(s, es).LaneOf(t), id)
  {
    PhasesHold(s, es, t, wanted, rows, n);
    hide Inv, Exec, Mine;
  }

  /** Startup covers, amid others: after a full reconcile that ran to its end, every open job that was issued
      before it has a copy on the lists. */
  lemma ReconcileCovers(s: System, es: seq<Event>, t: JobType, rows: seq<int>, n: nat)
    requires Inv(s) && s.LaneOf(t).stage.Idle? && Never(es, e => Restarts(t, e))
    requires Mine(t, es) == FullReconcile(rows, n) && Exec(s, es).LaneOf(t).stage.Idle?
    ensures Inv(Exec(s, es)) && AllCovered(Exec(s, es), t, s.issued)
  {
    PhasesHold(s, es, t, UNFINISHED, rows, n);
    hide Inv, Exec, Mine;
  }

  /** Recoverability amid others: from any consistent state, whoever else moves and whatever fails, after a
      reap and a full reconcile the attempts that a worker finishes are at most what its lists hold, the
      retries that the jobs have left, and what arrives; and whenever both lists are empty, every job of the
      type that was issued before the reconcile is DONE, FAILED or deleted. */
  lemma RecoverableAmidOthers(s: System, startup: seq<Event>, es: seq<Event>, t: JobType, rows: seq<int>, n: nat)
    requires Inv(s) && s.LaneOf(t).stage.Idle? && Never(startup + es, e => Restarts(t, e))
    requires Mine(t, startup) == FullReconcile(rows, n) && Exec(s, startup).LaneOf(t).stage.Idle?
    ensures var mid, end := Exec(s, startup), Exec(s, startup + es);
            var ids := end.issued.Keys;
            && (Never(es, e => Loses(t, e)) ==>
                  Completed(mid, es, t) + Credit(end.LaneOf(t), ids)
                  <= Credit(mid.LaneOf(t), ids) + |Arrivals(mid, es, t)|)
            && (end.LaneOf(t).queue == [] && end.LaneOf(t).processing == [] ==> AllSettled(end, t, s.issued))
  {
    ExecAppend(s, startup, es);
    assert Never(startup, e => Restarts(t, e)) && Never(es, e => Restarts(t, e)) by {
      assert forall e | e in startup || e in es :: e in startup + es;
    }
    ReconcileCovers(s, startup, t, rows, n);
    var mid := Exec(s, startup);
    FromHere(mid, es, t, s.issued);
  }

  /** The part after startup, from an idle worker whose open jobs are covered. */
  lemma FromHere(s: System, es: seq<Event>, t: JobType, issued: map<int, JobType>)
    requires Inv(s) && s.LaneOf(t).stage.Idle? && AllCovered(s, t, issued) && Never(es, e => Restarts(t, e))
    ensures var s' := Exec(s, es);
            var ids := s'.issued.Keys;
            && (Never(es, e => Loses(t, e)) ==>
                  Completed(s, es, t) + Credit(s'.LaneOf(t), ids)
                  <= Credit(s.LaneOf(t), ids) + |Arrivals(s, es, t)|)
            && AllCovered(s', t, issued)
            && (s'.LaneOf(t).queue == [] && s'.LaneOf(t).processing == [] ==> AllSettled(s', t, issued))
  {
    AllCoveredStays(s, es, t, issued);
    var s' := Exec(s, es);
    if Never(es, e => Loses(t, e)) {
      FinishesWithinCredit(s, es, t);
    }
    if s'.LaneOf(t).queue == [] && s'.LaneOf(t).processing == [] {
      EmptyMeansSettled(s', t, issued);
    }
  }

  lemma FinishesWithinCredit(s: System, es: seq<Event>, t: JobType)
    requires Inv(s) && s.LaneOf(t).stage.Idle? && Never(es, e => Loses(t, e))
    ensures var s' := Exec(s, es);
            Completed(s, es, t) + Credit(s'.LaneOf(t), s'.issued.Keys)
            <= Credit(s.LaneOf(t), s'.issued.Keys) + |Arrivals(s, es, t)|
  {
    ArrivalsAreIssued(s, es, t);
    IssuedGrows(s, es);
    assert forall raw | raw in s.LaneOf(t).queue || raw in s.LaneOf(t).processing :: raw.Id? ==> raw.id in s.issued;
    CreditBounds(s, es, t, Exec(s, es).issued.Keys);
  }

  // ---------------------------------------------------------------- what a worker's whole run amounts to

  /** What the trace since a point says of the lane: the attempts finished since then are paid for. */
  ghost predicate PaidFor(origin: System, since: seq<Event>, now: seq<Event>, t: JobType, finished: nat)
    requires since <= now
  {
    var mid, end, es := Exec(origin, since), Exec(origin, now), now[|since|..];
    Never(es, e => Loses(t, e)) ==>
      finished + Credit(end.LaneOf(t), end.issued.Keys)
      <= Credit(mid.LaneOf(t), end.issued.Keys) + |Arrivals(mid, es, t)|
  }

  /** What the trace since a point says of the jobs issued by then. */
  ghost predicate Delivered(origin: System, was: seq<Event>, now: seq<Event>, t: JobType)
    requires was <= now
  {
    var issued, end := Exec(origin, was).issued, Exec(origin, now);
    Never(now[|was|..], e => Restarts(t, e)) ==>
      && AllCovered(end, t, issued)
      && (end.LaneOf(t).queue == [] && end.LaneOf(t).processing == [] ==> AllSettled(end, t, issued))
  }

  lemma TraceSplits(origin: System, was: seq<Event>, now: seq<Event>)
    requires was <= now
    ensures Exec(Exec(origin, was), now[|was|..]) == Exec(origin, now)
  {
    assert now == was + now[|was|..];
    ExecAppend(origin, was, now[|was|..]);
  }

  lemma NeverInPart(was: seq<Event>, a: seq<Event>, b: seq<Event>, now: seq<Event>, t: JobType)
    requires was <= a <= b <= now && Never(now[|was|..], e => Restarts(t, e))
    ensures Never(b[|a|..], e => Restarts(t, e)) && Never(now[|b|..], e => Restarts(t, e))
  {
    assert forall i | 0 <= i < |b| - |a| :: b[|a|..][i] == now[|was|..][|a| - |was| + i];
    assert forall i | 0 <= i < |now| - |b| :: now[|b|..][i] == now[|was|..][|b| - |was| + i];
  }

  lemma Rest<T>(a: seq<T>, x: seq<T>, y: seq<T>)
    requires a + x == a + y
    ensures x == y
  {
    assert (a + x)[|a|..] == x && (a + y)[|a|..] == y;
  }

  lemma IsPaidFor(origin: System, since: seq<Event>, now: seq<Event>, t: JobType, finished: nat)
    requires since <= now && Inv(Exec(origin, since)) && Exec(origin, since).LaneOf(t).stage.Idle?
    requires Completed(origin, now, t) >= Completed(origin, since, t) + finished
    ensures PaidFor(origin, since, now, t, finished)
  {
    hide Exec, Inv, Completed, Credit, Arrivals;
    TraceSplits(origin, since, now);
    var es := now[|since|..];
    assert now == since + es;
    CompletedAppend(origin, since, es, t);
    if Never(es, e => Loses(t, e)) { FinishesWithinCredit(Exec(origin, since), es, t); }
  }

  lemma IsDelivered(origin: System, was: seq<Event>, reaped: seq<Event>, since: seq<Event>, now: seq<Event>,
                    t: JobType, rows: seq<int>, n: nat)
    requires was <= reaped <= since <= now && Inv(Exec(origin, reaped))
    requires Exec(origin, reaped).LaneOf(t).stage.Idle? && Exec(origin, since).LaneOf(t).stage.Idle?
    requires Mine(t, since) == Mine(t, reaped) + FullReconcile(rows, n)
    ensures Delivered(origin, was, now, t)
  {
    hide Exec, Mine, Inv, FullReconcile, ReconcileSteps, Arrivals, Credit, AllCovered, AllSettled;
    TraceSplits(origin, was, reaped);
    TraceSplits(origin, reaped, since);
    TraceSplits(origin, since, now);
    if Never(now[|was|..], e => Restarts(t, e)) {
      NeverInPart(was, reaped, since, now, t);
      var middle := since[|reaped|..];
      assert since == reaped + middle;
      MineAppend(t, reaped, middle);
      Rest(Mine(t, reaped), Mine(t, middle), FullReconcile(rows, n));
      ReconcileCovers(Exec(origin, reaped), middle, t, rows, n);
      IssuedStays(Exec(origin, was), reaped[|was|..]);
      FewerAreCovered(Exec(origin, since), t, Exec(origin, was).issued, Exec(origin, reaped).issued);
      FromHere(Exec(origin, since), now[|since|..], t, Exec(origin, was).issued);
    }
  }

  /** A run that reconciled between two points and finished some attempts since the second. */
  lemma RunConcludes(origin: System, was: seq<Event>, reaped: seq<Event>, since: seq<Event>, now: seq<Event>,
                     t: JobType, rows: seq<int>, n: nat, finished: nat)
    requires was <= reaped <= since <= now && Inv(Exec(origin, was))
    requires Exec(origin, reaped).LaneOf(t).stage.Idle? && Exec(origin, since).LaneOf(t).stage.Idle?
    requires Mine(t, since) == Mine(t, reaped) + FullReconcile(rows, n)
    requires Completed(origin, now, t) >= Completed(origin, since, t) + finished
    ensures PaidFor(origin, since, now, t, finished) && Delivered(origin, was, now, t)
  {
    hide Exec, Mine, Inv, Completed, FullReconcile, PaidFor, Delivered;
    TraceSplits(origin, was, reaped);
    TraceSplits(origin, reaped, since);
    ExecKeepsInv(Exec(origin, was), reaped[|was|..]);
    ExecKeepsInv(Exec(origin, reaped), since[|reaped|..]);
    IsPaidFor(origin, since, now, t, finished);
    IsDelivered(origin, was, reaped, since, now, t, rows, n);
  }

  lemma {:induction false} IssuedStays(s: System, es: seq<Event>)
    ensures StillIssued(Exec(s, es), s.issued)
  {
    if es != [] {
      IssuedStays(s, es[..|es| - 1]);
      StepIssues(Exec(s, es[..|es| - 1]), es[|es| - 1]);
      hide Step;
    }
  }

  lemma FewerAreCovered(s: System, t: JobType, fewer: map<int, JobType>, more: map<int, JobType>)
    requires AllCovered(s, t, more) && forall id | id in fewer :: id in more && more[id] == fewer[id]
    ensures AllCovered(s, t, fewer)
  {
  }
}
