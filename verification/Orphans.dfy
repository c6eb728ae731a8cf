/** What a reconcile pushes: jobs whose API push is still due, and no others; and what follows from pushing
    them. */
module Orphans {
  import opened Basics
  import opened Protocol
  import opened Safety
  import opened Delivery
  import opened Worlds
  import opened WorkerCommon
  import opened AmidOthers
  import opened Recovery

  /** Exactly when a reconcile finds a job missing. In every run in which Redis keeps the lane's lists, with any
      other faults, an idle worker's reconcile pushes an eligible job if and only if the job is on neither list
      and its API push is still due; a pushed job is never missing. */
  lemma {:induction false} OrphansAreDue(imageLimit: int, audioLimit: int, es: seq<Event>, t: JobType,
                                         wanted: set<JobStatus>, rows: seq<int>, id: int)
    requires Never(es, e => Restarts(t, e)) && wanted <= UNFINISHED
    requires var s := Exec(Start(imageLimit, audioLimit), es);
             s.LaneOf(t).stage.Idle? && Enumerates(rows, Eligible(s.db, t, wanted))
    ensures var s := Exec(Start(imageLimit, audioLimit), es);
            id in Missing(rows, SeenOn(s.LaneOf(t))) <==>
              id in Eligible(s.db, t, wanted) && !Listed(s.LaneOf(t), id) && id !in s.enqueued
  {
    hide OneJobPerAsset;
    var s := Exec(Start(imageLimit, audioLimit), es);
    RunDelivers(imageLimit, audioLimit, es, t);
    MissingIsPart(rows, SeenOn(s.LaneOf(t)));
    assert id in Eligible(s.db, t, wanted) ==> IssuedTo(s.issued, t, id) && IsOpen(s.db, id);
  }

  // ---------------------------------------------------------------- amid others

  /** The steps of a reconcile after its first read. */
  predicate GoesOn(w: WorkerStep) {
    w.ScanProcessing? || w.QueryJobs? || w.PushOrphan?
  }

  /** What is known of a job while the reconcile goes on. A job whose push was done at the first read is seen, or
      still parked for the second; a job to be pushed is not one of those, and has a status asked for. */
  predicate OnlyDue(db: Db, lane: Lane, wanted: set<JobStatus>, done: bool, id: int) {
    match lane.stage
    case ScannedQueue(statuses, seen) =>
      statuses == wanted && (done && IsOpen(db, id) ==> id in seen || Id(id) in lane.processing)
    case ScannedAll(statuses, seen) => statuses == wanted && (done && IsOpen(db, id) ==> id in seen)
    case Pushing(todo) => id in todo ==> !done && (id in db.jobs ==> db.jobs[id].status in wanted)
    case _ => lane.stage.Idle?
  }

  lemma GoesOnDue(db: Db, lane: Lane, t: JobType, wanted: set<JobStatus>, done: bool, w: WorkerStep, id: int)
    requires wanted <= UNFINISHED && OnlyDue(db, lane, wanted, done, id) && GoesOn(w)
    ensures var l := WorkStep(db, lane, t, w); OnlyDue(l.db, l.lane, wanted, done, id)
  {
    match w
    case QueryJobs(rows) =>
      if lane.stage.ScannedAll? && Enumerates(rows, Eligible(db, t, wanted)) {
        MissingIsPart(rows, lane.stage.seen);
        assert id in Missing(rows, lane.stage.seen) ==> id in Eligible(db, t, wanted);
      }
    case PushOrphan =>
      if lane.stage.Pushing? && lane.stage.todo != [] {
        assert lane.stage.todo == [lane.stage.todo[0]] + lane.stage.todo[1..];
      }
    case _ =>
  }

  lemma OthersKeepDue(s: System, e: Event, t: JobType, wanted: set<JobStatus>, done: bool, id: int)
    requires Inv(s) && MovesFor(Worker(t), e) && !Restarts(t, e) && (done ==> IssuedTo(s.issued, t, id))
    requires OnlyDue(s.db, s.LaneOf(t), wanted, done, id)
    ensures OnlyDue(Step(s, e).db, Step(s, e).LaneOf(t), wanted, done, id)
  {
    var stage := s.LaneOf(t).stage;
    assert stage.Pushing? && id in stage.todo ==> IssuedTo(s.issued, t, id);
    OthersLeaveLane(s, e, t);
    if IssuedTo(s.issued, t, id) { OthersKeepStatus(s, e, t, id); }
    hide Step, Inv;
  }

  lemma FirstReadDue(s: System, t: JobType, wanted: set<JobStatus>, id: int)
    requires Delivering(s, t) && s.LaneOf(t).stage.Idle?
    ensures var s' := Step(s, Work(t, ScanQueue(wanted)));
            OnlyDue(s'.db, s'.LaneOf(t), wanted, id in s.enqueued && IssuedTo(s.issued, t, id), id)
  {
    hide Inv;
  }

  lemma {:induction false} RunOnlyDue(s: System, es: seq<Event>, t: JobType, wanted: set<JobStatus>, done: bool,
      id: int)
    requires Inv(s) && wanted <= UNFINISHED && OnlyDue(s.db, s.LaneOf(t), wanted, done, id)
    requires done ==> IssuedTo(s.issued, t, id)
    requires Never(es, e => Restarts(t, e)) && forall w | w in Mine(t, es) :: GoesOn(w)
    ensures var s' := Exec(s, es);
            Inv(s') && (done ==> IssuedTo(s'.issued, t, id)) && OnlyDue(s'.db, s'.LaneOf(t), wanted, done, id)
  {
    if es != [] {
      var front, last := es[..|es| - 1], es[|es| - 1];
      var mid := Exec(s, front);
      NeverPrefix(es, e => Restarts(t, e));
      assert forall w | w in Mine(t, front) :: w in Mine(t, es);
      assert last.Work? && last.t == t ==> last.w in Mine(t, es);
      RunOnlyDue(s, front, t, wanted, done, id);
      StepKeepsInv(mid, last);
      StepIssues(mid, last);
      hide WorkStep, OutStep, Inv, OnlyDue;
      if last.Work? && last.t == t { GoesOnDue(mid.db, mid.LaneOf(t), t, wanted, done, last.w, id); }
      else { OthersKeepDue(mid, last, t, wanted, done, id); }
    }
  }

  /** Amid others: in every run in which Redis keeps the lane's lists, a job that a reconcile is about to push was
      not pushed by the API when the reconcile made its first read, and has one of the statuses asked for, or
      is deleted. So the periodic one never pushes a RUNNING job. */
  lemma {:induction false} PlannedAreDue(imageLimit: int, audioLimit: int, before: seq<Event>, after: seq<Event>,
                                         t: JobType, wanted: set<JobStatus>, id: int)
    requires Never(before, e => Restarts(t, e)) && Never(after, e => Restarts(t, e)) && wanted <= UNFINISHED
    requires Exec(Start(imageLimit, audioLimit), before).LaneOf(t).stage.Idle?
    requires forall w | w in Mine(t, after) :: GoesOn(w)
    ensures var s := Exec(Start(imageLimit, audioLimit), before);
            var s' := Exec(Step(s, Work(t, ScanQueue(wanted))), after);
            s'.LaneOf(t).stage.Pushing? && id in s'.LaneOf(t).stage.todo ==>
              && id !in s.enqueued
              && (id in s'.db.jobs ==> s'.db.jobs[id].kind == t && s'.db.jobs[id].status in wanted)
  {
    var s := Exec(Start(imageLimit, audioLimit), before);
    var s1 := Step(s, Work(t, ScanQueue(wanted)));
    var s' := Exec(s1, after);
    RunDelivers(imageLimit, audioLimit, before, t);
    StepKeepsInv(s, Work(t, ScanQueue(wanted)));
    StepIssues(s, Work(t, ScanQueue(wanted)));
    FirstReadDue(s, t, wanted, id);
    RunOnlyDue(s1, after, t, wanted, id in s.enqueued && IssuedTo(s.issued, t, id), id);
    TypesStay(s1, after);
    hide Step, Exec;
  }

  lemma {:induction false} TypesStay(s: System, es: seq<Event>)
    ensures forall id | id in s.issued :: id in Exec(s, es).issued && Exec(s, es).issued[id] == s.issued[id]
  {
    if es != [] {
      TypesStay(s, es[..|es| - 1]);
      StepIssues(Exec(s, es[..|es| - 1]), es[|es| - 1]);
      hide Step;
    }
  }

  // ---------------------------------------------------------------- the second copy

  function Copies(raws: seq<Raw>, id: int): nat {
    if raws == [] then 0 else Copies(raws[..|raws| - 1], id) + if raws[|raws| - 1] == Id(id) then 1 else 0
  }

  lemma {:induction false} CopiesAppend(a: seq<Raw>, b: seq<Raw>, id: int)
    ensures Copies(a + b, id) == Copies(a, id) + Copies(b, id)
    decreases |b|
  {
    if b == [] {
      assert a + b == a;
    } else {
      assert (a + b)[..|a + b| - 1] == a + b[..|b| - 1];
      CopiesAppend(a, b[..|b| - 1], id);
    }
  }

  lemma {:induction false} NoCopies(raws: seq<Raw>, id: int)
    ensures Copies(raws, id) == 0 <==> Id(id) !in raws
  {
    if raws != [] {
      assert raws == raws[..|raws| - 1] + [raws[|raws| - 1]];
      NoCopies(raws[..|raws| - 1], id);
    }
  }

  lemma {:induction false} OneCopyEach(todo: seq<int>, raws: seq<Raw>, id: int)
    requires Distinct(todo) && |raws| == |todo| && forall i | 0 <= i < |todo| :: raws[i] == Id(todo[i])
    ensures Copies(raws, id) == if id in todo then 1 else 0
  {
    if todo != [] {
      var n := |todo| - 1;
      OneCopyEach(todo[..n], raws[..n], id);
      assert todo == todo[..n] + [todo[n]];
      assert todo[n] !in todo[..n];
    }
  }

  /** The API push that was due then makes the second copy. */
  lemma DuePushDuplicates(s: System, t: JobType, rows: seq<int>, id: int)
    requires IssuedTo(s.issued, t, id) && id !in s.enqueued && !Listed(s.LaneOf(t), id)
    requires Distinct(rows) && id in rows
    ensures var reconciled := Reconciled(s, t, rows);
            && Copies(reconciled.LaneOf(t).queue, id) == 1
            && Copies(Step(reconciled, Outside(Enqueue(id))).LaneOf(t).queue, id) == 2
  {
    var lane, reconciled := s.LaneOf(t), Reconciled(s, t, rows);
    var todo := Missing(rows, SeenOn(lane));
    MissingIsPart(rows, SeenOn(lane));
    ReconciledHolds(s, t, rows);
    var added := seq(|todo|, i requires 0 <= i < |todo| => Id(todo[i]));
    NoCopies(lane.queue, id);
    OneCopyEach(todo, added, id);
    CopiesAppend(lane.queue, added, id);
    CopiesAppend(reconciled.LaneOf(t).queue, [Id(id)], id);
    assert Copies([Id(id)], id) == 1 by { assert [Id(id)][..0] == []; }
    assert Step(reconciled, Outside(Enqueue(id))).LaneOf(t).queue == reconciled.LaneOf(t).queue + [Id(id)];
  }
}
