/** Draining amid others: how many entries a worker can still finish, while the other lane's worker, the API,
    deletions, crashes, lost replies and reaps all go on. */
module Credits {
  import opened Basics
  import opened Protocol
  import opened Safety
  import opened Delivery
  import opened Attempts

  predicate AnyRetryDue(stage: Stage) {
    stage.Requeueing? || (stage.Resolved? && stage.resolution.TryAgain?)
  }

  /** Every entry on the lists, every retry that the jobs still have, and the retry push that is due. */
  ghost function Credit(lane: Lane, ids: set<int>): nat {
    |lane.queue| + |lane.processing| + Budgets(lane, ids) + if AnyRetryDue(lane.stage) then 1 else 0
  }

  /** What a step adds to a lane from outside its attempts: a push of the API or of a reconcile, or garbage. */
  function Arrival(s: System, e: Event, t: JobType): seq<Raw> {
    match e
    case Work(u, PushOrphan) =>
      var stage := s.LaneOf(t).stage;
      if u == t && stage.Pushing? && stage.todo != [] then [Id(stage.todo[0])] else []
    case Outside(Enqueue(id)) => if IssuedTo(s.issued, t, id) && id !in s.enqueued then [Id(id)] else []
    case Outside(PushGarbage(u, bytes)) => if u == t then [Garbage(bytes)] else []
    case _ => []
  }

  function Arrivals(s: System, es: seq<Event>, t: JobType): seq<Raw> {
    if es == [] then []
    else Arrivals(s, es[..|es| - 1], t) + Arrival(Exec(s, es[..|es| - 1]), es[|es| - 1], t)
  }

  /** An attempt ends with its ack, and with nothing else. */
  predicate Finishes(s: System, e: Event, t: JobType) {
    e == Work(t, WorkerStep.Ack) && s.LaneOf(t).stage.Acking?
  }

  function Completed(s: System, es: seq<Event>, t: JobType): nat {
    if es == [] then 0
    else Completed(s, es[..|es| - 1], t) + if Finishes(Exec(s, es[..|es| - 1]), es[|es| - 1], t) then 1 else 0
  }

  /** Redis comes back with other lists, or a retry counter of the lane is lost. */
  predicate Loses(t: JobType, e: Event) {
    Restarts(t, e) || (e.Outside? && e.o.LoseCounter? && e.o.counterLane == t)
  }

  predicate Within(raws: seq<Raw>, ids: set<int>) {
    forall raw | raw in raws :: raw.Id? ==> raw.id in ids
  }

  predicate LaneWithin(lane: Lane, ids: set<int>) {
    Within(lane.queue, ids) && Within(lane.processing, ids)
  }

  // ---------------------------------------------------------------- one step

  lemma SameCounters(a: Lane, b: Lane, ids: set<int>)
    requires a.counters == b.counters && a.limit == b.limit
    ensures Budgets(a, ids) == Budgets(b, ids)
  {
    BudgetsAgree(a, b, ids);
  }

  lemma RemoveOne(s: seq<Raw>, x: Raw)
    ensures x in s ==> |RemoveFirst(s, x)| == |s| - 1
    ensures forall y | y in RemoveFirst(s, x) :: y in s
  {
    if s != [] && s[0] != x { RemoveOne(s[1..], x); }
  }

  /** The steps that move entries: what leaves one list joins the other, except by the ack. */
  lemma MovesPay(db: Db, lane: Lane, t: JobType, w: WorkerStep, ids: set<int>)
    requires MovesEntries(w) && Parked(lane) && LaneWithin(lane, ids)
    requires w.PushOrphan? && lane.stage.Pushing? && lane.stage.todo != [] ==> lane.stage.todo[0] in ids
    ensures var lane' := WorkStep(db, lane, t, w).lane;
            && LaneWithin(lane', ids)
            && Credit(lane', ids) + (if w.Ack? && lane.stage.Acking? then 1 else 0)
               <= Credit(lane, ids) + (if w.PushOrphan? && lane.stage.Pushing? && lane.stage.todo != [] then 1 else 0)
  {
    SameCounters(lane, WorkStep(db, lane, t, w).lane, ids);
    hide Budgets;
    match w
    case Ack => if lane.stage.Acking? { RemoveOne(lane.processing, lane.stage.raw); }
    case _ =>
  }

  /** Counting an attempt spends a retry, or grants none. */
  lemma TrackPays(lane: Lane, id: int, tracking: Tracking, ids: set<int>)
    requires id in ids && lane.stage.Booking? && lane.stage.id == id
    ensures var l := TrackStep(Local(Db(map[], map[], {}), lane), id, lane.stage.ref, tracking).lane;
            Credit(l, ids) <= Credit(lane, ids) && l.queue == lane.queue && l.processing == lane.processing
  {
    var l := TrackStep(Local(Db(map[], map[], {}), lane), id, lane.stage.ref, tracking).lane;
    BudgetsPick(lane, ids, id);
    BudgetsPick(l, ids, id);
    BudgetsAgree(lane, l, ids - {id});
  }

  lemma StagesPay(db: Db, lane: Lane, t: JobType, w: WorkerStep, ids: set<int>)
    requires !MovesEntries(w) && Parked(lane) && LaneWithin(lane, ids)
    ensures var lane' := WorkStep(db, lane, t, w).lane;
            LaneWithin(lane', ids) && Credit(lane', ids) <= Credit(lane, ids)
  {
    if w.Track? && lane.stage.Booking? {
      TrackPays(lane, lane.stage.id, w.tracking, ids);
      hide Budgets;
    } else {
      StagesKeepLists(db, lane, t, w);
      StagesKeepCounters(db, lane, t, w);
      SameCounters(lane, WorkStep(db, lane, t, w).lane, ids);
      hide Budgets, WorkStep;
    }
  }

  lemma StagesKeepCounters(db: Db, lane: Lane, t: JobType, w: WorkerStep)
    requires !MovesEntries(w) && !(w.Track? && lane.stage.Booking?)
    ensures var lane' := WorkStep(db, lane, t, w).lane;
            && lane'.counters == lane.counters && lane'.limit == lane.limit
            && (AnyRetryDue(lane'.stage) ==> AnyRetryDue(lane.stage))
  {
  }

  lemma OutPays(s: System, o: OutsideStep, t: JobType)
    requires !Loses(t, Outside(o))
    ensures var lane, lane' := s.LaneOf(t), OutStep(s, o).LaneOf(t);
            && lane'.queue == lane.queue + Arrival(s, Outside(o), t) && lane'.processing == lane.processing
            && lane'.stage == lane.stage && lane'.counters == lane.counters && lane'.limit == lane.limit
  {
  }

  /** Whoever moves, what the lane can still finish grows by what arrives and shrinks by what it finishes. */
  lemma StepPays(s: System, e: Event, t: JobType, ids: set<int>)
    requires !Loses(t, e) && Parked(s.LaneOf(t)) && LaneWithin(s.LaneOf(t), ids) && Within(Arrival(s, e, t), ids)
    ensures LaneWithin(Step(s, e).LaneOf(t), ids)
    ensures Credit(Step(s, e).LaneOf(t), ids) + (if Finishes(s, e, t) then 1 else 0)
            <= Credit(s.LaneOf(t), ids) + |Arrival(s, e, t)|
  {
    match e
    case Work(u, w) =>
      hide WorkStep;
      if u == t {
        if w.PushOrphan? && s.LaneOf(t).stage.Pushing? && s.LaneOf(t).stage.todo != [] {
          assert Id(s.LaneOf(t).stage.todo[0]) in Arrival(s, e, t);
        }
        if MovesEntries(w) { MovesPay(s.db, s.LaneOf(t), t, w, ids); } else { StagesPay(s.db, s.LaneOf(t), t, w, ids); }
      }
    case Outside(o) =>
      OutPays(s, o, t);
      SameCounters(s.LaneOf(t), OutStep(s, o).LaneOf(t), ids);
      hide OutStep, Budgets;
  }

  // ---------------------------------------------------------------- whole runs

  /** Conservation over any run in which Redis loses nothing of the lane: attempts finished plus what can
      still be finished is at most what could be finished plus what arrived. Without arrivals the credit
      bounds the attempts, however the run is disturbed. */
  lemma {:induction false} CreditBounds(s: System, es: seq<Event>, t: JobType, ids: set<int>)
    requires Inv(s) && Parked(s.LaneOf(t)) && LaneWithin(s.LaneOf(t), ids)
    requires Never(es, e => Loses(t, e)) && Within(Arrivals(s, es, t), ids)
    ensures var s' := Exec(s, es);
            && Inv(s') && Parked(s'.LaneOf(t)) && LaneWithin(s'.LaneOf(t), ids)
            && Completed(s, es, t) + Credit(s'.LaneOf(t), ids) <= Credit(s.LaneOf(t), ids) + |Arrivals(s, es, t)|
  {
    if es != [] {
      var front, last := es[..|es| - 1], es[|es| - 1];
      var mid := Exec(s, front);
      NeverPrefix(es, e => Loses(t, e));
      assert forall raw | raw in Arrivals(s, front, t) :: raw in Arrivals(s, es, t);
      assert forall raw | raw in Arrival(mid, last, t) :: raw in Arrivals(s, es, t);
      CreditBounds(s, front, t, ids);
      hide Step, Inv, Parked, Credit, LaneWithin, Arrival;
      StepPays(mid, last, t, ids);
      StepKeepsInv(mid, last);
      StepKeepsParked(mid, last, t);
    }
  }

  /** Once an open job has its copy on the lists, no run that keeps the lists takes it away. */
  lemma {:induction false} CoveredStays(s: System, es: seq<Event>, t: JobType, id: int)
    requires Inv(s) && Parked(s.LaneOf(t)) && IssuedTo(s.issued, t, id) && Covered(s.db, s.LaneOf(t), id)
    requires Never(es, e => Restarts(t, e))
    ensures var s' := Exec(s, es);
            && Inv(s') && Parked(s'.LaneOf(t)) && IssuedTo(s'.issued, t, id) && Covered(s'.db, s'.LaneOf(t), id)
  {
    if es != [] {
      var front, last := es[..|es| - 1], es[|es| - 1];
      var mid := Exec(s, front);
      NeverPrefix(es, e => Restarts(t, e));
      CoveredStays(s, front, t, id);
      hide Step, WorkStep, Inv, Covered, Parked;
      StepKeepsInv(mid, last);
      StepIssues(mid, last);
      OneStepCovers(mid, last, t, id);
    }
  }

  lemma OneStepCovers(s: System, e: Event, t: JobType, id: int)
    requires Inv(s) && !Restarts(t, e) && Parked(s.LaneOf(t)) && IssuedTo(s.issued, t, id)
    requires Covered(s.db, s.LaneOf(t), id)
    ensures Parked(Step(s, e).LaneOf(t)) && Covered(Step(s, e).db, Step(s, e).LaneOf(t), id)
  {
    hide WorkStep, OneJobPerAsset;
    if e.Work? && e.t == t { WorkKeepsCovered(s.db, s.issued, s.LaneOf(t), t, e.w, id); }
    else { OutsideKeepsCovered(s, e, t, id); }
  }

  /** Every open job that was issued by then has a copy on the lane. */
  ghost predicate AllCovered(s: System, t: JobType, issued: map<int, JobType>) {
    forall id | IssuedTo(issued, t, id) :: IssuedTo(s.issued, t, id) && Covered(s.db, s.LaneOf(t), id)
  }

  lemma AllCoveredStays(s: System, es: seq<Event>, t: JobType, issued: map<int, JobType>)
    requires Inv(s) && Parked(s.LaneOf(t)) && AllCovered(s, t, issued) && Never(es, e => Restarts(t, e))
    ensures AllCovered(Exec(s, es), t, issued)
  {
    forall id | IssuedTo(issued, t, id)
      ensures IssuedTo(Exec(s, es).issued, t, id) && Covered(Exec(s, es).db, Exec(s, es).LaneOf(t), id)
    {
      CoveredStays(s, es, t, id);
    }
  }

  /** Both lists empty: every job that was issued by then is DONE, FAILED or deleted. */
  ghost predicate AllSettled(s: System, t: JobType, issued: map<int, JobType>) {
    forall id | IssuedTo(issued, t, id) && id in s.db.jobs :: s.db.jobs[id].status.Done? || s.db.jobs[id].status.Failed?
  }

  lemma EmptyMeansSettled(s: System, t: JobType, issued: map<int, JobType>)
    requires AllCovered(s, t, issued) && s.LaneOf(t).queue == [] && s.LaneOf(t).processing == []
    ensures AllSettled(s, t, issued)
  {
  }

  // ---------------------------------------------------------------- counting along a trace

  lemma {:induction false} CompletedAppend(s: System, a: seq<Event>, b: seq<Event>, t: JobType)
    ensures Completed(s, a + b, t) == Completed(s, a, t) + Completed(Exec(s, a), b, t)
    decreases |b|
  {
    if b == [] {
      assert a + b == a;
    } else {
      var front := b[..|b| - 1];
      assert (a + b)[..|a + b| - 1] == a + front;
      CompletedAppend(s, a, front, t);
      ExecAppend(s, a, front);
    }
  }

  lemma CompletedGrows(s: System, was: seq<Event>, now: seq<Event>, t: JobType)
    requires was <= now
    ensures Completed(s, now, t) >= Completed(s, was, t)
  {
    assert now == was + now[|was|..];
    CompletedAppend(s, was, now[|was|..], t);
  }

  /** Only issued ids arrive. */
  lemma {:induction false} ArrivalsAreIssued(s: System, es: seq<Event>, t: JobType)
    requires Inv(s)
    ensures Inv(Exec(s, es)) && Within(Arrivals(s, es, t), Exec(s, es).issued.Keys)
  {
    if es != [] {
      var front, last := es[..|es| - 1], es[|es| - 1];
      ArrivalsAreIssued(s, front, t);
      StepKeepsInv(Exec(s, front), last);
      StepIssues(Exec(s, front), last);
      hide Step;
    }
  }

  lemma IssuedGrows(s: System, es: seq<Event>)
    ensures s.issued.Keys <= Exec(s, es).issued.Keys
  {
    if es != [] {
      IssuedGrows(s, es[..|es| - 1]);
      StepIssues(Exec(s, es[..|es| - 1]), es[|es| - 1]);
    }
  }

  /** An ack of an entry in hand ends one more attempt. */
  lemma AckCompletes(origin: System, trace: seq<Event>, moves: seq<Event>, t: JobType)
    requires Exec(Exec(origin, trace), moves).LaneOf(t).stage.Acking?
    ensures Completed(origin, trace + moves + [Work(t, WorkerStep.Ack)], t) > Completed(origin, trace, t)
  {
    ExecAppend(origin, trace, moves);
    CompletedGrows(origin, trace, trace + moves, t);
    var now := trace + moves + [Work(t, WorkerStep.Ack)];
    assert now[..|now| - 1] == trace + moves;
  }
}
