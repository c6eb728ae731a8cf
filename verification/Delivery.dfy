/** Delivery over whole runs: no live job is stranded, retries are bounded, and the queue is first
    in, first out. */
module Delivery {
  import opened Basics
  import opened Protocol
  import opened Safety
  import A = Attempts

  ghost predicate Never(es: seq<Event>, bad: Event -> bool) {
    forall e | e in es :: !bad(e)
  }

  lemma NeverPrefix(es: seq<Event>, bad: Event -> bool)
    requires Never(es, bad) && es != []
    ensures Never(es[..|es| - 1], bad) && !bad(es[|es| - 1])
  {
    assert es[|es| - 1] in es;
    assert forall e | e in es[..|es| - 1] :: e in es;
  }

  // ---------------------------------------------------------------- no live job is stranded

  predicate IsOpen(db: Db, id: int) {
    id in db.jobs && Open(db.jobs[id].status)
  }

  predicate Listed(lane: Lane, id: int) {
    Id(id) in lane.queue || Id(id) in lane.processing
  }

  /** An open job has a copy on the lists, and a second one on the queue before a copy is acked. */
  predicate Covered(db: Db, lane: Lane, id: int) {
    IsOpen(db, id) ==> Listed(lane, id) && (lane.stage == Acking(Id(id)) ==> Id(id) in lane.queue)
  }

  /** What a worker has in hand is still parked on its processing list. */
  predicate Parked(lane: Lane) {
    match lane.stage
    case Popped(id) => Id(id) in lane.processing
    case GotJob(id, _, _) => Id(id) in lane.processing
    case NoAsset(id) => Id(id) in lane.processing
    case GotAsset(id, _, _, _) => Id(id) in lane.processing
    case Processing(id, _) => Id(id) in lane.processing
    case Booking(id, _) => Id(id) in lane.processing
    case Resolved(id, _, _) => Id(id) in lane.processing
    case Requeueing(id) => Id(id) in lane.processing
    case Acking(raw) => raw in lane.processing
    case _ => true
  }

  lemma TakeKeeps(lane: Lane, raw: Raw)
    requires lane.queue != []
    ensures raw in lane.queue || raw in lane.processing <==> raw in Take(lane).queue || raw in Take(lane).processing
    ensures lane.queue[0] in Take(lane).processing
  {
    assert lane.queue == [lane.queue[0]] + lane.queue[1..];
  }

  lemma PutBackKeeps(lane: Lane, raw: Raw)
    requires lane.processing != []
    ensures raw in lane.queue || raw in lane.processing
            <==> raw in PutBack(lane).queue || raw in PutBack(lane).processing
  {
    assert lane.processing == [lane.processing[0]] + lane.processing[1..];
  }

  lemma ListsKeepCovered(db: Db, lane: Lane, t: JobType, w: WorkerStep, id: int)
    requires MovesEntries(w) && Parked(lane) && Covered(db, lane, id)
    ensures var l := WorkStep(db, lane, t, w); Parked(l.lane) && Covered(l.db, l.lane, id)
  {
    var st := lane.stage;
    match w
    case Pop => if lane.queue != [] { TakeKeeps(lane, Id(id)); }
    case PopReplyLost => if lane.queue != [] { TakeKeeps(lane, Id(id)); }
    case Ack => if st.Acking? { RemoveFirstKeepsOthers(lane.processing, st.raw, Id(id)); }
    case ReapOne => if lane.processing != [] { PutBackKeeps(lane, Id(id)); }
    case PushRetry =>
    case PushOrphan =>
  }

  lemma StagesKeepCovered(db: Db, issued: map<int, JobType>, lane: Lane, t: JobType, w: WorkerStep, id: int)
    requires !MovesEntries(w) && StageOk(db, issued, t, lane.stage) && Parked(lane) && Covered(db, lane, id)
    ensures var l := WorkStep(db, lane, t, w); Parked(l.lane) && Covered(l.db, l.lane, id)
  {
  }

  /** One step of the lane's own worker: the status commit precedes the retry push, the push precedes
      the ack, so no step uncovers an open job. */
  lemma WorkKeepsCovered(db: Db, issued: map<int, JobType>, lane: Lane, t: JobType, w: WorkerStep, id: int)
    requires StageOk(db, issued, t, lane.stage) && Parked(lane) && Covered(db, lane, id)
    ensures var l := WorkStep(db, lane, t, w); Parked(l.lane) && Covered(l.db, l.lane, id)
  {
    if MovesEntries(w) { ListsKeepCovered(db, lane, t, w, id); }
    else { StagesKeepCovered(db, issued, lane, t, w, id); }
  }

  predicate Restarts(t: JobType, e: Event) {
    e.Outside? && e.o.RestartRedis? && e.o.restarted == t
  }

  ghost predicate Delivering(s: System, t: JobType) {
    && Inv(s) && Parked(s.LaneOf(t))
    && (forall id | id in s.enqueued :: id in s.issued)
    && (forall id | id in s.enqueued && IssuedTo(s.issued, t, id) :: Covered(s.db, s.LaneOf(t), id))
  }

  /** All that a step from outside a lane does to it: entries may arrive at the tail of the queue. */
  predicate Grows(lane: Lane, lane': Lane) {
    && lane.queue <= lane'.queue
    && lane'.processing == lane.processing && lane'.stage == lane.stage
  }

  ghost predicate OpensNothing(issued: map<int, JobType>, t: JobType, a: Db, b: Db) {
    forall id | IssuedTo(issued, t, id) && IsOpen(b, id) :: IsOpen(a, id)
  }

  lemma GrowthKeepsCovered(issued: map<int, JobType>, t: JobType, a: Db, b: Db, lane: Lane, lane': Lane, id: int)
    requires Grows(lane, lane') && OpensNothing(issued, t, a, b) && IssuedTo(issued, t, id)
    requires Parked(lane) && Covered(a, lane, id)
    ensures Parked(lane') && Covered(b, lane', id)
  {
    assert forall raw | raw in lane.queue :: raw in lane'.queue;
  }

  lemma PersistOpensNothing(s: System, t: JobType, u: JobType, poem: int, n: Option<Fresh>)
    requires FreshFor(s, u, n)
    ensures OpensNothing(s.issued, t, s.db, AddJob(s, u, poem, n).db)
    ensures AddJob(s, u, poem, n).LaneOf(t) == s.LaneOf(t)
    ensures forall id | IssuedTo(s.issued, t, id) :: IssuedTo(AddJob(s, u, poem, n).issued, t, id)
  {
  }

  lemma OutGrows(s: System, o: OutsideStep, t: JobType)
    requires Inv(s) && !Restarts(t, Outside(o))
    ensures Grows(s.LaneOf(t), OutStep(s, o).LaneOf(t)) && OpensNothing(s.issued, t, s.db, OutStep(s, o).db)
  {
    match o
    case PersistPoem(poem, image, audio) =>
      if CanPersist(s, poem, image, audio) {
        var s0 := WithPoem(s, poem);
        PersistOpensNothing(s0, t, Image, poem, image);
        PersistOpensNothing(AddJob(s0, Image, poem, image), t, Audio, poem, audio);
      }
    case _ =>
  }

  lemma WorkElsewhereGrows(s: System, u: JobType, w: WorkerStep, t: JobType)
    requires Inv(s) && u != t
    ensures var s' := Step(s, Work(u, w));
            s'.LaneOf(t) == s.LaneOf(t) && OpensNothing(s.issued, t, s.db, s'.db)
  {
    WorkFrames(s.db, s.issued, s.refs, s.LaneOf(u), u, w, t);
  }

  /** A step from outside the lane cannot uncover a job. */
  lemma OutsideKeepsCovered(s: System, e: Event, t: JobType, id: int)
    requires Inv(s) && !Restarts(t, e) && (e.Work? ==> e.t != t)
    requires Parked(s.LaneOf(t)) && IssuedTo(s.issued, t, id) && Covered(s.db, s.LaneOf(t), id)
    ensures Parked(Step(s, e).LaneOf(t)) && Covered(Step(s, e).db, Step(s, e).LaneOf(t), id)
  {
    match e
    case Work(u, w) =>
      WorkElsewhereGrows(s, u, w, t);
      GrowthKeepsCovered(s.issued, t, s.db, Step(s, e).db, s.LaneOf(t), Step(s, e).LaneOf(t), id);
    case Outside(o) =>
      OutGrows(s, o, t);
      GrowthKeepsCovered(s.issued, t, s.db, Step(s, e).db, s.LaneOf(t), Step(s, e).LaneOf(t), id);
  }

  lemma StepKeepsParked(s: System, e: Event, t: JobType)
    requires Inv(s) && !Restarts(t, e) && Parked(s.LaneOf(t))
    ensures Parked(Step(s, e).LaneOf(t))
  {
    match e
    case Work(u, w) =>
      if u == t { WorkKeepsParked(s.db, s.issued, s.LaneOf(t), t, w); } else { WorkElsewhereGrows(s, u, w, t); }
    case Outside(o) => OutGrows(s, o, t);
  }

  lemma WorkKeepsParked(db: Db, issued: map<int, JobType>, lane: Lane, t: JobType, w: WorkerStep)
    requires StageOk(db, issued, t, lane.stage) && Parked(lane)
    ensures Parked(WorkStep(db, lane, t, w).lane)
  {
    if MovesEntries(w) {
      if w.Pop? && lane.queue != [] { TakeKeeps(lane, lane.queue[0]); }
    }
  }

  /** What the API remembers about its own pushes: only issued ids, and each push is on its lane. */
  lemma EnqueueGrows(s: System, e: Event, id: int)
    requires Inv(s) && id in s.issued && id !in s.enqueued && id in Step(s, e).enqueued
    ensures e == Outside(Enqueue(id)) && Id(id) in Step(s, e).LaneOf(s.issued[id]).queue
    ensures Step(s, e).db == s.db && Step(s, e).LaneOf(s.issued[id]).stage == s.LaneOf(s.issued[id]).stage
  {
    if e.Outside? && e.o.Enqueue? {
      assert e.o.job == id;
    }
  }

  lemma StepIssues(s: System, e: Event)
    ensures forall id | id in s.issued :: id in Step(s, e).issued && Step(s, e).issued[id] == s.issued[id]
    ensures forall id | id in Step(s, e).enqueued :: id in s.enqueued || id in s.issued
  {
  }

  lemma StepDelivers(s: System, e: Event, t: JobType)
    requires Delivering(s, t) && !Restarts(t, e)
    ensures Delivering(Step(s, e), t)
  {
    hide OneJobPerAsset;
    hide WorkStep;
    StepKeepsInv(s, e);
    StepKeepsParked(s, e, t);
    StepIssues(s, e);
    var s' := Step(s, e);
    forall id | id in s'.enqueued && IssuedTo(s'.issued, t, id)
      ensures Covered(s'.db, s'.LaneOf(t), id)
    {
      if id !in s.enqueued { EnqueueGrows(s, e, id); }
      else if e.Work? && e.t == t { WorkKeepsCovered(s.db, s.issued, s.LaneOf(t), t, e.w, id); }
      else { OutsideKeepsCovered(s, e, t, id); }
    }
  }

  lemma {:induction false} RunDelivers(imageLimit: int, audioLimit: int, es: seq<Event>, t: JobType)
    requires Never(es, e => Restarts(t, e))
    ensures Delivering(Exec(Start(imageLimit, audioLimit), es), t)
  {
    if es != [] {
      NeverPrefix(es, e => Restarts(t, e));
      RunDelivers(imageLimit, audioLimit, es[..|es| - 1], t);
      StepDelivers(Exec(Start(imageLimit, audioLimit), es[..|es| - 1]), es[|es| - 1], t);
    }
  }

  /** No live job is stranded: as long as Redis keeps its lists, at every point between two operations
      each queued or running job that the API has pushed has a copy on its queue or processing list. */
  lemma NoLiveJobStranded(imageLimit: int, audioLimit: int, es: seq<Event>, id: int)
    requires var s := Exec(Start(imageLimit, audioLimit), es);
             id in s.enqueued && IsOpen(s.db, id) && Never(es, e => Restarts(s.db.jobs[id].kind, e))
    ensures var s := Exec(Start(imageLimit, audioLimit), es); Listed(s.LaneOf(s.db.jobs[id].kind), id)
  {
    var s := Exec(Start(imageLimit, audioLimit), es);
    RunDelivers(imageLimit, audioLimit, es, s.db.jobs[id].kind);
  }

  // ---------------------------------------------------------------- retries are bounded

  predicate RetryDue(stage: Stage, id: int) {
    stage == Requeueing(id) || (stage.Resolved? && stage.id == id && stage.resolution.TryAgain?)
  }

  /** Every retry push was decided by an increment that stayed within the limit. */
  predicate RetriesOk(lane: Lane, id: int) {
    var spent := Count(lane.log.retries, id) + if RetryDue(lane.stage, id) then 1 else 0;
    spent <= Count(lane.counters, id) && (spent > 0 ==> spent <= lane.limit)
  }

  predicate Forgets(t: JobType, id: int, e: Event) {
    e == Outside(LoseCounter(t, id))
  }

  lemma WorkKeepsRetries(db: Db, lane: Lane, t: JobType, w: WorkerStep, id: int)
    requires RetriesOk(lane, id)
    ensures RetriesOk(WorkStep(db, lane, t, w).lane, id) && WorkStep(db, lane, t, w).lane.limit == lane.limit
  {
  }

  lemma StepKeepsRetries(s: System, e: Event, t: JobType, id: int)
    requires RetriesOk(s.LaneOf(t), id) && !Forgets(t, id, e)
    ensures RetriesOk(Step(s, e).LaneOf(t), id) && Step(s, e).LaneOf(t).limit == s.LaneOf(t).limit
  {
    if e.Work? && e.t == t { WorkKeepsRetries(s.db, s.LaneOf(t), t, e.w, id); }
  }

  /** Over any run, with crashes, duplicates, reaping and lost lists, the retry pushes issued for one
      job never exceed the limit while its counter is neither expired nor lost. */
  lemma {:induction false} RetriesBounded(imageLimit: int, audioLimit: int, es: seq<Event>, t: JobType, id: int)
    requires Never(es, e => Forgets(t, id, e))
    ensures var lane := Exec(Start(imageLimit, audioLimit), es).LaneOf(t);
            && RetriesOk(lane, id) && lane.limit == Start(imageLimit, audioLimit).LaneOf(t).limit
            && (Count(lane.log.retries, id) <= lane.limit || Count(lane.log.retries, id) == 0)
  {
    if es != [] {
      NeverPrefix(es, e => Forgets(t, id, e));
      RetriesBounded(imageLimit, audioLimit, es[..|es| - 1], t, id);
      StepKeepsRetries(Exec(Start(imageLimit, audioLimit), es[..|es| - 1]), es[|es| - 1], t, id);
    }
  }

  /** The retry pushes made, and the one that is due. */
  function Spent(lane: Lane, id: int): nat {
    Count(lane.log.retries, id) + if RetryDue(lane.stage, id) then 1 else 0
  }

  lemma WorkPaysRetries(db: Db, lane: Lane, t: JobType, w: WorkerStep, id: int)
    ensures var lane' := WorkStep(db, lane, t, w).lane;
            Spent(lane', id) + A.Budget(lane', id) <= Spent(lane, id) + A.Budget(lane, id) && lane'.limit == lane.limit
  {
    hide WriteRows, Enumerates, Eligible, Missing, RemoveFirst, IdsIn;
  }

  lemma StepPaysRetries(s: System, e: Event, t: JobType, id: int)
    requires !Forgets(t, id, e)
    ensures var lane, lane' := s.LaneOf(t), Step(s, e).LaneOf(t);
            Spent(lane', id) + A.Budget(lane', id) <= Spent(lane, id) + A.Budget(lane, id) && lane'.limit == lane.limit
  {
    if e.Work? && e.t == t { WorkPaysRetries(s.db, s.LaneOf(t), t, e.w, id); }
    hide WorkStep;
  }

  /** Per lifetime of the counter: from any state, as long as the counter is kept, the further retry pushes for a
      job are at most one that is due already and the retries its counter still allows. Right after the
      counter was lost that is max_retries. */
  lemma {:induction false} RetriesPerLifetime(s: System, es: seq<Event>, t: JobType, id: int)
    requires Never(es, e => Forgets(t, id, e))
    ensures var lane, lane' := s.LaneOf(t), Exec(s, es).LaneOf(t);
            && Spent(lane', id) + A.Budget(lane', id) <= Spent(lane, id) + A.Budget(lane, id)
            && (Count(lane.counters, id) == 0 ==>
                  Count(lane'.log.retries, id) <= Spent(lane, id) + if lane.limit > 0 then lane.limit else 0)
  {
    if es != [] {
      NeverPrefix(es, e => Forgets(t, id, e));
      RetriesPerLifetime(s, es[..|es| - 1], t, id);
      StepPaysRetries(Exec(s, es[..|es| - 1]), es[|es| - 1], t, id);
      hide Step;
    }
  }

  // ---------------------------------------------------------------- first in, first out

  predicate Reorders(t: JobType, e: Event) {
    e == Work(t, ReapOne) || Restarts(t, e)
  }

  predicate InOrder(lane: Lane) {
    lane.log.popped + lane.queue == lane.log.pushed
  }

  lemma TakeKeepsOrder(lane: Lane)
    requires InOrder(lane) && lane.queue != []
    ensures InOrder(Take(lane))
  {
    assert lane.queue == [lane.queue[0]] + lane.queue[1..];
  }

  lemma StagesKeepLists(db: Db, lane: Lane, t: JobType, w: WorkerStep)
    requires !MovesEntries(w)
    ensures var lane' := WorkStep(db, lane, t, w).lane;
            && lane'.queue == lane.queue && lane'.processing == lane.processing
            && lane'.log.pushed == lane.log.pushed && lane'.log.popped == lane.log.popped
  {
  }

  lemma WorkKeepsOrder(db: Db, lane: Lane, t: JobType, w: WorkerStep)
    requires InOrder(lane) && !w.ReapOne?
    ensures var lane' := WorkStep(db, lane, t, w).lane; InOrder(lane') && lane.log.pushed <= lane'.log.pushed
  {
    if (w.Pop? || w.PopReplyLost?) && lane.queue != [] {
      TakeKeepsOrder(lane);
    } else if !MovesEntries(w) {
      StagesKeepLists(db, lane, t, w);
      hide WorkStep;
    }
  }

  lemma StepKeepsOrder(s: System, e: Event, t: JobType)
    requires InOrder(s.LaneOf(t)) && !Reorders(t, e)
    ensures InOrder(Step(s, e).LaneOf(t)) && s.LaneOf(t).log.pushed <= Step(s, e).LaneOf(t).log.pushed
  {
    match e
    case Work(u, w) => if u == t { WorkKeepsOrder(s.db, s.LaneOf(t), t, w); }
    case Outside(_) =>
  }

  lemma {:induction false} ExecKeepsOrder(s: System, es: seq<Event>, t: JobType)
    requires InOrder(s.LaneOf(t)) && Never(es, e => Reorders(t, e))
    ensures InOrder(Exec(s, es).LaneOf(t)) && s.LaneOf(t).log.pushed <= Exec(s, es).LaneOf(t).log.pushed
  {
    if es != [] {
      NeverPrefix(es, e => Reorders(t, e));
      ExecKeepsOrder(s, es[..|es| - 1], t);
      StepKeepsOrder(Exec(s, es[..|es| - 1]), es[|es| - 1], t);
    }
  }

  /** FIFO: while nothing is reaped and the lists survive, the popped entries followed by the queue
      are the sequence of all pushes, and the entry that has k others ahead of it is the one taken by
      the (k + 1)-th pop from now on. */
  lemma FirstInFirstOut(imageLimit: int, audioLimit: int, before: seq<Event>, after: seq<Event>, t: JobType, k: nat)
    requires Never(before + after, e => Reorders(t, e))
    ensures var s := Exec(Start(imageLimit, audioLimit), before).LaneOf(t);
            var s' := Exec(Start(imageLimit, audioLimit), before + after).LaneOf(t);
            && s'.log.popped + s'.queue == s'.log.pushed
            && (k < |s.queue| && |s'.log.popped| > |s.log.popped| + k
                ==> s'.log.popped[|s.log.popped| + k] == s.queue[k])
  {
    hide Step;
    var start := Start(imageLimit, audioLimit);
    assert Never(before, e => Reorders(t, e)) by {
      forall e | e in before ensures !Reorders(t, e) { assert e in before + after; }
    }
    assert Never(after, e => Reorders(t, e)) by {
      forall e | e in after ensures !Reorders(t, e) { assert e in before + after; }
    }
    ExecKeepsOrder(start, before, t);
    ExecAppend(start, before, after);
    ExecKeepsOrder(Exec(start, before), after, t);
    var s, s' := Exec(start, before).LaneOf(t), Exec(start, before + after).LaneOf(t);
    if k < |s.queue| && |s'.log.popped| > |s.log.popped| + k {
      var at := |s.log.popped| + k;
      assert s'.log.popped[at] == s'.log.pushed[at] == s.log.pushed[at] == s.queue[k];
    }
  }
}
