/** The delivery, recovery and retry primitives that both workers share (worker_common.py). */
module WorkerCommon {
  import opened Basics
  import opened Protocol
  import opened Worlds
  import opened Delivery
  import opened Credits

  predicate EndsWith(trace: seq<Event>, e: Event) {
    trace != [] && trace[|trace| - 1] == e
  }

  /** reliable_pop: one entry, now parked on the processing list, or nothing. A socket timeout counts as
      nothing; an entry moved although its reply was lost stays parked for the reaper. */
  method ReliablePop(world: World, t: JobType) returns (r: Result<Option<Raw>>, ghost before: System)
    requires world.Valid() && world.s.LaneOf(t).stage.Idle?
    modifies world
    ensures Progress(world, t)
    ensures r.Returned? && r.value.Some? ==>
              before.LaneOf(t).queue != [] && r.value.value == before.LaneOf(t).queue[0]
              && world.s == Step(before, Work(t, Pop))
              && world.s.LaneOf(t).stage
                 == (if r.value.value.Id? then Popped(r.value.value.id) else Acking(r.value.value))
    ensures r.Returned? && r.value.Some? ==> |world.s.LaneOf(t).log.popped| > |old(world.s).LaneOf(t).log.popped|
    ensures r.Raised? ==> !r.timedOut
    ensures !(r.Returned? && r.value.Some?) ==>
              && world.s.LaneOf(t).stage.Idle?
              && (world.s == before || world.s == Step(before, Work(t, PopReplyLost)))
    ensures Uneventful(old(world.turns)) ==>
              before == old(world.s) && r.Returned? && (r.value.Some? <==> before.LaneOf(t).queue != [])
              && (r.value.None? ==> world.s == before)
  {
    r, before := world.Blmove(t);
    if r.Raised? && r.timedOut {
      r := Returned(None);
    }
  }

  /** ack: LREM one copy off the processing list. */
  method Ack(world: World, t: JobType, raw: Raw) returns (r: Result<()>, ghost before: System)
    requires world.Valid() && world.s.LaneOf(t).stage == Acking(raw)
    modifies world
    ensures Progress(world, t)
    ensures before.LaneOf(t).stage == Acking(raw)
    ensures r.Returned? ==>
              && world.s == Step(before, Work(t, Protocol.WorkerStep.Ack)) && world.s.LaneOf(t).stage.Idle?
              && EndsWith(world.trace, Work(t, Protocol.WorkerStep.Ack))
              && Completed(world.origin, world.trace, t) > Completed(world.origin, old(world.trace), t)
    ensures Uneventful(old(world.turns)) ==> r.Returned? && before == old(world.s)
  {
    hide Completed, Mine;
    var c, was, moves := world.Command(t, Protocol.WorkerStep.Ack);
    before := was;
    AckCompletes(world.origin, old(world.trace), moves, t);
    r := if c.Raised? then Raised(c.timedOut) else Returned(());
  }

  /** The caller's RPUSH of a job that `process` asked to see again. */
  method PushAgain(world: World, t: JobType, id: int) returns (r: Result<()>, ghost before: System)
    requires world.Valid() && world.s.LaneOf(t).stage == Requeueing(id)
    modifies world
    ensures Progress(world, t)
    ensures before.LaneOf(t).stage == Requeueing(id)
    ensures r.Returned? ==> world.s == Step(before, Work(t, PushRetry)) && world.s.LaneOf(t).stage == Acking(Id(id))
    ensures Uneventful(old(world.turns)) ==> r.Returned? && before == old(world.s)
  {
    var c, was, moves := world.Command(t, PushRetry);
    before := was;
    r := if c.Raised? then Raised(c.timedOut) else Returned(());
  }

  // ---------------------------------------------------------------- reap_stuck

  /** Only pushes at the tail happened to the lane: the queue grew by exactly what was pushed. */
  ghost predicate OnlyArrivals(lane: Lane, lane': Lane) {
    && lane.log.pushed <= lane'.log.pushed
    && lane'.queue == lane.queue + lane'.log.pushed[|lane.log.pushed|..]
    && lane'.processing == lane.processing
  }

  lemma ElsewhereOnlyArrives(s: System, e: Event, t: JobType)
    requires MovesFor(Worker(t), e) && !Restarts(t, e)
    ensures OnlyArrivals(s.LaneOf(t), Step(s, e).LaneOf(t))
  {
    match e
    case Work(u, w) =>
    case Outside(_) =>
  }

  lemma ArrivalsChain(a: Lane, b: Lane, c: Lane)
    requires OnlyArrivals(a, b) && OnlyArrivals(b, c)
    ensures OnlyArrivals(a, c)
  {
    var n, m := |a.log.pushed|, |b.log.pushed|;
    assert c.log.pushed[n..] == b.log.pushed[n..] + c.log.pushed[m..];
  }

  lemma {:induction false} MovesOnlyArrive(s: System, moves: seq<Event>, t: JobType)
    requires Elsewhere(Worker(t), moves) && Never(moves, e => Restarts(t, e))
    ensures OnlyArrivals(s.LaneOf(t), Exec(s, moves).LaneOf(t))
  {
    hide Step;
    if moves != [] {
      var prefix, last := moves[..|moves| - 1], moves[|moves| - 1];
      NeverPrefix(moves, e => Restarts(t, e));
      assert last in moves;
      assert forall e | e in prefix :: e in moves;
      MovesOnlyArrive(s, prefix, t);
      ElsewhereOnlyArrives(Exec(s, prefix), last, t);
      ArrivalsChain(s.LaneOf(t), Exec(s, prefix).LaneOf(t), Exec(s, moves).LaneOf(t));
    }
  }

  /** What a reap that moved the first n parked entries leaves, given what arrived meanwhile. */
  ghost predicate ReapedSoFar(lane: Lane, lane': Lane, n: nat) {
    && n <= |lane.processing|
    && lane.log.pushed <= lane'.log.pushed
    && lane'.queue == Reverse(lane.processing[..n]) + lane.queue + lane'.log.pushed[|lane.log.pushed|..]
    && lane'.processing == lane.processing[n..]
  }

  lemma ArrivalsKeepReaped(a: Lane, b: Lane, c: Lane, n: nat)
    requires ReapedSoFar(a, b, n) && OnlyArrivals(b, c)
    ensures ReapedSoFar(a, c, n)
  {
    assert c.log.pushed[|a.log.pushed|..] == b.log.pushed[|a.log.pushed|..] + c.log.pushed[|b.log.pushed|..];
  }

  lemma ReverseLast(s: seq<Raw>, x: Raw)
    ensures Reverse(s + [x]) == [x] + Reverse(s)
  {
    if s != [] {
      assert (s + [x])[1..] == s[1..] + [x];
      ReverseLast(s[1..], x);
    }
  }

  lemma ReapOneMore(a: Lane, b: Lane, n: nat)
    requires ReapedSoFar(a, b, n) && b.processing != []
    ensures ReapedSoFar(a, PutBack(b), n + 1)
  {
    assert a.processing[..n + 1] == a.processing[..n] + [a.processing[n]];
    ReverseLast(a.processing[..n], a.processing[n]);
  }

  /** Nobody restarted Redis under this lane between two points of the trace. */
  ghost predicate NoRestart(t: JobType, before: seq<Event>, now: seq<Event>) {
    before <= now && Never(now[|before|..], e => Restarts(t, e))
  }

  lemma NoRestartSplit(t: JobType, before: seq<Event>, mid: seq<Event>, more: seq<Event>)
    requires before <= mid && NoRestart(t, before, mid + more)
    ensures NoRestart(t, before, mid) && Never(more, e => Restarts(t, e))
  {
    var all := (mid + more)[|before|..];
    assert all == mid[|before|..] + more;
    forall e | e in mid[|before|..] ensures !Restarts(t, e) { assert e in all; }
    forall e | e in more ensures !Restarts(t, e) { assert e in all; }
  }

  /** The same when nobody interferes. */
  function ReapedTo(s: System, t: JobType, n: nat): System
    requires n <= |s.LaneOf(t).processing|
  {
    var lane := s.LaneOf(t);
    s.With(t, s.db, lane.(queue := Reverse(lane.processing[..n]) + lane.queue, processing := lane.processing[n..]))
  }

  function Reaped(s: System, t: JobType): System {
    ReapedTo(s, t, |s.LaneOf(t).processing|)
  }

  lemma ReapOneIs(s: System, t: JobType)
    requires s.LaneOf(t).stage.Idle?
    ensures s.LaneOf(t).processing != [] ==> Step(s, Work(t, ReapOne)) == s.With(t, s.db, PutBack(s.LaneOf(t)))
  {
  }

  lemma ReapedToNext(s: System, t: JobType, n: nat)
    requires n < |s.LaneOf(t).processing|
    ensures ReapedTo(s, t, n).LaneOf(t).processing != []
    ensures s.With(t, s.db, PutBack(ReapedTo(s, t, n).LaneOf(t))) == ReapedTo(s, t, n + 1)
  {
    var parked := s.LaneOf(t).processing;
    assert parked[..n + 1] == parked[..n] + [parked[n]];
    ReverseLast(parked[..n], parked[n]);
  }

  function Reaps(n: nat): seq<WorkerStep> {
    seq(n, _ => ReapOne)
  }

  lemma OneMoreReap(n: nat)
    ensures Reaps(0) == [] && Reaps(n) + [ReapOne] == Reaps(n + 1)
  {
  }

  /** reap_stuck: every parked entry goes back to the head of the queue, one LMOVE at a time, while the
      API may push at its tail. The count is exact, and so is the order: the last one parked comes first. */
  method ReapStuck(world: World, t: JobType) returns (r: Result<nat>)
    requires world.Valid() && world.s.LaneOf(t).stage.Idle?
    modifies world
    ensures Progress(world, t) && world.s.LaneOf(t).stage.Idle?
    ensures r.Returned? ==>
              && world.s.LaneOf(t).processing == []
              && Mine(t, world.trace) == Mine(t, old(world.trace)) + Reaps(r.value)
    ensures r.Returned? && NoRestart(t, old(world.trace), world.trace) ==>
              && r.value == |old(world.s).LaneOf(t).processing|
              && ReapedSoFar(old(world.s).LaneOf(t), world.s.LaneOf(t), r.value)
              && world.s.LaneOf(t).processing == []
    ensures Uneventful(old(world.turns)) ==>
              && r == Returned(|old(world.s).LaneOf(t).processing|)
              && world.s == Reaped(old(world.s), t)
  {
    hide Step, Exec, Mine, Reaps;
    var recovered := 0;
    ghost var start := world.s;
    OneMoreReap(0);
    while true
      invariant Progress(world, t) && world.s.LaneOf(t).stage.Idle?
      invariant Mine(t, world.trace) == Mine(t, old(world.trace)) + Reaps(recovered)
      invariant NoRestart(t, old(world.trace), world.trace) ==>
                  ReapedSoFar(start.LaneOf(t), world.s.LaneOf(t), recovered)
      invariant Uneventful(old(world.turns)) ==>
                  recovered <= |start.LaneOf(t).processing| && world.s == ReapedTo(start, t, recovered)
      decreases |world.turns|, |world.s.LaneOf(t).processing|
    {
      ghost var was, past := world.s, world.trace;
      var moved, before, moves := world.Lmove(t);
      if moved.Raised? {
        return Raised(moved.timedOut);
      }
      ReapOneIs(before, t);
      if NoRestart(t, old(world.trace), world.trace) {
        if moved.value.Some? {
          assert past + moves + [Work(t, ReapOne)] == past + (moves + [Work(t, ReapOne)]);
          NoRestartSplit(t, old(world.trace), past, moves + [Work(t, ReapOne)]);
          assert Never(moves, e => Restarts(t, e)) by {
            forall e | e in moves ensures !Restarts(t, e) { assert e in moves + [Work(t, ReapOne)]; }
          }
        } else {
          NoRestartSplit(t, old(world.trace), past, moves);
        }
        MovesOnlyArrive(was, moves, t);
        ArrivalsKeepReaped(start.LaneOf(t), was.LaneOf(t), before.LaneOf(t), recovered);
        if moved.value.Some? { ReapOneMore(start.LaneOf(t), before.LaneOf(t), recovered); }
      }
      if moved.value.None? {
        break;
      }
      if Uneventful(old(world.turns)) { ReapedToNext(start, t, recovered); }
      OneMoreReap(recovered);
      recovered := recovered + 1;
    }
    return Returned(recovered);
  }

  // ---------------------------------------------------------------- reconcile_orphans

  const UNFINISHED := {JobStatus.Queued, JobStatus.Running}

  function SeenOn(lane: Lane): set<int> {
    IdsIn(lane.queue) + IdsIn(lane.processing)
  }

  function PushAll(lane: Lane, ids: seq<int>): Lane
    decreases |ids|
  {
    if ids == [] then lane else PushAll(PushBack(lane, Id(ids[0])), ids[1..])
  }

  /** The effect of a reconcile that nobody interferes with, given the order of the query's answer. */
  function Reconciled(s: System, t: JobType, rows: seq<int>): System {
    s.With(t, s.db, PushAll(s.LaneOf(t), Missing(rows, SeenOn(s.LaneOf(t)))))
  }

  /** The ids among raw list entries; entries that are not numbers are passed over. */
  method CollectIds(raws: seq<Raw>, already: set<int>) returns (ids: set<int>)
    ensures ids == already + IdsIn(raws)
  {
    ids := already;
    for i := 0 to |raws|
      invariant ids == already + IdsIn(raws[..i])
    {
      assert raws[..i + 1] == raws[..i] + [raws[i]];
      if raws[i].Id? {
        ids := ids + {raws[i].id};
      }
    }
    assert raws[..|raws|] == raws;
  }

  /** The two reads of a reconcile: which ids are on the lists. */
  method ScanLists(world: World, t: JobType, wanted: set<JobStatus>) returns (r: Result<set<int>>)
    requires world.Valid() && world.s.LaneOf(t).stage.Idle?
    modifies world
    ensures Progress(world, t)
    ensures r.Returned? ==>
              && world.s.LaneOf(t).stage == ScannedAll(wanted, r.value)
              && Mine(t, world.trace) == Mine(t, old(world.trace)) + [ScanQueue(wanted), ScanProcessing]
    ensures Uneventful(old(world.turns)) ==>
              && r == Returned(SeenOn(old(world.s).LaneOf(t)))
              && world.s == Scanned(old(world.s), t, wanted)
  {
    hide WorkStep, Exec, Mine;
    var waiting, b0 := world.LrangeQueue(t, wanted);
    if waiting.Raised? {
      return Raised(waiting.timedOut);
    }
    var inRedis := CollectIds(waiting.value, {});
    ScanKeepsLists(b0, t, wanted);
    var parked, b1 := world.LrangeProcessing(t);
    if parked.Raised? {
      return Raised(parked.timedOut);
    }
    inRedis := CollectIds(parked.value, inRedis);
    assert inRedis == world.s.LaneOf(t).stage.seen;
    r := Returned(inRedis);
  }

  function Pushes(n: nat): seq<WorkerStep> {
    seq(n, _ => PushOrphan)
  }

  /** The loop over the query's answer: push what is missing, in its order. */
  method PushMissing(world: World, t: JobType, rows: seq<int>, inRedis: set<int>) returns (r: Result<nat>)
    requires world.Valid() && world.s.LaneOf(t).stage == AfterQuery(Missing(rows, inRedis))
    modifies world
    ensures Progress(world, t)
    ensures r.Returned? ==>
              && world.s.LaneOf(t).stage.Idle? && r.value == |Missing(rows, inRedis)|
              && Mine(t, world.trace) == Mine(t, old(world.trace)) + Pushes(r.value)
    ensures Uneventful(old(world.turns)) ==> r.Returned? && world.s == Pushed(old(world.s), t, Missing(rows, inRedis))
  {
    hide Step, Exec, Pushed, Mine, Pushes;
    ghost var start, quiet, done, left := world.s, Uneventful(world.turns), [], Missing(rows, inRedis);
    PushedNothing(start, t);
    StillMissingIs(rows, inRedis);
    NoPushes();
    hide Missing, StillMissing;
    var recovered := 0;
    for i := 0 to |rows|
      invariant Progress(world, t)
      invariant left == StillMissing(rows, i, inRedis) && done + left == Missing(rows, inRedis)
      invariant recovered == |done| && world.s.LaneOf(t).stage == AfterQuery(left)
      invariant quiet ==> world.s == Pushed(start, t, done)
      invariant Mine(t, world.trace) == Mine(t, old(world.trace)) + Pushes(recovered)
    {
      if rows[i] !in inRedis {
        if quiet { PushOneMore(start, t, done, rows[i]); }
        var pushed, b := world.RpushOrphan(t, rows[i]);
        if pushed.Raised? {
          return Raised(pushed.timedOut);
        }
        OneMorePush(recovered);
        assert left == [rows[i]] + left[1..];
        assert (done + [rows[i]]) + left[1..] == done + left;
        done, left := done + [rows[i]], left[1..];
        recovered := recovered + 1;
      }
    }
    assert left == [] && done + left == done;
    return Returned(recovered);
  }

  /** What the loop still has to push when it is at row i. */
  ghost function StillMissing(rows: seq<int>, i: nat, seen: set<int>): seq<int>
    requires i <= |rows|
  {
    Missing(rows[i..], seen)
  }

  lemma StillMissingIs(rows: seq<int>, seen: set<int>)
    ensures StillMissing(rows, 0, seen) == Missing(rows, seen) && StillMissing(rows, |rows|, seen) == []
    ensures forall i | 0 <= i < |rows| :: StillMissing(rows, i, seen) ==
              if rows[i] in seen then StillMissing(rows, i + 1, seen)
              else [rows[i]] + StillMissing(rows, i + 1, seen)
  {
    assert rows[0..] == rows;
    forall i | 0 <= i < |rows| ensures StillMissing(rows, i, seen) ==
        if rows[i] in seen then StillMissing(rows, i + 1, seen) else [rows[i]] + StillMissing(rows, i + 1, seen)
    {
      assert rows[i..][1..] == rows[i + 1..];
    }
  }

  lemma NoPushes()
    ensures Pushes(0) == []
  {
  }

  lemma OneMorePush(n: nat)
    ensures Pushes(n) + [PushOrphan] == Pushes(n + 1)
  {
  }

  /** reconcile_orphans: push every eligible job that is on neither list, in the order of the query. Whoever
      else is at work, the worker takes exactly these steps: the two reads, the query, and one push for each
      answer that was in neither read. */
  method ReconcileOrphans(world: World, t: JobType, statuses: Option<set<JobStatus>>)
    returns (r: Result<nat>, ghost rows: seq<int>)
    requires world.Valid() && world.s.LaneOf(t).stage.Idle?
    modifies world
    ensures Progress(world, t)
    ensures r.Returned? ==>
              && world.s.LaneOf(t).stage.Idle?
              && var wanted := if statuses.Some? then statuses.value else UNFINISHED;
                 Mine(t, world.trace) == Mine(t, old(world.trace))
                                         + [ScanQueue(wanted), ScanProcessing, QueryJobs(rows)] + Pushes(r.value)
    ensures Uneventful(old(world.turns)) ==>
              var wanted := if statuses.Some? then statuses.value else UNFINISHED;
              && Enumerates(rows, Eligible(old(world.s).db, t, wanted))
              && world.s == Reconciled(old(world.s), t, rows)
              && r == Returned(|Missing(rows, SeenOn(old(world.s).LaneOf(t)))|)
  {
    hide Step, Exec, Reconciled, Pushed, Scanned, Mine, Pushes;
    rows := [];
    var wanted := if statuses.Some? then statuses.value else UNFINISHED;
    ghost var quiet, start := Uneventful(world.turns), world.s;
    var inRedis := ScanLists(world, t, wanted);
    if inRedis.Raised? {
      return Raised(inRedis.timedOut), rows;
    }
    var answer, b := world.SelectJobs(t);
    if answer.Raised? {
      return Raised(answer.timedOut), rows;
    }
    rows := answer.value;
    if quiet {
      ScannedRows(start, t, wanted);
      ReconcileAddsUp(start, t, wanted, rows);
    }
    r := PushMissing(world, t, answer.value, inRedis.value);
  }

  /** After the two reads. */
  ghost function Scanned(s: System, t: JobType, wanted: set<JobStatus>): System {
    Step(Step(s, Work(t, ScanQueue(wanted))), Work(t, ScanProcessing))
  }

  lemma ScanKeepsLists(s: System, t: JobType, wanted: set<JobStatus>)
    ensures Step(s, Work(t, ScanQueue(wanted))).LaneOf(t).processing == s.LaneOf(t).processing
  {
  }

  lemma ScannedRows(s: System, t: JobType, wanted: set<JobStatus>)
    ensures Scanned(s, t, wanted).db == s.db
  {
  }

  /** After some pushes, whatever remains being pushed next. */
  function Pushed(s: System, t: JobType, ids: seq<int>): System {
    var at := s.LaneOf(t).stage;
    var todo := if at.Pushing? then at.todo else [];
    var left := if |ids| <= |todo| then todo[|ids|..] else [];
    s.With(t, s.db, PushAll(s.LaneOf(t), ids).(stage := AfterQuery(left)))
  }

  lemma PushedNothing(s: System, t: JobType)
    requires s.LaneOf(t).stage.Idle? || (s.LaneOf(t).stage.Pushing? && s.LaneOf(t).stage.todo != [])
    ensures Pushed(s, t, []) == s
  {
    if s.LaneOf(t).stage.Pushing? { assert s.LaneOf(t).stage.todo[0..] == s.LaneOf(t).stage.todo; }
  }

  lemma ReconcileAddsUp(s: System, t: JobType, wanted: set<JobStatus>, rows: seq<int>)
    requires s.LaneOf(t).stage.Idle? && Enumerates(rows, Eligible(s.db, t, wanted))
    ensures var todo := Missing(rows, SeenOn(s.LaneOf(t)));
            Pushed(Step(Scanned(s, t, wanted), Work(t, QueryJobs(rows))), t, todo) == Reconciled(s, t, rows)
  {
    var todo := Missing(rows, SeenOn(s.LaneOf(t)));
    var queried := Step(Scanned(s, t, wanted), Work(t, QueryJobs(rows)));
    QueriedIs(s, t, wanted, rows);
    hide Step, Scanned, Eligible, Enumerates, Missing, IdsIn;
    PushAllIgnoresStage(s.LaneOf(t), todo, AfterQuery(todo));
    PushAllIs(s.LaneOf(t), todo);
  }

  lemma QueriedIs(s: System, t: JobType, wanted: set<JobStatus>, rows: seq<int>)
    requires s.LaneOf(t).stage.Idle? && Enumerates(rows, Eligible(s.db, t, wanted))
    ensures Step(Scanned(s, t, wanted), Work(t, QueryJobs(rows)))
            == s.With(t, s.db, s.LaneOf(t).(stage := AfterQuery(Missing(rows, SeenOn(s.LaneOf(t))))))
  {
    hide Enumerates, Eligible, Missing, IdsIn;
  }

  lemma PushAllIgnoresStage(lane: Lane, ids: seq<int>, stage: Stage)
    ensures PushAll(lane.(stage := stage), ids) == PushAll(lane, ids).(stage := stage)
    decreases |ids|
  {
    if ids != [] {
      PushAllIgnoresStage(PushBack(lane, Id(ids[0])), ids[1..], stage);
    }
  }

  lemma PushAllMore(lane: Lane, ids: seq<int>, id: int)
    ensures PushAll(lane, ids + [id]) == PushBack(PushAll(lane, ids), Id(id))
    decreases |ids|
  {
    if ids != [] {
      assert (ids + [id])[1..] == ids[1..] + [id];
      PushAllMore(PushBack(lane, Id(ids[0])), ids[1..], id);
    }
  }

  lemma PushAllIs(lane: Lane, ids: seq<int>)
    ensures var l := PushAll(lane, ids);
            && l.queue == lane.queue + seq(|ids|, i requires 0 <= i < |ids| => Id(ids[i]))
            && l.processing == lane.processing && l.stage == lane.stage && l.counters == lane.counters
            && l.limit == lane.limit && l.log.runs == lane.log.runs && l.log.retries == lane.log.retries
    decreases |ids|
  {
    if ids != [] {
      PushAllIs(PushBack(lane, Id(ids[0])), ids[1..]);
    }
  }

  lemma PushOneMore(s: System, t: JobType, ids: seq<int>, id: int)
    requires s.LaneOf(t).stage.Pushing? && |ids| < |s.LaneOf(t).stage.todo| && s.LaneOf(t).stage.todo[|ids|] == id
    ensures Step(Pushed(s, t, ids), Work(t, PushOrphan)) == Pushed(s, t, ids + [id])
  {
    PushAllMore(s.LaneOf(t), ids, id);
    var todo := s.LaneOf(t).stage.todo;
    assert todo[|ids|..][1..] == todo[|ids + [id]|..];
  }

  /** handle_job_failure: send the job back if the counter allows, else dead-letter it; also when the
      counter cannot be kept. Only the session's rows change; the caller commits them. */
  method HandleJobFailure(world: World, job: JobRow, asset: AssetRow, t: JobType, maxRetries: int)
    returns (requeue: bool, ghost tracking: Tracking, ghost before: System)
    requires world.Valid() && world.s.LaneOf(t).stage == Booking(job.id, job.ref)
    requires world.s.LaneOf(t).limit == maxRetries
    modifies world, job, asset
    ensures Progress(world, t)
    ensures before.LaneOf(t).stage == old(world.s.LaneOf(t).stage) && before.LaneOf(t).limit == maxRetries
    ensures world.s == Step(before, Work(t, Track(tracking)))
    ensures requeue <==> tracking.Counted? && Count(before.LaneOf(t).counters, job.id) + 1 <= maxRetries
    ensures world.s.LaneOf(t).stage == Resolved(job.id, job.ref, if requeue then TryAgain else GiveUp)
    ensures Due(world.s.LaneOf(t).stage, job, asset) && asset.path == old(asset.path)
    ensures Uneventful(old(world.turns)) ==> before == old(world.s)
  {
    var attempts;
    attempts, tracking, before := world.CountAttempt(t, job);
    if attempts.None? {
      job.status := JobStatus.Failed;
      asset.status := AssetStatus.Failed;
      return false, tracking, before;
    }
    if attempts.value <= maxRetries {
      job.status := JobStatus.Queued;
      asset.status := AssetStatus.Pending;
      return true, tracking, before;
    }
    job.status := JobStatus.Failed;
    asset.status := AssetStatus.Failed;
    return false, tracking, before;
  }
}
