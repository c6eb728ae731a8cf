/** What the maintenance in a worker's loop is for: a QUEUED job that Redis lost gets its copy back. */
module Maintenance {
  import opened Basics
  import opened Protocol
  import opened Safety
  import opened Delivery
  import opened Worlds
  import opened WorkerCommon
  import opened Credits
  import opened AmidOthers

  /** A pass of maintenance that ran through: where its reap ended, and what its reconcile found. */
  datatype Pass = Pass(cleared: seq<Event>, reaped: nat, rows: seq<int>, pushed: nat)

  /** Between two points of the trace the worker reaped until nothing was parked, and then reconciled the
      QUEUED jobs, and did nothing else. */
  ghost predicate Maintained(origin: System, was: seq<Event>, p: Pass, now: seq<Event>, t: JobType) {
    && was <= p.cleared <= now
    && Mine(t, p.cleared) == Mine(t, was) + Reaps(p.reaped)
    && Exec(origin, p.cleared).LaneOf(t).processing == [] && Exec(origin, p.cleared).LaneOf(t).stage.Idle?
    && Mine(t, now) == Mine(t, p.cleared) + ReconcileSteps({JobStatus.Queued}, p.rows, p.pushed)
    && Exec(origin, now).LaneOf(t).stage.Idle?
  }

  /** From a point on, every job issued by an earlier one that was QUEUED then keeps a copy while it is open. */
  ghost predicate QueuedKept(origin: System, was: seq<Event>, done: seq<Event>, now: seq<Event>, t: JobType)
    requires was <= done <= now
  {
    Never(now[|was|..], e => Restarts(t, e)) ==>
      forall id | IssuedTo(Exec(origin, was).issued, t, id)
                  && HasStatus(Exec(origin, done).db, id, {JobStatus.Queued}) ::
        Listed(Exec(origin, done).LaneOf(t), id) && Covered(Exec(origin, now).db, Exec(origin, now).LaneOf(t), id)
  }

  /** What maintenance is for: whoever else moves, a QUEUED job that was issued before the pass has a copy on the
      lists after it, and keeps one for as long as it is open. */
  lemma MaintenanceKeeps(origin: System, was: seq<Event>, p: Pass, done: seq<Event>, now: seq<Event>, t: JobType)
    requires Maintained(origin, was, p, done, t) && done <= now && Inv(Exec(origin, was))
    ensures QueuedKept(origin, was, done, now, t)
  {
    hide Exec, Mine, Inv, ReconcileSteps, Reaps;
    TraceSplits(origin, was, p.cleared);
    TraceSplits(origin, p.cleared, done);
    TraceSplits(origin, done, now);
    var s0, s1, s2 := Exec(origin, was), Exec(origin, p.cleared), Exec(origin, done);
    if Never(now[|was|..], e => Restarts(t, e)) {
      NeverInPart(was, p.cleared, done, now, t);
      ExecKeepsInv(s0, p.cleared[|was|..]);
      IssuedStays(s0, p.cleared[|was|..]);
      var middle := done[|p.cleared|..];
      assert done == p.cleared + middle;
      MineAppend(t, p.cleared, middle);
      Rest(Mine(t, p.cleared), Mine(t, middle), ReconcileSteps({JobStatus.Queued}, p.rows, p.pushed));
      forall id | IssuedTo(s0.issued, t, id) && HasStatus(s2.db, id, {JobStatus.Queued})
        ensures Listed(s2.LaneOf(t), id) && Covered(Exec(origin, now).db, Exec(origin, now).LaneOf(t), id)
      {
        ReconcileLists(s1, middle, t, {JobStatus.Queued}, p.rows, p.pushed, id);
        CoveredStays(s2, now[|done|..], t, id);
      }
    }
  }

  /** One turn of a worker's loop: the trace when `run_once` was over and when the turn was, and the pass of
      maintenance if there was one. */
  datatype LoopTurn = LoopTurn(handled: seq<Event>, returned: bool, pass: Option<Pass>, over: seq<Event>)

  /** An exception ends a turn, as its last event says. A turn that `run_once` did not end by an exception runs
      maintenance when it is due: it runs through, or an exception ends it, and not unless something failed. */
  ghost predicate TurnOk(origin: System, begin: seq<Event>, turn: LoopTurn, due: bool, quiet: bool, t: JobType) {
    && begin <= turn.handled <= turn.over
    && (!turn.returned ==> EndsWith(turn.handled, Work(t, Escape)))
    && (turn.returned && due ==>
          if turn.pass.Some? then Maintained(origin, turn.handled, turn.pass.value, turn.over, t)
          else !quiet && EndsWith(turn.over, Work(t, Escape)))
    && (!turn.returned || !due ==> turn.pass.None? && turn.over == turn.handled)
  }

  function BeginOf(since: seq<Event>, turns: seq<LoopTurn>, k: nat): seq<Event>
    requires k <= |turns|
  {
    if k == 0 then since else turns[k - 1].over
  }

  /** The whole loop: one turn after the other, from startup to the end of the trace. */
  ghost predicate TurnsOk(origin: System, since: seq<Event>, turns: seq<LoopTurn>, now: seq<Event>, due: seq<bool>,
                          quiet: bool, t: JobType)
  {
    && |turns| <= |due| && BeginOf(since, turns, |turns|) == now
    && forall k | 0 <= k < |turns| :: TurnOk(origin, BeginOf(since, turns, k), turns[k], due[k], quiet, t)
  }

  lemma NoTurns(origin: System, since: seq<Event>, due: seq<bool>, quiet: bool, t: JobType)
    ensures TurnsOk(origin, since, [], since, due, quiet, t)
  {
  }

  lemma OneMoreTurn(origin: System, since: seq<Event>, turns: seq<LoopTurn>, now: seq<Event>, due: seq<bool>,
                    quiet: bool, t: JobType, turn: LoopTurn)
    requires TurnsOk(origin, since, turns, now, due, quiet, t) && |turns| < |due|
    requires TurnOk(origin, now, turn, due[|turns|], quiet, t)
    ensures TurnsOk(origin, since, turns + [turn], turn.over, due, quiet, t)
  {
    hide TurnOk;
    var more, n := turns + [turn], |turns|;
    assert forall k | 0 <= k <= n :: BeginOf(since, more, k) == BeginOf(since, turns, k);
    assert BeginOf(since, more, n + 1) == turn.over;
    hide BeginOf;
    forall k | 0 <= k < n + 1 ensures TurnOk(origin, BeginOf(since, more, k), more[k], due[k], quiet, t) {
      if k < n { assert more[k] == turns[k]; }
    }
  }

  lemma Longer<T>(a: seq<T>, b: seq<T>, c: seq<T>)
    requires a <= b <= c
    ensures a <= c
  {
  }

  lemma TurnAt(origin: System, since: seq<Event>, turns: seq<LoopTurn>, now: seq<Event>, due: seq<bool>, quiet: bool,
               t: JobType, k: nat)
    requires TurnsOk(origin, since, turns, now, due, quiet, t) && k < |turns|
    ensures BeginOf(since, turns, k) <= turns[k].handled <= turns[k].over == BeginOf(since, turns, k + 1)
    ensures BeginOf(since, turns, |turns|) == now
    ensures turns[k].pass.Some? ==> Maintained(origin, turns[k].handled, turns[k].pass.value, turns[k].over, t)
  {
    hide Maintained;
    assert TurnOk(origin, BeginOf(since, turns, k), turns[k], due[k], quiet, t);
  }

  /** The turns follow each other. */
  lemma {:induction false} TurnsAreLater(origin: System, since: seq<Event>, turns: seq<LoopTurn>, now: seq<Event>,
                                         due: seq<bool>, quiet: bool, t: JobType, from: nat, k: nat)
    requires TurnsOk(origin, since, turns, now, due, quiet, t) && from <= k <= |turns|
    ensures BeginOf(since, turns, from) <= BeginOf(since, turns, k)
    decreases k - from
  {
    hide TurnsOk, BeginOf, Maintained;
    if from < k {
      TurnAt(origin, since, turns, now, due, quiet, t, from);
      Longer(BeginOf(since, turns, from), turns[from].handled, turns[from].over);
      TurnsAreLater(origin, since, turns, now, due, quiet, t, from + 1, k);
      Longer(BeginOf(since, turns, from), BeginOf(since, turns, from + 1), BeginOf(since, turns, k));
    }
  }

  /** After every due turn whose maintenance ran through, the QUEUED jobs issued before it keep their copies. */
  ghost predicate MaintenanceWorks(origin: System, turns: seq<LoopTurn>, now: seq<Event>, t: JobType) {
    forall k | 0 <= k < |turns| && turns[k].pass.Some? ::
      && turns[k].handled <= turns[k].over <= now
      && QueuedKept(origin, turns[k].handled, turns[k].over, now, t)
  }

  lemma TurnsMaintain(origin: System, was: seq<Event>, since: seq<Event>, turns: seq<LoopTurn>, now: seq<Event>,
                      due: seq<bool>, quiet: bool, t: JobType)
    requires was <= since && Inv(Exec(origin, was)) && TurnsOk(origin, since, turns, now, due, quiet, t)
    ensures MaintenanceWorks(origin, turns, now, t)
  {
    hide Exec, Inv, Maintained, QueuedKept, TurnsOk, BeginOf;
    forall k | 0 <= k < |turns| && turns[k].pass.Some?
      ensures turns[k].handled <= turns[k].over <= now
      ensures QueuedKept(origin, turns[k].handled, turns[k].over, now, t)
    {
      TurnWorks(origin, was, since, turns, now, due, quiet, t, k);
    }
  }

  lemma TurnWorks(origin: System, was: seq<Event>, since: seq<Event>, turns: seq<LoopTurn>, now: seq<Event>,
                  due: seq<bool>, quiet: bool, t: JobType, k: nat)
    requires was <= since && Inv(Exec(origin, was)) && TurnsOk(origin, since, turns, now, due, quiet, t)
    requires k < |turns| && turns[k].pass.Some?
    ensures turns[k].handled <= turns[k].over <= now
    ensures QueuedKept(origin, turns[k].handled, turns[k].over, now, t)
  {
    hide Exec, Inv, Maintained, QueuedKept, TurnsOk;
    var begin := Chain(origin, since, turns, now, due, quiet, t, k);
    KeepsFrom(origin, was, since, begin, turns[k].handled, turns[k].pass.value, turns[k].over, now, t);
  }

  lemma Chain(origin: System, since: seq<Event>, turns: seq<LoopTurn>, now: seq<Event>, due: seq<bool>, quiet: bool,
              t: JobType, k: nat) returns (begin: seq<Event>)
    requires TurnsOk(origin, since, turns, now, due, quiet, t) && k < |turns|
    ensures since <= begin <= turns[k].handled <= turns[k].over <= now
    ensures turns[k].pass.Some? ==> Maintained(origin, turns[k].handled, turns[k].pass.value, turns[k].over, t)
  {
    begin := BeginOf(since, turns, k);
    assert BeginOf(since, turns, 0) == since;
    hide Maintained, TurnsOk, BeginOf;
    TurnAt(origin, since, turns, now, due, quiet, t, k);
    TurnsAreLater(origin, since, turns, now, due, quiet, t, 0, k);
    TurnsAreLater(origin, since, turns, now, due, quiet, t, k + 1, |turns|);
  }

  lemma KeepsFrom(origin: System, was: seq<Event>, since: seq<Event>, begin: seq<Event>, handled: seq<Event>, p: Pass,
                  over: seq<Event>, now: seq<Event>, t: JobType)
    requires was <= since <= begin <= handled <= over <= now && Inv(Exec(origin, was))
    requires Maintained(origin, handled, p, over, t)
    ensures QueuedKept(origin, handled, over, now, t)
  {
    hide Exec, Inv, Maintained, QueuedKept;
    Longer(was, since, begin);
    Longer(was, begin, handled);
    TraceSplits(origin, was, handled);
    ExecKeepsInv(Exec(origin, was), handled[|was|..]);
    MaintenanceKeeps(origin, handled, p, over, now, t);
  }
}
