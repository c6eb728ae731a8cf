/** Why FAILED is only final without faults: a job that is on the queue twice comes back. */
module Duplicates {
  import opened Basics
  import opened Protocol

  lemma OneMore(s: System, es: seq<Event>, e: Event)
    ensures Exec(s, es + [e]) == Step(Exec(s, es), e)
  {
    assert (es + [e])[..|es|] == es;
  }

  /** The reconcile of a worker runs between an API commit and its push: two copies of one id. */
  const DUPLICATED: seq<Event> := [
    Outside(PersistPoem(1, Some(Fresh(1, 1)), None)),
    Work(Image, ScanQueue({JobStatus.Queued})), Work(Image, ScanProcessing),
    Work(Image, QueryJobs([1])), Work(Image, PushOrphan),
    Outside(Enqueue(1))]

  /** One attempt that fails, with no retry allowed. */
  const FAILING: seq<Event> := [
    Work(Image, Pop), Work(Image, ReadJob), Work(Image, ReadAsset), Work(Image, CommitRunning),
    Work(Image, Process(RaisedError)), Work(Image, Track(Counted)), Work(Image, CommitOutcome), Work(Image, Ack)]

  const REOPENING: seq<Event> := [
    Work(Image, Pop), Work(Image, ReadJob), Work(Image, ReadAsset), Work(Image, CommitRunning)]

  function Held(status: JobStatus, s: AssetStatus): Db {
    Db(map[1 := Job(Image, 1, status)], map[Key(Image, 1) := Asset(1, s, None)], {1})
  }

  lemma PersistedIs()
    ensures var s := Step(Start(0, 0), DUPLICATED[0]);
            s.db == Held(JobStatus.Queued, AssetStatus.Pending) && s.issued == map[1 := Image]
            && s.enqueued == {} && s.image == EmptyLane(0)
  {
  }

  /** A periodic reconcile finds the job that is not pushed yet. */
  lemma ReconciledIs(s: System)
    requires s.db == Held(JobStatus.Queued, AssetStatus.Pending) && s.image == EmptyLane(0)
    ensures var s' := Step(Step(Step(Step(s, DUPLICATED[1]), DUPLICATED[2]), DUPLICATED[3]), DUPLICATED[4]);
            && s'.db == s.db && s'.issued == s.issued && s'.enqueued == s.enqueued
            && s'.image.queue == [Id(1)] && s'.image.processing == [] && s'.image.stage.Idle?
            && s'.image.counters == map[] && s'.image.limit == 0
  {
    var none: set<int> := {};
    assert IdsIn(s.image.queue) == none && none + IdsIn(s.image.processing) == none;
    var s1 := Step(s, DUPLICATED[1]);
    assert s1 == s.(image := s.image.(stage := ScannedQueue({JobStatus.Queued}, {})));
    var s2 := Step(s1, DUPLICATED[2]);
    assert s2 == s.(image := s.image.(stage := ScannedAll({JobStatus.Queued}, {})));
    assert Eligible(s.db, Image, {JobStatus.Queued}) == {1};
    assert [1][1..] == [];
    assert Missing([1], none) == [1];
    assert 1 in [1];
    assert Enumerates([1], Eligible(s2.db, Image, {JobStatus.Queued}));
    var s3 := Step(s2, DUPLICATED[3]);
    assert s3 == s.(image := s.image.(stage := Pushing([1])));
  }

  lemma DuplicatedIs()
    ensures var s := Exec(Start(0, 0), DUPLICATED);
            && s.db == Held(JobStatus.Queued, AssetStatus.Pending)
            && s.image.queue == [Id(1), Id(1)] && s.image.processing == [] && s.image.stage.Idle?
            && s.image.counters == map[] && s.image.limit == 0
  {
    hide WorkStep;
    var s1 := Step(Start(0, 0), DUPLICATED[0]);
    PersistedIs();
    ReconciledIs(s1);
    Chain6(Start(0, 0), DUPLICATED);
  }

  lemma Chain6(s: System, es: seq<Event>)
    requires |es| == 6
    ensures Exec(s, es) == Step(Step(Step(Step(Step(Step(s, es[0]), es[1]), es[2]), es[3]), es[4]), es[5])
  {
    hide Step;
    Chain4(s, es[..4]);
    ExecAppend(s, es[..4], es[4..5]);
    ExecAppend(s, es[..5], es[5..]);
    assert es[..4] + es[4..5] == es[..5] && es[..5] + es[5..] == es;
    assert es[4..5] == [] + [es[4]] && es[5..] == [] + [es[5]];
    OneMore(Exec(s, es[..4]), [], es[4]);
    OneMore(Exec(s, es[..5]), [], es[5]);
  }

  lemma Chain4(s: System, es: seq<Event>)
    requires |es| == 4
    ensures Exec(s, es) == Step(Step(Step(Step(s, es[0]), es[1]), es[2]), es[3])
  {
    hide Step;
    assert es == [] + [es[0]] + [es[1]] + [es[2]] + [es[3]];
    OneMore(s, [], es[0]);
    OneMore(s, [es[0]], es[1]);
    OneMore(s, [es[0], es[1]], es[2]);
    OneMore(s, [es[0], es[1], es[2]], es[3]);
    assert [es[0], es[1], es[2]] + [es[3]] == es;
    assert [es[0], es[1]] + [es[2]] == [es[0], es[1], es[2]];
    assert [es[0]] + [es[1]] == [es[0], es[1]];
    assert [] + [es[0]] == [es[0]];
  }

  /** Popped and committed RUNNING. */
  lemma StartingIs(s: System, js: JobStatus, as_: AssetStatus)
    requires s.db == Held(js, as_) && !js.Done?
    requires s.image.queue != [] && s.image.queue[0] == Id(1) && s.image.processing == [] && s.image.stage.Idle?
    ensures var s' := Exec(s, REOPENING);
            && s'.db == Held(JobStatus.Running, AssetStatus.Running)
            && s'.image.stage == Processing(1, 1) && s'.image.queue == s.image.queue[1..]
            && s'.image.processing == [Id(1)]
            && s'.image.counters == s.image.counters && s'.image.limit == s.image.limit
  {
    var s1 := Step(s, REOPENING[0]);
    assert s1.image.stage == Popped(1) && s1.db == s.db && s1.image.processing == [Id(1)];
    var s2 := Step(s1, REOPENING[1]);
    assert s2 == s1.(image := s1.image.(stage := GotJob(1, 1, js)));
    var s3 := Step(s2, REOPENING[2]);
    assert s3 == s1.(image := s1.image.(stage := GotAsset(1, 1, js, as_)));
    var s4 := Step(s3, REOPENING[3]);
    assert s4.db == Held(JobStatus.Running, AssetStatus.Running);
    Chain4(s, REOPENING);
  }

  /** The processor raises, the counter is over the limit, the job fails, the copy is acked. */
  lemma EndingIs(s: System)
    requires s.db == Held(JobStatus.Running, AssetStatus.Running) && s.image.stage == Processing(1, 1)
    requires s.image.processing == [Id(1)] && s.image.counters == map[] && s.image.limit == 0
    ensures var s' := Exec(s, FAILING[4..]);
            && s'.db == Held(JobStatus.Failed, AssetStatus.Failed)
            && s'.image.queue == s.image.queue && s'.image.processing == [] && s'.image.stage.Idle?
  {
    var es := FAILING[4..];
    var s1 := Step(s, es[0]);
    assert s1 == s.(image := s.image.(stage := Booking(1, 1)));
    var s2 := Step(s1, es[1]);
    assert s2.image.stage == Resolved(1, 1, GiveUp) && s2.db == s.db;
    var s3 := Step(s2, es[2]);
    assert s3.image.stage == Acking(Id(1)) && s3.db == Held(JobStatus.Failed, AssetStatus.Failed);
    Chain4(s, es);
  }

  /** A redelivered copy reopens a FAILED job: only DONE is checked before a job is run again. */
  lemma FailedReopens()
    ensures var s := Exec(Start(0, 0), DUPLICATED + FAILING);
            1 in s.db.jobs && s.db.jobs[1].status.Failed?
    ensures var s' := Exec(Start(0, 0), DUPLICATED + FAILING + REOPENING);
            1 in s'.db.jobs && s'.db.jobs[1].status.Running?
  {
    hide Step;
    DuplicatedIs();
    var d := Exec(Start(0, 0), DUPLICATED);
    StartingIs(d, JobStatus.Queued, AssetStatus.Pending);
    EndingIs(Exec(d, REOPENING));
    assert FAILING == REOPENING + FAILING[4..];
    ExecAppend(d, REOPENING, FAILING[4..]);
    ExecAppend(Start(0, 0), DUPLICATED, FAILING);
    StartingIs(Exec(Start(0, 0), DUPLICATED + FAILING), JobStatus.Failed, AssetStatus.Failed);
    ExecAppend(Start(0, 0), DUPLICATED + FAILING, REOPENING);
  }
}
