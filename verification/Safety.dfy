/** What every reachable state satisfies, whatever fails: job and asset move in lockstep, jobs and
    assets are in bijection, list entries name jobs of their own lane, and DONE is final. */
module Safety {
  import opened Basics
  import opened Protocol

  /** The four committed pairs; a path is recorded exactly in the last-but-one. */
  predicate Paired(js: JobStatus, asset: Asset) {
    match js
    case Queued => asset.status == AssetStatus.Pending && asset.path.None?
    case Running => asset.status == AssetStatus.Running && asset.path.None?
    case Done => asset.status == AssetStatus.Done && asset.path.Some?
    case Failed => asset.status == AssetStatus.Failed && asset.path.None?
  }

  ghost predicate JobsOk(db: Db, issued: map<int, JobType>) {
    forall id | id in db.jobs ::
      && IssuedTo(issued, db.jobs[id].kind, id)
      && KeyOf(db.jobs[id]) in db.assets
      && Paired(db.jobs[id].status, db.assets[KeyOf(db.jobs[id])])
  }

  ghost predicate OneJobPerAsset(db: Db) {
    && (forall a, b | a in db.jobs && b in db.jobs && KeyOf(db.jobs[a]) == KeyOf(db.jobs[b]) :: a == b)
    && (forall key | key in db.assets :: exists id :: id in db.jobs && KeyOf(db.jobs[id]) == key)
  }

  ghost predicate DbOk(db: Db, issued: map<int, JobType>, refs: set<Key>) {
    JobsOk(db, issued) && OneJobPerAsset(db) && db.assets.Keys <= refs
  }

  /** The job a worker holds, if it still exists, is the one it loaded. */
  predicate Holds(db: Db, id: int, ref: int, status: JobStatus) {
    id in db.jobs ==> db.jobs[id].ref == ref && db.jobs[id].status == status
  }

  predicate StageOk(db: Db, issued: map<int, JobType>, t: JobType, stage: Stage) {
    match stage
    case Idle => true
    case Popped(id) => IssuedTo(issued, t, id)
    case GotJob(id, ref, status) => IssuedTo(issued, t, id) && !status.Done? && Holds(db, id, ref, status)
    case NoAsset(id) => IssuedTo(issued, t, id) && id !in db.jobs
    case GotAsset(id, ref, status, s) =>
      && IssuedTo(issued, t, id) && !status.Done? && Holds(db, id, ref, status)
      && (id in db.jobs && Key(t, ref) in db.assets ==> db.assets[Key(t, ref)].status == s)
    case Processing(id, ref) => IssuedTo(issued, t, id) && Holds(db, id, ref, JobStatus.Running)
    case Booking(id, ref) => IssuedTo(issued, t, id) && Holds(db, id, ref, JobStatus.Running)
    case Resolved(id, ref, _) => IssuedTo(issued, t, id) && Holds(db, id, ref, JobStatus.Running)
    case Requeueing(id) => IssuedTo(issued, t, id) && (id in db.jobs ==> db.jobs[id].status.Queued?)
    case Acking(raw) => raw.Id? ==> IssuedTo(issued, t, raw.id)
    case ScannedQueue(_, _) => true
    case ScannedAll(_, _) => true
    case Pushing(todo) => forall id | id in todo :: IssuedTo(issued, t, id)
  }

  predicate LaneOk(db: Db, issued: map<int, JobType>, t: JobType, lane: Lane) {
    && AllIssuedTo(issued, t, lane.queue)
    && AllIssuedTo(issued, t, lane.processing)
    && StageOk(db, issued, t, lane.stage)
  }

  ghost predicate Inv(s: System) {
    && DbOk(s.db, s.issued, s.refs)
    && LaneOk(s.db, s.issued, Image, s.image)
    && LaneOk(s.db, s.issued, Audio, s.audio)
  }

  // ---------------------------------------------------------------- worker steps

  /** The rows that belong to lane `t` are the same in both databases. */
  ghost predicate SameRows(issued: map<int, JobType>, t: JobType, a: Db, b: Db) {
    && (forall id | IssuedTo(issued, t, id) ::
          (id in a.jobs <==> id in b.jobs) && (id in a.jobs ==> a.jobs[id] == b.jobs[id]))
    && (forall ref :: (Key(t, ref) in a.assets <==> Key(t, ref) in b.assets)
                   && (Key(t, ref) in a.assets ==> a.assets[Key(t, ref)] == b.assets[Key(t, ref)]))
  }

  lemma WriteKeepsJobs(db: Db, issued: map<int, JobType>, id: int, js: JobStatus, s: AssetStatus, path: Option<string>)
    requires JobsOk(db, issued) && id in db.jobs && Paired(js, Asset(0, s, path))
    requires forall j | j in db.jobs && j != id :: KeyOf(db.jobs[j]) != KeyOf(db.jobs[id])
    ensures JobsOk(WriteRows(db, id, KeyOf(db.jobs[id]), js, s, path), issued)
  {
  }

  /** A commit that writes one of the four pairs to a job and its own asset keeps the database
      consistent: no other job shares that asset. */
  lemma WriteKeepsDbOk(db: Db, issued: map<int, JobType>, refs: set<Key>, id: int, js: JobStatus,
                       s: AssetStatus, path: Option<string>)
    requires DbOk(db, issued, refs)
    requires id in db.jobs && Paired(js, Asset(0, s, path))
    ensures DbOk(WriteRows(db, id, KeyOf(db.jobs[id]), js, s, path), issued, refs)
  {
    var key := KeyOf(db.jobs[id]);
    WriteKeepsJobs(db, issued, id, js, s, path);
    var after := WriteRows(db, id, key, js, s, path);
    hide JobsOk, Paired;
    assert forall j | j in after.jobs :: j in db.jobs && KeyOf(after.jobs[j]) == KeyOf(db.jobs[j]);
    forall k | k in after.assets ensures exists j :: j in after.jobs && KeyOf(after.jobs[j]) == k {
      var j :| j in db.jobs && KeyOf(db.jobs[j]) == k;
      assert j in after.jobs && KeyOf(after.jobs[j]) == k;
    }
  }

  /** What a reconcile pushes: the rows that were not seen, once each if the query gave them once each. */
  lemma MissingIsPart(rows: seq<int>, seen: set<int>)
    ensures forall id :: id in Missing(rows, seen) <==> id in rows && id !in seen
    ensures Distinct(rows) ==> Distinct(Missing(rows, seen))
  {
    if rows != [] {
      MissingIsPart(rows[1..], seen);
      assert rows == [rows[0]] + rows[1..];
    }
  }

  /** When every row was seen on the lists, nothing is missing. */
  lemma NothingMissing(rows: seq<int>, seen: set<int>)
    requires forall id | id in rows :: id in seen
    ensures Missing(rows, seen) == []
  {
    if rows != [] {
      var first := rows[0];
      assert first in rows && first in seen;
      assert forall id | id in rows[1..] :: id in rows;
      NothingMissing(rows[1..], seen);
    }
  }

  lemma RemoveFirstKeepsTypes(issued: map<int, JobType>, t: JobType, raws: seq<Raw>, x: Raw)
    requires AllIssuedTo(issued, t, raws)
    ensures AllIssuedTo(issued, t, RemoveFirst(raws, x))
  {
    forall raw | raw in RemoveFirst(raws, x) ensures raw in raws {
      RemoveFirstKeepsOthers(raws, x, raw);
    }
  }

  predicate Commits(w: WorkerStep) {
    w.CommitRunning? || w.CommitOutcome?
  }

  predicate MovesEntries(w: WorkerStep) {
    w.Pop? || w.PopReplyLost? || w.PushRetry? || w.Ack? || w.ReapOne? || w.PushOrphan?
  }

  lemma PopOk(db: Db, issued: map<int, JobType>, lane: Lane, t: JobType)
    requires LaneOk(db, issued, t, lane) && lane.queue != []
    ensures AllIssuedTo(issued, t, Take(lane).queue) && AllIssuedTo(issued, t, Take(lane).processing)
    ensures lane.queue[0].Id? ==> IssuedTo(issued, t, lane.queue[0].id)
  {
    assert lane.queue[0] in lane.queue;
    assert forall raw | raw in lane.queue[1..] :: raw in lane.queue;
  }

  lemma PutBackOk(db: Db, issued: map<int, JobType>, lane: Lane, t: JobType)
    requires LaneOk(db, issued, t, lane) && lane.processing != []
    ensures AllIssuedTo(issued, t, PutBack(lane).queue) && AllIssuedTo(issued, t, PutBack(lane).processing)
  {
    assert lane.processing[0] in lane.processing;
    assert forall raw | raw in lane.processing[1..] :: raw in lane.processing;
  }

  lemma PushBackOk(issued: map<int, JobType>, lane: Lane, t: JobType, id: int)
    requires AllIssuedTo(issued, t, lane.queue) && IssuedTo(issued, t, id)
    ensures AllIssuedTo(issued, t, PushBack(lane, Id(id)).queue)
  {
  }

  /** Everything but the two commits only moves list entries and the worker's own position. */
  lemma ListStepOk(db: Db, issued: map<int, JobType>, lane: Lane, t: JobType, w: WorkerStep)
    requires MovesEntries(w) && LaneOk(db, issued, t, lane)
    ensures var l := WorkStep(db, lane, t, w); l.db == db && LaneOk(db, issued, t, l.lane)
  {
    var st := lane.stage;
    match w
    case Pop => if lane.queue != [] { PopOk(db, issued, lane, t); }
    case PopReplyLost => if lane.queue != [] { PopOk(db, issued, lane, t); }
    case PushRetry => if st.Requeueing? { PushBackOk(issued, lane, t, st.id); }
    case Ack => if st.Acking? { RemoveFirstKeepsTypes(issued, t, lane.processing, st.raw); }
    case ReapOne => if lane.processing != [] { PutBackOk(db, issued, lane, t); }
    case PushOrphan => if st.Pushing? && st.todo != [] {
      assert st.todo[0] in st.todo;
      assert forall id | id in st.todo[1..] :: id in st.todo;
      PushBackOk(issued, lane, t, st.todo[0]);
    }
  }

  lemma StageStepOk(db: Db, issued: map<int, JobType>, lane: Lane, t: JobType, w: WorkerStep)
    requires !Commits(w) && !MovesEntries(w) && JobsOk(db, issued) && LaneOk(db, issued, t, lane)
    ensures var l := WorkStep(db, lane, t, w); l.db == db && LaneOk(db, issued, t, l.lane)
  {
    var st := lane.stage;
    match w
    case QueryJobs(rows) => if st.ScannedAll? { MissingIsPart(rows, st.seen); }
    case _ =>
  }

  /** What a commit promises: the database stays consistent, the lane's claims hold of it, and the
      rows of the other lane are untouched. */
  ghost predicate CommitOk(db: Db, issued: map<int, JobType>, refs: set<Key>, t: JobType, lane: Lane, l: Local) {
    && DbOk(l.db, issued, refs)
    && l.lane.queue == lane.queue && l.lane.processing == lane.processing
    && StageOk(l.db, issued, t, l.lane.stage)
    && forall u | u != t :: SameRows(issued, u, db, l.db)
  }

  lemma CommitRunningOk(db: Db, issued: map<int, JobType>, refs: set<Key>, lane: Lane, t: JobType)
    requires DbOk(db, issued, refs) && LaneOk(db, issued, t, lane)
    ensures CommitOk(db, issued, refs, t, lane, WorkStep(db, lane, t, CommitRunning))
  {
    hide OneJobPerAsset;
    var st := lane.stage;
    if st.GotAsset? && st.id in db.jobs {
      WriteKeepsDbOk(db, issued, refs, st.id, JobStatus.Running, AssetStatus.Running, None);
    }
  }

  lemma CommitOutcomeOk(db: Db, issued: map<int, JobType>, refs: set<Key>, lane: Lane, t: JobType)
    requires DbOk(db, issued, refs) && LaneOk(db, issued, t, lane)
    ensures CommitOk(db, issued, refs, t, lane, WorkStep(db, lane, t, CommitOutcome))
  {
    hide OneJobPerAsset;
    var st := lane.stage;
    if st.Resolved? && st.id in db.jobs {
      match st.resolution
      case Finished(path) =>
        WriteKeepsDbOk(db, issued, refs, st.id, JobStatus.Done, AssetStatus.Done, Some(path));
      case TryAgain =>
        WriteKeepsDbOk(db, issued, refs, st.id, JobStatus.Queued, AssetStatus.Pending, None);
      case GiveUp =>
        WriteKeepsDbOk(db, issued, refs, st.id, JobStatus.Failed, AssetStatus.Failed, None);
    }
  }

  /** The other lane's claims survive, because they only speak of its own rows. */
  lemma OtherLaneOk(issued: map<int, JobType>, t: JobType, lane: Lane, a: Db, b: Db)
    requires LaneOk(a, issued, t, lane) && SameRows(issued, t, a, b)
    ensures LaneOk(b, issued, t, lane)
  {
  }

  /** A worker never writes a row of the other lane. */
  lemma WorkFrames(db: Db, issued: map<int, JobType>, refs: set<Key>, lane: Lane, t: JobType, w: WorkerStep, u: JobType)
    requires DbOk(db, issued, refs) && LaneOk(db, issued, t, lane) && u != t
    ensures SameRows(issued, u, db, WorkStep(db, lane, t, w).db)
  {
    hide OneJobPerAsset;
    hide WorkStep;
    match w
    case CommitRunning => CommitRunningOk(db, issued, refs, lane, t);
    case CommitOutcome => CommitOutcomeOk(db, issued, refs, lane, t);
    case _ =>
      if MovesEntries(w) { ListStepOk(db, issued, lane, t, w); } else { StageStepOk(db, issued, lane, t, w); }
  }

  lemma WorkKeepsInv(s: System, t: JobType, w: WorkerStep)
    requires Inv(s)
    ensures Inv(Step(s, Work(t, w)))
  {
    hide OneJobPerAsset;
    hide WorkStep;
    var lane := s.LaneOf(t);
    var l := WorkStep(s.db, lane, t, w);
    var u := if t.Image? then Audio else Image;
    match w
    case CommitRunning =>
      CommitRunningOk(s.db, s.issued, s.refs, lane, t);
      OtherLaneOk(s.issued, u, s.LaneOf(u), s.db, l.db);
    case CommitOutcome =>
      CommitOutcomeOk(s.db, s.issued, s.refs, lane, t);
      OtherLaneOk(s.issued, u, s.LaneOf(u), s.db, l.db);
    case _ =>
      if MovesEntries(w) { ListStepOk(s.db, s.issued, lane, t, w); } else { StageStepOk(s.db, s.issued, lane, t, w); }
  }

  // ---------------------------------------------------------------- outside steps

  lemma AddJobKeepsDb(s: System, t: JobType, poem: int, n: Fresh)
    requires DbOk(s.db, s.issued, s.refs) && FreshFor(s, t, Some(n))
    ensures var after := AddJob(s, t, poem, Some(n)); DbOk(after.db, after.issued, after.refs)
  {
    var after := AddJob(s, t, poem, Some(n));
    var key := Key(t, n.ref);
    assert key !in s.db.assets && n.job !in s.db.jobs;
    assert JobsOk(after.db, after.issued);
    forall a, b | a in after.db.jobs && b in after.db.jobs && KeyOf(after.db.jobs[a]) == KeyOf(after.db.jobs[b])
      ensures a == b
    {
      assert a in s.db.jobs ==> KeyOf(s.db.jobs[a]) != key;
      assert b in s.db.jobs ==> KeyOf(s.db.jobs[b]) != key;
    }
    forall k | k in after.db.assets
      ensures exists id :: id in after.db.jobs && KeyOf(after.db.jobs[id]) == k
    {
      if k == key {
        assert KeyOf(after.db.jobs[n.job]) == k;
      } else {
        var id :| id in s.db.jobs && KeyOf(s.db.jobs[id]) == k;
        assert id in after.db.jobs && KeyOf(after.db.jobs[id]) == k;
      }
    }
  }

  /** A lane never mentions an id that is still to be issued. */
  lemma AddJobKeepsLane(s: System, t: JobType, poem: int, n: Fresh, u: JobType, lane: Lane)
    requires DbOk(s.db, s.issued, s.refs) && LaneOk(s.db, s.issued, u, lane) && FreshFor(s, t, Some(n))
    ensures var after := AddJob(s, t, poem, Some(n)); LaneOk(after.db, after.issued, u, lane)
  {
    var after := AddJob(s, t, poem, Some(n));
    assert forall id | id in s.issued :: id in after.issued && after.issued[id] == s.issued[id];
    assert forall id | id in s.issued :: (id in after.db.jobs <==> id in s.db.jobs)
                                      && (id in s.db.jobs ==> after.db.jobs[id] == s.db.jobs[id]);
    if lane.stage.GotAsset? {
      var id, key := lane.stage.id, Key(u, lane.stage.ref);
      if id in after.db.jobs {
        assert KeyOf(s.db.jobs[id]) == key;
        assert key in s.refs;
      }
    }
  }

  lemma AddJobOk(s: System, t: JobType, poem: int, n: Option<Fresh>)
    requires Inv(s) && FreshFor(s, t, n)
    ensures Inv(AddJob(s, t, poem, n))
  {
    if n.Some? {
      AddJobKeepsDb(s, t, poem, n.value);
      AddJobKeepsLane(s, t, poem, n.value, Image, s.image);
      AddJobKeepsLane(s, t, poem, n.value, Audio, s.audio);
    }
  }

  lemma DeleteKeepsDb(db: Db, issued: map<int, JobType>, refs: set<Key>, poem: int)
    requires DbOk(db, issued, refs)
    ensures DbOk(WithoutPoem(db, poem), issued, refs)
  {
    var after := WithoutPoem(db, poem);
    forall key | key in after.assets ensures exists id :: id in after.jobs && KeyOf(after.jobs[id]) == key {
      var id :| id in db.jobs && KeyOf(db.jobs[id]) == key;
      assert id in after.jobs && KeyOf(after.jobs[id]) == key;
    }
  }

  function WithPoem(s: System, poem: int): System {
    s.(db := s.db.(poems := s.db.poems + {poem}))
  }

  lemma PoemRowOk(s: System, poem: int)
    requires Inv(s)
    ensures Inv(WithPoem(s, poem))
  {
  }

  lemma PersistKeepsInv(s: System, poem: int, image: Option<Fresh>, audio: Option<Fresh>)
    requires Inv(s)
    ensures Inv(Step(s, Outside(PersistPoem(poem, image, audio))))
  {
    if CanPersist(s, poem, image, audio) {
      var s0 := WithPoem(s, poem);
      PoemRowOk(s, poem);
      AddJobOk(s0, Image, poem, image);
      AddJobOk(AddJob(s0, Image, poem, image), Audio, poem, audio);
    }
  }

  lemma DeleteKeepsInv(s: System, poem: int)
    requires Inv(s)
    ensures Inv(Step(s, Outside(DeletePoem(poem))))
  {
    if poem in s.db.poems {
      DeleteKeepsDb(s.db, s.issued, s.refs, poem);
      assert LaneOk(WithoutPoem(s.db, poem), s.issued, Image, s.image);
      assert LaneOk(WithoutPoem(s.db, poem), s.issued, Audio, s.audio);
    }
  }

  lemma StepKeepsInv(s: System, e: Event)
    requires Inv(s)
    ensures Inv(Step(s, e))
  {
    hide OneJobPerAsset;
    hide WorkStep;
    match e
    case Work(t, w) => WorkKeepsInv(s, t, w);
    case Outside(PersistPoem(poem, image, audio)) => PersistKeepsInv(s, poem, image, audio);
    case Outside(DeletePoem(poem)) => DeleteKeepsInv(s, poem);
    case Outside(_) =>
  }

  lemma {:induction false} ExecKeepsInv(s: System, es: seq<Event>)
    requires Inv(s)
    ensures Inv(Exec(s, es))
  {
    if es != [] {
      ExecKeepsInv(s, es[..|es| - 1]);
      StepKeepsInv(Exec(s, es[..|es| - 1]), es[|es| - 1]);
    }
  }

  // ---------------------------------------------------------------- what a reader of the database sees

  /** Lockstep: in every reachable state every job is paired with exactly one asset of its own type,
      in exactly one of the four pairs, and the asset has a path exactly when it is done. */
  lemma {:induction false} Lockstep(imageLimit: int, audioLimit: int, es: seq<Event>, id: int)
    requires id in Exec(Start(imageLimit, audioLimit), es).db.jobs
    ensures var db := Exec(Start(imageLimit, audioLimit), es).db;
            var job := db.jobs[id];
            && Key(job.kind, job.ref) in db.assets
            && Paired(job.status, db.assets[Key(job.kind, job.ref)])
            && (db.assets[Key(job.kind, job.ref)].path.Some? <==> job.status.Done?)
  {
    ExecKeepsInv(Start(imageLimit, audioLimit), es);
  }

  /** Bijection: every asset has exactly one job, although image and audio ids may be equal numbers. */
  lemma {:induction false} Bijection(imageLimit: int, audioLimit: int, es: seq<Event>, key: Key)
    requires key in Exec(Start(imageLimit, audioLimit), es).db.assets
    ensures var jobs := Exec(Start(imageLimit, audioLimit), es).db.jobs;
            exists id :: id in jobs && KeyOf(jobs[id]) == key
                         && forall j | j in jobs && KeyOf(jobs[j]) == key :: j == id
  {
    ExecKeepsInv(Start(imageLimit, audioLimit), es);
    var jobs := Exec(Start(imageLimit, audioLimit), es).db.jobs;
    var id :| id in jobs && KeyOf(jobs[id]) == key;
    assert forall j | j in jobs && KeyOf(jobs[j]) == key :: j == id;
  }

  /** An id on a lane's lists never names a live job of the other lane, although no worker checks the
      type of the job it loads. */
  lemma {:induction false} ListsNameTheirOwnJobs(imageLimit: int, audioLimit: int, es: seq<Event>, t: JobType, id: int)
    requires var s := Exec(Start(imageLimit, audioLimit), es);
             id in s.db.jobs && Id(id) in s.LaneOf(t).queue + s.LaneOf(t).processing
    ensures Exec(Start(imageLimit, audioLimit), es).db.jobs[id].kind == t
  {
    ExecKeepsInv(Start(imageLimit, audioLimit), es);
  }

  /** "asset not found" is reached only when the job was deleted between the two reads, and then the
      commit that would record it aborts: the step changes no row. */
  lemma AssetNotFoundOnlyAfterDelete(imageLimit: int, audioLimit: int, es: seq<Event>, t: JobType)
    requires Exec(Start(imageLimit, audioLimit), es).LaneOf(t).stage.NoAsset?
    ensures var s := Exec(Start(imageLimit, audioLimit), es);
            && s.LaneOf(t).stage.id !in s.db.jobs
            && Step(s, Work(t, CommitOutcome)).db == s.db
            && Step(s, Work(t, CommitOutcome)).LaneOf(t).stage.Idle?
  {
    ExecKeepsInv(Start(imageLimit, audioLimit), es);
  }

  // ---------------------------------------------------------------- DONE is final

  /** The worker is past the DONE check for this id. */
  predicate WorkingOn(stage: Stage, id: int) {
    match stage
    case GotJob(i, _, _) => i == id
    case NoAsset(i) => i == id
    case GotAsset(i, _, _, _) => i == id
    case Processing(i, _) => i == id
    case Booking(i, _) => i == id
    case Resolved(i, _, _) => i == id
    case Requeueing(i) => i == id
    case _ => false
  }

  /** The job is closed or gone, and no worker is past the DONE check for it. */
  predicate Settled(s: System, id: int) {
    && id in s.issued
    && (id in s.db.jobs ==> !Open(s.db.jobs[id].status))
    && !WorkingOn(s.image.stage, id) && !WorkingOn(s.audio.stage, id)
  }

  /** If a worker has just popped the id, the DONE check will turn it away. */
  predicate Skipped(s: System, id: int) {
    id in s.db.jobs && (s.image.stage == Popped(id) || s.audio.stage == Popped(id)) ==> s.db.jobs[id].status.Done?
  }

  /** The job's row and its asset's row are the same in both databases, or gone from the second. */
  predicate SameOrGone(a: Db, b: Db, id: int) {
    id in b.jobs ==>
      && id in a.jobs && b.jobs[id] == a.jobs[id]
      && KeyOf(a.jobs[id]) in a.assets && KeyOf(a.jobs[id]) in b.assets
      && b.assets[KeyOf(a.jobs[id])] == a.assets[KeyOf(a.jobs[id])]
  }

  /** Nothing about the job moved, and no processor was started for it. */
  predicate Untouched(s: System, s': System, id: int) {
    && SameOrGone(s.db, s'.db, id)
    && Count(s'.image.log.runs, id) == Count(s.image.log.runs, id)
    && Count(s'.audio.log.runs, id) == Count(s.audio.log.runs, id)
  }

  predicate LaneLeaves(lane: Lane, lane': Lane, id: int) {
    !WorkingOn(lane'.stage, id) && Count(lane'.log.runs, id) == Count(lane.log.runs, id)
  }

  lemma WriteLeavesOthers(db: Db, issued: map<int, JobType>, refs: set<Key>, mine: int, id: int,
                          js: JobStatus, s: AssetStatus, path: Option<string>)
    requires DbOk(db, issued, refs) && mine in db.jobs && mine != id
    ensures SameOrGone(db, WriteRows(db, mine, KeyOf(db.jobs[mine]), js, s, path), id)
  {
    assert id in db.jobs ==> KeyOf(db.jobs[id]) != KeyOf(db.jobs[mine]);
  }

  lemma CommitRunningLeaves(db: Db, issued: map<int, JobType>, refs: set<Key>, lane: Lane, t: JobType, id: int)
    requires DbOk(db, issued, refs) && LaneOk(db, issued, t, lane) && !WorkingOn(lane.stage, id)
    ensures var l := WorkStep(db, lane, t, CommitRunning); SameOrGone(db, l.db, id) && LaneLeaves(lane, l.lane, id)
  {
    var st := lane.stage;
    if st.GotAsset? && st.id in db.jobs {
      WriteLeavesOthers(db, issued, refs, st.id, id, JobStatus.Running, AssetStatus.Running,
                        db.assets[Key(t, st.ref)].path);
    }
  }

  lemma CommitOutcomeLeaves(db: Db, issued: map<int, JobType>, refs: set<Key>, lane: Lane, t: JobType, id: int)
    requires DbOk(db, issued, refs) && LaneOk(db, issued, t, lane) && !WorkingOn(lane.stage, id)
    ensures var l := WorkStep(db, lane, t, CommitOutcome); SameOrGone(db, l.db, id) && LaneLeaves(lane, l.lane, id)
  {
    var st := lane.stage;
    if st.Resolved? && st.id in db.jobs {
      var kept := db.assets[Key(t, st.ref)].path;
      match st.resolution
      case Finished(path) =>
        WriteLeavesOthers(db, issued, refs, st.id, id, JobStatus.Done, AssetStatus.Done, Some(path));
      case TryAgain =>
        WriteLeavesOthers(db, issued, refs, st.id, id, JobStatus.Queued, AssetStatus.Pending, kept);
      case GiveUp =>
        WriteLeavesOthers(db, issued, refs, st.id, id, JobStatus.Failed, AssetStatus.Failed, kept);
    }
  }

  lemma ListStepLeaves(db: Db, lane: Lane, t: JobType, w: WorkerStep, id: int)
    requires !Commits(w) && !WorkingOn(lane.stage, id)
    requires id in db.jobs && lane.stage == Popped(id) ==> db.jobs[id].status.Done?
    ensures var l := WorkStep(db, lane, t, w); l.db == db && LaneLeaves(lane, l.lane, id)
  {
  }

  lemma WorkLeavesSettled(s: System, t: JobType, w: WorkerStep, id: int)
    requires Inv(s) && Settled(s, id) && Skipped(s, id)
    ensures Settled(Step(s, Work(t, w)), id) && Untouched(s, Step(s, Work(t, w)), id)
  {
    hide OneJobPerAsset;
    hide WorkStep;
    match w
    case CommitRunning => CommitRunningLeaves(s.db, s.issued, s.refs, s.LaneOf(t), t, id);
    case CommitOutcome => CommitOutcomeLeaves(s.db, s.issued, s.refs, s.LaneOf(t), t, id);
    case _ => ListStepLeaves(s.db, s.LaneOf(t), t, w, id);
  }

  lemma PersistLeavesSettled(s: System, t: JobType, poem: int, n: Option<Fresh>, id: int)
    requires DbOk(s.db, s.issued, s.refs) && Settled(s, id) && FreshFor(s, t, n)
    ensures var s' := AddJob(s, t, poem, n); Settled(s', id) && Untouched(s, s', id)
  {
  }

  lemma StepLeavesSettled(s: System, e: Event, id: int)
    requires Inv(s) && Settled(s, id) && Skipped(s, id)
    ensures Settled(Step(s, e), id) && Untouched(s, Step(s, e), id)
  {
    hide OneJobPerAsset;
    hide WorkStep;
    match e
    case Work(t, w) => WorkLeavesSettled(s, t, w, id);
    case Outside(PersistPoem(poem, image, audio)) =>
      if CanPersist(s, poem, image, audio) {
        var s0 := WithPoem(s, poem);
        PoemRowOk(s, poem);
        PersistLeavesSettled(s0, Image, poem, image, id);
        AddJobOk(s0, Image, poem, image);
        PersistLeavesSettled(AddJob(s0, Image, poem, image), Audio, poem, audio, id);
      }
    case Outside(_) =>
  }

  lemma {:induction false} ExecLeavesSettled(s: System, es: seq<Event>, id: int)
    requires Inv(s) && Settled(s, id) && (id in s.db.jobs ==> s.db.jobs[id].status.Done?)
    ensures Settled(Exec(s, es), id) && Untouched(s, Exec(s, es), id)
  {
    if es != [] {
      var mid := Exec(s, es[..|es| - 1]);
      ExecLeavesSettled(s, es[..|es| - 1], id);
      ExecKeepsInv(s, es[..|es| - 1]);
      StepLeavesSettled(mid, es[|es| - 1], id);
    }
  }

  /** DONE is absorbing: after it is committed, no redelivery, reap, reconcile, crash or restart ever
      changes the job or its asset or starts its processor again; only a deletion removes it. */
  lemma DoneIsFinal(imageLimit: int, audioLimit: int, before: seq<Event>, after: seq<Event>, id: int)
    requires var s := Exec(Start(imageLimit, audioLimit), before); id in s.db.jobs && s.db.jobs[id].status.Done?
    ensures var s := Exec(Start(imageLimit, audioLimit), before);
            Untouched(s, Exec(Start(imageLimit, audioLimit), before + after), id)
  {
    ExecKeepsInv(Start(imageLimit, audioLimit), before);
    ExecAppend(Start(imageLimit, audioLimit), before, after);
    ExecLeavesSettled(Exec(Start(imageLimit, audioLimit), before), after, id);
  }
}
