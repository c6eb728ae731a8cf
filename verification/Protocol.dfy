/** The job pipeline as a state machine: one database, two Redis lanes (image and audio),
    one worker per lane, and everything else that can move in between (the API, deletions,
    faults). `Step` is total: a step that is not enabled changes nothing, so every sequence
    of events is a run and every theorem quantifies over all of them. */
module Protocol {
  import opened Basics

  datatype JobType = Image | Audio
  datatype JobStatus = Queued | Running | Done | Failed
  datatype AssetStatus = Pending | Running | Done | Failed

  /** `jobs.ref_id` names an image or an audio row depending on `jobs.type`. */
  datatype Key = Key(kind: JobType, ref: int)
  datatype Job = Job(kind: JobType, ref: int, status: JobStatus)
  datatype Asset = Asset(poem: int, status: AssetStatus, path: Option<string>)
  datatype Db = Db(jobs: map<int, Job>, assets: map<Key, Asset>, poems: set<int>)

  /** A list entry: bytes that parse as an integer, or bytes that do not. */
  datatype Raw = Id(id: int) | Garbage(bytes: string)

  /** What the injected processor or synthesizer did. */
  datatype Verdict = Produced(path: string) | RaisedError | RaisedUnsupportedLanguage

  /** What the session holds when the second commit of an attempt is issued. */
  datatype Resolution = Finished(path: string) | TryAgain | GiveUp

  /** `INCR` followed by `EXPIRE` on the retry counter. */
  datatype Tracking = Counted | CountedThenError | NotCounted

  /** Where a worker stands between two operations on the database or on Redis. */
  datatype Stage =
    | Idle
    | Popped(id: int)
    | GotJob(id: int, ref: int, status: JobStatus)
    | NoAsset(id: int)
    | GotAsset(id: int, ref: int, status: JobStatus, assetStatus: AssetStatus)
    | Processing(id: int, ref: int)
    | Booking(id: int, ref: int)
    | Resolved(id: int, ref: int, resolution: Resolution)
    | Requeueing(id: int)
    | Acking(raw: Raw)
    | ScannedQueue(statuses: set<JobStatus>, seen: set<int>)
    | ScannedAll(statuses: set<JobStatus>, seen: set<int>)
    | Pushing(todo: seq<int>)

  /** History only: nothing in the system reads it. */
  datatype Log = Log(pushed: seq<Raw>, popped: seq<Raw>, runs: map<int, nat>, retries: map<int, nat>)

  datatype Lane = Lane(queue: seq<Raw>, processing: seq<Raw>, counters: map<int, nat>,
                       limit: int, stage: Stage, log: Log)

  /** `issued`, `refs` remember every id ever handed out (ids are never reused);
      `enqueued` remembers which of them the API has pushed. */
  datatype System = System(db: Db, issued: map<int, JobType>, refs: set<Key>, enqueued: set<int>,
                           image: Lane, audio: Lane)
  {
    function LaneOf(t: JobType): Lane {
      if t.Image? then image else audio
    }

    function With(t: JobType, d: Db, lane: Lane): System {
      if t.Image? then this.(db := d, image := lane) else this.(db := d, audio := lane)
    }
  }

  datatype WorkerStep =
    | Pop | PopReplyLost
    | ReadJob | ReadAsset | CommitRunning
    | Process(verdict: Verdict) | Track(tracking: Tracking) | CommitOutcome
    | PushRetry | Ack
    | Escape  // the process dies here, or an exception leaves run_once
    | ReapOne
    | ScanQueue(wanted: set<JobStatus>) | ScanProcessing | QueryJobs(rows: seq<int>) | PushOrphan

  /** A pair of ids assigned by the database: the asset row and its job row. */
  datatype Fresh = Fresh(ref: int, job: int)

  datatype OutsideStep =
    | PersistPoem(poem: int, image: Option<Fresh>, audio: Option<Fresh>)
    | Enqueue(job: int)
    | DeletePoem(gone: int)
    | PushGarbage(garbageLane: JobType, bytes: string)
    | RestartRedis(restarted: JobType, queue: seq<Raw>, processing: seq<Raw>)
    | LoseCounter(counterLane: JobType, counted: int)

  datatype Event = Work(t: JobType, w: WorkerStep) | Outside(o: OutsideStep)

  // ---------------------------------------------------------------- lists

  function PushBack(lane: Lane, raw: Raw): Lane {
    lane.(queue := lane.queue + [raw], log := lane.log.(pushed := lane.log.pushed + [raw]))
  }

  /** BLMOVE queue -> processing, LEFT to RIGHT. */
  function Take(lane: Lane): Lane
    requires lane.queue != []
  {
    lane.(queue := lane.queue[1..], processing := lane.processing + [lane.queue[0]],
          log := lane.log.(popped := lane.log.popped + [lane.queue[0]]))
  }

  /** LMOVE processing -> queue, LEFT to LEFT. */
  function PutBack(lane: Lane): Lane
    requires lane.processing != []
  {
    lane.(queue := [lane.processing[0]] + lane.queue, processing := lane.processing[1..])
  }

  function IdsIn(raws: seq<Raw>): set<int> {
    set raw | raw in raws && raw.Id? :: raw.id
  }

  // ---------------------------------------------------------------- rows

  function KeyOf(job: Job): Key {
    Key(job.kind, job.ref)
  }

  /** The two UPDATEs of a commit: the job row and the asset row it was loaded with. */
  function WriteRows(db: Db, id: int, key: Key, js: JobStatus, s: AssetStatus, path: Option<string>): Db
    requires id in db.jobs && key in db.assets
  {
    db.(jobs := db.jobs[id := db.jobs[id].(status := js)],
        assets := db.assets[key := db.assets[key].(status := s, path := path)])
  }

  function Open(status: JobStatus): bool {
    status.Queued? || status.Running?
  }

  function Eligible(db: Db, t: JobType, statuses: set<JobStatus>): set<int> {
    set id | id in db.jobs && db.jobs[id].kind == t && db.jobs[id].status in statuses
  }

  /** A query answer lists every eligible row once, in whatever order the database likes. */
  predicate Enumerates(rows: seq<int>, ids: set<int>) {
    Distinct(rows) && (forall id | id in rows :: id in ids) && (forall id | id in ids :: id in rows)
  }

  function Missing(rows: seq<int>, seen: set<int>): seq<int> {
    if rows == [] then []
    else (if rows[0] in seen then [] else [rows[0]]) + Missing(rows[1..], seen)
  }

  // ---------------------------------------------------------------- the worker

  datatype Local = Local(db: Db, lane: Lane)

  function Move(local: Local, stage: Stage): Local {
    local.(lane := local.lane.(stage := stage))
  }

  function ReadJobStep(l: Local, id: int): Local {
    if id !in l.db.jobs || l.db.jobs[id].status.Done? then Move(l, Acking(Id(id)))
    else Move(l, GotJob(id, l.db.jobs[id].ref, l.db.jobs[id].status))
  }

  function ReadAssetStep(l: Local, t: JobType, id: int, ref: int, status: JobStatus): Local {
    if Key(t, ref) !in l.db.assets then Move(l, NoAsset(id))
    else Move(l, GotAsset(id, ref, status, l.db.assets[Key(t, ref)].status))
  }

  function StartProcessing(l: Local, id: int, ref: int): Local {
    Move(l.(lane := l.lane.(log := l.lane.log.(runs := Bump(l.lane.log.runs, id)))), Processing(id, ref))
  }

  /** A commit whose UPDATE finds no row aborts with an exception. When both rows were loaded
      RUNNING the session has nothing to write, so nothing can abort. */
  function CommitRunningStep(l: Local, t: JobType, id: int, ref: int, status: JobStatus, s: AssetStatus): Local {
    var key := Key(t, ref);
    if id in l.db.jobs && key in l.db.assets then
      StartProcessing(l.(db := WriteRows(l.db, id, key, JobStatus.Running, AssetStatus.Running,
                                         l.db.assets[key].path)), id, ref)
    else if status == JobStatus.Running && s == AssetStatus.Running then StartProcessing(l, id, ref)
    else Move(l, Idle)
  }

  function ProcessStep(l: Local, t: JobType, id: int, ref: int, verdict: Verdict): Local {
    match verdict
    case Produced(path) => Move(l, Resolved(id, ref, Finished(path)))
    case RaisedError => Move(l, Booking(id, ref))
    case RaisedUnsupportedLanguage =>
      // Only the audio worker gives this exception a branch of its own.
      if t.Audio? then Move(l, Resolved(id, ref, GiveUp)) else Move(l, Booking(id, ref))
  }

  function TrackStep(l: Local, id: int, ref: int, tracking: Tracking): Local {
    if tracking.NotCounted? then Move(l, Resolved(id, ref, GiveUp))
    else
      var counters := Bump(l.lane.counters, id);
      var again := tracking.Counted? && counters[id] <= l.lane.limit;
      Move(l.(lane := l.lane.(counters := counters)), Resolved(id, ref, if again then TryAgain else GiveUp))
  }

  function CommitOutcomeStep(l: Local, t: JobType, id: int, ref: int, resolution: Resolution): Local {
    var key := Key(t, ref);
    if id !in l.db.jobs || key !in l.db.assets then Move(l, Idle)
    else match resolution
      case Finished(path) =>
        Move(l.(db := WriteRows(l.db, id, key, JobStatus.Done, AssetStatus.Done, Some(path))), Acking(Id(id)))
      case TryAgain =>
        Move(l.(db := WriteRows(l.db, id, key, JobStatus.Queued, AssetStatus.Pending, l.db.assets[key].path)),
             Requeueing(id))
      case GiveUp =>
        Move(l.(db := WriteRows(l.db, id, key, JobStatus.Failed, AssetStatus.Failed, l.db.assets[key].path)),
             Acking(Id(id)))
  }

  /** "asset not found": only the job row is written. */
  function CommitMissingStep(l: Local, id: int): Local {
    if id !in l.db.jobs then Move(l, Idle)
    else Move(l.(db := l.db.(jobs := l.db.jobs[id := l.db.jobs[id].(status := JobStatus.Failed)])), Acking(Id(id)))
  }

  function PushRetryStep(l: Local, id: int): Local {
    var lane := PushBack(l.lane, Id(id));
    Move(l.(lane := lane.(log := lane.log.(retries := Bump(lane.log.retries, id)))), Acking(Id(id)))
  }

  function PushOrphanStep(l: Local, todo: seq<int>): Local
    requires todo != []
  {
    Move(l.(lane := PushBack(l.lane, Id(todo[0]))), if todo[1..] == [] then Idle else Pushing(todo[1..]))
  }

  function WorkStep(db: Db, lane: Lane, t: JobType, w: WorkerStep): Local {
    var l := Local(db, lane);
    var st := lane.stage;
    match w
    case Pop =>
      if st.Idle? && lane.queue != [] then
        Move(l.(lane := Take(lane)), if lane.queue[0].Id? then Popped(lane.queue[0].id) else Acking(lane.queue[0]))
      else l
    case PopReplyLost => if st.Idle? && lane.queue != [] then l.(lane := Take(lane)) else l
    case ReadJob => if st.Popped? then ReadJobStep(l, st.id) else l
    case ReadAsset => if st.GotJob? then ReadAssetStep(l, t, st.id, st.ref, st.status) else l
    case CommitRunning =>
      if st.GotAsset? then CommitRunningStep(l, t, st.id, st.ref, st.status, st.assetStatus) else l
    case Process(verdict) => if st.Processing? then ProcessStep(l, t, st.id, st.ref, verdict) else l
    case Track(tracking) => if st.Booking? then TrackStep(l, st.id, st.ref, tracking) else l
    case CommitOutcome =>
      if st.Resolved? then CommitOutcomeStep(l, t, st.id, st.ref, st.resolution)
      else if st.NoAsset? then CommitMissingStep(l, st.id)
      else l
    case PushRetry => if st.Requeueing? then PushRetryStep(l, st.id) else l
    case Ack =>
      if st.Acking? then Move(l.(lane := lane.(processing := RemoveFirst(lane.processing, st.raw))), Idle) else l
    case Escape => Move(l, Idle)
    case ReapOne => if st.Idle? && lane.processing != [] then l.(lane := PutBack(lane)) else l
    case ScanQueue(wanted) => if st.Idle? then Move(l, ScannedQueue(wanted, IdsIn(lane.queue))) else l
    case ScanProcessing =>
      if st.ScannedQueue? then Move(l, ScannedAll(st.statuses, st.seen + IdsIn(lane.processing))) else l
    case QueryJobs(rows) =>
      if st.ScannedAll? && Enumerates(rows, Eligible(db, t, st.statuses)) then
        var todo := Missing(rows, st.seen);
        Move(l, if todo == [] then Idle else Pushing(todo))
      else l
    case PushOrphan => if st.Pushing? && st.todo != [] then PushOrphanStep(l, st.todo) else l
  }

  // ---------------------------------------------------------------- everything else

  predicate FreshFor(s: System, t: JobType, n: Option<Fresh>) {
    n.Some? ==> n.value.job !in s.issued && Key(t, n.value.ref) !in s.refs
  }

  predicate CanPersist(s: System, poem: int, image: Option<Fresh>, audio: Option<Fresh>) {
    && poem !in s.db.poems
    && FreshFor(s, Image, image) && FreshFor(s, Audio, audio)
    && (image.Some? && audio.Some? ==> image.value.job != audio.value.job)
  }

  function AddJob(s: System, t: JobType, poem: int, n: Option<Fresh>): System {
    if n.None? then s
    else
      var key := Key(t, n.value.ref);
      s.(db := s.db.(jobs := s.db.jobs[n.value.job := Job(t, n.value.ref, JobStatus.Queued)],
                     assets := s.db.assets[key := Asset(poem, AssetStatus.Pending, None)]),
         issued := s.issued[n.value.job := t],
         refs := s.refs + {key})
  }

  predicate BelongsTo(db: Db, key: Key, poem: int) {
    key in db.assets && db.assets[key].poem == poem
  }

  function WithoutPoem(db: Db, poem: int): Db {
    Db(map id | id in db.jobs && !BelongsTo(db, KeyOf(db.jobs[id]), poem) :: db.jobs[id],
       map key | key in db.assets && !BelongsTo(db, key, poem) :: db.assets[key],
       db.poems - {poem})
  }

  predicate IssuedTo(issued: map<int, JobType>, t: JobType, id: int) {
    id in issued && issued[id] == t
  }

  predicate AllIssuedTo(issued: map<int, JobType>, t: JobType, raws: seq<Raw>) {
    forall raw | raw in raws :: raw.Id? ==> IssuedTo(issued, t, raw.id)
  }

  function OutStep(s: System, o: OutsideStep): System {
    match o
    case PersistPoem(poem, image, audio) =>
      if CanPersist(s, poem, image, audio) then
        AddJob(AddJob(s.(db := s.db.(poems := s.db.poems + {poem})), Image, poem, image), Audio, poem, audio)
      else s
    case Enqueue(id) =>
      if id in s.issued && id !in s.enqueued then
        s.(enqueued := s.enqueued + {id}).With(s.issued[id], s.db, PushBack(s.LaneOf(s.issued[id]), Id(id)))
      else s
    case DeletePoem(poem) => if poem in s.db.poems then s.(db := WithoutPoem(s.db, poem)) else s
    case PushGarbage(t, bytes) => s.With(t, s.db, PushBack(s.LaneOf(t), Garbage(bytes)))
    case RestartRedis(t, queue, processing) =>
      if AllIssuedTo(s.issued, t, queue) && AllIssuedTo(s.issued, t, processing) then
        s.With(t, s.db, s.LaneOf(t).(queue := queue, processing := processing))
      else s
    case LoseCounter(t, id) =>
      s.With(t, s.db, s.LaneOf(t).(counters := s.LaneOf(t).counters - {id}))
  }

  function Step(s: System, e: Event): System {
    match e
    case Work(t, w) => var l := WorkStep(s.db, s.LaneOf(t), t, w); s.With(t, l.db, l.lane)
    case Outside(o) => OutStep(s, o)
  }

  function Exec(s: System, es: seq<Event>): System {
    if es == [] then s else Step(Exec(s, es[..|es| - 1]), es[|es| - 1])
  }

  /** A fresh deployment: no rows, empty lists, idle workers. */
  function EmptyLane(limit: int): Lane {
    Lane([], [], map[], limit, Idle, Log([], [], map[], map[]))
  }

  function Start(imageLimit: int, audioLimit: int): System {
    System(Db(map[], map[], {}), map[], {}, {}, EmptyLane(imageLimit), EmptyLane(audioLimit))
  }

  lemma {:induction false} ExecAppend(s: System, a: seq<Event>, b: seq<Event>)
    ensures Exec(s, a + b) == Exec(Exec(s, a), b)
    decreases |b|
  {
    if b == [] {
      assert a + b == a;
    } else {
      ExecAppend(s, a, b[..|b| - 1]);
      assert (a + b)[..|a + b| - 1] == a + b[..|b| - 1];
    }
  }

  lemma StepKeepsLimit(s: System, e: Event, t: JobType)
    ensures Step(s, e).LaneOf(t).limit == s.LaneOf(t).limit
  {
    match e
    case Work(u, w) =>
    case Outside(_) =>
  }
}
