/** The API side: persist a poem with its jobs, then push them (repository.py, service.py, queue.py);
    and delete a poem with its assets and its FK-less jobs. */
module PoemApi {
  import opened Basics
  import opened Protocol
  import opened Worlds
  import opened Safety
  import opened Delivery

  /** A job row as the API holds it after the flush. */
  datatype NewJob = NewJob(kind: JobType, ref: int, id: int)

  /** The jobs of a request: the image job first, then the audio job, each only if asked for. */
  function Wanted(image: Option<Fresh>, audio: Option<Fresh>): seq<NewJob> {
    (if image.Some? then [NewJob(Image, image.value.ref, image.value.job)] else [])
    + (if audio.Some? then [NewJob(Audio, audio.value.ref, audio.value.job)] else [])
  }

  /** A new job as the first reader of the database sees it. */
  predicate JustCreated(s: System, poem: int, job: NewJob) {
    && job.id in s.db.jobs && s.db.jobs[job.id] == Job(job.kind, job.ref, JobStatus.Queued)
    && Key(job.kind, job.ref) in s.db.assets
    && s.db.assets[Key(job.kind, job.ref)] == Asset(poem, AssetStatus.Pending, None)
    && IssuedTo(s.issued, job.kind, job.id)
  }

  lemma PersistCreates(s: System, poem: int, image: Option<Fresh>, audio: Option<Fresh>)
    requires CanPersist(s, poem, image, audio)
    ensures var s' := Step(s, Outside(PersistPoem(poem, image, audio)));
            && (forall job | job in Wanted(image, audio) :: JustCreated(s', poem, job))
            && s'.image == s.image && s'.audio == s.audio && s'.enqueued == s.enqueued
  {
  }

  /** Nothing is created that is not returned: the new jobs are those of the assets asked for, each once, the
      image job first, and each refers to its asset. */
  lemma AllCreatedAreReturned(s: System, poem: int, image: Option<Fresh>, audio: Option<Fresh>)
    requires CanPersist(s, poem, image, audio)
    ensures var s', jobs := Step(s, Outside(PersistPoem(poem, image, audio))), Wanted(image, audio);
            && (forall id :: id in s'.db.jobs && id !in s.db.jobs ==> exists job :: job in jobs && job.id == id)
            && (forall job | job in jobs && job.id !in s.db.jobs :: job.id in s'.db.jobs)
            && (image.Some? ==> jobs != [] && jobs[0] == NewJob(Image, image.value.ref, image.value.job))
            && (audio.Some? ==> jobs != [] && jobs[|jobs| - 1] == NewJob(Audio, audio.value.ref, audio.value.job))
            && |jobs| == (if image.Some? then 1 else 0) + (if audio.Some? then 1 else 0)
  {
    var jobs := Wanted(image, audio);
    assert image.Some? ==> jobs[0] in jobs;
    assert audio.Some? ==> jobs[|jobs| - 1] in jobs;
  }

  /** persist_poem: one transaction. The ids come from the database's sequences; a clash is an
      integrity error and nothing is written. */
  method PersistPoemRows(world: World, poem: int, image: Option<Fresh>, audio: Option<Fresh>)
    returns (r: Result<seq<NewJob>>, ghost before: System)
    requires world.Valid()
    modifies world
    ensures world.Valid() && old(world.trace) <= world.trace
    ensures r.Returned? ==>
              && CanPersist(before, poem, image, audio)
              && r.value == Wanted(image, audio)
              && world.s == Step(before, Outside(PersistPoem(poem, image, audio)))
              && (forall job | job in r.value :: JustCreated(world.s, poem, job))
              && (forall id :: id in world.s.db.jobs && id !in before.db.jobs ==>
                    exists job :: job in r.value && job.id == id)
              && (image.Some? ==> r.value != [] && r.value[0] == NewJob(Image, image.value.ref, image.value.job))
              && (audio.Some? ==>
                    r.value != [] && r.value[|r.value| - 1] == NewJob(Audio, audio.value.ref, audio.value.job))
    ensures Uneventful(old(world.turns)) ==>
              Uneventful(world.turns) && before == old(world.s)
                && (r.Returned? <==> CanPersist(before, poem, image, audio))
  {
    hide Step, Exec;
    var jobs: seq<NewJob> := [];
    if image.Some? {
      jobs := jobs + [NewJob(Image, image.value.ref, image.value.job)];
    }
    if audio.Some? {
      jobs := jobs + [NewJob(Audio, audio.value.ref, audio.value.job)];
    }
    var committed, was, moves := world.Request(PersistPoem(poem, image, audio));
    before := was;
    if committed.Raised? || !CanPersist(was, poem, image, audio) {
      return Raised(false), was;
    }
    PersistCreates(was, poem, image, audio);
    AllCreatedAreReturned(was, poem, image, audio);
    return Returned(jobs), was;
  }

  lemma {:induction false} ExecRemembers(s: System, moves: seq<Event>)
    ensures forall id | id in s.issued :: id in Exec(s, moves).issued && Exec(s, moves).issued[id] == s.issued[id]
    ensures s.enqueued <= Exec(s, moves).enqueued
  {
    hide Step;
    if moves != [] {
      ExecRemembers(s, moves[..|moves| - 1]);
      StepIssues(Exec(s, moves[..|moves| - 1]), moves[|moves| - 1]);
      StepRemembers(Exec(s, moves[..|moves| - 1]), moves[|moves| - 1]);
    }
  }

  lemma StepRemembers(s: System, e: Event)
    ensures s.enqueued <= Step(s, e).enqueued
  {
  }

  /** The pushes of a request, one after the other, when nobody interferes. */
  function AllEnqueued(s: System, jobs: seq<NewJob>): System
    decreases |jobs|
  {
    if jobs == [] then s else AllEnqueued(Step(s, Outside(Enqueue(jobs[0].id))), jobs[1..])
  }

  /** GenerationService.generate, once the poem is written: commit first, then push each job to its
      lane. If a push raises, the jobs before it are pushed and the rest are committed as QUEUED and may be
      missing from Redis, which is what the reconcile looks for. */
  method Generate(world: World, poem: int, image: Option<Fresh>, audio: Option<Fresh>)
    returns (r: Result<seq<NewJob>>, ghost created: seq<NewJob>, ghost done: nat, ghost before: System)
    requires world.Valid()
    modifies world
    ensures world.Valid() && old(world.trace) <= world.trace
    ensures r.Returned? ==> r.value == created == Wanted(image, audio) && done == |created|
    ensures r.Returned? ==>
              && CanPersist(before, poem, image, audio)
              && forall id | id in Step(before, Outside(PersistPoem(poem, image, audio))).db.jobs
                             && id !in before.db.jobs :: id in world.s.enqueued
    ensures r.Returned? && image.Some? ==> image.value.job in world.s.enqueued
    ensures r.Returned? && audio.Some? ==> audio.value.job in world.s.enqueued
    ensures r.Raised? ==> created == [] || (created == Wanted(image, audio) && done < |created|)
    ensures forall job | job in created :: IssuedTo(world.s.issued, job.kind, job.id)
    ensures done <= |created| && forall job | job in created[..done] :: job.id in world.s.enqueued
    ensures Uneventful(old(world.turns)) ==>
              (r.Returned? <==> CanPersist(old(world.s), poem, image, audio))
              && before == old(world.s)
              && (r.Returned? ==>
                    world.s == AllEnqueued(Step(old(world.s), Outside(PersistPoem(poem, image, audio))), r.value))
  {
    hide Step, Exec, Wanted, CanPersist, AllEnqueued, Uneventful;
    ghost var quiet := Uneventful(world.turns);
    var persisted, b := PersistPoemRows(world, poem, image, audio);
    before := b;
    if persisted.Raised? {
      return persisted, [], 0, before;
    }
    var jobs := persisted.value;
    ghost var committed := world.s;
    assert jobs[0..] == jobs;
    for i := 0 to |jobs|
      invariant world.Valid() && old(world.trace) <= world.trace
      invariant forall job | job in jobs :: IssuedTo(world.s.issued, job.kind, job.id)
      invariant forall k | 0 <= k < i :: jobs[k].id in world.s.enqueued
      invariant quiet ==> Uneventful(world.turns) && AllEnqueued(world.s, jobs[i..]) == AllEnqueued(committed, jobs)
    {
      ghost var was := world.s;
      assert jobs[i] in jobs;
      var pushed, at, moves := world.Request(Enqueue(jobs[i].id));
      ExecRemembers(was, moves);
      AfterPush(at, jobs[i].id);
      if pushed.Raised? {
        return Raised(pushed.timedOut), jobs, i, before;
      }
      EnqueueNext(at, jobs, i);
    }
    assert jobs[|jobs|..] == [];
    NothingLeft(world.s);
    return Returned(jobs), jobs, |jobs|, before;
  }

  lemma AfterPush(s: System, id: int)
    ensures var s' := Step(s, Outside(Enqueue(id)));
            && s.enqueued <= s'.enqueued && (id in s.issued ==> id in s'.enqueued)
            && forall other | other in s.issued :: other in s'.issued && s'.issued[other] == s.issued[other]
  {
    StepIssues(s, Outside(Enqueue(id)));
    StepRemembers(s, Outside(Enqueue(id)));
    if id in s.issued { EnqueuePushes(s, id); }
  }

  lemma EnqueueNext(s: System, jobs: seq<NewJob>, i: nat)
    requires i < |jobs|
    ensures AllEnqueued(s, jobs[i..]) == AllEnqueued(Step(s, Outside(Enqueue(jobs[i].id))), jobs[i + 1..])
  {
    assert jobs[i..][1..] == jobs[i + 1..];
  }

  lemma NothingLeft(s: System)
    ensures AllEnqueued(s, []) == s
  {
  }

  /** Left alone, a request leaves its image job at the tail of the image queue and its audio job at the tail of
      the audio queue, each once, and nothing else on the lists. */
  lemma RequestEnqueues(s: System, poem: int, image: Option<Fresh>, audio: Option<Fresh>)
    requires CanPersist(s, poem, image, audio) && forall id | id in s.enqueued :: id in s.issued
    ensures var end := AllEnqueued(Step(s, Outside(PersistPoem(poem, image, audio))), Wanted(image, audio));
            && end.image.queue == s.image.queue + (if image.Some? then [Id(image.value.job)] else [])
            && end.audio.queue == s.audio.queue + (if audio.Some? then [Id(audio.value.job)] else [])
            && end.image.processing == s.image.processing && end.audio.processing == s.audio.processing
  {
    var s1, jobs := Step(s, Outside(PersistPoem(poem, image, audio))), Wanted(image, audio);
    PersistCreates(s, poem, image, audio);
    assert forall job | job in jobs :: job.id !in s1.enqueued && IssuedTo(s1.issued, job.kind, job.id);
    if jobs != [] {
      assert jobs[0] in jobs && jobs[|jobs| - 1] in jobs;
      PushOnce(s1, jobs[0].kind, jobs[0].id);
      var s2 := Step(s1, Outside(Enqueue(jobs[0].id)));
      assert AllEnqueued(s1, jobs) == AllEnqueued(s2, jobs[1..]);
      if |jobs| == 2 {
        var s3 := Step(s2, Outside(Enqueue(jobs[1].id)));
        PushOnce(s2, jobs[1].kind, jobs[1].id);
        assert jobs[1..] == [jobs[1]] && [jobs[1]][1..] == [];
        assert AllEnqueued(s2, [jobs[1]]) == AllEnqueued(s3, []) == s3;
      } else {
        assert jobs[1..] == [] && AllEnqueued(s2, []) == s2;
      }
      hide Step, AllEnqueued;
    }
  }

  lemma PushOnce(s: System, t: JobType, id: int)
    requires IssuedTo(s.issued, t, id) && id !in s.enqueued
    ensures var s' := Step(s, Outside(Enqueue(id)));
            && s'.issued == s.issued && s'.enqueued == s.enqueued + {id}
            && s'.LaneOf(t).queue == s.LaneOf(t).queue + [Id(id)]
            && s'.LaneOf(t).processing == s.LaneOf(t).processing
            && forall u | u != t :: s'.LaneOf(u) == s.LaneOf(u)
  {
  }

  /** A push that is due appends the id to the queue of the job's own type, and only there. */
  lemma EnqueuePushes(s: System, id: int)
    requires id in s.issued
    ensures var s' := Step(s, Outside(Enqueue(id)));
            && id in s'.enqueued && s'.db == s.db
            && (id !in s.enqueued ==>
                  && s'.LaneOf(s.issued[id]).queue == s.LaneOf(s.issued[id]).queue + [Id(id)]
                  && forall t | t != s.issued[id] :: s'.LaneOf(t) == s.LaneOf(t))
  {
  }

  // ---------------------------------------------------------------- deletion

  /** What the statements of the transaction leave of the rows its commit finds; the step DeletePoem applies
      them at once. They are found the way the transaction does: collect the ids of the poem's
      images and audios, drop the jobs of each type that refer to them, and let the assets cascade. */
  method RowsWithoutPoem(db: Db, poem: int) returns (left: Db)
    ensures left == WithoutPoem(db, poem)
  {
    var imageIds := set key | key in db.assets && key.kind.Image? && db.assets[key].poem == poem :: key.ref;
    var audioIds := set key | key in db.assets && key.kind.Audio? && db.assets[key].poem == poem :: key.ref;
    forall id | id in db.jobs
      ensures BelongsTo(db, KeyOf(db.jobs[id]), poem)
              <==> db.jobs[id].ref in (if db.jobs[id].kind.Image? then imageIds else audioIds)
    {
      var ref, kind := db.jobs[id].ref, db.jobs[id].kind;
      if ref in (if kind.Image? then imageIds else audioIds) {
        var key :| key in db.assets && key.kind == kind && db.assets[key].poem == poem && key.ref == ref;
        assert key == KeyOf(db.jobs[id]);
      }
    }
    var jobs := db.jobs;
    jobs := map id | id in jobs && !(jobs[id].kind.Image? && jobs[id].ref in imageIds) :: jobs[id];
    jobs := map id | id in jobs && !(jobs[id].kind.Audio? && jobs[id].ref in audioIds) :: jobs[id];
    var assets := map key | key in db.assets && db.assets[key].poem != poem :: db.assets[key];
    left := Db(jobs, assets, db.poems - {poem});
    assert left.jobs == WithoutPoem(db, poem).jobs;
    assert left.assets == WithoutPoem(db, poem).assets;
  }

  /** A deletion removes the poem's assets and exactly the jobs that refer to them, although an image and
      an audio may carry the same number: no job is left without its asset, none of another poem goes. */
  lemma {:induction false} DeleteIsExact(imageLimit: int, audioLimit: int, es: seq<Event>, poem: int, id: int)
    requires id in Exec(Start(imageLimit, audioLimit), es).db.jobs
    ensures var db := Exec(Start(imageLimit, audioLimit), es).db;
            var left := WithoutPoem(db, poem);
            && KeyOf(db.jobs[id]) in db.assets
            && (id in left.jobs <==> db.assets[KeyOf(db.jobs[id])].poem != poem)
            && (id in left.jobs <==> KeyOf(db.jobs[id]) in left.assets)
            && (id in left.jobs ==> left.jobs[id] == db.jobs[id])
            && left.poems == db.poems - {poem}
            && (forall key :: key in left.assets <==> key in db.assets && db.assets[key].poem != poem)
            && forall key | key in left.assets :: left.assets[key] == db.assets[key]
  {
    ExecKeepsInv(Start(imageLimit, audioLimit), es);
  }

  /** delete_poem: false if there is no such poem, else one transaction. */
  method DeletePoemRows(world: World, poem: int) returns (r: Result<bool>, ghost before: System)
    requires world.Valid()
    modifies world
    ensures world.Valid() && old(world.trace) <= world.trace
    ensures r == Returned(false) ==> poem !in world.s.db.poems
    ensures r == Returned(true) ==> world.s == Step(before, Outside(DeletePoem(poem))) && poem !in world.s.db.poems
    ensures Uneventful(old(world.turns)) ==>
              && r == Returned(poem in old(world.s).db.poems)
              && world.s == (if r.value then old(world.s).(db := WithoutPoem(old(world.s).db, poem)) else old(world.s))
  {
    hide Exec;
    var seen := world.Look();
    before := world.s;
    if seen.Raised? {
      return Raised(seen.timedOut), before;
    }
    if poem !in seen.value.db.poems {
      return Returned(false), before;
    }
    var committed, was, moves := world.Request(DeletePoem(poem));
    before := was;
    if committed.Raised? {
      return Raised(committed.timedOut), before;
    }
    return Returned(true), before;
  }
}
