/** The parallel, resumable ownership change of applyFSGroupToExportBackedVolume (service/node.go): a walker,
    a pool of workers and a batching state writer that share channels, a map of completed paths, a
    cancellable context and an on-disk state file. Every interleaving is a sequence of `Action`s; a crash
    or a retry is a `Restart`. */
module ChownPipeline {
  import opened Strings
  import opened ChownTree
  import opened ResumeFile

  const JOB_CAPACITY := 100

  /** What stays fixed over all attempts: the tree with its original metadata, the group and its marker,
      and the pool and batch sizes. */
  datatype Config = Config(root: Entry, orig: FileSystem, gid: int, marker: string, batch: nat, workers: nat)

  datatype Job = Job(rel: string, isDir: bool, mode: Mode)
  datatype Ctx = Live | Canceled | TimedOut
  datatype Walker = AtRoot | Walking(stack: seq<Entry>) | Sending(job: Job, stack: seq<Entry>) | WalkEnded
  datatype Worker = Idle | Checking(job: Job) | Applying(job: Job) | Recording(rel: string) | Exited
  datatype Writer = Receiving | Persisting | Flushing | Finished
  datatype Result = Success | ChownFailed | DeadlineExceeded | ContextCanceled
  datatype Main = Joining | Draining | Returned(result: Result)

  /** `jobs` and `records` are the two buffered channels; `jobs` is closed when the walker has ended and
      `records` when `main` has left `Joining`. `errored` says that errCh holds an error. */
  datatype State = State(fs: FileSystem, disk: Option<string>, ctx: Ctx, errored: bool,
                         walker: Walker, jobs: seq<Job>, workers: seq<Worker>,
                         records: seq<string>, completed: set<string>, pending: nat, writer: Writer, main: Main)

  datatype Action =
    | WalkRoot(out: Outcome)                  // the root itself, changed by the walker
    | WalkAbort                               // the walker sees the context done
    | Visit(infoOk: bool)                     // one directory entry: skip it or turn it into a job
    | Send                                    // the job enters the channel
    | WalkFinish
    | Receive(w: nat)
    | Quit(w: nat)                            // channel closed and empty
    | Check(w: nat)                           // the worker looks at the context
    | ApplyJob(w: nat, out: Outcome)
    | Record(w: nat)
    | Drop(w: nat)                            // context done while handing over the path
    | Take                                    // the writer receives a completed path
    | Persist(ok: bool, stamp: string, paths: seq<string>)
    | Drained                                 // the writer sees its channel closed and empty
    | CloseRecords                            // all workers and the walker are done
    | Return(removed: bool)
    | Timeout
    | ParentCancel

  // ---- the step relation ----

  predicate WorkerAt(s: State, w: nat) { w < |s.workers| }

  predicate AllExited(ws: seq<Worker>) { forall i :: 0 <= i < |ws| ==> ws[i].Exited? }

  ghost predicate Enabled(c: Config, s: State, a: Action) {
    !s.main.Returned? &&
    match a
    case WalkRoot(_) => s.walker.AtRoot? && s.ctx.Live?
    case WalkAbort =>
      !s.ctx.Live? && (s.walker.AtRoot? || s.walker.Sending? || (s.walker.Walking? && s.walker.stack != []))
    case Visit(_) => s.walker.Walking? && s.walker.stack != [] && s.ctx.Live?
                     && (Hidden(s.walker.stack[0]) || s.walker.stack[0].rel in s.fs)
    case Send => s.walker.Sending? && |s.jobs| < JOB_CAPACITY
    case WalkFinish => s.walker.Walking? && s.walker.stack == []
    case Receive(w) => WorkerAt(s, w) && s.workers[w].Idle? && s.jobs != []
    case Quit(w) => WorkerAt(s, w) && s.workers[w].Idle? && s.jobs == [] && s.walker.WalkEnded?
    case Check(w) => WorkerAt(s, w) && s.workers[w].Checking?
    case ApplyJob(w, _) => WorkerAt(s, w) && s.workers[w].Applying? && s.workers[w].job.rel in s.fs
    case Record(w) => WorkerAt(s, w) && s.workers[w].Recording? && |s.records| < c.batch
    case Drop(w) => WorkerAt(s, w) && s.workers[w].Recording? && !s.ctx.Live?
    case Take => s.writer.Receiving? && s.records != []
    case Persist(ok, stamp, paths) =>
      && (s.writer.Persisting? || s.writer.Flushing?)
      && HeaderText(stamp) && Distinct(paths) && (set p | p in paths) == s.completed
    case Drained => s.writer.Receiving? && s.records == [] && s.main.Draining?
    case CloseRecords => s.main.Joining? && s.walker.WalkEnded? && AllExited(s.workers)
    case Return(_) => s.main.Draining? && s.writer.Finished?
    case Timeout => s.ctx.Live?
    case ParentCancel => s.ctx.Live?
  }

  /** cancel() followed by the non-blocking send to errCh. */
  function Fail(s: State): State {
    s.(ctx := if s.ctx.Live? then Canceled else s.ctx, errored := true)
  }

  function VisitEntry(s: State, infoOk: bool): State
    requires s.walker.Walking? && s.walker.stack != []
    requires Hidden(s.walker.stack[0]) || s.walker.stack[0].rel in s.fs
  {
    var e, rest := s.walker.stack[0], s.walker.stack[1..];
    if Hidden(e) || e.rel in s.completed then s.(walker := Walking(rest))
    else if infoOk then s.(walker := Sending(Job(e.rel, e.isDir, s.fs[e.rel].mode), e.children + rest))
    else Fail(s).(walker := WalkEnded)
  }

  function ChangePath(c: Config, s: State, rel: string, mode: Mode, out: Outcome): State
    requires rel in s.fs
  {
    s.(fs := s.fs[rel := ApplyPermissions(s.fs[rel], c.gid, mode, out)])
  }

  function FinishJob(c: Config, s: State, w: nat, out: Outcome): State
    requires WorkerAt(s, w) && s.workers[w].Applying? && s.workers[w].job.rel in s.fs
  {
    var job := s.workers[w].job;
    var t := ChangePath(c, s, job.rel, job.mode, out);
    if out != Done then Fail(t).(workers := t.workers[w := Exited])
    else t.(workers := t.workers[w := if job.isDir then Idle else Recording(job.rel)])
  }

  function AttemptResult(s: State): Result {
    if s.errored then ChownFailed
    else match s.ctx
         case TimedOut => DeadlineExceeded
         case Canceled => ContextCanceled
         case Live => Success
  }

  ghost function Do(c: Config, s: State, a: Action): State
    requires Enabled(c, s, a)
  {
    match a
    case WalkRoot(out) =>
      if "." !in s.fs then Fail(s).(walker := WalkEnded)
      else
        var t := ChangePath(c, s, ".", s.fs["."].mode, out);
        if out == Done then t.(walker := Walking(c.root.children)) else Fail(t).(walker := WalkEnded)
    case WalkAbort => s.(walker := WalkEnded)
    case Visit(infoOk) => VisitEntry(s, infoOk)
    case Send => s.(jobs := s.jobs + [s.walker.job], walker := Walking(s.walker.stack))
    case WalkFinish => s.(walker := WalkEnded)
    case Receive(w) => s.(jobs := s.jobs[1..], workers := s.workers[w := Checking(s.jobs[0])])
    case Quit(w) => s.(workers := s.workers[w := Exited])
    case Check(w) => s.(workers := s.workers[w := if s.ctx.Live? then Applying(s.workers[w].job) else Exited])
    case ApplyJob(w, out) => FinishJob(c, s, w, out)
    case Record(w) => s.(records := s.records + [s.workers[w].rel], workers := s.workers[w := Idle])
    case Drop(w) => s.(workers := s.workers[w := Idle])
    case Take =>
      var t := s.(records := s.records[1..], completed := s.completed + {s.records[0]});
      if s.pending + 1 >= c.batch then t.(pending := 0, writer := Persisting) else t.(pending := s.pending + 1)
    case Persist(ok, stamp, paths) =>
      s.(disk := if ok then Some(Render(stamp, c.marker, paths)) else s.disk,
         writer := if s.writer.Persisting? then Receiving else Finished)
    case Drained => s.(pending := 0, writer := if s.pending > 0 then Flushing else Finished)
    case CloseRecords => s.(main := Draining)
    case Return(removed) =>
      var r := AttemptResult(s);
      s.(main := Returned(r), disk := if r.Success? && removed then None else s.disk)
    case Timeout => s.(ctx := TimedOut)
    case ParentCancel => s.(ctx := Canceled)
  }

  /** A new attempt: the files and the state file survive, everything in memory is rebuilt. */
  ghost function Start(c: Config, fs: FileSystem, disk: Option<string>, recent: bool): State {
    State(fs, disk, Live, false, AtRoot, [], seq(c.workers, _ => Idle), [],
          if disk.Some? then Load(disk.value, c.marker, recent) else {}, 0, Receiving, Joining)
  }

  // ---- what every reachable state satisfies ----

  /** Every path the walk is meant to change. */
  ghost function Visited(c: Config): set<string> { {"."} + Paths(c.root.children) }

  /** Every path that an attempt changes which starts with `done` as its set of completed paths; the root is
      never skipped. */
  ghost function Wanted(c: Config, done: set<string>): set<string> { {"."} + Reached(c.root.children, done) }

  ghost predicate ValidConfig(c: Config) {
    && c.batch >= 1 && c.workers >= 1 && HeaderText(c.marker)
    && "." in c.orig && Describes(c.root.children, c.orig)
  }

  ghost predicate IsDone(c: Config, fs: FileSystem, p: string) {
    p in c.orig && p in fs && fs[p] == Target(c.orig[p], c.gid)
  }

  ghost predicate FileDone(c: Config, fs: FileSystem, p: string) {
    p in Visited(c) && IsDone(c, fs, p) && !IsDir(c.orig[p].mode)
  }

  /** What an attempt has to work with: the completed paths and the files it found. */
  datatype Origin = Origin(done: set<string>, fs: FileSystem)

  ghost predicate JobOk(c: Config, o: Origin, j: Job) {
    && j.rel in Wanted(c, o.done) && j.rel in c.orig && j.isDir == IsDir(c.orig[j.rel].mode)
    && (j.mode == c.orig[j.rel].mode || j.mode == Target(c.orig[j.rel], c.gid).mode)
  }

  ghost predicate FsOk(c: Config, fs: FileSystem) {
    && fs.Keys == c.orig.Keys
    && (forall p :: p in fs && p in Visited(c) ==> Partial(fs[p], c.orig[p], c.gid))
    && (forall p :: p in fs && p !in Visited(c) ==> fs[p] == c.orig[p])
  }

  /** Paths the attempt does not want keep what the attempt found. */
  ghost predicate Untouched(c: Config, o: Origin, fs: FileSystem) {
    o.fs.Keys == c.orig.Keys && forall p :: p in fs && p in o.fs && p !in Wanted(c, o.done) ==> fs[p] == o.fs[p]
  }

  ghost predicate StackOk(c: Config, o: Origin, stack: seq<Entry>) {
    Describes(stack, c.orig) && Reached(stack, o.done) <= Wanted(c, o.done)
  }

  ghost predicate WalkerOk(c: Config, o: Origin, w: Walker) {
    match w
    case Walking(stack) => StackOk(c, o, stack)
    case Sending(job, stack) => JobOk(c, o, job) && StackOk(c, o, stack)
    case _ => true
  }

  ghost predicate WorkerOk(c: Config, o: Origin, fs: FileSystem, w: Worker) {
    match w
    case Checking(job) => JobOk(c, o, job)
    case Applying(job) => JobOk(c, o, job)
    case Recording(rel) => FileDone(c, fs, rel)
    case _ => true
  }

  ghost predicate DataOk(c: Config, o: Origin, s: State) {
    && FsOk(c, s.fs) && Untouched(c, o, s.fs) && WalkerOk(c, o, s.walker)
    && |s.workers| == c.workers
    && (forall i :: 0 <= i < |s.jobs| ==> JobOk(c, o, s.jobs[i]))
    && (forall i :: 0 <= i < |s.workers| ==> WorkerOk(c, o, s.fs, s.workers[i]))
    && (forall i :: 0 <= i < |s.records| ==> FileDone(c, s.fs, s.records[i]))
    && o.done <= s.completed && (forall p :: p in s.completed && p !in o.done ==> FileDone(c, s.fs, p))
  }

  ghost function WalkerPaths(c: Config, o: Origin, w: Walker): set<string> {
    match w
    case AtRoot => Wanted(c, o.done)
    case Walking(stack) => Reached(stack, o.done)
    case Sending(job, stack) => {job.rel} + Reached(stack, o.done)
    case WalkEnded => {}
  }

  predicate Holds(w: Worker, p: string) { (w.Checking? || w.Applying?) && w.job.rel == p }

  /** Somebody still has the path in hand. */
  ghost predicate Queued(c: Config, o: Origin, s: State, p: string) {
    || p in WalkerPaths(c, o, s.walker)
    || (exists i :: 0 <= i < |s.jobs| && s.jobs[i].rel == p)
    || (exists i :: 0 <= i < |s.workers| && Holds(s.workers[i], p))
  }

  /** While nothing has gone wrong, no wanted path is lost. */
  ghost predicate Covered(c: Config, o: Origin, s: State) {
    s.ctx.Live? ==> forall p :: p in Wanted(c, o.done) ==> IsDone(c, s.fs, p) || Queued(c, o, s, p)
  }

  ghost predicate PhaseOk(c: Config, o: Origin, s: State) {
    && (s.ctx.Live? ==> !s.errored)
    && (s.ctx.Live? ==>
          forall i :: 0 <= i < |s.workers| && s.workers[i].Exited? ==> s.jobs == [] && s.walker.WalkEnded?)
    && (!s.main.Joining? ==> s.walker.WalkEnded? && AllExited(s.workers))
    && (s.writer.Flushing? || s.writer.Finished? ==> !s.main.Joining? && s.records == [])
    && (s.main.Returned? ==> s.writer.Finished?) && s.pending < c.batch
    && (s.main == Returned(Success) ==> forall p :: p in Wanted(c, o.done) ==> IsDone(c, s.fs, p))
  }

  /** Nothing here depends on what the paths are called or on what the state file says. */
  ghost predicate Inv(c: Config, o: Origin, s: State) {
    DataOk(c, o, s) && Covered(c, o, s) && PhaseOk(c, o, s)
  }

  // ---- preservation ----

  lemma VisitedExist(c: Config)
    requires ValidConfig(c)
    ensures Visited(c) <= c.orig.Keys
  {
    DescribedPathsExist(c.root.children, c.orig);
  }

  lemma WantedIsVisited(c: Config, done: set<string>)
    ensures Wanted(c, done) <= Visited(c)
  {
    ReachedWithin(c.root.children, done);
  }

  lemma StartEstablishesInv(c: Config, fs: FileSystem, disk: Option<string>, recent: bool)
    requires ValidConfig(c) && FsOk(c, fs)
    ensures var s := Start(c, fs, disk, recent); Inv(c, Origin(s.completed, fs), s)
  {
  }

  /** One permission change, finished or not, keeps all that was done and stays partial elsewhere. */
  lemma ChangeKeepsFs(c: Config, fs: FileSystem, rel: string, mode: Mode, out: Outcome)
    requires FsOk(c, fs) && rel in Visited(c) && rel in c.orig
    requires mode == c.orig[rel].mode || mode == Target(c.orig[rel], c.gid).mode
    ensures var fs' := fs[rel := ApplyPermissions(fs[rel], c.gid, mode, out)];
            && FsOk(c, fs')
            && (forall p :: IsDone(c, fs, p) ==> IsDone(c, fs', p))
            && (forall p :: FileDone(c, fs, p) ==> FileDone(c, fs', p))
            && (out == Done ==> IsDone(c, fs', rel))
  {
    StaysPartial(fs[rel], c.orig[rel], c.gid, mode, out);
    FinishesFromPartial(fs[rel], c.orig[rel], c.gid, mode);
  }

  lemma KeepWalkRoot(c: Config, o: Origin, s: State, out: Outcome)
    requires ValidConfig(c) && Inv(c, o, s) && Enabled(c, s, WalkRoot(out))
    ensures Inv(c, o, Do(c, s, WalkRoot(out)))
  {
    ChangeKeepsFs(c, s.fs, ".", s.fs["."].mode, out);
  }

  /** What the walker takes off its stack is skipped, done already, or sent on. */
  lemma VisitSplits(c: Config, o: Origin, s: State)
    requires ValidConfig(c) && Inv(c, o, s) && s.walker.Walking? && s.walker.stack != []
    ensures var e, rest, done := s.walker.stack[0], s.walker.stack[1..], o.done;
            && Describes(rest, c.orig)
            && (!Hidden(e) ==> Describes(e.children + rest, c.orig))
            && Reached(e.children + rest, done) == Reached(e.children, done) + Reached(rest, done)
            && (Hidden(e) || e.rel in done ==> Reached(s.walker.stack, done) == Reached(rest, done))
            && (!Hidden(e) && e.rel !in done ==>
                  Reached(s.walker.stack, done) == {e.rel} + Reached(e.children + rest, done))
            && (!Hidden(e) && e.rel !in done && e.rel in s.completed ==> FileDone(c, s.fs, e.rel) && e.children == [])
  {
    var e, rest := s.walker.stack[0], s.walker.stack[1..];
    ReachedAppend(e.children, rest, o.done);
    DescribesAppend(e.children, rest, c.orig);
  }

  lemma KeepVisit(c: Config, o: Origin, s: State, infoOk: bool)
    requires ValidConfig(c) && Inv(c, o, s) && Enabled(c, s, Visit(infoOk))
    ensures Inv(c, o, Do(c, s, Visit(infoOk)))
  {
    VisitKeepsData(c, o, s, infoOk);
    VisitCovers(c, o, s, infoOk);
  }

  lemma VisitKeepsData(c: Config, o: Origin, s: State, infoOk: bool)
    requires ValidConfig(c) && Inv(c, o, s) && Enabled(c, s, Visit(infoOk))
    ensures DataOk(c, o, Do(c, s, Visit(infoOk)))
  {
    VisitSplits(c, o, s);
    WantedIsVisited(c, o.done);
    var e := s.walker.stack[0];
    if !Hidden(e) && e.rel !in s.completed {
      MaskIsIdempotent(c.orig[e.rel].mode);
    }
  }

  lemma VisitCovers(c: Config, o: Origin, s: State, infoOk: bool)
    requires ValidConfig(c) && Inv(c, o, s) && Enabled(c, s, Visit(infoOk))
    ensures Covered(c, o, Do(c, s, Visit(infoOk)))
  {
    var t := Do(c, s, Visit(infoOk));
    VisitSplits(c, o, s);
    if t.ctx.Live? {
      forall p | p in Wanted(c, o.done) ensures IsDone(c, t.fs, p) || Queued(c, o, t, p) {
        assert IsDone(c, s.fs, p) || Queued(c, o, s, p);
        assert p in WalkerPaths(c, o, s.walker) ==> p in WalkerPaths(c, o, t.walker) || IsDone(c, s.fs, p);
      }
    }
  }

  lemma KeepSend(c: Config, o: Origin, s: State)
    requires ValidConfig(c) && Inv(c, o, s) && Enabled(c, s, Send)
    ensures Inv(c, o, Do(c, s, Send))
  {
    var t := Do(c, s, Send);
    assert t.jobs[|s.jobs|] == s.walker.job;
    forall p | Queued(c, o, s, p) ensures Queued(c, o, t, p) {
      if i :| 0 <= i < |s.jobs| && s.jobs[i].rel == p { assert t.jobs[i].rel == p; }
    }
  }

  lemma KeepReceive(c: Config, o: Origin, s: State, w: nat)
    requires ValidConfig(c) && Inv(c, o, s) && Enabled(c, s, Receive(w))
    ensures Inv(c, o, Do(c, s, Receive(w)))
  {
    var t := Do(c, s, Receive(w));
    forall p | Queued(c, o, s, p) ensures Queued(c, o, t, p) {
      if i :| 0 <= i < |s.jobs| && s.jobs[i].rel == p {
        if i == 0 { assert Holds(t.workers[w], p); } else { assert t.jobs[i - 1].rel == p; }
      } else if i :| 0 <= i < |s.workers| && Holds(s.workers[i], p) {
        assert Holds(t.workers[i], p);
      }
    }
  }

  lemma KeepCheck(c: Config, o: Origin, s: State, w: nat)
    requires ValidConfig(c) && Inv(c, o, s) && Enabled(c, s, Check(w))
    ensures Inv(c, o, Do(c, s, Check(w)))
  {
    var t := Do(c, s, Check(w));
    if t.ctx.Live? {
      forall p | Queued(c, o, s, p) ensures Queued(c, o, t, p) {
        if i :| 0 <= i < |s.workers| && Holds(s.workers[i], p) { assert Holds(t.workers[i], p); }
      }
    }
  }

  lemma KeepApplyJob(c: Config, o: Origin, s: State, w: nat, out: Outcome)
    requires ValidConfig(c) && Inv(c, o, s) && Enabled(c, s, ApplyJob(w, out))
    ensures Inv(c, o, Do(c, s, ApplyJob(w, out)))
  {
    ApplyKeepsData(c, o, s, w, out);
    var t, job := Do(c, s, ApplyJob(w, out)), s.workers[w].job;
    WantedIsVisited(c, o.done);
    assert WorkerOk(c, o, s.fs, s.workers[w]);
    ChangeKeepsFs(c, s.fs, job.rel, job.mode, out);
    if t.ctx.Live? {
      forall p | p in Wanted(c, o.done) ensures IsDone(c, t.fs, p) || Queued(c, o, t, p) {
        if i :| 0 <= i < |s.workers| && Holds(s.workers[i], p) { assert i == w || Holds(t.workers[i], p); }
      }
    }
  }

  lemma ApplyKeepsData(c: Config, o: Origin, s: State, w: nat, out: Outcome)
    requires ValidConfig(c) && Inv(c, o, s) && Enabled(c, s, ApplyJob(w, out))
    ensures DataOk(c, o, Do(c, s, ApplyJob(w, out)))
  {
    var job := s.workers[w].job;
    WantedIsVisited(c, o.done);
    assert WorkerOk(c, o, s.fs, s.workers[w]);
    ChangeKeepsFs(c, s.fs, job.rel, job.mode, out);
  }

  lemma KeepIdling(c: Config, o: Origin, s: State, w: nat, a: Action)
    requires ValidConfig(c) && Inv(c, o, s) && a in {Record(w), Drop(w), Quit(w)} && Enabled(c, s, a)
    ensures Inv(c, o, Do(c, s, a))
  {
    var t := Do(c, s, a);
    forall p | Queued(c, o, s, p) ensures Queued(c, o, t, p) {
      if i :| 0 <= i < |s.workers| && Holds(s.workers[i], p) { assert Holds(t.workers[i], p); }
    }
    assert WorkerOk(c, o, s.fs, s.workers[w]);
  }

  /** Steps of the writer leave the walker, the queue and the workers alone. */
  lemma SameQueues(c: Config, o: Origin, s: State, t: State)
    requires Covered(c, o, s)
    requires t.fs == s.fs && t.ctx == s.ctx && t.walker == s.walker && t.jobs == s.jobs && t.workers == s.workers
    ensures Covered(c, o, t)
  {
    forall p | Queued(c, o, s, p) ensures Queued(c, o, t, p) {}
  }

  lemma KeepTake(c: Config, o: Origin, s: State)
    requires ValidConfig(c) && Inv(c, o, s) && Enabled(c, s, Take)
    ensures Inv(c, o, Do(c, s, Take))
  {
    TakeKeepsData(c, o, s);
    SameQueues(c, o, s, Do(c, s, Take));
  }

  lemma TakeKeepsData(c: Config, o: Origin, s: State)
    requires ValidConfig(c) && DataOk(c, o, s) && Enabled(c, s, Take)
    ensures DataOk(c, o, Do(c, s, Take))
  {
    assert FileDone(c, s.fs, s.records[0]);
  }

  lemma KeepPersist(c: Config, o: Origin, s: State, ok: bool, stamp: string, paths: seq<string>)
    requires ValidConfig(c) && Inv(c, o, s) && Enabled(c, s, Persist(ok, stamp, paths))
    ensures Inv(c, o, Do(c, s, Persist(ok, stamp, paths)))
  {
    SameQueues(c, o, s, Do(c, s, Persist(ok, stamp, paths)));
  }

  /** Nothing is left in hand once the walker and all workers are done with a live context. */
  lemma JoinedMeansDone(c: Config, o: Origin, s: State)
    requires ValidConfig(c) && Inv(c, o, s) && s.walker.WalkEnded? && AllExited(s.workers) && s.ctx.Live?
    ensures forall p :: p in Wanted(c, o.done) ==> IsDone(c, s.fs, p)
  {
    assert s.workers[0].Exited?;
    forall p | p in Wanted(c, o.done) ensures IsDone(c, s.fs, p) {
      assert !Queued(c, o, s, p);
    }
  }

  lemma KeepMain(c: Config, o: Origin, s: State, a: Action)
    requires ValidConfig(c) && Inv(c, o, s) && Enabled(c, s, a)
    requires a.WalkAbort? || a.WalkFinish? || a.Drained? || a.CloseRecords? || a.Return? || a.Timeout?
             || a.ParentCancel?
    ensures Inv(c, o, Do(c, s, a))
  {
    var t := Do(c, s, a);
    if s.ctx.Live? && a.Return? { JoinedMeansDone(c, o, s); }
    if t.ctx.Live? { forall p | Queued(c, o, s, p) ensures Queued(c, o, t, p) {} }
  }

  lemma StepKeepsInv(c: Config, o: Origin, s: State, a: Action)
    requires ValidConfig(c) && Inv(c, o, s) && Enabled(c, s, a)
    ensures Inv(c, o, Do(c, s, a))
  {
    match a
    case WalkRoot(out) => KeepWalkRoot(c, o, s, out);
    case Visit(infoOk) => KeepVisit(c, o, s, infoOk);
    case Send => KeepSend(c, o, s);
    case Receive(w) => KeepReceive(c, o, s, w);
    case Check(w) => KeepCheck(c, o, s, w);
    case ApplyJob(w, out) => KeepApplyJob(c, o, s, w, out);
    case Record(w) => KeepIdling(c, o, s, w, a);
    case Drop(w) => KeepIdling(c, o, s, w, a);
    case Quit(w) => KeepIdling(c, o, s, w, a);
    case Take => KeepTake(c, o, s);
    case Persist(ok, stamp, paths) => KeepPersist(c, o, s, ok, stamp, paths);
    case _ => KeepMain(c, o, s, a);
  }
}
