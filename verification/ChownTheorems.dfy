/** What holds over all attempts of the parallel ownership change, and why every attempt ends. */
module ChownTheorems {
  import opened Strings
  import opened ChownTree
  import opened ResumeFile
  import opened ChownPipeline

  datatype Event = Act(action: Action) | Restart(recent: bool)

  ghost predicate Step(c: Config, s: State, e: Event, t: State) {
    match e
    case Act(a) => Enabled(c, s, a) && t == Do(c, s, a)
    case Restart(recent) => t == Start(c, s.fs, s.disk, recent)
  }

  /** A history of attempts: any interleaving, with crashes and retries at any point. */
  ghost predicate Run(c: Config, trace: seq<State>, events: seq<Event>) {
    && |trace| == |events| + 1
    && (forall i :: 0 <= i < |events| ==> Step(c, trace[i], events[i], trace[i + 1]))
  }

  /** The first attempt meets the original tree and any state file. */
  ghost predicate Initial(c: Config, s: State) {
    exists disk, recent :: s == Start(c, c.orig, disk, recent)
  }

  /** When the attempt that is running at moment `i` began. */
  function AttemptStart(events: seq<Event>, i: nat): (st: nat)
    requires i <= |events|
    ensures st <= i
  {
    if i == 0 then 0 else if events[i - 1].Restart? then i else AttemptStart(events, i - 1)
  }

  /** What that attempt had to work with. */
  ghost function OriginAt(trace: seq<State>, events: seq<Event>, i: nat): Origin
    requires |trace| == |events| + 1 && i < |trace|
  {
    var st := AttemptStart(events, i);
    Origin(trace[st].completed, trace[st].fs)
  }

  lemma {:induction false} RunKeepsInv(c: Config, trace: seq<State>, events: seq<Event>, i: nat)
    requires ValidConfig(c) && Run(c, trace, events) && Initial(c, trace[0]) && i < |trace|
    ensures Inv(c, OriginAt(trace, events, i), trace[i]) && FsOk(c, OriginAt(trace, events, i).fs)
  {
    if i == 0 {
      var disk, recent :| trace[0] == Start(c, c.orig, disk, recent);
      VisitedExist(c);
      StartEstablishesInv(c, c.orig, disk, recent);
    } else {
      RunKeepsInv(c, trace, events, i - 1);
      assert Step(c, trace[i - 1], events[i - 1], trace[i]);
      match events[i - 1]
      case Act(a) => StepKeepsInv(c, OriginAt(trace, events, i - 1), trace[i - 1], a);
      case Restart(recent) => StartEstablishesInv(c, trace[i - 1].fs, trace[i - 1].disk, recent);
    }
  }

  /** Whatever the state file made it skip, an attempt that reports success has done to all other visited
      paths what one permission change does, and touched nothing else. */
  lemma SuccessChangesWanted(c: Config, trace: seq<State>, events: seq<Event>, i: nat)
    requires ValidConfig(c) && Run(c, trace, events) && Initial(c, trace[0])
    requires i < |trace| && trace[i].main == Returned(Success)
    ensures var o := OriginAt(trace, events, i); trace[i].fs == Chowned(o.fs, Wanted(c, o.done), c.gid)
  {
    RunKeepsInv(c, trace, events, i);
    VisitedExist(c);
    var o := OriginAt(trace, events, i);
    WantedIsVisited(c, o.done);
    forall p | p in Wanted(c, o.done) ensures p in o.fs && Target(o.fs[p], c.gid) == Target(c.orig[p], c.gid) {
      FinishesFromPartial(o.fs[p], c.orig[p], c.gid, o.fs[p].mode);
    }
  }

  /** Written out: every path the attempt did not skip is finished with respect to the original tree, every
      other path is as the attempt found it. */
  lemma SuccessWrittenOut(c: Config, trace: seq<State>, events: seq<Event>, i: nat)
    requires ValidConfig(c) && Run(c, trace, events) && Initial(c, trace[0])
    requires i < |trace| && trace[i].main == Returned(Success)
    ensures var o := OriginAt(trace, events, i); var fs := trace[i].fs;
            && fs.Keys == o.fs.Keys == c.orig.Keys && Wanted(c, o.done) <= c.orig.Keys
            && (forall p :: p in Wanted(c, o.done) ==> FinalMeta(fs[p], c.orig[p], c.gid))
            && (forall p :: p in c.orig && p !in Wanted(c, o.done) ==> fs[p] == o.fs[p])
  {
    RunKeepsInv(c, trace, events, i);
    VisitedExist(c);
    var o := OriginAt(trace, events, i);
    WantedIsVisited(c, o.done);
    forall p | p in Wanted(c, o.done) ensures FinalMeta(trace[i].fs[p], c.orig[p], c.gid) {
      assert IsDone(c, trace[i].fs, p);
      ChangeWrittenOut(c.orig[p], c.gid);
    }
  }

  /** Every visited path that the attempt skips was finished before it began. */
  ghost predicate SkipsOnlyDone(c: Config, o: Origin) {
    forall p :: p in Visited(c) && p !in Wanted(c, o.done) ==> IsDone(c, o.fs, p)
  }

  /** Parallel refines sequential, for every tree, every name in it and every state file. Whatever the
      interleaving and however many earlier attempts were interrupted, an attempt that reports success has
      given every visited path its final group and mode and touched nothing else, exactly when what the
      state file made it skip was finished. That is what the sequential walk does, except that the
      sequential walk alone is fooled by a staging directory named like a state file. */
  lemma ParallelRefinesSequential(c: Config, trace: seq<State>, events: seq<Event>, i: nat)
    requires ValidConfig(c) && c.root.rel == "."
    requires Run(c, trace, events) && Initial(c, trace[0])
    requires i < |trace| && trace[i].main == Returned(Success)
    ensures trace[i].fs == Chowned(c.orig, Visited(c), c.gid) <==> SkipsOnlyDone(c, OriginAt(trace, events, i))
    ensures SequentialChown([c.root], c.orig, c.gid) == Chowned(c.orig, Visited(c), c.gid)
            <==> !Hidden(c.root) || Chowned(c.orig, Visited(c), c.gid) == c.orig
  {
    RunKeepsInv(c, trace, events, i);
    VisitedExist(c);
    SequentialChownsVisited([c.root], c.orig, c.gid);
    assert Paths([c.root]) == if Hidden(c.root) then {} else Visited(c);
    assert Chowned(c.orig, {}, c.gid) == c.orig;
    UnfinishedShows(c, OriginAt(trace, events, i), trace[i].fs);
  }

  lemma UnfinishedShows(c: Config, o: Origin, fs: FileSystem)
    requires Visited(c) <= c.orig.Keys && FsOk(c, fs) && Untouched(c, o, fs)
    requires forall p :: p in Wanted(c, o.done) ==> IsDone(c, fs, p)
    ensures fs == Chowned(c.orig, Visited(c), c.gid) <==> SkipsOnlyDone(c, o)
  {
    if fs == Chowned(c.orig, Visited(c), c.gid) {
      forall p | p in Visited(c) && p !in Wanted(c, o.done) ensures IsDone(c, o.fs, p) {
        assert fs[p] == o.fs[p];
      }
    }
    if SkipsOnlyDone(c, o) {
      forall p | p in fs ensures fs[p] == Chowned(c.orig, Visited(c), c.gid)[p] {
        if p in Visited(c) && p !in Wanted(c, o.done) { assert IsDone(c, o.fs, p); }
      }
    }
  }

  /** In particular an attempt that finds no state file, or one that names no path of the tree, refines the
      sequential walk whatever the paths are called. */
  lemma FreshAttemptRefines(c: Config, trace: seq<State>, events: seq<Event>, i: nat)
    requires ValidConfig(c) && c.root.rel == "."
    requires Run(c, trace, events) && Initial(c, trace[0])
    requires i < |trace| && trace[i].main == Returned(Success)
    requires OriginAt(trace, events, i).done !! Paths(c.root.children)
    ensures trace[i].fs == Chowned(c.orig, Visited(c), c.gid)
  {
    ReachedWithin(c.root.children, OriginAt(trace, events, i).done);
    ParallelRefinesSequential(c, trace, events, i);
  }

  /** So does an attempt that finds its state file too old. */
  lemma StaleAttemptRefines(c: Config, trace: seq<State>, events: seq<Event>, i: nat)
    requires ValidConfig(c) && c.root.rel == "."
    requires Run(c, trace, events) && Initial(c, trace[0])
    requires i < |trace| && trace[i].main == Returned(Success)
    requires var st := AttemptStart(events, i); st > 0 && events[st - 1] == Restart(false)
    ensures trace[i].fs == Chowned(c.orig, Visited(c), c.gid)
  {
    var st := AttemptStart(events, i);
    assert Step(c, trace[st - 1], events[st - 1], trace[st]);
    FreshAttemptRefines(c, trace, events, i);
  }

  // ---- how an attempt reports ----

  /** The result tells what happened, and only a success removes the state file. */
  lemma ReturnReports(c: Config, o: Origin, s: State, removed: bool)
    requires ValidConfig(c) && Inv(c, o, s) && Enabled(c, s, Return(removed))
    ensures var t := Do(c, s, Return(removed));
            && t.main.Returned? && t.fs == s.fs
            && (t.main.result == ChownFailed <==> s.errored)
            && (t.main.result == DeadlineExceeded <==> !s.errored && s.ctx == TimedOut)
            && (t.main.result == ContextCanceled <==> !s.errored && s.ctx == Canceled)
            && (t.main.result == Success <==> s.ctx == Live)
            && t.disk == if s.ctx == Live && removed then None else s.disk
  {
  }

  /** How close the writer is to its next write. */
  function Unsaved(c: Config, s: State): nat { if s.writer.Receiving? then s.pending else c.batch }

  function Takes(events: seq<Event>): nat {
    if events == [] then 0 else (if events[0] == Act(Take) then 1 else 0) + Takes(events[1..])
  }

  lemma StepNearsWrite(c: Config, s: State, a: Action)
    requires ValidConfig(c) && Enabled(c, s, a) && !a.Persist? && s.pending < c.batch
    ensures var t := Do(c, s, a);
            t.pending < c.batch && Unsaved(c, t) >= Unsaved(c, s) + if a.Take? then 1 else 0
  {
  }

  lemma {:induction false} TakesAreBounded(c: Config, trace: seq<State>, events: seq<Event>)
    requires ValidConfig(c) && Run(c, trace, events) && trace[0].pending < c.batch
    requires forall i :: 0 <= i < |events| ==> events[i].Act? && !events[i].action.Persist?
    ensures Takes(events) + Unsaved(c, trace[0]) <= c.batch
    decreases |events|
  {
    if events != [] {
      assert Step(c, trace[0], events[0], trace[1]);
      StepNearsWrite(c, trace[0], events[0].action);
      forall i | 0 <= i < |events[1..]| ensures Step(c, trace[1..][i], events[1..][i], trace[1..][i + 1]) {
        assert Step(c, trace[i + 1], events[i + 1], trace[i + 2]);
      }
      TakesAreBounded(c, trace[1..], events[1..]);
    }
  }

  /** The state file is never more than a batch behind: in every history, between one write and the next at most
      a batch of completed paths is taken. */
  lemma WritesComeInBatches(c: Config, trace: seq<State>, events: seq<Event>, i: nat, j: nat)
    requires ValidConfig(c) && Run(c, trace, events) && Initial(c, trace[0]) && i <= j <= |events|
    requires forall k :: i <= k < j ==> events[k].Act? && !events[k].action.Persist?
    ensures Takes(events[i..j]) <= c.batch
  {
    RunKeepsInv(c, trace, events, i);
    forall k | 0 <= k < j - i ensures Step(c, trace[i..j + 1][k], events[i..j][k], trace[i..j + 1][k + 1]) {
      assert Step(c, trace[i + k], events[i + k], trace[i + k + 1]);
    }
    TakesAreBounded(c, trace[i..j + 1], events[i..j]);
  }

  // ---- progress ----

  function WorkerWeight(w: Worker): nat {
    match w
    case Exited => 0
    case Idle => 1
    case Recording(_) => 6
    case Applying(_) => 7
    case Checking(_) => 8
  }

  function PoolWeight(ws: seq<Worker>): nat {
    if ws == [] then 0 else WorkerWeight(ws[0]) + PoolWeight(ws[1..])
  }

  function WalkerWeight(c: Config, w: Walker): nat {
    match w
    case AtRoot => 2 + 10 * Size(c.root.children)
    case Walking(stack) => 1 + 10 * Size(stack)
    case Sending(_, stack) => 10 + 10 * Size(stack)
    case WalkEnded => 0
  }

  function WriterWeight(w: Writer): nat {
    match w
    case Receiving => 3
    case Persisting => 6
    case Flushing => 2
    case Finished => 0
  }

  /** How much an attempt can still do. */
  function Fuel(c: Config, s: State): nat {
    WalkerWeight(c, s.walker) + 8 * |s.jobs| + PoolWeight(s.workers) + 4 * |s.records| + WriterWeight(s.writer)
    + (if s.ctx.Live? then 1 else 0) + (match s.main case Joining => 2 case Draining => 1 case Returned(_) => 0)
  }

  lemma {:induction false} PoolUpdate(ws: seq<Worker>, i: nat, w: Worker)
    requires i < |ws|
    ensures PoolWeight(ws[i := w]) == PoolWeight(ws) - WorkerWeight(ws[i]) + WorkerWeight(w)
  {
    if i == 0 {
      assert ws[i := w][1..] == ws[1..];
    } else {
      assert ws[i := w][1..] == ws[1..][i - 1 := w];
      PoolUpdate(ws[1..], i - 1, w);
    }
  }

  lemma WorkerStepBurnsFuel(c: Config, s: State, a: Action, w: nat)
    requires Enabled(c, s, a)
    requires a == Receive(w) || a == Quit(w) || a == Check(w) || (a.ApplyJob? && a.w == w) || a == Record(w)
             || a == Drop(w)
    ensures Fuel(c, Do(c, s, a)) < Fuel(c, s)
  {
    PoolUpdate(s.workers, w, Do(c, s, a).workers[w]);
  }

  lemma VisitBurnsFuel(c: Config, s: State, infoOk: bool)
    requires Enabled(c, s, Visit(infoOk))
    ensures Fuel(c, Do(c, s, Visit(infoOk))) < Fuel(c, s)
  {
    SizeAppend(s.walker.stack[0].children, s.walker.stack[1..]);
  }

  /** Every action, cancellation included, uses up fuel. */
  lemma StepBurnsFuel(c: Config, s: State, a: Action)
    requires Enabled(c, s, a)
    ensures Fuel(c, Do(c, s, a)) < Fuel(c, s)
  {
    match a
    case Visit(infoOk) => VisitBurnsFuel(c, s, infoOk);
    case Receive(w) => WorkerStepBurnsFuel(c, s, a, w);
    case Quit(w) => WorkerStepBurnsFuel(c, s, a, w);
    case Check(w) => WorkerStepBurnsFuel(c, s, a, w);
    case ApplyJob(w, _) => WorkerStepBurnsFuel(c, s, a, w);
    case Record(w) => WorkerStepBurnsFuel(c, s, a, w);
    case Drop(w) => WorkerStepBurnsFuel(c, s, a, w);
    case _ => OtherStepBurnsFuel(c, s, a);
  }

  lemma OtherStepBurnsFuel(c: Config, s: State, a: Action)
    requires Enabled(c, s, a)
    requires a.WalkRoot? || a.WalkAbort? || a.Send? || a.WalkFinish? || a.Take? || a.Persist? || a.Drained?
             || a.CloseRecords? || a.Return? || a.Timeout? || a.ParentCancel?
    ensures Fuel(c, Do(c, s, a)) < Fuel(c, s)
  {
  }

  lemma {:induction false} IdlePool(n: nat)
    ensures PoolWeight(seq(n, _ => Idle)) == n
  {
    if n > 0 {
      IdlePool(n - 1);
      assert seq(n, _ => Idle)[1..] == seq(n - 1, _ => Idle);
    }
  }

  /** One attempt takes at most a number of steps linear in the tree and the pool, however it ends:
      completion, worker error, walker error or timeout. */
  lemma AttemptIsBounded(c: Config, fs: FileSystem, disk: Option<string>, recent: bool,
                         trace: seq<State>, actions: seq<Action>)
    requires Run(c, trace, Acts(actions)) && trace[0] == Start(c, fs, disk, recent)
    ensures |actions| <= 10 * Size(c.root.children) + c.workers + 8
  {
    IdlePool(c.workers);
    FuelBoundsRun(c, trace, actions, |actions|);
  }

  ghost function Acts(actions: seq<Action>): seq<Event> {
    seq(|actions|, i requires 0 <= i < |actions| => Act(actions[i]))
  }

  lemma ActionStep(c: Config, trace: seq<State>, actions: seq<Action>, n: nat)
    requires Run(c, trace, Acts(actions)) && n < |actions|
    ensures Enabled(c, trace[n], actions[n]) && trace[n + 1] == Do(c, trace[n], actions[n])
  {
    assert Step(c, trace[n], Acts(actions)[n], trace[n + 1]);
  }

  lemma {:induction false} FuelBoundsRun(c: Config, trace: seq<State>, actions: seq<Action>, n: nat)
    requires Run(c, trace, Acts(actions)) && n <= |actions|
    ensures n + Fuel(c, trace[n]) <= Fuel(c, trace[0])
  {
    if n > 0 {
      FuelBoundsRun(c, trace, actions, n - 1);
      ActionStep(c, trace, actions, n - 1);
      StepBurnsFuel(c, trace[n - 1], actions[n - 1]);
    }
  }

  /** Some way of listing a set of paths. */
  ghost function ListOf(ps: set<string>): (paths: seq<string>)
    ensures Distinct(paths) && (set p | p in paths) == ps
    decreases |ps|
  {
    if ps == {} then []
    else
      var p :| p in ps;
      var rest := ListOf(ps - {p});
      ConsLists(ps, p, rest);
      [p] + rest
  }

  lemma ConsLists(ps: set<string>, p: string, rest: seq<string>)
    requires p in ps && Distinct(rest) && (set q | q in rest) == ps - {p}
    ensures Distinct([p] + rest) && (set q | q in [p] + rest) == ps
  {
    var paths, kept := [p] + rest, set q | q in rest;
    forall q ensures q in paths <==> q in ps { assert q in rest <==> q in kept; }
    forall i, j | 0 <= i < j < |paths| ensures paths[i] != paths[j] {
      assert paths[j] == rest[j - 1] && rest[j - 1] in kept;
    }
  }

  lemma WriterCanMove(c: Config, s: State, paths: seq<string>) returns (a: Action)
    requires !s.main.Returned? && !s.writer.Finished? && Distinct(paths) && (set p | p in paths) == s.completed
    requires s.writer.Receiving? ==> s.records != [] || s.main.Draining?
    ensures Enabled(c, s, a) && Undisturbed(s, a, paths)
  {
    if s.writer.Receiving? {
      a := if s.records != [] then Take else Drained;
    } else {
      a := Persist(true, "now", paths);
    }
  }

  /** A step that no failure and no deadline is needed for; what is written lists `paths`. */
  ghost predicate Undisturbed(s: State, a: Action, paths: seq<string>) {
    match a
    case WalkRoot(out) => out == Done
    case Visit(infoOk) => infoOk
    case ApplyJob(_, out) => out == Done
    case Persist(ok, stamp, ps) => ok && stamp == "now" && ps == paths
    case WalkAbort => !s.ctx.Live?
    case Drop(_) => false
    case Timeout => false
    case ParentCancel => false
    case _ => true
  }

  /** A worker that has not exited can move, unless it waits for a walker that is still running or for a
      writer that can itself move. */
  lemma WorkerCanMove(c: Config, o: Origin, s: State, w: nat, paths: seq<string>) returns (a: Action)
    requires ValidConfig(c) && Inv(c, o, s) && s.main.Joining? && w < |s.workers| && !s.workers[w].Exited?
    requires s.jobs != [] || s.walker.WalkEnded?
    requires Distinct(paths) && (set p | p in paths) == s.completed
    ensures Enabled(c, s, a) && Undisturbed(s, a, paths)
  {
    match s.workers[w]
    case Idle => a := if s.jobs != [] then Receive(w) else Quit(w);
    case Checking(_) => a := Check(w);
    case Applying(job) => assert WorkerOk(c, o, s.fs, s.workers[w]); a := ApplyJob(w, Done);
    case Recording(_) =>
      if |s.records| < c.batch { a := Record(w); }
      else { a := WriterCanMove(c, s, paths); }
  }

  /** No deadlock: in every reachable state that has not returned, some goroutine can take a step without
      waiting for a failure or a deadline. `paths` is any listing of the completed paths. */
  lemma NoDeadlock(c: Config, o: Origin, s: State, paths: seq<string>) returns (a: Action)
    requires ValidConfig(c) && Inv(c, o, s) && !s.main.Returned?
    requires Distinct(paths) && (set p | p in paths) == s.completed
    ensures Enabled(c, s, a) && Undisturbed(s, a, paths)
  {
    if s.main.Draining? {
      if s.writer.Finished? { a := Return(true); } else { a := WriterCanMove(c, s, paths); }
    } else if s.walker.WalkEnded? {
      if AllExited(s.workers) { a := CloseRecords; }
      else {
        var w :| 0 <= w < |s.workers| && !s.workers[w].Exited?;
        a := WorkerCanMove(c, o, s, w, paths);
      }
    } else if s.walker.Walking? && s.walker.stack == [] {
      a := WalkFinish;
    } else if !s.ctx.Live? {
      a := WalkAbort;
    } else if s.walker.AtRoot? {
      a := WalkRoot(Done);
    } else if s.walker.Walking? {
      DescribedPathsExist(s.walker.stack, c.orig);
      a := Visit(true);
    } else if |s.jobs| < JOB_CAPACITY {
      a := Send;
    } else {
      assert !s.workers[0].Exited?;
      a := WorkerCanMove(c, o, s, 0, paths);
    }
  }

  /** Every history can be continued: a reachable state is final exactly when the attempt has returned. */
  lemma EveryRunProgresses(c: Config, trace: seq<State>, events: seq<Event>)
    requires ValidConfig(c) && Run(c, trace, events) && Initial(c, trace[0])
    ensures var s := trace[|events|];
            s.main.Returned? <==> forall a :: !Enabled(c, s, a)
  {
    var s := trace[|events|];
    RunKeepsInv(c, trace, events, |events|);
    if !s.main.Returned? {
      var a := NoDeadlock(c, OriginAt(trace, events, |events|), s, ListOf(s.completed));
    }
  }

  // ---- building runs ----

  /** A way of listing a set of paths, such as sorting them. */
  ghost predicate Listing(list: set<string> -> seq<string>) {
    forall ps :: Distinct(list(ps)) && (set p | p in list(ps)) == ps
  }

  /** Every state file written in the run lists its paths that way. */
  ghost predicate ListsBy(trace: seq<State>, events: seq<Event>, list: set<string> -> seq<string>) {
    |trace| > |events| && forall i :: 0 <= i < |events| && events[i].Act? && events[i].action.Persist? ==>
      events[i].action.paths == list(trace[i].completed)
  }

  lemma RunCons(c: Config, s: State, e: Event, trace: seq<State>, events: seq<Event>, list: set<string> -> seq<string>)
    requires Run(c, trace, events) && Step(c, s, e, trace[0]) && ListsBy(trace, events, list)
    requires e.Act? && e.action.Persist? ==> e.action.paths == list(s.completed)
    ensures Run(c, [s] + trace, [e] + events) && ListsBy([s] + trace, [e] + events, list)
  {
    var t, es := [s] + trace, [e] + events;
    forall i | 0 <= i < |es| ensures Step(c, t[i], es[i], t[i + 1]) {
      if i > 0 { assert Step(c, trace[i - 1], events[i - 1], trace[i]); }
    }
    forall i | 0 <= i < |es| && es[i].Act? && es[i].action.Persist? ensures es[i].action.paths == list(t[i].completed) {
      if i > 0 { assert es[i] == events[i - 1] && t[i] == trace[i - 1]; }
    }
  }

  lemma Prepend(c: Config, s: State, a: Action, trace: seq<State>, events: seq<Event>, list: set<string> -> seq<string>)
    returns (trace': seq<State>, events': seq<Event>)
    requires Run(c, trace, events) && Step(c, s, Act(a), trace[0]) && ListsBy(trace, events, list)
    requires a.Persist? ==> a.paths == list(s.completed)
    ensures Run(c, trace', events') && ListsBy(trace', events', list)
    ensures trace'[0] == s && trace'[|events'|] == trace[|events|]
  {
    RunCons(c, s, Act(a), trace, events, list);
    trace', events' := [s] + trace, [Act(a)] + events;
  }

  lemma LiveStep(c: Config, o: Origin, s: State, a: Action, paths: seq<string>)
    requires ValidConfig(c) && Inv(c, o, s) && s.ctx.Live? && Enabled(c, s, a) && Undisturbed(s, a, paths)
    ensures Do(c, s, a).ctx.Live?
    ensures Do(c, s, a).main.Returned? ==> Do(c, s, a).main == Returned(Success)
  {
  }

  lemma LiveMove(c: Config, o: Origin, s: State, paths: seq<string>) returns (a: Action, t: State)
    requires ValidConfig(c) && Inv(c, o, s) && s.ctx.Live? && !s.main.Returned?
    requires Distinct(paths) && (set p | p in paths) == s.completed
    ensures Step(c, s, Act(a), t) && Inv(c, o, t) && Fuel(c, t) < Fuel(c, s)
    ensures t.ctx.Live? && (t.main.Returned? ==> t.main == Returned(Success))
    ensures a.Persist? ==> a.paths == paths
  {
    a := NoDeadlock(c, o, s, paths);
    LiveStep(c, o, s, a, paths);
    StepKeepsInv(c, o, s, a);
    StepBurnsFuel(c, s, a);
    t := Do(c, s, a);
  }

  /** From every reachable state that has seen no failure some run without failures ends in success. */
  lemma {:induction false} SuccessIsReachable(c: Config, o: Origin, s: State, list: set<string> -> seq<string>)
    returns (trace: seq<State>, events: seq<Event>)
    requires ValidConfig(c) && Inv(c, o, s) && s.ctx.Live? && Listing(list)
    requires s.main.Returned? ==> s.main == Returned(Success)
    ensures Run(c, trace, events) && ListsBy(trace, events, list) && trace[0] == s
    ensures var t := trace[|events|]; t.main == Returned(Success) && Inv(c, o, t)
    decreases Fuel(c, s)
  {
    if s.main.Returned? {
      trace, events := [s], [];
    } else {
      var a, t := LiveMove(c, o, s, list(s.completed));
      trace, events := SuccessIsReachable(c, o, t, list);
      trace, events := Prepend(c, s, a, trace, events, list);
    }
  }

  /** So every attempt on a tree that is what its entries say can succeed, whatever it finds on disk. */
  lemma EveryAttemptCanSucceed(c: Config, disk: Option<string>, recent: bool, list: set<string> -> seq<string>)
    returns (trace: seq<State>, events: seq<Event>)
    requires ValidConfig(c) && Listing(list)
    ensures Run(c, trace, events) && ListsBy(trace, events, list) && trace[0] == Start(c, c.orig, disk, recent)
    ensures trace[|events|].main == Returned(Success)
  {
    VisitedExist(c);
    StartEstablishesInv(c, c.orig, disk, recent);
    var s := Start(c, c.orig, disk, recent);
    trace, events := SuccessIsReachable(c, Origin(s.completed, c.orig), s, list);
  }

  /** The hidden-root case is real: a staging directory with such a name is changed by the parallel walk and
      left alone by the sequential one. */
  lemma HiddenRootDiffers(list: set<string> -> seq<string>) returns (c: Config, trace: seq<State>, events: seq<Event>)
    requires Listing(list)
    ensures ValidConfig(c) && c.root.rel == "." && Run(c, trace, events) && trace[0] == Start(c, c.orig, None, true)
    ensures var t := trace[|events|];
            t.main == Returned(Success) && t.fs != c.orig && SequentialChown([c.root], c.orig, c.gid) == c.orig
  {
    var root := Entry(".", ".csi-powerscale-chown-state", true, []);
    c := Config(root, map["." := Meta(0, {MODE_DIR})], 5, "5,m2", 1, 1);
    assert HeaderText(c.marker) by { assert forall k :: 0 <= k < 4 ==> !IsSpace("5,m2"[k]); }
    trace, events := EveryAttemptCanSucceed(c, None, true, list);
    assert Initial(c, trace[0]);
    RunKeepsInv(c, trace, events, |events|);
    assert IsDone(c, trace[|events|].fs, ".");
    SequentialChownsVisited([root], c.orig, c.gid);
    assert Paths([root]) == {};
    assert Chowned(c.orig, {}, c.gid) == c.orig;
  }
}
