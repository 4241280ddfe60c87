/** How a name with a newline loses another path: a history in which one attempt records the file and is cut
    off by its deadline before the other path is changed, and the next attempt skips that path and reports
    success (service/node.go). */
module ChownLostPath {
  import opened Strings
  import opened ChownTree
  import opened ResumeFile
  import opened ResumePieces
  import opened ChownPipeline
  import opened ChownTheorems
  import opened ChownNames

  // ---- how often a path is still to come ----

  function Occurrences(es: seq<Entry>, q: string): nat {
    if es == [] then 0
    else (if Hidden(es[0]) then 0 else (if es[0].rel == q then 1 else 0) + Occurrences(es[0].children, q))
         + Occurrences(es[1..], q)
  }

  lemma {:induction false} OccurrencesAppend(a: seq<Entry>, b: seq<Entry>, q: string)
    ensures Occurrences(a + b, q) == Occurrences(a, q) + Occurrences(b, q)
  {
    if a == [] {
      assert a + b == b;
    } else {
      assert (a + b)[1..] == a[1..] + b;
      OccurrencesAppend(a[1..], b, q);
    }
  }

  function JobHits(jobs: seq<Job>, q: string): nat {
    if jobs == [] then 0 else (if jobs[0].rel == q then 1 else 0) + JobHits(jobs[1..], q)
  }

  lemma {:induction false} JobHitsSnoc(jobs: seq<Job>, j: Job, q: string)
    ensures JobHits(jobs + [j], q) == JobHits(jobs, q) + if j.rel == q then 1 else 0
  {
    if jobs == [] {
      assert [j][1..] == [] && jobs + [j] == [j];
    } else {
      assert (jobs + [j])[1..] == jobs[1..] + [j];
      JobHitsSnoc(jobs[1..], j, q);
    }
  }

  function WalkerHits(c: Config, w: Walker, q: string): nat {
    match w
    case AtRoot => Occurrences(c.root.children, q)
    case Walking(stack) => Occurrences(stack, q)
    case Sending(job, stack) => (if job.rel == q then 1 else 0) + Occurrences(stack, q)
    case WalkEnded => 0
  }

  /** In how many places `q` still is: with the walker, in the queue or with the worker that holds it back. */
  function Places(c: Config, s: State, q: string): nat
    requires s.workers != []
  {
    WalkerHits(c, s.walker, q) + JobHits(s.jobs, q) + if s.workers[0].Checking? then 1 else 0
  }

  // ---- the first attempt: worker 0 holds `q` back, worker 1 does the rest ----

  /** `f` has been recorded, or is on its way there through worker 1. */
  ghost predicate OnItsWay(c: Config, o: Origin, s: State, f: string)
    requires |s.workers| >= 2
  {
    || f in s.completed || f in s.records || s.workers[1] == Recording(f) || Holds(s.workers[1], f)
    || (exists i :: 0 <= i < |s.jobs| && s.jobs[i].rel == f) || f in WalkerPaths(c, o, s.walker)
  }

  ghost predicate DiskNames(c: Config, s: State, q: string) {
    s.disk.Some? && q in Load(s.disk.value, c.marker, true)
  }

  /** The state file names `q`, or the writer is about to make it do so. */
  ghost predicate WillName(c: Config, s: State, q: string) {
    DiskNames(c, s, q) || (s.writer.Receiving? && s.pending > 0) || s.writer.Persisting? || s.writer.Flushing?
  }

  /** A file and another path, which the walk meets once. */
  ghost predicate Collides(c: Config, f: string, q: string) {
    && f in Paths(c.root.children) && f in c.orig && !IsDir(c.orig[f].mode)
    && q in Paths(c.root.children) && q in c.orig && Occurrences(c.root.children, q) == 1
    && q != f && q != "." && f != "."
  }

  /** Every state file that lists `f` is read as listing `q`. */
  ghost predicate ReadAs(c: Config, f: string, q: string, list: set<string> -> seq<string>) {
    forall ps :: f in ps && ps <= Visited(c) ==> q in Load(Render("now", c.marker, list(ps)), c.marker, true)
  }

  /** So it is when `q` is a line of `f` that does not end in white space, whatever the order. */
  lemma LineIsReadAs(c: Config, f: string, q: string, list: set<string> -> seq<string>)
    requires HeaderText(c.marker) && Listing(list) && q in Split(f, NEWLINE) && q != "" && !EndsInSpace(q)
    ensures ReadAs(c, f, q, list)
  {
    NowIsHeader();
    forall ps | f in ps && ps <= Visited(c) ensures q in Load(Render("now", c.marker, list(ps)), c.marker, true) {
      assert f in set p | p in list(ps);
      PlainLineIsRead("now", c.marker, list(ps), f, q);
    }
  }

  /** And when `q` is a one-line `f` without its trailing white space and `f` is listed last. */
  lemma TrimmedIsReadAs(c: Config, f: string, q: string, list: set<string> -> seq<string>)
    requires HeaderText(c.marker) && q == TrimRight(f) && q != "" && '\n' !in f
    requires forall ps :: f in ps && ps <= Visited(c) ==> list(ps) != [] && list(ps)[|list(ps)| - 1] == f
    ensures ReadAs(c, f, q, list)
  {
    NowIsHeader();
    forall ps | f in ps && ps <= Visited(c) ensures q in Load(Render("now", c.marker, list(ps)), c.marker, true) {
      LastIsTrimmed("now", c.marker, list(ps), f);
    }
  }

  lemma NowIsHeader()
    ensures HeaderText("now")
  {
    assert forall k :: 0 <= k < 3 ==> !IsSpace("now"[k]);
  }

  ghost predicate Pool(s: State, q: string) {
    && |s.workers| >= 2
    && (s.workers[0].Idle? || (s.workers[0].Checking? && s.workers[0].job.rel == q))
    && !Holds(s.workers[1], q) && !s.workers[1].Exited?
    && (forall w :: 2 <= w < |s.workers| ==> s.workers[w].Idle?)
  }

  ghost predicate HeldBack(c: Config, s: State, f: string, q: string) {
    && Inv(c, Origin({}, c.orig), s) && s.ctx.Live? && s.main.Joining?
    && Pool(s, q) && q in s.fs && s.fs[q] == c.orig[q] && Places(c, s, q) <= 1
    && OnItsWay(c, Origin({}, c.orig), s, f) && (f in s.completed ==> WillName(c, s, q))
  }

  /** The steps this attempt takes. */
  ghost predicate Allowed(s: State, a: Action, q: string, paths: seq<string>) {
    match a
    case WalkRoot(out) => out == Done
    case Visit(infoOk) => infoOk
    case Send => true
    case WalkFinish => true
    case Receive(w) => s.jobs != [] && w == if s.jobs[0].rel == q then 0 else 1
    case Check(w) => w == 1
    case ApplyJob(w, out) => w == 1 && out == Done
    case Record(w) => w == 1
    case Take => true
    case Persist(ok, stamp, ps) => ok && stamp == "now" && ps == paths
    case _ => false
  }

  lemma WriterMoves(c: Config, s: State, q: string, paths: seq<string>) returns (a: Action)
    requires s.main.Joining? && !s.writer.Finished? && (s.writer.Receiving? ==> s.records != [])
    requires Distinct(paths) && (set p | p in paths) == s.completed
    ensures Enabled(c, s, a) && Allowed(s, a, q, paths)
  {
    a := if s.writer.Receiving? then Take else Persist(true, "now", paths);
  }

  lemma WorkerOneMoves(c: Config, s: State, f: string, q: string, paths: seq<string>) returns (a: Action)
    requires ValidConfig(c) && HeldBack(c, s, f, q) && (s.workers[1].Idle? ==> s.jobs != [] && s.jobs[0].rel != q)
    requires Distinct(paths) && (set p | p in paths) == s.completed
    ensures Enabled(c, s, a) && Allowed(s, a, q, paths)
  {
    match s.workers[1]
    case Idle => a := Receive(1);
    case Checking(_) => a := Check(1);
    case Applying(_) =>
      assert WorkerOk(c, Origin({}, c.orig), s.fs, s.workers[1]);
      a := ApplyJob(1, Done);
    case Recording(_) =>
      if |s.records| < c.batch { a := Record(1); }
      else { a := WriterMoves(c, s, q, paths); }
  }

  /** Until `f` is recorded there is always such a step. */
  lemma SomeoneMoves(c: Config, s: State, f: string, q: string, paths: seq<string>) returns (a: Action)
    requires ValidConfig(c) && HeldBack(c, s, f, q) && f !in s.completed && f != q
    requires Distinct(paths) && (set p | p in paths) == s.completed
    ensures Enabled(c, s, a) && Allowed(s, a, q, paths)
  {
    if s.walker.AtRoot? {
      a := WalkRoot(Done);
    } else if s.walker.Walking? && s.walker.stack == [] {
      a := WalkFinish;
    } else if s.walker.Walking? {
      DescribedPathsExist(s.walker.stack, c.orig);
      a := Visit(true);
    } else if s.walker.Sending? && |s.jobs| < JOB_CAPACITY {
      a := Send;
    } else if !s.workers[1].Idle? {
      a := WorkerOneMoves(c, s, f, q, paths);
    } else if s.jobs != [] {
      if s.jobs[0].rel == q {
        assert JobHits(s.jobs, q) >= 1;
        a := Receive(0);
      } else {
        a := Receive(1);
      }
    } else {
      a := WriterMoves(c, s, q, paths);
    }
  }

  lemma VisitHolds(c: Config, s: State, f: string, q: string)
    requires ValidConfig(c) && HeldBack(c, s, f, q) && f !in s.completed && Enabled(c, s, Visit(true))
    ensures HeldBack(c, Do(c, s, Visit(true)), f, q)
  {
    var o := Origin({}, c.orig);
    var e, rest := s.walker.stack[0], s.walker.stack[1..];
    StepKeepsInv(c, o, s, Visit(true));
    VisitSplits(c, o, s);
    OccurrencesAppend(e.children, rest, q);
  }

  lemma WalkerHolds(c: Config, s: State, f: string, q: string, a: Action)
    requires ValidConfig(c) && HeldBack(c, s, f, q) && f !in s.completed && Collides(c, f, q) && Enabled(c, s, a)
    requires a == WalkRoot(Done) || a.Send? || a.WalkFinish?
    ensures HeldBack(c, Do(c, s, a), f, q)
  {
    var o, t := Origin({}, c.orig), Do(c, s, a);
    StepKeepsInv(c, o, s, a);
    if a.Send? {
      JobHitsSnoc(s.jobs, s.walker.job, q);
      assert t.jobs[|s.jobs|] == s.walker.job;
      if i :| 0 <= i < |s.jobs| && s.jobs[i].rel == f { assert t.jobs[i].rel == f; }
    }
  }

  lemma ReceiveHolds(c: Config, s: State, f: string, q: string, w: nat)
    requires ValidConfig(c) && HeldBack(c, s, f, q) && f !in s.completed && f != q && Enabled(c, s, Receive(w))
    requires w == if s.jobs[0].rel == q then 0 else 1
    ensures HeldBack(c, Do(c, s, Receive(w)), f, q)
  {
    var o, t := Origin({}, c.orig), Do(c, s, Receive(w));
    StepKeepsInv(c, o, s, Receive(w));
    if i :| 0 <= i < |s.jobs| && s.jobs[i].rel == f {
      if i == 0 { assert Holds(t.workers[1], f); } else { assert t.jobs[i - 1].rel == f; }
    }
  }

  lemma WorkerHolds(c: Config, s: State, f: string, q: string, a: Action)
    requires ValidConfig(c) && HeldBack(c, s, f, q) && f !in s.completed && Collides(c, f, q) && Enabled(c, s, a)
    requires a == Check(1) || a == ApplyJob(1, Done) || a == Record(1)
    ensures HeldBack(c, Do(c, s, a), f, q)
  {
    var o, t := Origin({}, c.orig), Do(c, s, a);
    StepKeepsInv(c, o, s, a);
    assert WorkerOk(c, o, s.fs, s.workers[1]);
    if a.Record? { assert t.records[|s.records|] == s.workers[1].rel; }
    if f in s.records {
      var i :| 0 <= i < |s.records| && s.records[i] == f;
      assert t.records[i] == f;
    }
    if i :| 0 <= i < |s.jobs| && s.jobs[i].rel == f { assert t.jobs[i].rel == f; }
  }

  lemma WriterHolds(c: Config, s: State, f: string, q: string, a: Action)
    requires ValidConfig(c) && HeldBack(c, s, f, q) && f !in s.completed && Enabled(c, s, a)
    requires a.Take? || a.Persist?
    ensures HeldBack(c, Do(c, s, a), f, q)
  {
    var o, t := Origin({}, c.orig), Do(c, s, a);
    StepKeepsInv(c, o, s, a);
    if a.Take? && f in s.records {
      var i :| 0 <= i < |s.records| && s.records[i] == f;
      if i > 0 { assert t.records[i - 1] == f; }
    }
    if i :| 0 <= i < |s.jobs| && s.jobs[i].rel == f { assert t.jobs[i].rel == f; }
  }

  lemma AllowedHolds(c: Config, s: State, f: string, q: string, a: Action, paths: seq<string>)
    requires ValidConfig(c) && HeldBack(c, s, f, q) && f !in s.completed && Collides(c, f, q)
    requires Enabled(c, s, a) && Allowed(s, a, q, paths)
    ensures HeldBack(c, Do(c, s, a), f, q)
  {
    match a
    case Visit(_) => VisitHolds(c, s, f, q);
    case Receive(w) => ReceiveHolds(c, s, f, q, w);
    case Check(_) => WorkerHolds(c, s, f, q, a);
    case ApplyJob(_, _) => WorkerHolds(c, s, f, q, a);
    case Record(_) => WorkerHolds(c, s, f, q, a);
    case Take => WriterHolds(c, s, f, q, a);
    case Persist(_, _, _) => WriterHolds(c, s, f, q, a);
    case _ => WalkerHolds(c, s, f, q, a);
  }

  // ---- then the deadline passes ----

  ghost predicate Winding(c: Config, s: State, f: string, q: string) {
    && Inv(c, Origin({}, c.orig), s) && !s.ctx.Live? && s.main != Returned(Success)
    && q in s.fs && s.fs[q] == c.orig[q]
    && (forall w :: 0 <= w < |s.workers| && s.workers[w].Applying? ==> s.workers[w].job.rel != q)
    && f in s.completed && WillName(c, s, q)
  }

  lemma WindStep(c: Config, s: State, f: string, q: string, a: Action, paths: seq<string>)
    requires ValidConfig(c) && Collides(c, f, q) && Winding(c, s, f, q) && Enabled(c, s, a) && Undisturbed(s, a, paths)
    requires a.Persist? ==> q in Load(Render("now", c.marker, paths), c.marker, true)
    ensures Winding(c, Do(c, s, a), f, q)
  {
    StepKeepsInv(c, Origin({}, c.orig), s, a);
  }

  lemma WindMove(c: Config, s: State, f: string, q: string, list: set<string> -> seq<string>)
    returns (a: Action, t: State)
    requires ValidConfig(c) && Collides(c, f, q) && Winding(c, s, f, q) && !s.main.Returned?
    requires Listing(list) && ReadAs(c, f, q, list)
    ensures Step(c, s, Act(a), t) && Winding(c, t, f, q) && Fuel(c, t) < Fuel(c, s)
    ensures a.Persist? ==> a.paths == list(s.completed)
  {
    a := NoDeadlock(c, Origin({}, c.orig), s, list(s.completed));
    assert s.completed <= Visited(c);
    WindStep(c, s, f, q, a, list(s.completed));
    StepBurnsFuel(c, s, a);
    t := Do(c, s, a);
  }

  /** Runs of this kind leave `q` alone. */
  lemma {:induction false} WindDown(c: Config, s: State, f: string, q: string, list: set<string> -> seq<string>)
    returns (trace: seq<State>, events: seq<Event>)
    requires ValidConfig(c) && Collides(c, f, q) && Winding(c, s, f, q) && Listing(list) && ReadAs(c, f, q, list)
    ensures Run(c, trace, events) && ListsBy(trace, events, list) && trace[0] == s
    ensures var t := trace[|events|]; Winding(c, t, f, q) && t.main.Returned?
    decreases Fuel(c, s)
  {
    if s.main.Returned? {
      trace, events := [s], [];
    } else {
      var a, t := WindMove(c, s, f, q, list);
      trace, events := WindDown(c, t, f, q, list);
      trace, events := Prepend(c, s, a, trace, events, list);
    }
  }

  lemma DeadlinePasses(c: Config, s: State, f: string, q: string)
    requires ValidConfig(c) && HeldBack(c, s, f, q) && f in s.completed
    ensures Enabled(c, s, Timeout) && Winding(c, Do(c, s, Timeout), f, q)
  {
    StepKeepsInv(c, Origin({}, c.orig), s, Timeout);
  }

  /** From the held-back state to a returned attempt whose state file names `q`, which is still unchanged. */
  lemma {:induction false} FirstAttempt(c: Config, s: State, f: string, q: string, list: set<string> -> seq<string>)
    returns (trace: seq<State>, events: seq<Event>)
    requires ValidConfig(c) && Collides(c, f, q) && HeldBack(c, s, f, q) && Listing(list) && ReadAs(c, f, q, list)
    ensures Run(c, trace, events) && ListsBy(trace, events, list) && trace[0] == s
    ensures var t := trace[|events|]; Winding(c, t, f, q) && t.main.Returned?
    decreases Fuel(c, s)
  {
    var a;
    if f in s.completed {
      DeadlinePasses(c, s, f, q);
      a := Timeout;
      trace, events := WindDown(c, Do(c, s, Timeout), f, q, list);
    } else {
      a := SomeoneMoves(c, s, f, q, list(s.completed));
      AllowedHolds(c, s, f, q, a, list(s.completed));
      StepBurnsFuel(c, s, a);
      trace, events := FirstAttempt(c, Do(c, s, a), f, q, list);
    }
    RunCons(c, s, Act(a), trace, events, list);
    trace, events := [s] + trace, [Act(a)] + events;
  }

  // ---- the whole history ----

  lemma StartIsHeldBack(c: Config, f: string, q: string)
    requires ValidConfig(c) && c.workers >= 2 && Collides(c, f, q)
    ensures HeldBack(c, Start(c, c.orig, None, true), f, q)
  {
    VisitedExist(c);
    StartEstablishesInv(c, c.orig, None, true);
    ReachedWithin(c.root.children, {});
  }

  lemma RunConcat(c: Config, t1: seq<State>, e1: seq<Event>, t2: seq<State>, e2: seq<Event>,
                  list: set<string> -> seq<string>)
    requires Run(c, t1, e1) && Run(c, t2, e2) && t1[|e1|] == t2[0] && ListsBy(t1, e1, list) && ListsBy(t2, e2, list)
    ensures Run(c, t1 + t2[1..], e1 + e2) && ListsBy(t1 + t2[1..], e1 + e2, list)
  {
    var t, e := t1 + t2[1..], e1 + e2;
    forall i | 0 <= i < |e| ensures Step(c, t[i], e[i], t[i + 1]) {
      if i < |e1| {
        assert Step(c, t1[i], e1[i], t1[i + 1]);
      } else {
        assert Step(c, t2[i - |e1|], e2[i - |e1|], t2[i - |e1| + 1]);
      }
    }
    forall i | 0 <= i < |e| && e[i].Act? && e[i].action.Persist? ensures e[i].action.paths == list(t[i].completed) {
      if i >= |e1| { assert e[i] == e2[i - |e1|] && t[i] == t2[i - |e1|]; }
    }
  }

  /** The second attempt reads `q` as done, skips it and succeeds. */
  lemma SecondAttempt(c: Config, s: State, f: string, q: string, list: set<string> -> seq<string>)
    returns (trace: seq<State>, events: seq<Event>)
    requires ValidConfig(c) && Collides(c, f, q) && Winding(c, s, f, q) && s.main.Returned? && Listing(list)
    ensures Run(c, trace, events) && ListsBy(trace, events, list) && trace[0] == s
    ensures var t := trace[|events|]; t.main == Returned(Success) && q in t.fs && t.fs[q] == c.orig[q]
  {
    var r := Start(c, s.fs, s.disk, true);
    assert DiskNames(c, s, q);
    StartEstablishesInv(c, s.fs, s.disk, true);
    trace, events := SuccessIsReachable(c, Origin(r.completed, s.fs), r, list);
    ReachedWithin(c.root.children, r.completed);
    assert q !in Wanted(c, r.completed);
    RunCons(c, s, Restart(true), trace, events, list);
    trace, events := [s] + trace, [Restart(true)] + events;
  }

  /** Unsafe names lose paths: if recording one file is read as recording another path that the walk meets,
      then with two workers there is a history, starting without a state file, that ends in success with that
      path as it was. */
  lemma CollidingNameLosesPath(c: Config, f: string, q: string, list: set<string> -> seq<string>)
    returns (trace: seq<State>, events: seq<Event>)
    requires ValidConfig(c) && c.workers >= 2 && Collides(c, f, q) && Listing(list) && ReadAs(c, f, q, list)
    ensures Run(c, trace, events) && ListsBy(trace, events, list) && trace[0] == Start(c, c.orig, None, true)
    ensures var t := trace[|events|]; t.main == Returned(Success) && q in t.fs && t.fs[q] == c.orig[q]
  {
    var s := Start(c, c.orig, None, true);
    StartIsHeldBack(c, f, q);
    var t1, e1 := FirstAttempt(c, s, f, q, list);
    var t2, e2 := SecondAttempt(c, t1[|e1|], f, q, list);
    RunConcat(c, t1, e1, t2, e2, list);
    trace, events := t1 + t2[1..], e1 + e2;
    assert trace[|events|] == t2[|e2|];
  }

  // ---- names decide ----

  ghost predicate AlwaysRefines(c: Config) {
    forall trace: seq<State>, events: seq<Event>, i: nat ::
      Run(c, trace, events) && Initial(c, trace[0]) && DiskTraced(c, c.orig, trace[0].disk)
      && i < |trace| && trace[i].main == Returned(Success)
      ==> trace[i].fs == Chowned(c.orig, Visited(c), c.gid)
  }

  /** A tree in which every path is met once and has something to change. */
  ghost predicate ProperTree(c: Config) {
    forall q :: q in Paths(c.root.children) ==>
      && q != "" && q != "." && Occurrences(c.root.children, q) == 1
      && q in c.orig && c.orig[q] != Target(c.orig[q], c.gid)
  }

  /** No line of a file's name ends in white space. */
  ghost predicate TrimmedLinesOnly(c: Config) {
    forall f, t :: IsFile(c, f) && t in Split(f, NEWLINE) ==> !EndsInSpace(t)
  }

  lemma UnsafeMeansCollision(c: Config) returns (f: string, q: string)
    requires ProperTree(c) && TrimmedLinesOnly(c) && !SafeNames(c)
    ensures Collides(c, f, q) && q in Split(f, NEWLINE) && q != "" && !EndsInSpace(q)
  {
    f, q :| IsFile(c, f) && q in Paths(c.root.children) && Piece(q, f) && q != f;
    PieceIsLine(q, f);
    LineOfOneLine(".");
  }

  lemma PieceIsLine(q: string, f: string)
    requires Piece(q, f) && q != f && forall t :: t in Split(f, NEWLINE) ==> !EndsInSpace(t)
    ensures q in Split(f, NEWLINE) && q != "" && !EndsInSpace(q)
  {
    var t :| t in Split(f, NEWLINE) && (q == t || q == TrimRight(t));
    assert TrimRight(t) == t;
  }

  lemma LineOfOneLine(name: string)
    requires '\n' !in name
    ensures Split(name, NEWLINE) == [name]
  {
    SealedByOneChar(name, '\n');
  }

  lemma SafeMeansRefines(c: Config)
    requires ValidConfig(c) && c.root.rel == "." && SafeNames(c)
    ensures AlwaysRefines(c)
  {
    forall trace: seq<State>, events: seq<Event>, i: nat
      | Run(c, trace, events) && Initial(c, trace[0]) && DiskTraced(c, c.orig, trace[0].disk)
        && i < |trace| && trace[i].main == Returned(Success)
      ensures trace[i].fs == Chowned(c.orig, Visited(c), c.gid)
    {
      SafeNamesRefine(c, trace, events, i);
    }
  }

  lemma LostMeansNotRefined(c: Config, q: string, trace: seq<State>, events: seq<Event>)
    requires q in Visited(c) && q in c.orig && c.orig[q] != Target(c.orig[q], c.gid)
    requires Run(c, trace, events) && trace[0] == Start(c, c.orig, None, true)
    requires trace[|events|].main == Returned(Success) && q in trace[|events|].fs && trace[|events|].fs[q] == c.orig[q]
    ensures !AlwaysRefines(c)
  {
    assert Initial(c, trace[0]);
    assert Chowned(c.orig, Visited(c), c.gid)[q] == Target(c.orig[q], c.gid);
  }

  /** With two workers or more, resumed attempts always end as the sequential walk does if and only if no
      file's name, cut at newlines, names another path. */
  lemma NamesDecide(c: Config)
    requires ValidConfig(c) && c.root.rel == "." && c.workers >= 2 && ProperTree(c) && TrimmedLinesOnly(c)
    ensures AlwaysRefines(c) <==> SafeNames(c)
  {
    if SafeNames(c) {
      SafeMeansRefines(c);
    } else {
      var f, q := UnsafeMeansCollision(c);
      var list := ps => ListOf(ps);
      LineIsReadAs(c, f, q, list);
      var trace, events := CollidingNameLosesPath(c, f, q, list);
      LostMeansNotRefined(c, q, trace, events);
    }
  }

  /** The smallest trees to lose a path: two files, one of them called "a". */
  function TwoFiles(f: string): Config {
    Config(Entry(".", "volume", true, [Entry("a", "a", false, []), Entry(f, f, false, [])]),
           map["." := Meta(0, {MODE_DIR}), "a" := Meta(0, {}), f := Meta(0, {})], 5, "5,m2", 1, 2)
  }

  /** The history ends in success with the file "a" never changed. */
  ghost predicate LosesA(f: string, trace: seq<State>, events: seq<Event>) {
    var c := TwoFiles(f);
    && Run(c, trace, events) && trace[0] == Start(c, c.orig, None, true)
    && var t := trace[|events|];
    && t.main == Returned(Success) && "a" in t.fs && t.fs["a"] == c.orig["a"] && t.fs["a"] != Target(c.orig["a"], c.gid)
  }

  lemma TwoFilesCollide(f: string)
    requires |f| > 1 && f[0] == 'a'
    ensures ValidConfig(TwoFiles(f)) && Collides(TwoFiles(f), f, "a")
    ensures Visited(TwoFiles(f)) == {".", "a", f}
  {
    var c := TwoFiles(f);
    assert HeaderText(c.marker) by { assert forall k :: 0 <= k < 4 ==> !IsSpace("5,m2"[k]); }
    TwoLeaves(c.root.children[0], c.root.children[1], c.orig);
  }

  lemma TwoLeaves(x: Entry, y: Entry, fs: FileSystem)
    requires x.children == [] && y.children == [] && !x.isDir && !y.isDir && !Hidden(x) && !Hidden(y) && x.rel != y.rel
    requires x.rel in fs && y.rel in fs && !IsDir(fs[x.rel].mode) && !IsDir(fs[y.rel].mode)
    ensures Describes([x, y], fs) && Paths([x, y]) == {x.rel, y.rel} && Occurrences([x, y], x.rel) == 1
  {
    assert [x, y][1..] == [y] && [y][1..] == [];
    assert Occurrences([y], x.rel) == 0 && Paths([y]) == {y.rel} && Describes([y], fs);
  }

  lemma TwoLines(a: string, b: string)
    requires '\n' !in a
    ensures a in Split(a + NEWLINE + b, NEWLINE)
  {
    SplitFirst(a, '\n', b);
    assert ([a] + Split(b, NEWLINE))[0] == a;
  }

  /** A name with a newline in it does it in whatever order names are listed. */
  lemma NewlineNameLosesPath(list: set<string> -> seq<string>) returns (trace: seq<State>, events: seq<Event>)
    requires Listing(list)
    ensures LosesA("a\nb", trace, events)
  {
    var f := "a\nb";
    TwoFilesCollide(f);
    TwoLines("a", "b");
    assert "a" + NEWLINE + "b" == f;
    assert !IsSpace('a');
    LineIsReadAs(TwoFiles(f), f, "a", list);
    trace, events := CollidingNameLosesPath(TwoFiles(f), f, "a", list);
  }

  /** A name that ends in white space does it when it is listed last, as in sorted order. */
  lemma TrailingSpaceLosesPath(list: set<string> -> seq<string>) returns (trace: seq<State>, events: seq<Event>)
    requires Listing(list)
    requires forall ps :: "a " in ps && ps <= {".", "a", "a "} ==> list(ps) != [] && list(ps)[|list(ps)| - 1] == "a "
    ensures LosesA("a ", trace, events)
  {
    var f := "a ";
    TwoFilesCollide(f);
    assert IsSpace(' ') && !IsSpace('a') && f[..1] == "a";
    TrimmedIsReadAs(TwoFiles(f), f, "a", list);
    trace, events := CollidingNameLosesPath(TwoFiles(f), f, "a", list);
  }
}
