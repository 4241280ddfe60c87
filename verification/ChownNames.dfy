/** The state file does not quote the names it lists, so a resumed attempt may skip a path that was never
    changed. Here is when that can happen (service/node.go). */
module ChownNames {
  import opened Strings
  import opened ChownTree
  import opened ResumeFile
  import opened ResumePieces
  import opened ChownPipeline
  import opened ChownTheorems

  // ---- what the state file can say ----

  /** `p` is a piece of the name of a finished file. */
  ghost predicate Traced(c: Config, fs: FileSystem, p: string) {
    exists f :: FileDone(c, fs, f) && Piece(p, f)
  }

  ghost predicate DiskTraced(c: Config, fs: FileSystem, disk: Option<string>) {
    disk.Some? ==> forall p :: p in Load(disk.value, c.marker, true) ==> Traced(c, fs, p)
  }

  ghost predicate AllTraced(c: Config, s: State) {
    DiskTraced(c, s.fs, s.disk) && forall p :: p in s.completed ==> Traced(c, s.fs, p)
  }

  lemma LoadOnlyIfRecent(data: string, marker: string, recent: bool)
    ensures Load(data, marker, recent) <= Load(data, marker, true)
  {
  }

  /** No step undoes a finished file. */
  lemma StepKeepsDone(c: Config, o: Origin, s: State, a: Action, f: string)
    requires ValidConfig(c) && Inv(c, o, s) && Enabled(c, s, a) && FileDone(c, s.fs, f)
    ensures FileDone(c, Do(c, s, a).fs, f)
  {
    WantedIsVisited(c, o.done);
    match a
    case WalkRoot(out) => ChangeKeepsFs(c, s.fs, ".", s.fs["."].mode, out);
    case ApplyJob(w, out) =>
      assert WorkerOk(c, o, s.fs, s.workers[w]);
      ChangeKeepsFs(c, s.fs, s.workers[w].job.rel, s.workers[w].job.mode, out);
    case _ =>
  }

  lemma TracedKept(c: Config, o: Origin, s: State, a: Action, p: string)
    requires ValidConfig(c) && Inv(c, o, s) && Enabled(c, s, a) && Traced(c, s.fs, p)
    ensures Traced(c, Do(c, s, a).fs, p)
  {
    var f :| FileDone(c, s.fs, f) && Piece(p, f);
    StepKeepsDone(c, o, s, a, f);
  }

  /** A file that lists traced paths reads back as traced paths. */
  lemma WrittenIsTraced(c: Config, fs: FileSystem, stamp: string, paths: seq<string>, p: string)
    requires HeaderText(stamp) && HeaderText(c.marker) && p in Load(Render(stamp, c.marker, paths), c.marker, true)
    requires forall k :: 0 <= k < |paths| ==> Traced(c, fs, paths[k])
    ensures Traced(c, fs, p)
  {
    LoadedArePieces(stamp, c.marker, paths, p);
    var k :| 0 <= k < |paths| && Piece(p, paths[k]);
    var f :| FileDone(c, fs, f) && Piece(paths[k], f);
    PieceOfPiece(p, paths[k], f);
  }

  lemma DiskStaysTraced(c: Config, o: Origin, s: State, a: Action)
    requires ValidConfig(c) && Inv(c, o, s) && Enabled(c, s, a) && AllTraced(c, s)
    ensures DiskTraced(c, Do(c, s, a).fs, Do(c, s, a).disk)
  {
    var t := Do(c, s, a);
    if t.disk.Some? {
      forall p | p in Load(t.disk.value, c.marker, true) ensures Traced(c, t.fs, p) {
        if a.Persist? && a.ok {
          forall k | 0 <= k < |a.paths| ensures Traced(c, s.fs, a.paths[k]) {
            assert a.paths[k] in set q | q in a.paths;
          }
          WrittenIsTraced(c, s.fs, a.stamp, a.paths, p);
        } else {
          TracedKept(c, o, s, a, p);
        }
      }
    }
  }

  lemma StepKeepsTraced(c: Config, o: Origin, s: State, a: Action)
    requires ValidConfig(c) && Inv(c, o, s) && Enabled(c, s, a) && AllTraced(c, s)
    ensures AllTraced(c, Do(c, s, a))
  {
    var t := Do(c, s, a);
    DiskStaysTraced(c, o, s, a);
    forall p | p in t.completed ensures Traced(c, t.fs, p) {
      if p in s.completed {
        TracedKept(c, o, s, a, p);
      } else {
        assert FileDone(c, s.fs, s.records[0]) && p == s.records[0];
        assert Piece(p, p);
      }
    }
  }

  lemma StartIsTraced(c: Config, fs: FileSystem, disk: Option<string>, recent: bool)
    requires DiskTraced(c, fs, disk)
    ensures AllTraced(c, Start(c, fs, disk, recent))
  {
    if disk.Some? { LoadOnlyIfRecent(disk.value, c.marker, recent); }
  }

  lemma InitialIsTraced(c: Config, s: State)
    requires Initial(c, s) && DiskTraced(c, c.orig, s.disk)
    ensures AllTraced(c, s)
  {
    var disk, recent :| s == Start(c, c.orig, disk, recent);
    StartIsTraced(c, c.orig, disk, recent);
  }

  lemma EventKeepsTraced(c: Config, o: Origin, s: State, e: Event, t: State)
    requires ValidConfig(c) && Inv(c, o, s) && AllTraced(c, s) && Step(c, s, e, t)
    ensures AllTraced(c, t)
  {
    match e
    case Act(a) => StepKeepsTraced(c, o, s, a);
    case Restart(recent) => StartIsTraced(c, s.fs, s.disk, recent);
  }

  lemma NextIsTraced(c: Config, trace: seq<State>, events: seq<Event>, i: nat)
    requires ValidConfig(c) && Run(c, trace, events) && Initial(c, trace[0]) && i < |events| && AllTraced(c, trace[i])
    ensures AllTraced(c, trace[i + 1])
  {
    RunKeepsInv(c, trace, events, i);
    EventKeepsTraced(c, OriginAt(trace, events, i), trace[i], events[i], trace[i + 1]);
  }

  lemma {:induction false} RunKeepsTraced(c: Config, trace: seq<State>, events: seq<Event>, i: nat)
    requires ValidConfig(c) && Run(c, trace, events) && Initial(c, trace[0]) && i < |trace|
    requires DiskTraced(c, c.orig, trace[0].disk)
    ensures AllTraced(c, trace[i])
  {
    if i == 0 {
      InitialIsTraced(c, trace[0]);
    } else {
      RunKeepsTraced(c, trace, events, i - 1);
      NextIsTraced(c, trace, events, i - 1);
    }
  }

  // ---- sound names ----

  ghost predicate IsFile(c: Config, f: string) { f in Visited(c) && f in c.orig && !IsDir(c.orig[f].mode) }

  /** No file's name, cut at newlines and right-trimmed, names another path of the walk. */
  ghost predicate SafeNames(c: Config) {
    forall f, q :: IsFile(c, f) && q in Paths(c.root.children) && Piece(q, f) ==> q == f
  }

  /** Resume-file soundness: at every moment of every history, each line that a later attempt would read is a
      piece of the name of a finished file; with safe names, each path it would skip is itself a finished
      file. */
  lemma ResumeFileSound(c: Config, trace: seq<State>, events: seq<Event>, i: nat, p: string)
    requires ValidConfig(c) && Run(c, trace, events) && Initial(c, trace[0]) && i < |trace|
    requires DiskTraced(c, c.orig, trace[0].disk)
    requires trace[i].disk.Some? && p in Load(trace[i].disk.value, c.marker, true)
    ensures Traced(c, trace[i].fs, p)
    ensures SafeNames(c) && p in Paths(c.root.children) ==> FileDone(c, trace[i].fs, p)
  {
    RunKeepsTraced(c, trace, events, i);
    SafeTraced(c, trace[i].fs, p);
  }

  lemma SafeTraced(c: Config, fs: FileSystem, p: string)
    requires Traced(c, fs, p)
    ensures SafeNames(c) && p in Paths(c.root.children) ==> FileDone(c, fs, p)
  {
    var f :| FileDone(c, fs, f) && Piece(p, f);
  }

  /** With safe names every history of attempts refines the sequential walk. */
  lemma SafeNamesRefine(c: Config, trace: seq<State>, events: seq<Event>, i: nat)
    requires ValidConfig(c) && c.root.rel == "." && SafeNames(c)
    requires Run(c, trace, events) && Initial(c, trace[0]) && DiskTraced(c, c.orig, trace[0].disk)
    requires i < |trace| && trace[i].main == Returned(Success)
    ensures trace[i].fs == Chowned(c.orig, Visited(c), c.gid)
  {
    var st, o := AttemptStart(events, i), OriginAt(trace, events, i);
    RunKeepsTraced(c, trace, events, st);
    forall p | p in o.done && p in Paths(c.root.children) ensures FileDone(c, o.fs, p) {
      SafeTraced(c, o.fs, p);
    }
    OnlySkippedMissed(c.root.children, o.done, c.orig);
    ParallelRefinesSequential(c, trace, events, i);
  }

  /** Names of one line each that do not end in white space are safe. */
  lemma PlainNamesAreSafe(c: Config)
    requires forall f :: IsFile(c, f) ==> '\n' !in f && !EndsInSpace(f)
    ensures SafeNames(c)
  {
    forall f, q | IsFile(c, f) && q in Paths(c.root.children) && Piece(q, f) ensures q == f {
      SealedByOneChar(f, '\n');
    }
  }
}
