/** The directory tree, the permission change applied to one path, and the sequential ownership change
    that serves as the reference (service/node.go). */
module ChownTree {
  import opened Strings

  /** Go's `os.FileMode`, as the set of its one bits. */
  type Mode = set<nat>
  const MODE_DIR := 31
  const MODE_SYMLINK := 27
  const MODE_SETGID := 22
  const GROUP_RW: Mode := {8, 7, 5, 4}        // 0o660
  const SEARCH: Mode := {6, 3}                // 0o110
  const STATE_FILE_PREFIX := ".csi-powerscale-chown-state"

  datatype Meta = Meta(group: int, mode: Mode)
  type FileSystem = map<string, Meta>

  /** One directory entry; `rel` is its path relative to the staging path. */
  datatype Entry = Entry(rel: string, name: string, isDir: bool, children: seq<Entry>)

  predicate IsDir(mode: Mode) { MODE_DIR in mode }
  predicate IsSymlink(mode: Mode) { MODE_SYMLINK in mode }

  function Mask(mode: Mode): Mode {
    if IsDir(mode) then GROUP_RW + SEARCH + {MODE_SETGID} else GROUP_RW
  }

  /** How one permission change may end: `ChmodFailed` leaves the new group with the old mode. */
  datatype Outcome = Done | LchownFailed | ChmodFailed

  /** applyFSGroupPermissions: change the group, then, unless it is a symbolic link, widen the mode that
      the caller looked up earlier. */
  function ApplyPermissions(meta: Meta, gid: int, mode: Mode, out: Outcome): Meta {
    match out
    case LchownFailed => meta
    case ChmodFailed => meta.(group := gid)
    case Done => if IsSymlink(mode) then meta.(group := gid) else Meta(gid, mode + Mask(mode))
  }

  /** What one successful change makes of a path. */
  function Target(orig: Meta, gid: int): Meta {
    ApplyPermissions(orig, gid, orig.mode, Done)
  }

  /** What a finished path looks like, its bits written out: the group is `gid`; a symbolic link (bit 27) keeps
      its mode, a directory (bit 31) gains 0770 and setgid (bit 22), anything else gains 0660. */
  ghost predicate FinalMeta(meta: Meta, orig: Meta, gid: int) {
    && meta.group == gid
    && (27 in orig.mode ==> meta.mode == orig.mode)
    && (27 !in orig.mode && 31 in orig.mode ==> meta.mode == orig.mode + {8, 7, 6, 5, 4, 3, 22})
    && (27 !in orig.mode && 31 !in orig.mode ==> meta.mode == orig.mode + {8, 7, 5, 4})
  }

  /** One change, however it ends: a failed Lchown leaves everything, a failed Chmod the mode. */
  lemma ChangeWrittenOut(meta: Meta, gid: int)
    ensures FinalMeta(ApplyPermissions(meta, gid, meta.mode, Done), meta, gid)
    ensures FinalMeta(Target(meta, gid), meta, gid)
    ensures ApplyPermissions(meta, gid, meta.mode, LchownFailed) == meta
    ensures ApplyPermissions(meta, gid, meta.mode, ChmodFailed) == Meta(gid, meta.mode)
  {
    assert GROUP_RW + SEARCH + {MODE_SETGID} == {8, 7, 6, 5, 4, 3, 22};
  }

  /** A state that interrupted attempts may leave: the group and the mode are each old or final. */
  predicate Partial(meta: Meta, orig: Meta, gid: int) {
    (meta.group == orig.group || meta.group == gid) && (meta.mode == orig.mode || meta.mode == Target(orig, gid).mode)
  }

  lemma MaskIsIdempotent(m: Mode)
    ensures (m + Mask(m)) + Mask(m) == m + Mask(m)
    ensures IsDir(m + Mask(m)) == IsDir(m) && IsSymlink(m + Mask(m)) == IsSymlink(m)
  {
  }

  /** Finishing from any partial state, with a mode read in any partial state, gives the final state. */
  lemma FinishesFromPartial(meta: Meta, orig: Meta, gid: int, mode: Mode)
    requires Partial(meta, orig, gid) && (mode == orig.mode || mode == Target(orig, gid).mode)
    ensures ApplyPermissions(meta, gid, mode, Done) == Target(orig, gid)
    ensures FinalMeta(ApplyPermissions(meta, gid, mode, Done), orig, gid)
    ensures IsDir(mode) == IsDir(orig.mode)
  {
    MaskIsIdempotent(orig.mode);
    ChangeWrittenOut(orig, gid);
  }

  lemma StaysPartial(meta: Meta, orig: Meta, gid: int, mode: Mode, out: Outcome)
    requires Partial(meta, orig, gid) && (mode == orig.mode || mode == Target(orig, gid).mode)
    ensures Partial(ApplyPermissions(meta, gid, mode, out), orig, gid)
    ensures meta == Target(orig, gid) ==> ApplyPermissions(meta, gid, mode, out) == meta
  {
    MaskIsIdempotent(orig.mode);
  }

  // ---- walking ----

  /** State files and their temporaries are never touched, nor is anything below such a directory. */
  predicate Hidden(e: Entry) { HasPrefix(e.name, STATE_FILE_PREFIX) }

  /** The paths a full walk visits. */
  function Paths(es: seq<Entry>): set<string> {
    if es == [] then {}
    else (if Hidden(es[0]) then {} else {es[0].rel} + Paths(es[0].children)) + Paths(es[1..])
  }

  function Size(es: seq<Entry>): nat {
    if es == [] then 0 else 1 + Size(es[0].children) + Size(es[1..])
  }

  /** The tree agrees with the file system: visited paths exist, directories are what they claim and only
      directories have entries. */
  ghost predicate Describes(es: seq<Entry>, fs: FileSystem) {
    es == [] || (
      && (!Hidden(es[0]) ==>
            && es[0].rel in fs && es[0].isDir == IsDir(fs[es[0].rel].mode)
            && (es[0].isDir || es[0].children == [])
            && Describes(es[0].children, fs))
      && Describes(es[1..], fs))
  }

  lemma {:induction false} PathsAppend(a: seq<Entry>, b: seq<Entry>)
    ensures Paths(a + b) == Paths(a) + Paths(b)
  {
    if a == [] {
      assert a + b == b;
    } else {
      assert (a + b)[1..] == a[1..] + b;
      PathsAppend(a[1..], b);
    }
  }

  lemma {:induction false} SizeAppend(a: seq<Entry>, b: seq<Entry>)
    ensures Size(a + b) == Size(a) + Size(b)
  {
    if a == [] {
      assert a + b == b;
    } else {
      assert (a + b)[1..] == a[1..] + b;
      SizeAppend(a[1..], b);
    }
  }

  lemma {:induction false} DescribesAppend(a: seq<Entry>, b: seq<Entry>, fs: FileSystem)
    ensures Describes(a + b, fs) <==> Describes(a, fs) && Describes(b, fs)
  {
    if a == [] {
      assert a + b == b;
    } else {
      assert (a + b)[1..] == a[1..] + b;
      DescribesAppend(a[1..], b, fs);
    }
  }

  lemma {:induction false} DescribedPathsExist(es: seq<Entry>, fs: FileSystem)
    requires Describes(es, fs)
    ensures Paths(es) <= fs.Keys
  {
    if es != [] {
      DescribedPathsExist(es[1..], fs);
      if !Hidden(es[0]) { DescribedPathsExist(es[0].children, fs); }
    }
  }

  // ---- walking with a set of paths to skip ----

  /** The paths a walk visits when it skips those of `done`, with all that is below them. */
  function Reached(es: seq<Entry>, done: set<string>): set<string> {
    if es == [] then {}
    else (if Hidden(es[0]) || es[0].rel in done then {} else {es[0].rel} + Reached(es[0].children, done))
         + Reached(es[1..], done)
  }

  lemma {:induction false} ReachedAppend(a: seq<Entry>, b: seq<Entry>, done: set<string>)
    ensures Reached(a + b, done) == Reached(a, done) + Reached(b, done)
  {
    if a == [] {
      assert a + b == b;
    } else {
      assert (a + b)[1..] == a[1..] + b;
      ReachedAppend(a[1..], b, done);
    }
  }

  lemma {:induction false} ReachedWithin(es: seq<Entry>, done: set<string>)
    ensures Reached(es, done) <= Paths(es) && Reached(es, done) !! done
    ensures done !! Paths(es) ==> Reached(es, done) == Paths(es)
  {
    if es != [] {
      ReachedWithin(es[1..], done);
      ReachedWithin(es[0].children, done);
    }
  }

  /** As long as only files are skipped, nothing else is missed. */
  lemma {:induction false} OnlySkippedMissed(es: seq<Entry>, done: set<string>, fs: FileSystem)
    requires Describes(es, fs)
    requires forall p :: p in done && p in Paths(es) ==> p in fs && !IsDir(fs[p].mode)
    ensures Paths(es) <= Reached(es, done) + done
  {
    if es != [] {
      OnlySkippedMissed(es[1..], done, fs);
      if !Hidden(es[0]) { OnlySkippedMissed(es[0].children, done, fs); }
    }
  }

  // ---- the sequential reference ----

  /** The walk of applySequentialFSGroupChown when nothing fails, entries still to visit on a stack. */
  function SequentialChown(stack: seq<Entry>, fs: FileSystem, gid: int): (r: FileSystem)
    decreases Size(stack)
  {
    if stack == [] then fs
    else
      SizeAppend(stack[0].children, stack[1..]);
      var e := stack[0];
      if Hidden(e) then SequentialChown(stack[1..], fs, gid)
      else SequentialChown(e.children + stack[1..],
                           if e.rel in fs then fs[e.rel := Target(fs[e.rel], gid)] else fs, gid)
  }

  /** Every visited path gets its final group and mode; every other path is left alone. */
  function Chowned(fs: FileSystem, paths: set<string>, gid: int): FileSystem {
    map p | p in fs :: if p in paths then Target(fs[p], gid) else fs[p]
  }

  lemma TargetIsIdempotent(orig: Meta, gid: int)
    ensures Target(Target(orig, gid), gid) == Target(orig, gid)
  {
    MaskIsIdempotent(orig.mode);
  }

  /** The order of the walk does not matter: the result is the pointwise change of the visited paths. */
  lemma {:induction false} SequentialChownsVisited(stack: seq<Entry>, fs: FileSystem, gid: int)
    ensures SequentialChown(stack, fs, gid) == Chowned(fs, Paths(stack), gid)
    decreases Size(stack)
  {
    if stack != [] {
      var e := stack[0];
      SizeAppend(e.children, stack[1..]);
      PathsAppend(e.children, stack[1..]);
      if Hidden(e) {
        SequentialChownsVisited(stack[1..], fs, gid);
      } else {
        var fs' := if e.rel in fs then fs[e.rel := Target(fs[e.rel], gid)] else fs;
        var rest := e.children + stack[1..];
        SequentialChownsVisited(rest, fs', gid);
        if e.rel in fs { TargetIsIdempotent(fs[e.rel], gid); }
        assert Paths(stack) == {e.rel} + Paths(rest);
        assert Chowned(fs', Paths(rest), gid) == Chowned(fs, Paths(stack), gid);
      }
    }
  }

  /** After the sequential walk every visited path is finished and every other path is as it was. */
  lemma SequentialWrittenOut(stack: seq<Entry>, fs: FileSystem, gid: int)
    ensures var r := SequentialChown(stack, fs, gid);
            && r.Keys == fs.Keys
            && (forall p :: p in fs && p in Paths(stack) ==> FinalMeta(r[p], fs[p], gid))
            && (forall p :: p in fs && p !in Paths(stack) ==> r[p] == fs[p])
  {
    SequentialChownsVisited(stack, fs, gid);
    forall p | p in fs && p in Paths(stack) ensures FinalMeta(Chowned(fs, Paths(stack), gid)[p], fs[p], gid) {
      ChangeWrittenOut(fs[p], gid);
    }
  }

  /** The volume mounted at the staging path. */
  class Mount {
    var fs: FileSystem

    constructor (initial: FileSystem)
      ensures fs == initial
    {
      fs := initial;
    }

    /** applySequentialFSGroupChown. `fates[k]` is what happens to the k-th permission change and
        `cancelled[k]` whether the context is done when the k-th entry is visited. */
    method ApplySequentialFSGroupChown(root: Entry, gid: int, fates: nat -> Outcome, cancelled: nat -> bool)
      returns (ok: bool)
      requires Describes([root], fs)
      modifies this
      ensures ok ==> fs == SequentialChown([root], old(fs), gid) == Chowned(old(fs), Paths([root]), gid)
      ensures ok ==> forall p :: p in old(fs) && p in Paths([root]) ==> p in fs && FinalMeta(fs[p], old(fs)[p], gid)
      ensures fs.Keys == old(fs).Keys
      ensures forall p :: p in old(fs) && p !in Paths([root]) ==> fs[p] == old(fs)[p]
      ensures forall p :: p in old(fs) && p in Paths([root]) ==> Partial(fs[p], old(fs)[p], gid)
    {
      var stack, visited := [root], 0;
      ghost var goal := SequentialChown([root], fs, gid);
      SequentialChownsVisited([root], fs, gid);
      SequentialWrittenOut([root], fs, gid);
      while stack != []
        invariant Describes(stack, fs)
        invariant SequentialChown(stack, fs, gid) == goal
        invariant Progress(old(fs), fs, Paths([root]), gid) && Paths(stack) <= Paths([root])
        decreases Size(stack)
      {
        var e := stack[0];
        if cancelled(visited) { return false; }
        WalkStep(stack, fs, gid);
        if Hidden(e) {
          stack := stack[1..];
        } else {
          ghost var before := fs;
          var meta := fs[e.rel];
          var after := ApplyPermissions(meta, gid, meta.mode, fates(visited));
          ProgressStep(old(fs), fs, Paths([root]), gid, e.rel, fates(visited));
          fs := fs[e.rel := after];
          if fates(visited) != Done { return false; }
          stack := e.children + stack[1..];
          DescribesUpdate(stack, before, e.rel, after);
        }
        visited := visited + 1;
      }
      ok := true;
    }
  }

  lemma WalkStep(stack: seq<Entry>, fs: FileSystem, gid: int)
    requires stack != [] && Describes(stack, fs)
    ensures var e, next := stack[0], if Hidden(stack[0]) then stack[1..] else stack[0].children + stack[1..];
            && Size(next) < Size(stack) && Describes(next, fs) && Paths(next) <= Paths(stack)
            && (!Hidden(e) ==> e.rel in fs && e.rel in Paths(stack))
            && SequentialChown(stack, fs, gid)
               == SequentialChown(next, if Hidden(e) then fs else fs[e.rel := Target(fs[e.rel], gid)], gid)
  {
    var e := stack[0];
    SizeAppend(e.children, stack[1..]);
    PathsAppend(e.children, stack[1..]);
    if !Hidden(e) { DescribesAppend(e.children, stack[1..], fs); }
  }

  /** Every path of `ps` is untouched or finished, every other path is untouched. */
  ghost predicate Progress(orig: FileSystem, fs: FileSystem, ps: set<string>, gid: int) {
    && fs.Keys == orig.Keys
    && forall p :: p in orig ==> fs[p] == orig[p] || (p in ps && fs[p] == Target(orig[p], gid))
  }

  lemma ProgressStep(orig: FileSystem, fs: FileSystem, ps: set<string>, gid: int, rel: string, out: Outcome)
    requires Progress(orig, fs, ps, gid) && rel in orig && rel in ps
    ensures var after := ApplyPermissions(fs[rel], gid, fs[rel].mode, out);
            && Partial(after, orig[rel], gid) && IsDir(after.mode) == IsDir(fs[rel].mode)
            && (out == Done ==> after == Target(fs[rel], gid) && Progress(orig, fs[rel := after], ps, gid))
  {
    OneChange(fs[rel], orig[rel], gid, out);
  }

  lemma OneChange(meta: Meta, orig: Meta, gid: int, out: Outcome)
    requires meta == orig || meta == Target(orig, gid)
    ensures Partial(ApplyPermissions(meta, gid, meta.mode, out), orig, gid)
    ensures IsDir(ApplyPermissions(meta, gid, meta.mode, out).mode) == IsDir(meta.mode)
    ensures out == Done ==> ApplyPermissions(meta, gid, meta.mode, out) == Target(meta, gid) == Target(orig, gid)
  {
    MaskIsIdempotent(orig.mode);
  }

  /** Changing permission bits leaves directories directories. */
  lemma {:induction false} DescribesUpdate(es: seq<Entry>, fs: FileSystem, rel: string, meta: Meta)
    requires Describes(es, fs) && rel in fs && IsDir(meta.mode) == IsDir(fs[rel].mode)
    ensures Describes(es, fs[rel := meta])
  {
    if es != [] {
      DescribesUpdate(es[1..], fs, rel, meta);
      if !Hidden(es[0]) { DescribesUpdate(es[0].children, fs, rel, meta); }
    }
  }
}
