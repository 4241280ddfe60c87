/** The reference-counted lock provider behind the CreateVolume interceptor (service/interceptor). The
    system is written over an arbitrary type `A` of entry addresses, so that the same step functions
    specify the heap objects of `LockProvider` and the interleavings of many calls. */
module Locking {

  /** A refCountedLock: how many open handles refer to it, and whether its TryMutex is taken. */
  datatype Lock = Lock(refCount: int, held: bool)

  /** volIDLocks and the entries it has ever pointed to; evicted entries stay in `heap`. */
  datatype Table<A> = Table(locks: map<string, A>, heap: map<A, Lock>)

  ghost predicate WellFormed<A>(t: Table<A>) {
    forall n :: n in t.locks ==> t.locks[n] in t.heap
  }

  function EntryFor<A>(t: Table<A>, name: string, spare: A): A {
    if name in t.locks then t.locks[name] else spare
  }

  function LockAt<A>(t: Table<A>, a: A): Lock {
    if a in t.heap then t.heap[a] else Lock(0, false)
  }

  /** GetLockWithID; `spare` is the address of the entry allocated when the name has none. */
  function Acquire<A(==)>(t: Table<A>, name: string, spare: A): Table<A> {
    var a := EntryFor(t, name, spare);
    var lock := LockAt(t, a);
    Table(t.locks[name := a], t.heap[a := lock.(refCount := lock.refCount + 1)])
  }

  /** The release function of a handle: the last one out evicts the name. */
  function Release<A(==)>(t: Table<A>, name: string, a: A): Table<A> {
    var left := LockAt(t, a).refCount - 1;
    Table(if left == 0 then t.locks - {name} else t.locks, t.heap[a := LockAt(t, a).(refCount := left)])
  }

  function SetHeld<A(==)>(t: Table<A>, a: A, held: bool): Table<A> {
    t.(heap := t.heap[a := LockAt(t, a).(held := held)])
  }

  class RefCountedLock {
    var refCount: int
    var held: bool

    constructor ()
      ensures refCount == 0 && !held
    {
      refCount, held := 0, false;
    }
  }

  class LockProvider {
    var volIDLocks: map<string, RefCountedLock>
    ghost var entries: set<RefCountedLock>

    ghost predicate Valid()
      reads this
    {
      forall n :: n in volIDLocks ==> volIDLocks[n] in entries
    }

    ghost function View(): Table<RefCountedLock>
      reads this, entries
    {
      Table(volIDLocks, map e | e in entries :: Lock(e.refCount, e.held))
    }

    constructor ()
      ensures Valid() && View() == Table(map[], map[])
    {
      volIDLocks, entries := map[], {};
    }

    /** Both the look-up and the increment happen under volIDLocksL, hence in one step. */
    method GetLockWithID(id: string) returns (handle: LockHandle)
      requires Valid()
      modifies this, entries
      ensures Valid() && fresh(handle) && !handle.closed && handle.id == id
      ensures id in volIDLocks && handle.entry == volIDLocks[id] && handle.entry in entries
      ensures id in old(volIDLocks) ==> handle.entry == old(volIDLocks)[id] && entries == old(entries)
      ensures id !in old(volIDLocks) ==> fresh(handle.entry) && entries == old(entries) + {handle.entry}
      ensures View() == Acquire(old(View()), id, handle.entry)
    {
      var entry: RefCountedLock;
      if id in volIDLocks {
        entry := volIDLocks[id];
      } else {
        entry := new RefCountedLock();
        volIDLocks := volIDLocks[id := entry];
        entries := entries + {entry};
      }
      entry.refCount := entry.refCount + 1;
      handle := new LockHandle(entry, id);
    }

    method TryLock(handle: LockHandle) returns (ok: bool)
      requires Valid() && handle.entry in entries
      modifies handle.entry
      ensures Valid() && ok == !old(handle.entry.held)
      ensures View() == SetHeld(old(View()), handle.entry, true)
    {
      ok := !handle.entry.held;
      handle.entry.held := true;
    }

    method Unlock(handle: LockHandle)
      requires Valid() && handle.entry in entries
      modifies handle.entry
      ensures Valid() && View() == SetHeld(old(View()), handle.entry, false)
    {
      handle.entry.held := false;
    }

    /** sync.Once: only the first Close of a handle releases. */
    method Close(handle: LockHandle)
      requires Valid() && handle.entry in entries
      modifies this, handle, handle.entry
      ensures Valid() && handle.closed && entries == old(entries)
      ensures View() == if old(handle.closed) then old(View()) else Release(old(View()), handle.id, handle.entry)
    {
      if !handle.closed {
        handle.closed := true;
        var entry := handle.entry;
        entry.refCount := entry.refCount - 1;
        if entry.refCount == 0 {
          volIDLocks := volIDLocks - {handle.id};
        }
      }
    }
  }

  class LockHandle {
    const entry: RefCountedLock
    const id: string
    var closed: bool

    constructor (entry: RefCountedLock, id: string)
      ensures this.entry == entry && this.id == id && !closed
    {
      this.entry, this.id, closed := entry, id, false;
    }
  }

  // ---- many calls at once ----

  /** Where one createVolume call is. `Leaving` has given up or finished and still has to close. */
  datatype Call<A> =
    | Arrived(name: string)
    | Opened(name: string, entry: A)
    | Serving(name: string, entry: A)
    | Leaving(name: string, entry: A, served: bool)
    | Finished(name: string, served: bool)

  predicate Open<A>(call: Call<A>) { call.Opened? || call.Serving? || call.Leaving? }

  datatype System<A> = System(table: Table<A>, calls: map<nat, Call<A>>)

  datatype Action<A> =
    | Arrive(c: nat, name: string)
    | Get(c: nat, spare: A)
    | Try(c: nat)
    | Done(c: nat)         // the handler returns and the lock is released
    | Close(c: nat)

  ghost predicate Enabled<A>(s: System<A>, a: Action<A>) {
    match a
    case Arrive(c, _) => c !in s.calls
    case Get(c, spare) => c in s.calls && s.calls[c].Arrived? && spare !in s.table.heap
    case Try(c) => c in s.calls && s.calls[c].Opened?
    case Done(c) => c in s.calls && s.calls[c].Serving?
    case Close(c) => c in s.calls && s.calls[c].Leaving?
  }

  ghost function Do<A>(s: System<A>, a: Action<A>): System<A>
    requires Enabled(s, a)
  {
    match a
    case Arrive(c, name) => s.(calls := s.calls[c := Arrived(name)])
    case Get(c, spare) =>
      var name := s.calls[c].name;
      System(Acquire(s.table, name, spare), s.calls[c := Opened(name, EntryFor(s.table, name, spare))])
    case Try(c) =>
      var call := s.calls[c];
      if LockAt(s.table, call.entry).held then s.(calls := s.calls[c := Leaving(call.name, call.entry, false)])
      else System(SetHeld(s.table, call.entry, true), s.calls[c := Serving(call.name, call.entry)])
    case Done(c) =>
      var call := s.calls[c];
      System(SetHeld(s.table, call.entry, false), s.calls[c := Leaving(call.name, call.entry, true)])
    case Close(c) =>
      var call := s.calls[c];
      System(Release(s.table, call.name, call.entry), s.calls[c := Finished(call.name, call.served)])
  }

  ghost function OpenCalls<A>(calls: map<nat, Call<A>>, name: string): set<nat> {
    set c | c in calls && Open(calls[c]) && calls[c].name == name
  }

  /** All open handles for a name share its one entry, and the count is exact. */
  ghost predicate Shared<A>(s: System<A>) {
    && WellFormed(s.table)
    && (forall c :: c in s.calls && Open(s.calls[c]) ==>
          s.calls[c].name in s.table.locks && s.table.locks[s.calls[c].name] == s.calls[c].entry)
    && (forall n :: n in s.table.locks ==>
          s.table.heap[s.table.locks[n]].refCount == |OpenCalls(s.calls, n)| && OpenCalls(s.calls, n) != {})
    && (forall m, n :: m in s.table.locks && n in s.table.locks && s.table.locks[m] == s.table.locks[n] ==> m == n)
  }

  /** An entry is held exactly while one call serves on it. */
  ghost predicate Exclusive<A>(s: System<A>) {
    && (forall c :: c in s.calls && s.calls[c].Serving? && s.calls[c].entry in s.table.heap ==>
          s.table.heap[s.calls[c].entry].held)
    && (forall a :: a in s.table.heap && s.table.heap[a].held ==>
          exists c :: c in s.calls && s.calls[c].Serving? && s.calls[c].entry == a)
    && (forall c, d :: c in s.calls && d in s.calls ==>
          (s.calls[c].Serving? && s.calls[d].Serving? && s.calls[c].entry == s.calls[d].entry ==> c == d))
  }

  ghost predicate Inv<A>(s: System<A>) { Shared(s) && Exclusive(s) }

  lemma WithoutOne(s: set<nat>, c: nat)
    ensures |s| == |s - {c}| + if c in s then 1 else 0
    ensures c !in s ==> s - {c} == s
  {
    if c in s { assert s == (s - {c}) + {c}; } else { assert s - {c} == s; }
  }

  /** Opening one more handle, or closing one, changes the count by one and no other name's. */
  lemma OpenCallsUpdate<A>(calls: map<nat, Call<A>>, c: nat, call: Call<A>, n: string)
    requires c in calls ==> calls[c].name == call.name
    requires c !in calls ==> !Open(call)
    ensures var was := c in calls && Open(calls[c]) && call.name == n;
            var now := Open(call) && call.name == n;
            && |OpenCalls(calls[c := call], n)|
               == |OpenCalls(calls, n)| + (if now then 1 else 0) - (if was then 1 else 0)
            && (now ==> c in OpenCalls(calls[c := call], n))
            && (!was && !now ==> OpenCalls(calls[c := call], n) == OpenCalls(calls, n))
  {
    var before, after := OpenCalls(calls, n), OpenCalls(calls[c := call], n);
    assert after - {c} == before - {c};
    WithoutOne(before, c);
    WithoutOne(after, c);
  }

  lemma KeepArrive<A>(s: System<A>, c: nat, name: string)
    requires Inv(s) && Enabled(s, Arrive(c, name))
    ensures Inv(Do(s, Arrive(c, name)))
  {
    var t := Do(s, Arrive(c, name));
    forall n ensures OpenCalls(t.calls, n) == OpenCalls(s.calls, n) { OpenCallsUpdate(s.calls, c, t.calls[c], n); }
    KeepsExclusive(s, t, c);
  }

  lemma GetCounts<A>(s: System<A>, c: nat, spare: A, n: string)
    requires Enabled(s, Get(c, spare))
    ensures var t, name := Do(s, Get(c, spare)), s.calls[c].name;
            && |OpenCalls(t.calls, n)| == |OpenCalls(s.calls, n)| + (if n == name then 1 else 0)
            && (n != name ==> OpenCalls(t.calls, n) == OpenCalls(s.calls, n))
            && (n == name ==> OpenCalls(t.calls, n) != {})
  {
    var t := Do(s, Get(c, spare));
    OpenCallsUpdate(s.calls, c, t.calls[c], n);
  }

  lemma KeepGetShared<A>(s: System<A>, c: nat, spare: A)
    requires Inv(s) && Enabled(s, Get(c, spare))
    ensures Shared(Do(s, Get(c, spare)))
  {
    var t := Do(s, Get(c, spare));
    var name := s.calls[c].name;
    if name !in s.table.locks { assert OpenCalls(s.calls, name) == {}; }
    forall n | n in t.table.locks
      ensures LockAt(t.table, t.table.locks[n]).refCount == |OpenCalls(t.calls, n)| && OpenCalls(t.calls, n) != {}
    {
      GetCounts(s, c, spare, n);
    }
  }

  lemma KeepGet<A>(s: System<A>, c: nat, spare: A)
    requires Inv(s) && Enabled(s, Get(c, spare))
    ensures Inv(Do(s, Get(c, spare)))
  {
    KeepGetShared(s, c, spare);
    KeepsExclusive(s, Do(s, Get(c, spare)), c);
  }

  /** A step that changes no `held` bit and starts or stops no handler keeps exclusion. */
  lemma KeepsExclusive<A>(s: System<A>, t: System<A>, c: nat)
    requires Exclusive(s)
    requires forall d :: d in s.calls && d != c ==> d in t.calls && t.calls[d] == s.calls[d]
    requires forall d :: d in t.calls && d != c ==> d in s.calls
    requires c in s.calls ==> !s.calls[c].Serving?
    requires c in t.calls && !t.calls[c].Serving?
    requires forall a :: a in s.table.heap ==> a in t.table.heap && t.table.heap[a].held == s.table.heap[a].held
    requires forall a :: a in t.table.heap && a !in s.table.heap ==> !t.table.heap[a].held
    requires forall d :: d in s.calls && s.calls[d].Serving? ==> s.calls[d].entry in s.table.heap
    ensures Exclusive(t)
  {
    forall a | a in t.table.heap && t.table.heap[a].held
      ensures exists d :: d in t.calls && t.calls[d].Serving? && t.calls[d].entry == a
    {
      var d :| d in s.calls && s.calls[d].Serving? && s.calls[d].entry == a;
      assert d in t.calls && t.calls[d].Serving?;
    }
  }

  lemma SameOpenCalls<A>(s: System<A>, t: System<A>, c: nat)
    requires c in s.calls && Open(s.calls[c])
    requires c in t.calls && t.calls == s.calls[c := t.calls[c]]
    requires Open(t.calls[c]) && t.calls[c].name == s.calls[c].name
    ensures forall n :: OpenCalls(t.calls, n) == OpenCalls(s.calls, n)
  {
  }

  lemma KeepTry<A>(s: System<A>, c: nat)
    requires Inv(s) && Enabled(s, Try(c))
    ensures Inv(Do(s, Try(c)))
  {
    var t := Do(s, Try(c));
    SameOpenCalls(s, t, c);
    var a := s.calls[c].entry;
    if s.table.heap[a].held {
      KeepsExclusive(s, t, c);
    } else {
      forall b | b in t.table.heap && t.table.heap[b].held
        ensures exists d :: d in t.calls && t.calls[d].Serving? && t.calls[d].entry == b
      {
        if b == a { assert t.calls[c].Serving?; }
        else {
          var d :| d in s.calls && s.calls[d].Serving? && s.calls[d].entry == b;
          assert t.calls[d].Serving?;
        }
      }
    }
  }

  lemma KeepDone<A>(s: System<A>, c: nat)
    requires Inv(s) && Enabled(s, Done(c))
    ensures Inv(Do(s, Done(c)))
  {
    var t := Do(s, Done(c));
    SameOpenCalls(s, t, c);
    forall b | b in t.table.heap && t.table.heap[b].held
      ensures exists d :: d in t.calls && t.calls[d].Serving? && t.calls[d].entry == b
    {
      var d :| d in s.calls && s.calls[d].Serving? && s.calls[d].entry == b;
      assert t.calls[d].Serving?;
    }
  }

  lemma KeepClose<A>(s: System<A>, c: nat)
    requires Inv(s) && Enabled(s, Close(c))
    ensures Inv(Do(s, Close(c)))
  {
    KeepCloseShared(s, c);
    KeepsExclusive(s, Do(s, Close(c)), c);
  }

  lemma CloseCounts<A>(s: System<A>, c: nat, n: string)
    requires Enabled(s, Close(c))
    ensures var t, name := Do(s, Close(c)), s.calls[c].name;
            && |OpenCalls(t.calls, n)| == |OpenCalls(s.calls, n)| - (if n == name then 1 else 0)
            && (n != name ==> OpenCalls(t.calls, n) == OpenCalls(s.calls, n))
  {
    OpenCallsUpdate(s.calls, c, Do(s, Close(c)).calls[c], n);
  }

  lemma KeepCloseShared<A>(s: System<A>, c: nat)
    requires Inv(s) && Enabled(s, Close(c))
    ensures Shared(Do(s, Close(c)))
  {
    var t := Do(s, Close(c));
    forall n ensures |OpenCalls(t.calls, n)| == |OpenCalls(s.calls, n)| - (if n == s.calls[c].name then 1 else 0)
                     && (n != s.calls[c].name ==> OpenCalls(t.calls, n) == OpenCalls(s.calls, n))
    {
      CloseCounts(s, c, n);
    }
    forall d | d in t.calls && Open(t.calls[d]) ensures t.calls[d].name in t.table.locks {
      assert d in OpenCalls(t.calls, t.calls[d].name);
    }
  }

  lemma StepKeepsInv<A>(s: System<A>, a: Action<A>)
    requires Inv(s) && Enabled(s, a)
    ensures Inv(Do(s, a))
  {
    match a
    case Arrive(c, name) => KeepArrive(s, c, name);
    case Get(c, spare) => KeepGet(s, c, spare);
    case Try(c) => KeepTry(s, c);
    case Done(c) => KeepDone(s, c);
    case Close(c) => KeepClose(s, c);
  }

  /** Any interleaving of any number of calls, from an empty provider. */
  ghost predicate Run<A>(trace: seq<System<A>>, actions: seq<Action<A>>) {
    && |trace| == |actions| + 1
    && trace[0] == System(Table(map[], map[]), map[])
    && (forall i :: 0 <= i < |actions| ==>
          Enabled(trace[i], actions[i]) && trace[i + 1] == Do(trace[i], actions[i]))
  }

  lemma {:induction false} RunKeepsInv<A>(trace: seq<System<A>>, actions: seq<Action<A>>, i: nat)
    requires Run(trace, actions) && i < |trace|
    ensures Inv(trace[i])
  {
    if i > 0 {
      RunKeepsInv(trace, actions, i - 1);
      StepKeepsInv(trace[i - 1], actions[i - 1]);
    }
  }

  /** At most one handler per volume name runs at any time. */
  lemma OneHandlerPerName<A>(trace: seq<System<A>>, actions: seq<Action<A>>, i: nat, c: nat, d: nat)
    requires Run(trace, actions) && i < |trace| && c in trace[i].calls && d in trace[i].calls
    requires trace[i].calls[c].Serving? && trace[i].calls[d].Serving?
    requires trace[i].calls[c].name == trace[i].calls[d].name
    ensures c == d
  {
    RunKeepsInv(trace, actions, i);
  }

  /** All open handles for a name share the entry the map points to, and its count is their number. */
  lemma HandlesShareOneEntry<A>(trace: seq<System<A>>, actions: seq<Action<A>>, i: nat, c: nat)
    requires Run(trace, actions) && i < |trace| && c in trace[i].calls && Open(trace[i].calls[c])
    ensures var s, call := trace[i], trace[i].calls[c];
            && call.name in s.table.locks && s.table.locks[call.name] == call.entry
            && LockAt(s.table, call.entry).refCount == |OpenCalls(s.calls, call.name)|
  {
    RunKeepsInv(trace, actions, i);
  }

  /** An entry the map no longer points to is not held, so no handler is left behind on it. */
  lemma EvictedEntryIsFree<A>(trace: seq<System<A>>, actions: seq<Action<A>>, i: nat, a: A)
    requires Run(trace, actions) && i < |trace|
    requires forall n :: n in trace[i].table.locks ==> trace[i].table.locks[n] != a
    ensures !LockAt(trace[i].table, a).held
  {
    RunKeepsInv(trace, actions, i);
  }

  /** Once every call has finished nothing stays behind in the map. */
  lemma MapEmptiesWhenIdle<A>(trace: seq<System<A>>, actions: seq<Action<A>>, i: nat)
    requires Run(trace, actions) && i < |trace|
    requires forall c :: c in trace[i].calls ==> trace[i].calls[c].Finished?
    ensures trace[i].table.locks == map[]
  {
    RunKeepsInv(trace, actions, i);
    forall n ensures n !in trace[i].table.locks { assert OpenCalls(trace[i].calls, n) == {}; }
  }

  /** A call is turned away exactly when another call for the same name is being served. */
  lemma RejectedOnlyIfBusy<A>(trace: seq<System<A>>, actions: seq<Action<A>>, i: nat, c: nat)
    requires Run(trace, actions) && i < |actions| && actions[i] == Try(c)
    ensures trace[i + 1].calls[c].Leaving? <==>
            exists d :: d in trace[i].calls && trace[i].calls[d].Serving?
                        && trace[i].calls[d].name == trace[i].calls[c].name
  {
    RunKeepsInv(trace, actions, i);
    var s, call := trace[i], trace[i].calls[c];
    assert s.table.locks[call.name] == call.entry;
    if LockAt(s.table, call.entry).held {
      var d :| d in s.calls && s.calls[d].Serving? && s.calls[d].entry == call.entry;
      assert s.table.locks[s.calls[d].name] == call.entry;
      assert s.calls[d].name == call.name;
    }
  }
}
