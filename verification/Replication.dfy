/** SyncIQ replication of a volume group between two clusters (service/replication.go): actions that are
    sequences of array calls and may abort at any of them, and the classifier of the resulting state. */
module Replication {
  import opened Strings

  datatype Side = A | B

  function Other(s: Side): Side { if s.A? then B else A }

  datatype Policy = Policy(enabled: bool, manual: bool, jobDelay: int, source: string, target: string, host: string)
  datatype FailoverState = WritesEnabled | WritesDisabled | ResyncPolicyCreated
  datatype TargetPolicy = TargetPolicy(state: FailoverState, lastJobFailed: bool)
  datatype Cluster = Cluster(policy: Option<Policy>, target: Option<TargetPolicy>)

  /** Both clusters, the policy record an action has fetched, and the calls that succeeded so far. */
  datatype World = World(a: Cluster, b: Cluster, fetched: Option<Policy>, log: seq<Call>)

  datatype Call =
    | Sync(s: Side)
    | Disable(s: Side)
    | Enable(s: Side)
    | AwaitEnabled(s: Side, want: bool)
    | SetManual(s: Side)
    | SetAutomatic(s: Side, delay: int)
    | Allow(s: Side)
    | Disallow(s: Side)
    | NeedWritable(s: Side)                   // target policy present and write-enabled
    | Fetch(s: Side)
    | Delete(s: Side)
    | CreateReversed(s: Side, host: string)   // from the fetched policy, paths exchanged
    | AwaitJob(s: Side)                       // first job running or finished

  function At(w: World, s: Side): Cluster { if s.A? then w.a else w.b }
  function Put(w: World, s: Side, c: Cluster): World { if s.A? then w.(a := c) else w.(b := c) }

  function PutPolicy(w: World, s: Side, p: Option<Policy>): World { Put(w, s, At(w, s).(policy := p)) }
  function PutTarget(w: World, s: Side, t: Option<TargetPolicy>): World { Put(w, s, At(w, s).(target := t)) }

  /** Whether the array can carry out the call at all. */
  predicate Possible(w: World, call: Call) {
    match call
    case Sync(s) => At(w, s).policy.Some?
    case Disable(s) => At(w, s).policy.Some?
    case Enable(s) => At(w, s).policy.Some?
    case AwaitEnabled(s, want) => At(w, s).policy.Some? && At(w, s).policy.value.enabled == want
    case SetManual(s) => At(w, s).policy.Some?
    case SetAutomatic(s, _) => At(w, s).policy.Some?
    case Allow(s) => At(w, s).target.Some?
    case Disallow(s) => At(w, s).target.Some?
    case NeedWritable(s) => At(w, s).target.Some? && At(w, s).target.value.state == WritesEnabled
    case Fetch(s) => At(w, s).policy.Some?
    case Delete(s) => At(w, s).policy.Some?
    case CreateReversed(s, _) => At(w, s).policy.None? && w.fetched.Some?
    case AwaitJob(s) => At(w, s).policy.Some?
  }

  /** A first successful job makes the target record appear, write-disabled. */
  function WithTargetRecord(w: World, s: Side): World {
    if At(w, s).target.Some? then w else PutTarget(w, s, Some(TargetPolicy(WritesDisabled, false)))
  }

  function Effect(w: World, call: Call): World
    requires Possible(w, call)
  {
    match call
    case Sync(s) => WithTargetRecord(w, Other(s))
    case Disable(s) => PutPolicy(w, s, Some(At(w, s).policy.value.(enabled := false)))
    case Enable(s) => PutPolicy(w, s, Some(At(w, s).policy.value.(enabled := true)))
    case AwaitEnabled(_, _) => w
    case SetManual(s) => PutPolicy(w, s, Some(At(w, s).policy.value.(manual := true, jobDelay := 0)))
    case SetAutomatic(s, delay) => PutPolicy(w, s, Some(At(w, s).policy.value.(manual := false, jobDelay := delay)))
    case Allow(s) => PutTarget(w, s, Some(At(w, s).target.value.(state := WritesEnabled)))
    case Disallow(s) => PutTarget(w, s, Some(At(w, s).target.value.(state := WritesDisabled)))
    case NeedWritable(_) => w
    case Fetch(s) => w.(fetched := At(w, s).policy)
    case Delete(s) => PutTarget(PutPolicy(w, s, None), Other(s), None)
    case CreateReversed(s, host) =>
      var p := w.fetched.value;
      PutPolicy(w, s, Some(Policy(true, false, p.jobDelay, p.target, p.source, host)))
    case AwaitJob(s) => WithTargetRecord(w, Other(s))
  }

  function After(w: World, call: Call): World
    requires Possible(w, call)
  {
    Effect(w, call).(log := w.log + [call])
  }

  /** One more call after a run that got as far as `r`. */
  function Then(r: (World, bool), call: Call, answered: bool): (World, bool) {
    if r.1 && Possible(r.0, call) && answered then (After(r.0, call), true) else (r.0, false)
  }

  // ---- the actions, as seen from the cluster they are sent to ----

  datatype Action =
    | Failover
    | FailoverUnplanned
    | Reprotect(remoteHost: string)
    | FailbackDiscardRemote(rpo: int)         // -1 when the group name carries no valid RPO
    | Synchronize
    | Suspend
    | Resume

  /** What an action makes of the clusters; `fate(k)` is whether its k-th call is answered. */
  function Perform(w: World, act: Action, local: Side, fate: nat -> bool): (World, bool) {
    var start, remote := (w, true), Other(local);
    match act
    case Failover =>
      Then(Then(Then(Then(start, Sync(local), fate(0)), Disable(local), fate(1)), AwaitEnabled(local, false), fate(2)),
           Allow(remote), fate(3))
    case FailoverUnplanned => Then(start, Allow(local), fate(0))
    case Reprotect(host) =>
      Then(Then(AfterDelete(w, local, fate), CreateReversed(local, host), fate(3)), AwaitJob(local), fate(4))
    case FailbackDiscardRemote(rpo) =>
      if rpo == -1 then (w, false)
      else
        var first := Then(Then(start, Disable(local), fate(0)), SetManual(local), fate(1));
        var half := Then(first, Disallow(remote), fate(2));
        Then(Then(half, SetAutomatic(local, rpo), fate(3)), Enable(local), fate(4))
    case Synchronize => Then(start, Sync(local), fate(0))
    case Suspend => Then(Then(start, Disable(local), fate(0)), AwaitEnabled(local, false), fate(1))
    case Resume => Then(Then(start, Enable(local), fate(0)), AwaitEnabled(local, true), fate(1))
  }

  /** The first three calls of a reprotect: check, fetch the other side's policy, delete it there. */
  function AfterDelete(w: World, local: Side, fate: nat -> bool): (r: (World, bool))
    ensures Paired(w) ==> Paired(r.0)
    ensures Paired(w) && r.1 ==>
              && At(w, Other(local)).policy.Some? && r.0.fetched == At(w, Other(local)).policy
              && r.0.a == r.0.b == Cluster(None, None)
  {
    var remote := Other(local);
    Then(Then(Then((w, true), NeedWritable(local), fate(0)), Fetch(remote), fate(1)), Delete(remote), fate(2))
  }

  /** The driver's own form: one call after the other with an early return on each error. */
  class Driver {
    var world: World

    constructor (initial: World)
      ensures world == initial
    {
      world := initial;
    }

    method Issue(call: Call, answered: bool) returns (ok: bool)
      modifies this
      ensures ok == (Possible(old(world), call) && answered)
      ensures world == if ok then After(old(world), call) else old(world)
    {
      ok := Possible(world, call) && answered;
      if ok { world := After(world, call); }
    }

    method RunFailover(local: Side, fate: nat -> bool) returns (ok: bool)
      modifies this
      ensures (world, ok) == Perform(old(world), Failover, local, fate)
    {
      ok := Issue(Sync(local), fate(0));
      if !ok { return; }
      ok := Issue(Disable(local), fate(1));
      if !ok { return; }
      ok := Issue(AwaitEnabled(local, false), fate(2));
      if !ok { return; }
      ok := Issue(Allow(Other(local)), fate(3));
    }

    method RunReprotect(local: Side, host: string, fate: nat -> bool) returns (ok: bool)
      modifies this
      ensures (world, ok) == Perform(old(world), Reprotect(host), local, fate)
    {
      var remote := Other(local);
      ok := Issue(NeedWritable(local), fate(0));
      if !ok { return; }
      ok := Issue(Fetch(remote), fate(1));
      if !ok { return; }
      ok := Issue(Delete(remote), fate(2));
      if !ok { return; }
      ok := Issue(CreateReversed(local, host), fate(3));
      if !ok { return; }
      ok := Issue(AwaitJob(local), fate(4));
    }

    method RunFailbackDiscardRemote(local: Side, rpo: int, fate: nat -> bool) returns (ok: bool)
      modifies this
      ensures (world, ok) == Perform(old(world), FailbackDiscardRemote(rpo), local, fate)
    {
      var remote := Other(local);
      if rpo == -1 { return false; }
      ok := Issue(Disable(local), fate(0));
      if !ok { return; }
      ok := Issue(SetManual(local), fate(1));
      if !ok { return; }
      ok := Issue(Disallow(remote), fate(2));
      if !ok { return; }
      ok := Issue(SetAutomatic(local, rpo), fate(3));
      if !ok { return; }
      ok := Issue(Enable(local), fate(4));
    }
  }

  // ---- the classifier ----

  datatype LinkState = Synchronized | Suspended | FailedOver | SyncInProgress | Invalid | Unknown

  predicate Writes(t: Option<TargetPolicy>, state: FailoverState) { t.Some? && t.value.state == state }

  predicate LastJobFailed(t: Option<TargetPolicy>) { t.Some? && t.value.lastJobFailed }

  /** Exactly one side has a policy, so enabled, and exactly the other a target record, in this state. */
  predicate OneWay(localP: Option<Policy>, localTP: Option<TargetPolicy>, remoteP: Option<Policy>,
                   remoteTP: Option<TargetPolicy>, enabled: bool, state: FailoverState)
  {
    || (localP.Some? && localP.value.enabled == enabled && remoteP.None? && localTP.None? && Writes(remoteTP, state))
    || (localP.None? && remoteP.Some? && remoteP.value.enabled == enabled && Writes(localTP, state) && remoteTP.None?)
  }

  /** getGroupLinkState. */
  function GetGroupLinkState(localP: Option<Policy>, localTP: Option<TargetPolicy>, remoteP: Option<Policy>,
                             remoteTP: Option<TargetPolicy>, syncInProgress: bool): LinkState
  {
    if syncInProgress then SyncInProgress
    else if OneWay(localP, localTP, remoteP, remoteTP, true, WritesDisabled) then Synchronized
    else if OneWay(localP, localTP, remoteP, remoteTP, false, WritesDisabled) then Suspended
    else if OneWay(localP, localTP, remoteP, remoteTP, false, WritesEnabled) then FailedOver
    else if localP.None? && remoteP.None? && localTP.None? && Writes(remoteTP, WritesEnabled) then Unknown
    else if localP.None? && remoteP.None? && Writes(localTP, WritesEnabled) && remoteTP.None? then FailedOver
    else if OneWay(localP, localTP, remoteP, remoteTP, true, WritesEnabled) then FailedOver
    else if LastJobFailed(remoteTP) || LastJobFailed(localTP) then Invalid
    else Unknown
  }

  function StateSeenFrom(w: World, local: Side): LinkState {
    var l, r := At(w, local), At(w, Other(local));
    GetGroupLinkState(l.policy, l.target, r.policy, r.target, false)
  }

  /** For every combination of records the two clusters report the same state, with one exception: no
      policy anywhere and exactly one target record, write-enabled. There the target side says failed
      over and the other side says unknown. */
  lemma ClassifierAgreesFromBothSides(l: Cluster, r: Cluster)
    ensures GetGroupLinkState(l.policy, l.target, r.policy, r.target, false)
              == GetGroupLinkState(r.policy, r.target, l.policy, l.target, false)
            <==> !(l.policy.None? && r.policy.None?
                   && ((l.target.None? && Writes(r.target, WritesEnabled))
                       || (r.target.None? && Writes(l.target, WritesEnabled))))
  {
  }

  /** The classifier's table, for every combination of records. With `p` the one policy and `t` the one target
      record, on opposite clusters: enabled and write-disabled is synchronized, disabled and write-disabled is
      suspended, write-enabled is failed over. A single write-enabled target record without any policy is failed
      over on its own cluster and unknown on the other. Anything else is invalid if a last job failed and unknown
      otherwise; a running job comes before everything. */
  lemma ClassifierTable(l: Cluster, r: Cluster)
    ensures var seen := GetGroupLinkState(l.policy, l.target, r.policy, r.target, false);
            var forth := l.policy.Some? && r.policy.None? && l.target.None? && r.target.Some?;
            var back := r.policy.Some? && l.policy.None? && r.target.None? && l.target.Some?;
            var p := if forth then l.policy else r.policy;
            var t := if forth then r.target else l.target;
            var alone := l.policy.None? && r.policy.None? && (l.target.None? != r.target.None?);
            && ((forth || back) && t.value.state == WritesDisabled && p.value.enabled ==> seen == Synchronized)
            && ((forth || back) && t.value.state == WritesDisabled && !p.value.enabled ==> seen == Suspended)
            && ((forth || back) && t.value.state == WritesEnabled ==> seen == FailedOver)
            && (alone && Writes(l.target, WritesEnabled) ==> seen == FailedOver)
            && (alone && Writes(r.target, WritesEnabled) ==> seen == Unknown)
            && (!(forth || back) && !(alone && (Writes(l.target, WritesEnabled) || Writes(r.target, WritesEnabled))) ==>
                  seen == if LastJobFailed(l.target) || LastJobFailed(r.target) then Invalid else Unknown)
    ensures GetGroupLinkState(l.policy, l.target, r.policy, r.target, true) == SyncInProgress
  {
  }

  // ---- phases ----

  datatype Phase =
    | EnabledPhase(src: Side)
    | SuspendedPhase(src: Side)
    | FailedOverPhase(src: Side)
    | UnlinkedPhase(src: Side)
    | NoPolicyPhase

  /** One policy at most, and a target record only opposite to it. */
  ghost predicate Paired(w: World) {
    && (w.a.policy.None? || w.b.policy.None?)
    && (w.a.target.Some? ==> w.b.policy.Some? && w.a.target.value.state != ResyncPolicyCreated)
    && (w.b.target.Some? ==> w.a.policy.Some? && w.b.target.value.state != ResyncPolicyCreated)
  }

  ghost function PhaseOf(w: World): Phase
    requires Paired(w)
  {
    if w.a.policy.None? && w.b.policy.None? then NoPolicyPhase
    else
      var src := if w.a.policy.Some? then A else B;
      var t := At(w, Other(src)).target;
      if t.None? then UnlinkedPhase(src)
      else if t.value.state == WritesEnabled then FailedOverPhase(src)
      else if At(w, src).policy.value.enabled then EnabledPhase(src)
      else SuspendedPhase(src)
  }

  function StatusOf(p: Phase): LinkState {
    match p
    case EnabledPhase(_) => Synchronized
    case SuspendedPhase(_) => Suspended
    case FailedOverPhase(_) => FailedOver
    case UnlinkedPhase(_) => Unknown
    case NoPolicyPhase => Unknown
  }

  lemma ThenKeepsPaired(r: (World, bool), call: Call, answered: bool)
    requires Paired(r.0) && !call.CreateReversed?
    ensures Paired(Then(r, call, answered).0)
  {
  }

  /** Reprotect creates a policy only after it has removed the one on the other side. */
  lemma ReprotectKeepsPaired(w: World, local: Side, host: string, fate: nat -> bool)
    requires Paired(w)
    ensures Paired(Perform(w, Reprotect(host), local, fate).0)
  {
    var remote := Other(local);
    var r := AfterDelete(w, local, fate);
    var s := Then(r, CreateReversed(local, host), fate(3));
    assert Paired(s.0);
  }

  lemma FailbackKeepsPaired(w: World, local: Side, rpo: int, fate: nat -> bool)
    requires Paired(w)
    ensures Paired(Perform(w, FailbackDiscardRemote(rpo), local, fate).0)
  {
    var r1 := Then((w, true), Disable(local), fate(0));
    ThenKeepsPaired((w, true), Disable(local), fate(0));
    var r2 := Then(r1, SetManual(local), fate(1));
    ThenKeepsPaired(r1, SetManual(local), fate(1));
    var r3 := Then(r2, Disallow(Other(local)), fate(2));
    ThenKeepsPaired(r2, Disallow(Other(local)), fate(2));
    var r4 := Then(r3, SetAutomatic(local, rpo), fate(3));
    ThenKeepsPaired(r3, SetAutomatic(local, rpo), fate(3));
    ThenKeepsPaired(r4, Enable(local), fate(4));
  }

  lemma FailoverKeepsPaired(w: World, local: Side, fate: nat -> bool)
    requires Paired(w)
    ensures Paired(Perform(w, Failover, local, fate).0)
  {
    var r1 := Then((w, true), Sync(local), fate(0));
    ThenKeepsPaired((w, true), Sync(local), fate(0));
    var r2 := Then(r1, Disable(local), fate(1));
    ThenKeepsPaired(r1, Disable(local), fate(1));
    var r3 := Then(r2, AwaitEnabled(local, false), fate(2));
    ThenKeepsPaired(r2, AwaitEnabled(local, false), fate(2));
    ThenKeepsPaired(r3, Allow(Other(local)), fate(3));
  }

  lemma SmallActionKeepsPaired(w: World, act: Action, local: Side, fate: nat -> bool)
    requires Paired(w) && (act.FailoverUnplanned? || act.Synchronize? || act.Suspend? || act.Resume?)
    ensures Paired(Perform(w, act, local, fate).0)
  {
  }

  lemma PerformKeepsPaired(w: World, act: Action, local: Side, fate: nat -> bool)
    requires Paired(w)
    ensures Paired(Perform(w, act, local, fate).0)
  {
    match act
    case Reprotect(host) => ReprotectKeepsPaired(w, local, host, fate);
    case FailbackDiscardRemote(rpo) => FailbackKeepsPaired(w, local, rpo, fate);
    case Failover => FailoverKeepsPaired(w, local, fate);
    case _ => SmallActionKeepsPaired(w, act, local, fate);
  }

  datatype Request = Request(act: Action, local: Side, fate: nat -> bool)

  ghost predicate Run(trace: seq<World>, reqs: seq<Request>) {
    && |trace| == |reqs| + 1
    && (forall i :: 0 <= i < |reqs| ==> trace[i + 1] == Perform(trace[i], reqs[i].act, reqs[i].local, reqs[i].fate).0)
  }

  lemma {:induction false} RunKeepsPaired(trace: seq<World>, reqs: seq<Request>, i: nat)
    requires Run(trace, reqs) && Paired(trace[0]) && i < |trace|
    ensures Paired(trace[i])
  {
    if i > 0 {
      RunKeepsPaired(trace, reqs, i - 1);
      PerformKeepsPaired(trace[i - 1], reqs[i - 1].act, reqs[i - 1].local, reqs[i - 1].fate);
    }
  }

  lemma PhaseIsSeen(w: World)
    requires Paired(w)
    ensures StateSeenFrom(w, A) == StateSeenFrom(w, B) == StatusOf(PhaseOf(w))
  {
  }

  /** Every run of completed and aborted actions, sent to either cluster, stays in one of the phases, and
      the classifier asked on either cluster names that phase. */
  lemma EveryRunHasAPhase(trace: seq<World>, reqs: seq<Request>, i: nat)
    requires Run(trace, reqs) && Paired(trace[0]) && i < |trace|
    ensures Paired(trace[i])
    ensures StateSeenFrom(trace[i], A) == StateSeenFrom(trace[i], B) == StatusOf(PhaseOf(trace[i]))
  {
    RunKeepsPaired(trace, reqs, i);
    PhaseIsSeen(trace[i]);
  }

  /** Writes are enabled on the target only after a successful sync and an observed-disabled source policy:
      whatever fails, the calls that went through are a prefix of that order. */
  lemma FailoverOrder(w: World, local: Side, fate: nat -> bool)
    ensures var v := Perform(w, Failover, local, fate).0;
            && w.log <= v.log
            && v.log[|w.log|..] <= [Sync(local), Disable(local), AwaitEnabled(local, false), Allow(Other(local))]
            && (At(v, Other(local)).target != At(w, Other(local)).target && At(w, Other(local)).target.Some?
                ==> v.log[|w.log|..] == [Sync(local), Disable(local), AwaitEnabled(local, false), Allow(Other(local))])
  {
    var v := Perform(w, Failover, local, fate).0;
    var full := [Sync(local), Disable(local), AwaitEnabled(local, false), Allow(Other(local))];
    assert v.log[|w.log|..] == full[..|v.log| - |w.log|];
  }

  /** Where a failover from the source cluster ends, for every pattern of unanswered calls. */
  lemma FailoverPhase(w: World, src: Side, fate: nat -> bool)
    requires Paired(w) && PhaseOf(w) == EnabledPhase(src)
    ensures var (v, ok) := Perform(w, Failover, src, fate);
            && Paired(v) && (ok <==> fate(0) && fate(1) && fate(2) && fate(3))
            && PhaseOf(v) == if !fate(0) || !fate(1) then EnabledPhase(src)
                             else if !fate(2) || !fate(3) then SuspendedPhase(src) else FailedOverPhase(src)
  {
    PerformKeepsPaired(w, Failover, src, fate);
  }

  /** Up to the call that makes the remote side read-only a failback leaves the group failed over. */
  lemma FailbackFirstHalf(w: World, src: Side, fate: nat -> bool)
    requires Paired(w) && PhaseOf(w) == FailedOverPhase(src)
    ensures var (v, ok) := Then(Then(Then((w, true), Disable(src), fate(0)), SetManual(src), fate(1)),
                                Disallow(Other(src)), fate(2));
            && Paired(v) && (ok <==> fate(0) && fate(1) && fate(2))
            && PhaseOf(v) == if ok then SuspendedPhase(src) else FailedOverPhase(src)
  {
  }

  /** Where a failback that discards the remote changes ends. */
  lemma FailbackPhase(w: World, src: Side, rpo: int, fate: nat -> bool)
    requires Paired(w) && PhaseOf(w) == FailedOverPhase(src) && rpo != -1
    ensures var (v, ok) := Perform(w, FailbackDiscardRemote(rpo), src, fate);
            && Paired(v) && (ok <==> fate(0) && fate(1) && fate(2) && fate(3) && fate(4))
            && PhaseOf(v) == (if !fate(0) || !fate(1) || !fate(2) then FailedOverPhase(src)
                              else if !fate(3) || !fate(4) then SuspendedPhase(src) else EnabledPhase(src))
  {
    FailbackFirstHalf(w, src, fate);
    var r := Then(Then(Then((w, true), Disable(src), fate(0)), SetManual(src), fate(1)), Disallow(Other(src)), fate(2));
    FailbackSecondHalf(r, src, rpo, fate);
  }

  lemma FailbackSecondHalf(r: (World, bool), src: Side, rpo: int, fate: nat -> bool)
    requires Paired(r.0) && PhaseOf(r.0) == if r.1 then SuspendedPhase(src) else FailedOverPhase(src)
    ensures var (v, ok) := Then(Then(r, SetAutomatic(src, rpo), fate(3)), Enable(src), fate(4));
            && Paired(v) && (ok <==> r.1 && fate(3) && fate(4))
            && PhaseOf(v) == if ok then EnabledPhase(src) else PhaseOf(r.0)
  {
  }

  /** A completed failback changes nothing of the policy but its schedule. */
  lemma FailbackRestoresSchedule(w: World, src: Side, rpo: int, fate: nat -> bool)
    requires At(w, src).policy.Some?
    ensures var (v, ok) := Perform(w, FailbackDiscardRemote(rpo), src, fate);
            ok ==>
              At(v, src).policy == Some(At(w, src).policy.value.(enabled := true, manual := false, jobDelay := rpo))
  {
  }

  /** Only the records change that an action is about. */
  ghost predicate OnlyPolicy(w: World, v: World, s: Side) {
    At(v, Other(s)) == At(w, Other(s)) && At(v, s).target == At(w, s).target && v.fetched == w.fetched
  }

  ghost predicate OnlyTarget(w: World, v: World, s: Side) {
    At(v, Other(s)) == At(w, Other(s)) && At(v, s).policy == At(w, s).policy && v.fetched == w.fetched
  }

  /** Suspend from every phase: it disables the policy of the cluster it is sent to, and with it a group that was
      enabled is suspended; without a policy there nothing happens. */
  lemma SuspendPhase(w: World, local: Side, fate: nat -> bool)
    requires Paired(w)
    ensures var (v, ok) := Perform(w, Suspend, local, fate);
            var p := At(w, local).policy;
            && Paired(v) && OnlyPolicy(w, v, local) && (ok <==> p.Some? && fate(0) && fate(1))
            && (ok ==> v.log == w.log + [Disable(local), AwaitEnabled(local, false)])
            && At(v, local).policy == (if p.Some? && fate(0) then Some(p.value.(enabled := false)) else p)
            && PhaseOf(v) == if fate(0) && PhaseOf(w) == EnabledPhase(local) then SuspendedPhase(local) else PhaseOf(w)
  {
  }

  /** Resume, the same the other way. */
  lemma ResumePhase(w: World, local: Side, fate: nat -> bool)
    requires Paired(w)
    ensures var (v, ok) := Perform(w, Resume, local, fate);
            var p := At(w, local).policy;
            && Paired(v) && OnlyPolicy(w, v, local) && (ok <==> p.Some? && fate(0) && fate(1))
            && (ok ==> v.log == w.log + [Enable(local), AwaitEnabled(local, true)])
            && At(v, local).policy == (if p.Some? && fate(0) then Some(p.value.(enabled := true)) else p)
            && PhaseOf(v) == if fate(0) && PhaseOf(w) == SuspendedPhase(local) then EnabledPhase(local) else PhaseOf(w)
  {
  }

  /** Synchronize changes no policy; the first successful job links the group, write-disabled. */
  lemma SynchronizePhase(w: World, local: Side, fate: nat -> bool)
    requires Paired(w)
    ensures var (v, ok) := Perform(w, Synchronize, local, fate);
            var p, t := At(w, local).policy, At(w, Other(local)).target;
            && Paired(v) && OnlyTarget(w, v, Other(local)) && (ok <==> p.Some? && fate(0))
            && (ok ==> v.log == w.log + [Sync(local)])
            && At(v, Other(local)).target == (if ok && t.None? then Some(TargetPolicy(WritesDisabled, false)) else t)
            && PhaseOf(v) == if ok && PhaseOf(w) == UnlinkedPhase(local)
                             then (if p.value.enabled then EnabledPhase(local) else SuspendedPhase(local))
                             else PhaseOf(w)
  {
  }

  /** An unplanned failover enables writes on the cluster it is sent to, whatever the policy, and a group that was
      linked to it has failed over; without a target record there nothing happens. */
  lemma FailoverUnplannedPhase(w: World, local: Side, fate: nat -> bool)
    requires Paired(w)
    ensures var (v, ok) := Perform(w, FailoverUnplanned, local, fate);
            var t := At(w, local).target;
            && Paired(v) && OnlyTarget(w, v, local) && (ok <==> t.Some? && fate(0))
            && (ok ==> v.log == w.log + [Allow(local)])
            && At(v, local).target == (if ok then Some(t.value.(state := WritesEnabled)) else t)
            && PhaseOf(v) == if ok then FailedOverPhase(Other(local)) else PhaseOf(w)
  {
  }

  ghost predicate SameRecords(w: World, v: World) { v.a == w.a && v.b == w.b }

  /** Sent to a cluster without a policy, the actions that work through the policy do nothing. */
  lemma WrongClusterDoesNothing(w: World, act: Action, local: Side, fate: nat -> bool)
    requires At(w, local).policy.None?
    requires act.Failover? || act.FailbackDiscardRemote? || act.Synchronize? || act.Suspend? || act.Resume?
    ensures Perform(w, act, local, fate) == (w, false)
  {
  }

  /** A reprotect changes nothing unless it is sent to the cluster that the group has failed over to. */
  lemma ReprotectNeedsFailover(w: World, local: Side, host: string, fate: nat -> bool)
    requires Paired(w) && PhaseOf(w) != FailedOverPhase(Other(local))
    ensures var (v, ok) := Perform(w, Reprotect(host), local, fate); !ok && SameRecords(w, v)
  {
  }

  /** A failover from every other phase of a group with its policy on `src`: the sync links it first. */
  lemma FailoverAnywhere(w: World, src: Side, fate: nat -> bool)
    requires Paired(w) && At(w, src).policy.Some?
    ensures var (v, ok) := Perform(w, Failover, src, fate);
            var linked := PhaseOf(Perform(w, Synchronize, src, fate).0);
            && Paired(v) && (ok <==> fate(0) && fate(1) && fate(2) && fate(3))
            && PhaseOf(v) == (if !fate(0) || !fate(1) then linked
                              else if ok || PhaseOf(w) == FailedOverPhase(src) then FailedOverPhase(src)
                              else SuspendedPhase(src))
            && (ok ==> !At(v, src).policy.value.enabled && Writes(At(v, Other(src)).target, WritesEnabled))
  {
    FailoverKeepsPaired(w, src, fate);
  }

  /** A failback of a group that is enabled or suspended ends enabled if it completes, and suspended if it gets no
      further than disabling the policy. */
  lemma FailbackLinked(w: World, src: Side, rpo: int, fate: nat -> bool)
    requires Paired(w) && (PhaseOf(w) == EnabledPhase(src) || PhaseOf(w) == SuspendedPhase(src)) && rpo != -1
    ensures var (v, ok) := Perform(w, FailbackDiscardRemote(rpo), src, fate);
            && Paired(v) && (ok <==> fate(0) && fate(1) && fate(2) && fate(3) && fate(4))
            && PhaseOf(v) == if !fate(0) then PhaseOf(w) else if ok then EnabledPhase(src) else SuspendedPhase(src)
  {
    LinkedFirstHalf(w, src, fate);
    LinkedSecondHalf(HalfWay(w, src, fate), src, rpo, fate);
  }

  function HalfWay(w: World, src: Side, fate: nat -> bool): (World, bool) {
    Then(Then(Then((w, true), Disable(src), fate(0)), SetManual(src), fate(1)), Disallow(Other(src)), fate(2))
  }

  lemma LinkedFirstHalf(w: World, src: Side, fate: nat -> bool)
    requires Paired(w) && (PhaseOf(w) == EnabledPhase(src) || PhaseOf(w) == SuspendedPhase(src))
    ensures var (v, ok) := HalfWay(w, src, fate);
            && Paired(v) && (ok <==> fate(0) && fate(1) && fate(2))
            && PhaseOf(v) == if fate(0) then SuspendedPhase(src) else PhaseOf(w)
  {
  }

  lemma LinkedSecondHalf(r: (World, bool), src: Side, rpo: int, fate: nat -> bool)
    requires Paired(r.0) && (r.1 ==> PhaseOf(r.0) == SuspendedPhase(src))
    ensures var (v, ok) := Then(Then(r, SetAutomatic(src, rpo), fate(3)), Enable(src), fate(4));
            && Paired(v) && (ok <==> r.1 && fate(3) && fate(4))
            && PhaseOf(v) == if ok then EnabledPhase(src) else PhaseOf(r.0)
  {
  }

  /** Without a target record a failback stops half-way, the policy disabled. */
  lemma FailbackUnlinked(w: World, src: Side, rpo: int, fate: nat -> bool)
    requires Paired(w) && PhaseOf(w) == UnlinkedPhase(src) && rpo != -1
    ensures var (v, ok) := Perform(w, FailbackDiscardRemote(rpo), src, fate);
            && !ok && Paired(v) && PhaseOf(v) == UnlinkedPhase(src) && At(v, src).policy.Some?
            && (At(v, src).policy.value.enabled <==> At(w, src).policy.value.enabled && !fate(0))
  {
  }

  const ANSWERED: nat -> bool := (k: nat) => true

  /** From the source cluster of an enabled group a failover that is answered throughout fails over, and a
      reprotect sent to the other cluster then exchanges the roles and the paths and enables replication
      the other way. */
  lemma FailoverThenReprotectSwaps(w: World, src: Side, host: string)
    requires Paired(w) && PhaseOf(w) == EnabledPhase(src)
    ensures var (v, ok) := Perform(w, Failover, src, ANSWERED);
            && ok && Paired(v) && PhaseOf(v) == FailedOverPhase(src)
            && var (u, ok') := Perform(v, Reprotect(host), Other(src), ANSWERED);
            && ok' && Paired(u) && PhaseOf(u) == EnabledPhase(Other(src)) && At(u, src).policy.None?
            && var p, q := At(w, src).policy.value, At(u, Other(src)).policy.value;
            q == Policy(true, false, p.jobDelay, p.target, p.source, host)
  {
    PerformKeepsPaired(w, Failover, src, ANSWERED);
    var v := Perform(w, Failover, src, ANSWERED).0;
    ReprotectSwaps(v, src, host);
  }

  lemma ReprotectSwaps(v: World, src: Side, host: string)
    requires Paired(v) && PhaseOf(v) == FailedOverPhase(src)
    ensures var (u, ok) := Perform(v, Reprotect(host), Other(src), ANSWERED);
            && ok && Paired(u) && PhaseOf(u) == EnabledPhase(Other(src)) && At(u, src).policy.None?
            && var p, q := At(v, src).policy.value, At(u, Other(src)).policy.value;
            q == Policy(true, false, p.jobDelay, p.target, p.source, host)
  {
    var dst := Other(src);
    AnsweredDeleteGoesThrough(v, src);
    var r := AfterDelete(v, dst, ANSWERED);
    CreateAfterDelete(r, dst, host);
  }

  lemma AnsweredDeleteGoesThrough(v: World, src: Side)
    requires Paired(v) && PhaseOf(v) == FailedOverPhase(src)
    ensures AfterDelete(v, Other(src), ANSWERED).1
  {
  }

  /** On two empty clusters the fetched policy comes back reversed, with its target record. */
  lemma CreateAfterDelete(r: (World, bool), dst: Side, host: string)
    requires r.1 && r.0.a == r.0.b == Cluster(None, None) && r.0.fetched.Some?
    ensures var (u, ok) := Then(Then(r, CreateReversed(dst, host), true), AwaitJob(dst), true);
            && ok && Paired(u) && PhaseOf(u) == EnabledPhase(dst) && At(u, Other(dst)).policy.None?
            && var p, q := r.0.fetched.value, At(u, dst).policy.value;
            q == Policy(true, false, p.jobDelay, p.target, p.source, host)
  {
  }

  /** Swapping twice restores the original replication: same side, same paths, same delay. */
  lemma SwappingTwiceRestores(w: World, src: Side, hostSrc: string, hostDst: string)
    requires Paired(w) && PhaseOf(w) == EnabledPhase(src)
    ensures var u := Perform(Perform(w, Failover, src, ANSWERED).0, Reprotect(hostSrc), Other(src), ANSWERED).0;
            var x := Perform(Perform(u, Failover, Other(src), ANSWERED).0, Reprotect(hostDst), src, ANSWERED).0;
            && Paired(x) && PhaseOf(x) == EnabledPhase(src)
            && var p, q := At(w, src).policy.value, At(x, src).policy.value;
            q == Policy(true, false, p.jobDelay, p.source, p.target, hostDst)
  {
    FailoverThenReprotectSwaps(w, src, hostSrc);
    var u := Perform(Perform(w, Failover, src, ANSWERED).0, Reprotect(hostSrc), Other(src), ANSWERED).0;
    FailoverThenReprotectSwaps(u, Other(src), hostDst);
  }

  /** A reprotect that stops between deleting the old policy and creating the new one leaves the group
      without a policy, and no action sent to either cluster gets it out of there. */
  lemma NoPolicyIsAbsorbing(w: World, act: Action, local: Side, fate: nat -> bool)
    requires Paired(w) && PhaseOf(w) == NoPolicyPhase
    ensures Perform(w, act, local, fate) == (w, false)
  {
  }

  /** Where a reprotect ends, for every pattern of unanswered calls. */
  lemma ReprotectPhase(w: World, src: Side, host: string, fate: nat -> bool)
    requires Paired(w) && PhaseOf(w) == FailedOverPhase(src)
    ensures var (v, ok) := Perform(w, Reprotect(host), Other(src), fate);
            && Paired(v) && (ok <==> fate(0) && fate(1) && fate(2) && fate(3) && fate(4))
            && PhaseOf(v) == if !fate(0) || !fate(1) || !fate(2) then FailedOverPhase(src)
                             else if !fate(3) then NoPolicyPhase
                             else if !fate(4) then UnlinkedPhase(Other(src)) else EnabledPhase(Other(src))
  {
    var dst := Other(src);
    ReprotectKeepsPaired(w, dst, host, fate);
    DeletePhase(w, src, fate);
    CreatePhase(AfterDelete(w, dst, fate), dst, host, fate);
  }

  lemma DeletePhase(w: World, src: Side, fate: nat -> bool)
    requires Paired(w) && PhaseOf(w) == FailedOverPhase(src)
    ensures var (v, ok) := AfterDelete(w, Other(src), fate);
            && Paired(v) && (ok <==> fate(0) && fate(1) && fate(2))
            && PhaseOf(v) == if ok then NoPolicyPhase else FailedOverPhase(src)
  {
  }

  lemma CreatePhase(r: (World, bool), dst: Side, host: string, fate: nat -> bool)
    requires Paired(r.0) && (r.1 ==> r.0.a == r.0.b == Cluster(None, None) && r.0.fetched.Some?)
    ensures var (v, ok) := Then(Then(r, CreateReversed(dst, host), fate(3)), AwaitJob(dst), fate(4));
            && (ok <==> r.1 && fate(3) && fate(4)) && Paired(v)
            && PhaseOf(v) == if !r.1 then PhaseOf(r.0) else if !fate(3) then NoPolicyPhase
                             else if !fate(4) then UnlinkedPhase(dst) else EnabledPhase(dst)
  {
  }

  /** So a reprotect loses the policy for good exactly when it deletes the old one and cannot create the new
      one. */
  lemma ReprotectLosesPolicyIff(w: World, src: Side, host: string, fate: nat -> bool)
    requires Paired(w) && PhaseOf(w) == FailedOverPhase(src)
    ensures var v := Perform(w, Reprotect(host), Other(src), fate).0;
            (forall act, local, again :: Perform(v, act, local, again) == (v, false))
            <==> fate(0) && fate(1) && fate(2) && !fate(3)
  {
    var v := Perform(w, Reprotect(host), Other(src), fate).0;
    ReprotectPhase(w, src, host, fate);
    if PhaseOf(v) == NoPolicyPhase {
      forall act, local, again ensures Perform(v, act, local, again) == (v, false) {
        NoPolicyIsAbsorbing(v, act, local, again);
      }
    } else {
      var side := if v.a.policy.Some? then A else B;
      assert Perform(v, Synchronize, side, ANSWERED).1;
    }
  }

  /** A failback followed by an answered resume is reported as synchronized while the policy is left on a
      manual schedule exactly when the failback stopped right before putting the schedule back: the classifier
      does not look at it. */
  lemma AbortedFailbackHidesManualSchedule(w: World, src: Side, rpo: int, fate: nat -> bool)
    requires Paired(w) && PhaseOf(w) == FailedOverPhase(src) && !At(w, src).policy.value.manual
    ensures var u := Perform(Perform(w, FailbackDiscardRemote(rpo), src, fate).0, Resume, src, ANSWERED).0;
            && At(u, src).policy.Some?
            && (StateSeenFrom(u, src) == Synchronized && At(u, src).policy.value.manual
                <==> rpo != -1 && fate(0) && fate(1) && fate(2) && !fate(3))
  {
    var v := Perform(w, FailbackDiscardRemote(rpo), src, fate).0;
    if rpo != -1 {
      FailbackPhase(w, src, rpo, fate);
      FailbackSchedule(w, src, rpo, fate);
    }
    ResumeSeen(v, src);
  }

  lemma FailbackSchedule(w: World, src: Side, rpo: int, fate: nat -> bool)
    requires Paired(w) && PhaseOf(w) == FailedOverPhase(src) && !At(w, src).policy.value.manual && rpo != -1
    ensures var v := Perform(w, FailbackDiscardRemote(rpo), src, fate).0;
            && At(v, src).policy.Some?
            && (At(v, src).policy.value.manual <==> fate(0) && fate(1) && !(fate(2) && fate(3)))
  {
  }

  lemma ResumeSeen(v: World, src: Side)
    requires Paired(v) && At(v, src).policy.Some?
    ensures var u := Perform(v, Resume, src, ANSWERED).0;
            && At(u, src).policy == Some(At(v, src).policy.value.(enabled := true))
            && (StateSeenFrom(u, src) == Synchronized
                <==> PhaseOf(v) == EnabledPhase(src) || PhaseOf(v) == SuspendedPhase(src))
  {
  }

  // ---- the RPO carried in the group name ----

  function RpoSeconds(rpo: string): Option<int> {
    if rpo == "Five_Minutes" then Some(300)
    else if rpo == "Fifteen_Minutes" then Some(900)
    else if rpo == "Thirty_Minutes" then Some(1800)
    else if rpo == "One_Hour" then Some(3600)
    else if rpo == "Six_Hours" then Some(21600)
    else if rpo == "Twelve_Hours" then Some(43200)
    else if rpo == "One_Day" then Some(86400)
    else None
  }

  /** The names of the RPOs and their seconds agree. */
  lemma RposAreTheirNames()
    ensures RpoSeconds("Five_Minutes") == Some(5 * 60) && RpoSeconds("Fifteen_Minutes") == Some(15 * 60)
    ensures RpoSeconds("Thirty_Minutes") == Some(30 * 60) && RpoSeconds("One_Hour") == Some(60 * 60)
    ensures RpoSeconds("Six_Hours") == Some(6 * 3600) && RpoSeconds("Twelve_Hours") == Some(12 * 3600)
    ensures RpoSeconds("One_Day") == Some(24 * 3600)
  {
  }

  /** getRpoInt: the text after the last dash. */
  function GetRpoInt(vgName: string): int {
    var tokens := Split(vgName, "-");
    match RpoSeconds(tokens[|tokens| - 1]) case Some(n) => n case None => -1
  }

  /** CreateVolume's group name, cut at 128 characters. */
  function VolumeGroupName(prefix: string, namespace: string, endpoint: string, rpo: string): string {
    var full := prefix + "-" + namespace + endpoint + "-" + rpo;
    if |full| > 128 then full[..128] else full
  }

  lemma {:induction false} LastDashToken(s: string, tail: string)
    requires '-' !in tail
    ensures var t := Split(s + "-" + tail, "-"); t[|t| - 1] == tail
    decreases |s|
  {
    var text := s + "-" + tail;
    assert text[|s|..|s| + 1] == "-";
    IndexIsLeast(text, "-", |s|);
    var i := Index(text, "-");
    if i == |s| {
      assert text[i + 1..] == tail;
      SealedByOneChar(tail, '-');
    } else {
      assert text[i + 1..] == s[i + 1..] + "-" + tail;
      LastDashToken(s[i + 1..], tail);
    }
  }

  function LastToken(s: string): string {
    var tokens := Split(s, "-");
    tokens[|tokens| - 1]
  }

  /** The RPO is read back exactly when the whole name fits into 128 characters, or when what the cut leaves
      happens to end in the same RPO. */
  lemma RpoSurvivesIffNameFits(prefix: string, namespace: string, endpoint: string, rpo: string)
    requires RpoSeconds(rpo).Some?
    ensures var full := prefix + "-" + namespace + endpoint + "-" + rpo;
            GetRpoInt(VolumeGroupName(prefix, namespace, endpoint, rpo)) == RpoSeconds(rpo).value
            <==> |full| <= 128 || LastToken(full[..128]) == rpo
  {
    var head := prefix + "-" + namespace + endpoint;
    var full := head + "-" + rpo;
    if |full| <= 128 {
      KeptRpoIsRead(head, rpo, rpo);
    } else {
      SameSeconds(LastToken(full[..128]), rpo);
    }
  }

  lemma SameSeconds(a: string, b: string)
    requires RpoSeconds(b).Some?
    ensures RpoSeconds(a) == RpoSeconds(b) <==> a == b
  {
  }

  /** A cut that falls into the RPO makes it read as -1, which blocks every failback. */
  lemma CutRpoReadsInvalid(prefix: string, namespace: string, endpoint: string, rpo: string)
    requires RpoSeconds(rpo).Some?
    requires |prefix| + |namespace| + |endpoint| + 2 <= 128 < |prefix| + |namespace| + |endpoint| + 2 + |rpo|
    ensures GetRpoInt(VolumeGroupName(prefix, namespace, endpoint, rpo)) == -1
  {
    var head := prefix + "-" + namespace + endpoint;
    var kept := rpo[..128 - |head| - 1];
    CutAt128(head, rpo, kept);
    KeptRpoIsRead(head, rpo, kept);
  }

  /** A cut before the RPO may leave another one: a group with such a prefix is taken for hourly, whatever was
      asked. */
  lemma CutMayNameAnotherRpo(start: string, namespace: string, endpoint: string, rpo: string)
    requires |start| == 119
    ensures GetRpoInt(VolumeGroupName(start + "-" + "One_Hour", namespace, endpoint, rpo)) == 3600
  {
    var prefix := start + "-" + "One_Hour";
    var full := prefix + "-" + namespace + endpoint + "-" + rpo;
    assert full[..128] == prefix;
    KeptRpoIsRead(start, "One_Hour", "One_Hour");
  }

  lemma KeptRpoIsRead(head: string, rpo: string, kept: string)
    requires RpoSeconds(rpo).Some? && kept <= rpo
    ensures GetRpoInt(head + "-" + kept) == if kept == rpo then RpoSeconds(rpo).value else -1
  {
    RpoHasNoDash(rpo);
    LastDashToken(head, kept);
    if kept != rpo { CutRpoIsInvalid(rpo, |kept|); }
  }

  lemma CutAt128(head: string, rpo: string, kept: string)
    requires |head| + 1 <= 128 && kept == if |head| + 1 + |rpo| > 128 then rpo[..128 - |head| - 1] else rpo
    ensures var full := head + "-" + rpo; (if |full| > 128 then full[..128] else full) == head + "-" + kept
  {
  }

  lemma RpoHasNoDash(rpo: string)
    requires RpoSeconds(rpo).Some?
    ensures '-' !in rpo
  {
  }

  lemma CutRpoIsInvalid(rpo: string, n: nat)
    requires RpoSeconds(rpo).Some? && n < |rpo|
    ensures RpoSeconds(rpo[..n]).None?
  {
    var cut := rpo[..n];
    assert |cut| > 2 ==> cut[0] == rpo[0] && cut[2] == rpo[2];
    assert |cut| > 4 ==> cut[4] == rpo[4];
  }
}
