/** The host lifecycle: the ByoMachine controller, the ByoHost controller, the host agents, the
    deletion webhook and the users, interleaved at the grain of one reconcile. A step carries
    every choice of its environment, so `Apply` is a function and a run is a list of steps. */
module Lifecycle {
  import opened ByoModel
  import MC = MachineController
  import HC = HostController
  import HA = HostAgent

  datatype Machine = Machine(uid: nat, deleting: bool, finalizer: bool)

  /** `binder` and `markedAt` are history: the UID of the machine that last claimed a host, and
      when the cleanup annotation of a host last went from absent to present. */
  datatype World = World(
    now: int,
    hosts: map<string, Host>,
    machines: map<Key, Machine>,
    phys: map<string, HA.Phys>,
    nextUid: nat,
    binder: map<string, nat>,
    markedAt: map<string, int>)

  const INIT: World := World(0, map[], map[], map[], 0, map[], map[])

  /** One attempt of the attach loop that reaches the lease. */
  datatype Attempt = Attempt(host: string, order: MC.ClaimOrder, patched: bool, released: bool)

  /** What a ByoMachine reconcile meets: pause, a remediated machine whose node is gone, readiness
      of infrastructure and bootstrap secret, a host to try, the secret of a Ready installer
      config, and whether its patches succeed: the remediation's mark, any other patch of the host,
      and the deferred patch of the machine. */
  datatype MachineEnv = MachineEnv(
    paused: bool,
    nodeGone: bool,
    ready: bool,
    attempt: Option<Attempt>,
    installer: Option<string>,
    markPatch: bool,
    hostPatch: bool,
    lands: bool)

  datatype Step =
    | Tick(elapsed: nat)
    | Register(host: string)
    | CreateMachine(key: Key)
    | DeleteMachine(key: Key)
    | MachineReconcile(key: Key, env: MachineEnv)
    | HostReconcile(host: string, timeout: int, node: HC.NodeIO)
    | AgentReconcile(host: string, skip: bool, io: HA.AgentIO, lands: bool)
    | DeleteHost(host: string, held: bool)
    | FinalizeHost(host: string)

  function PhysOf(w: World, h: string): HA.Phys {
    if h in w.phys then w.phys[h] else HA.CLEAN
  }

  function PutHost(w: World, h: string, x: Host): World {
    w.(hosts := w.hosts[h := x])
  }

  // ---- ByoMachine controller ------------------------------------------------------------------

  predicate Carries(x: Host, k: Key) {
    x.attachedLabel == Some(AttachedLabel(k))
  }

  /** FetchAttachedByoHost: some host that carries the machine's label. */
  ghost function Found(hosts: map<string, Host>, k: Key): (f: Option<string>)
    ensures f.Some? ==> f.value in hosts && Carries(hosts[f.value], k)
    ensures f.None? ==> forall h :: h in hosts ==> !Carries(hosts[h], k)
  {
    if exists h :: h in hosts && Carries(hosts[h], k)
    then var h :| h in hosts && Carries(hosts[h], k); Some(h)
    else None
  }

  /** reconcileDelete falls back on the UID in machineRef. */
  ghost function FoundForDelete(w: World, k: Key, uid: nat): (f: Option<string>)
    ensures f.Some? ==> f.value in w.hosts
                        && (Carries(w.hosts[f.value], k) || MC.BoundTo(w.hosts[f.value], uid))
    ensures f.None? ==> forall h :: h in w.hosts ==> !Carries(w.hosts[h], k)
    ensures Found(w.hosts, k).Some? ==> f == Found(w.hosts, k)
  {
    if Found(w.hosts, k).Some? then Found(w.hosts, k)
    else if exists h :: h in w.hosts && MC.BoundTo(w.hosts[h], uid)
    then var h :| h in w.hosts && MC.BoundTo(w.hosts[h], uid); Some(h)
    else None
  }

  function MarkHost(w: World, h: string): (w': World)
    requires h in w.hosts
    ensures w'.machines == w.machines && w'.phys == w.phys
  {
    PutHost(w, h, MC.Marked(w.hosts[h])).(
      markedAt := if w.hosts[h].cleanup then w.markedAt else w.markedAt[h := w.now])
  }

  function WithInstaller(x: Host, env: MachineEnv): Host {
    if env.ready && env.installer.Some? && x.installationSecret.None?
    then x.(installationSecret := env.installer) else x
  }

  predicate Remediates(x: Host, env: MachineEnv) {
    env.nodeGone && x.machineRef.Some?
  }

  /** A reconcile that found its host: remediation, unpausing, installation secret. A failed patch ends
      it where it is. */
  function ServeHost(w: World, h: string, env: MachineEnv): (w': World)
    requires h in w.hosts
    ensures w'.machines == w.machines && w'.phys == w.phys
  {
    if Remediates(w.hosts[h], env) && !env.markPatch then w
    else
      var w1 := if Remediates(w.hosts[h], env) then MarkHost(w, h) else w;
      if env.hostPatch then PutHost(w1, h, WithInstaller(w1.hosts[h].(paused := false), env)) else w1
  }

  predicate CanClaim(w: World, h: string) {
    && h in w.hosts && w.hosts[h].Claimable() && w.hosts[h].machineRef.None?
    && !LeaseBlocks(w.hosts[h].lease, w.now)
  }

  function Attach(w: World, k: Key, uid: nat, a: Attempt, env: MachineEnv): (w': World)
    ensures w'.machines == w.machines && w'.phys == w.phys
  {
    if !CanClaim(w, a.host) then w
    else
      var x := w.hosts[a.host].(lease := if a.released then None else Some(Lease(k, w.now)));
      if !a.patched then PutHost(w, a.host, x)
      else PutHost(w, a.host, WithInstaller(MC.Claimed(x, Ref(k, uid), a.order), env)).(
             binder := w.binder[a.host := uid])
  }

  ghost function ReconcilePaused(w: World, k: Key, env: MachineEnv): (w': World)
    ensures w'.machines == w.machines && w'.phys == w.phys
  {
    var f := Found(w.hosts, k);
    if f.Some? && env.hostPatch then PutHost(w, f.value, w.hosts[f.value].(paused := true)) else w
  }

  ghost function ReconcileDelete(w: World, k: Key, env: MachineEnv): (w': World)
    requires k in w.machines
    ensures w'.phys == w.phys
    ensures w'.machines == w.machines || w' == w.(machines := w.machines - {k})
  {
    var f := FoundForDelete(w, k, w.machines[k].uid);
    match MC.DeleteActionFor(if f.Some? then Some(w.hosts[f.value]) else None, w.now)
    case Mark => if env.hostPatch && f.Some? then MarkHost(w, f.value) else w
    case Wait => w
    case Finish => if env.lands then w.(machines := w.machines - {k}) else w
  }

  function AddFinalizer(w: World, k: Key, lands: bool): World
    requires k in w.machines
  {
    if lands then w.(machines := w.machines[k := w.machines[k].(finalizer := true)]) else w
  }

  ghost function ReconcileNormal(w: World, k: Key, env: MachineEnv): (w': World)
    requires k in w.machines
    ensures w'.phys == w.phys && w'.machines == AddFinalizer(w, k, env.lands).machines
  {
    var w0 := AddFinalizer(w, k, env.lands);
    var f := Found(w.hosts, k);
    if f.Some? then ServeHost(w0, f.value, env)
    else if env.ready && env.attempt.Some? then
      Attach(w0, k, w.machines[k].uid, env.attempt.value, env)
    else w0
  }

  ghost function ReconcileMachine(w: World, k: Key, env: MachineEnv): (w': World)
    requires k in w.machines
    ensures w'.phys == w.phys
  {
    if env.paused then ReconcilePaused(w, k, env)
    else if w.machines[k].deleting then ReconcileDelete(w, k, env)
    else ReconcileNormal(w, k, env)
  }

  // ---- The whole system -----------------------------------------------------------------------

  /** The agent's reconcile; paused hosts are filtered out of its watch. */
  function ReconcileAgent(w: World, h: string, skip: bool, io: HA.AgentIO, lands: bool): World {
    if h !in w.hosts || w.hosts[h].paused then w
    else
      var r := HA.Reconciled(w.hosts[h], PhysOf(w, h), skip, io);
      w.(hosts := if lands then w.hosts[h := r.host] else w.hosts, phys := w.phys[h := r.phys])
  }

  /** The webhook denies deletion while machineRef is set. A foreign finalizer may hold the object. */
  function HostDeleted(w: World, h: string, held: bool): World {
    if h !in w.hosts || w.hosts[h].machineRef.Some? || w.hosts[h].deletedAt.Some? then w
    else if held then PutHost(w, h, w.hosts[h].(deletedAt := Some(w.now)))
    else w.(hosts := w.hosts - {h})
  }

  function HostFinalized(w: World, h: string): World {
    if h !in w.hosts || w.hosts[h].deletedAt.None? then w else w.(hosts := w.hosts - {h})
  }

  ghost function Apply(w: World, s: Step): World {
    match s
    case Tick(elapsed) => w.(now := w.now + elapsed)
    case Register(h) => if h in w.hosts then w else PutHost(w, h, FRESH_HOST)
    case CreateMachine(k) =>
      if k in w.machines then w
      else w.(machines := w.machines[k := Machine(w.nextUid, false, false)], nextUid := w.nextUid + 1)
    case DeleteMachine(k) =>
      if k !in w.machines then w
      else if w.machines[k].finalizer then
        w.(machines := w.machines[k := w.machines[k].(deleting := true)])
      else w.(machines := w.machines - {k})
    case MachineReconcile(k, env) => if k in w.machines then ReconcileMachine(w, k, env) else w
    case HostReconcile(h, timeout, node) =>
      if h !in w.hosts then w
      else PutHost(w, h, HC.Reconciled(w.hosts[h], w.now, timeout, node).host)
    case AgentReconcile(h, skip, io, lands) => ReconcileAgent(w, h, skip, io, lands)
    case DeleteHost(h, held) => HostDeleted(w, h, held)
    case FinalizeHost(h) => HostFinalized(w, h)
  }

  /** The state after a run. */
  ghost function Exec(w: World, steps: seq<Step>): World
    decreases |steps|
  {
    if steps == [] then w else Apply(Exec(w, steps[..|steps| - 1]), steps[|steps| - 1])
  }

  lemma ExecNext(w: World, steps: seq<Step>, i: nat)
    requires i < |steps|
    ensures Exec(w, steps[..i + 1]) == Apply(Exec(w, steps[..i]), steps[i])
  {
    assert steps[..i + 1][..i] == steps[..i];
  }

  /** A condition that every step of a run meets in the state it is taken from. */
  ghost predicate Every(w: World, steps: seq<Step>, ok: (World, Step) -> bool) {
    forall i :: 0 <= i < |steps| ==> ok(Exec(w, steps[..i]), steps[i])
  }

  lemma EveryPrefix(w: World, steps: seq<Step>, ok: (World, Step) -> bool, n: nat)
    requires Every(w, steps, ok) && n <= |steps|
    ensures Every(w, steps[..n], ok)
  {
    forall i | 0 <= i < n
      ensures ok(Exec(w, steps[..n][..i]), steps[..n][i])
    {
      assert steps[..n][..i] == steps[..i];
    }
  }
}
