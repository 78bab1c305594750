/** What each step of the lifecycle writes, field by field, and when it writes anything. */
module LifecycleSteps {
  import opened ByoModel
  import opened Lifecycle
  import opened LifecycleBinding
  import opened LifecycleEffect
  import MC = MachineController
  import HC = HostController
  import HA = HostAgent

  predicate OnlyHost(w: World, w': World, h: string) {
    && w'.now == w.now && w'.machines == w.machines && w'.phys == w.phys && w'.nextUid == w.nextUid
    && w'.hosts.Keys == w.hosts.Keys && forall g :: g in w.hosts && g != h ==> w'.hosts[g] == w.hosts[g]
  }

  /** The remediation of host x, whose node is gone: it is bound, and the mark is patched. */
  predicate MarksLost(x: Host, env: MachineEnv) {
    env.nodeGone && x.machineRef.Some? && env.markPatch
  }

  /** What serving makes of the host. */
  function ServedHost(x: Host, env: MachineEnv): Host {
    if Remediates(x, env) && !env.markPatch then x
    else
      var x1 := if Remediates(x, env) then MC.Marked(x) else x;
      if env.hostPatch then WithInstaller(x1.(paused := false), env) else x1
  }

  lemma ServePuts(w: World, h: string, env: MachineEnv)
    requires h in w.hosts
    ensures ServeHost(w, h, env).hosts == w.hosts[h := ServedHost(w.hosts[h], env)]
    ensures OnlyHost(w, ServeHost(w, h, env), h) && ServeHost(w, h, env).binder == w.binder
  {
    assert w.hosts[h := w.hosts[h]] == w.hosts;
    assert w.hosts[h := MC.Marked(w.hosts[h])][h := ServedHost(w.hosts[h], env)]
        == w.hosts[h := ServedHost(w.hosts[h], env)];
  }

  /** The remediation marks the host, and ends the reconcile if its patch fails. The next patch takes the
      pause off and gives the host an installation secret that it lacks, if the config offers one and the
      cluster is ready. Nothing else changes. */
  predicate ServedFrom(y: Host, x: Host, env: MachineEnv) {
    var marked := MarksLost(x, env);
    var patched := env.hostPatch && !(env.nodeGone && x.machineRef.Some? && !env.markPatch);
    && y.cleanup == (x.cleanup || marked)
    && y.machineRef == (if marked then None else x.machineRef)
    && y.lease == (if marked then None else x.lease)
    && y.paused == (x.paused && !patched)
    && y.installationSecret == (if patched && env.ready && x.installationSecret.None? then env.installer
                                else x.installationSecret)
    && y == x.(cleanup := y.cleanup, machineRef := y.machineRef, lease := y.lease, paused := y.paused,
               installationSecret := y.installationSecret)
  }

  lemma InstallerFields(x: Host, env: MachineEnv)
    ensures var y := WithInstaller(x, env);
            && y == x.(installationSecret := y.installationSecret)
            && y.installationSecret == if env.ready && x.installationSecret.None? then env.installer
                                       else x.installationSecret
  {
  }

  lemma ServedHostFields(x: Host, env: MachineEnv)
    ensures ServedFrom(ServedHost(x, env), x, env)
  {
    var x1 := if Remediates(x, env) then MC.Marked(x) else x;
    InstallerFields(x1.(paused := false), env);
  }

  /** What a reconcile that found its host does to it. */
  lemma ServeFields(w: World, h: string, env: MachineEnv)
    requires h in w.hosts
    ensures OnlyHost(w, ServeHost(w, h, env), h) && ServeHost(w, h, env).binder == w.binder
    ensures ServedFrom(ServeHost(w, h, env).hosts[h], w.hosts[h], env)
  {
    ServePuts(w, h, env);
    ServedHostFields(w.hosts[h], env);
  }

  /** A reconcile of a paused machine pauses the host that carries its label, and does nothing else. */
  lemma PauseFields(w: World, k: Key, env: MachineEnv, h: string)
    requires Inv(w) && k in w.machines && env.paused && h in w.hosts && Carries(w.hosts[h], k)
    ensures var w' := ReconcileMachine(w, k, env);
            && OnlyHost(w, w', h) && w'.binder == w.binder && w'.markedAt == w.markedAt
            && w'.hosts[h] == w.hosts[h].(paused := w.hosts[h].paused || env.hostPatch)
  {
    assert Found(w.hosts, k) == Some(h);
    var x := w.hosts[h];
    assert x.(paused := x.paused) == x;
  }

  /** What is on a host after its claim in the lifecycle: the binding, the lease only if the release is lost,
      and the installer's secret if the host had none. */
  ghost predicate AttachedFrom(y: Host, x: Host, k: Key, uid: nat, a: Attempt, env: MachineEnv, now: int) {
    && MC.HasBinding(y, Ref(k, uid), a.order) && MC.HasVersion(y, x, a.order) && MC.HasLabels(y, x, a.order)
    && y.lease == (if a.released then None else Some(Lease(k, now)))
    && y.installationSecret == if env.ready && x.installationSecret.None? then env.installer else x.installationSecret
  }

  lemma ClaimedHostFields(x: Host, k: Key, uid: nat, a: Attempt, env: MachineEnv, now: int)
    ensures var lease := if a.released then None else Some(Lease(k, now));
            AttachedFrom(WithInstaller(MC.Claimed(x.(lease := lease), Ref(k, uid), a.order), env),
                         x, k, uid, a, env, now)
  {
    var x1 := x.(lease := if a.released then None else Some(Lease(k, now)));
    MC.ClaimedFields(x1, Ref(k, uid), a.order);
    InstallerFields(MC.Claimed(x1, Ref(k, uid), a.order), env);
  }

  /** A claim in the lifecycle is made exactly on a host without cluster label, reference and blocking lease. */
  lemma AttachFields(w: World, k: Key, uid: nat, a: Attempt, env: MachineEnv)
    requires a.host in w.hosts
    ensures var w', x := Attach(w, k, uid, a, env), w.hosts[a.host];
            var free := x.clusterLabel.None? && x.machineRef.None? && !LeaseBlocks(x.lease, w.now);
            && OnlyHost(w, w', a.host) && (!free ==> w' == w)
            && var y := w'.hosts[a.host];
               && (free && !a.patched ==>
                     y == x.(lease := if a.released then None else Some(Lease(k, w.now))) && w'.binder == w.binder)
               && (free && a.patched ==>
                     AttachedFrom(y, x, k, uid, a, env, w.now) && w'.binder == w.binder[a.host := uid])
  {
    if CanClaim(w, a.host) && a.patched {
      PatchedAttachFields(w, k, uid, a, env);
    }
  }

  lemma PatchedAttachFields(w: World, k: Key, uid: nat, a: Attempt, env: MachineEnv)
    requires CanClaim(w, a.host) && a.patched
    ensures var w' := Attach(w, k, uid, a, env);
            && OnlyHost(w, w', a.host) && w'.binder == w.binder[a.host := uid]
            && AttachedFrom(w'.hosts[a.host], w.hosts[a.host], k, uid, a, env, w.now)
  {
    ClaimedHostFields(w.hosts[a.host], k, uid, a, env, w.now);
  }

  /** The webhook: a host object comes to be deleted, or goes at once, only by a deletion, and only while
      it has no reference. */
  lemma DeletionNeedsUnbound(w: World, s: Step, h: string)
    requires Inv(w) && h in w.hosts && w.hosts[h].deletedAt.None?
    ensures var w' := Apply(w, s);
            (h !in w'.hosts || w'.hosts[h].deletedAt.Some?) <==>
              s.DeleteHost? && s.host == h && w.hosts[h].machineRef.None?
  {
    if s.DeleteHost? {
      DeletionFields(w, s.host, s.held);
    } else {
      OthersDeleteNothing(w, s, h);
    }
  }

  lemma OthersDeleteNothing(w: World, s: Step, h: string)
    requires Inv(w) && h in w.hosts && w.hosts[h].deletedAt.None? && !s.DeleteHost?
    ensures h in Apply(w, s).hosts && Apply(w, s).hosts[h].deletedAt.None?
  {
    ApplyEffect(w, s);
    assert HostEffect(w, s, Apply(w, s), h);
    if AgentRuns(w, s, h) {
      HA.AgentFrame(w.hosts[h], PhysOf(w, h), s.skip, s.io);
    }
  }

  /** What a deletion does to the object, and that an object goes for good only once it is being deleted. */
  lemma DeletionFields(w: World, h: string, held: bool)
    ensures h !in w.hosts ==> HostDeleted(w, h, held) == w && HostFinalized(w, h) == w
    ensures h in w.hosts ==>
              var w', x := HostDeleted(w, h, held), w.hosts[h];
              w' == if x.machineRef.Some? || x.deletedAt.Some? then w
                    else if held then w.(hosts := w.hosts[h := x.(deletedAt := Some(w.now))])
                    else w.(hosts := w.hosts - {h})
    ensures h in w.hosts ==> (h in HostFinalized(w, h).hosts <==> w.hosts[h].deletedAt.None?)
  {
  }

  /** Machines: a new one has a fresh UID and no finalizer; one without a finalizer goes when it is deleted,
      and one with a finalizer stays and is marked. */
  lemma MachineFields(w: World, k: Key)
    ensures k !in w.machines ==>
              Apply(w, CreateMachine(k))
              == w.(machines := w.machines[k := Machine(w.nextUid, false, false)], nextUid := w.nextUid + 1)
    ensures k in w.machines ==>
              && Apply(w, CreateMachine(k)) == w
              && (k in Apply(w, DeleteMachine(k)).machines <==> w.machines[k].finalizer)
              && (w.machines[k].finalizer ==>
                    Apply(w, DeleteMachine(k)).machines[k] == w.machines[k].(deleting := true))
  {
  }

  /** A normal reconcile stores the finalizer if its patch lands, and serves the host that it finds. */
  lemma NormalFields(w: World, k: Key, env: MachineEnv)
    requires k in w.machines && !env.paused && !w.machines[k].deleting
    ensures var w' := ReconcileMachine(w, k, env);
            && k in w'.machines && w'.machines[k].uid == w.machines[k].uid && !w'.machines[k].deleting
            && (w'.machines[k].finalizer <==> w.machines[k].finalizer || env.lands)
            && forall j :: j in w.machines && j != k ==> j in w'.machines && w'.machines[j] == w.machines[j]
  {
  }

  /** The agent works on its machine whether or not its patch lands, and leaves a paused host alone. */
  lemma AgentStepFields(w: World, h: string, skip: bool, io: HA.AgentIO, lands: bool)
    requires h in w.hosts
    ensures var w' := ReconcileAgent(w, h, skip, io, lands);
            if w.hosts[h].paused then w' == w
            else
              var r := HA.Reconciled(w.hosts[h], PhysOf(w, h), skip, io);
              && PhysOf(w', h) == r.phys && w'.hosts == w.hosts[h := if lands then r.host else w.hosts[h]]
              && w'.machines == w.machines && w'.binder == w.binder
              && forall g :: g != h ==> PhysOf(w', g) == PhysOf(w, g)
  {
    assert w.hosts[h := w.hosts[h]] == w.hosts;
  }
}
