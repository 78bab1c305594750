/** Pool hygiene and binding coherence: what holds of every reachable world, with no assumption
    on the interleaving, on the I/O results, or on which patches land. Each reconcile reads the store
    as it is when it runs. */
module LifecycleBinding {
  import opened ByoModel
  import opened Lifecycle
  import MC = MachineController
  import HC = HostController
  import HA = HostAgent

  /** The reference of a host, when set, belongs to the machine that claimed it. */
  predicate BinderOk(w: World, h: string)
    requires h in w.hosts
  {
    var x := w.hosts[h];
    && (!x.Claimable() ==> h in w.binder && w.binder[h] < w.nextUid)
    && (x.machineRef.Some? ==> h in w.binder && x.machineRef.value.uid == w.binder[h])
  }

  predicate HostsOk(w: World) {
    forall h :: h in w.hosts ==> w.hosts[h].Coherent() && BinderOk(w, h)
  }

  /** No two hosts carry the same byomachine-name label. */
  predicate UniqueLabels(hosts: map<string, Host>) {
    forall g, h :: (g in hosts && h in hosts && hosts[g].attachedLabel.Some?
                    && hosts[g].attachedLabel == hosts[h].attachedLabel) ==> g == h
  }

  /** UIDs are never reused, and a reference to a living UID names its machine. */
  predicate UidsOk(w: World) {
    && (forall k :: k in w.machines ==> w.machines[k].uid < w.nextUid)
    && (forall j, k :: j in w.machines && k in w.machines && w.machines[j].uid == w.machines[k].uid ==> j == k)
    && (forall h, k :: h in w.hosts && k in w.machines && MC.BoundTo(w.hosts[h], w.machines[k].uid) ==>
                         w.hosts[h].machineRef.value.key == k)
  }

  predicate Inv(w: World) {
    HostsOk(w) && UniqueLabels(w.hosts) && UidsOk(w)
  }

  /** An edit that may drop, but not change, the label and the reference. */
  predicate Shrinks(x: Host, y: Host) {
    && y.Coherent()
    && (y.attachedLabel == x.attachedLabel || y.attachedLabel.None?)
    && (y.machineRef == x.machineRef || y.machineRef.None?)
    && (x.Claimable() ==> y.Claimable())
  }

  lemma PutHostKeepsInv(w: World, h: string, y: Host)
    requires Inv(w) && h in w.hosts && Shrinks(w.hosts[h], y)
    ensures Inv(PutHost(w, h, y))
  {
    var w' := PutHost(w, h, y);
    assert BinderOk(w', h) by { assert BinderOk(w, h); }
    forall g | g in w'.hosts && g != h
      ensures w'.hosts[g].Coherent() && BinderOk(w', g)
    {
      assert BinderOk(w, g);
    }
    forall g, k | g in w'.hosts && k in w'.machines && MC.BoundTo(w'.hosts[g], w'.machines[k].uid)
      ensures w'.hosts[g].machineRef.value.key == k
    {
      assert MC.BoundTo(w.hosts[g], w.machines[k].uid);
    }
  }

  lemma MachinesChangeKeepsInv(w: World, k: Key, deleting: bool, finalizer: bool)
    requires Inv(w) && k in w.machines
    ensures Inv(w.(machines := w.machines - {k}))
    ensures Inv(w.(machines := w.machines[k := Machine(w.machines[k].uid, deleting, finalizer)]))
  {
    forall g | g in w.hosts
      ensures BinderOk(w.(machines := w.machines - {k}), g)
      ensures BinderOk(w.(machines := w.machines[k := Machine(w.machines[k].uid, deleting, finalizer)]), g)
    {
      assert BinderOk(w, g);
    }
  }

  lemma CreateMachineKeepsInv(w: World, k: Key)
    requires Inv(w)
    ensures Inv(Apply(w, CreateMachine(k)))
  {
    var w' := Apply(w, CreateMachine(k));
    forall g | g in w'.hosts
      ensures BinderOk(w', g)
    {
      assert BinderOk(w, g);
    }
    forall g, j | g in w'.hosts && j in w'.machines && MC.BoundTo(w'.hosts[g], w'.machines[j].uid)
      ensures w'.hosts[g].machineRef.value.key == j
    {
      assert BinderOk(w, g);
      assert j in w.machines;
    }
  }

  lemma RemoveHostKeepsInv(w: World, h: string)
    requires Inv(w)
    ensures Inv(w.(hosts := w.hosts - {h}))
  {
    var w' := w.(hosts := w.hosts - {h});
    forall g | g in w'.hosts
      ensures BinderOk(w', g)
    {
      assert BinderOk(w, g);
    }
  }

  lemma RegisterKeepsInv(w: World, h: string)
    requires Inv(w)
    ensures Inv(Apply(w, Register(h)))
  {
    var w' := Apply(w, Register(h));
    forall g | g in w'.hosts && g in w.hosts
      ensures BinderOk(w', g)
    {
      assert BinderOk(w, g);
    }
  }

  /** A claim is taken only by a machine that no host carries the label of, on a pristine host. */
  lemma ClaimedHostOk(w: World, k: Key, a: Attempt, env: MachineEnv)
    requires Inv(w) && k in w.machines && CanClaim(w, a.host) && a.patched
    ensures var w' := Attach(w, k, w.machines[k].uid, a, env);
            && w'.hosts[a.host].Coherent() && BinderOk(w', a.host) && Carries(w'.hosts[a.host], k)
            && w'.hosts[a.host].machineRef == Some(Ref(k, w.machines[k].uid))
  {
  }

  lemma AttachKeepsInv(w: World, k: Key, a: Attempt, env: MachineEnv)
    requires Inv(w) && k in w.machines
    requires forall h :: h in w.hosts ==> !Carries(w.hosts[h], k)
    ensures Inv(Attach(w, k, w.machines[k].uid, a, env))
  {
    var w' := Attach(w, k, w.machines[k].uid, a, env);
    if CanClaim(w, a.host) && !a.patched {
      PutHostKeepsInv(w, a.host, w'.hosts[a.host]);
    } else if CanClaim(w, a.host) {
      ClaimedHostOk(w, k, a, env);
      forall g | g in w'.hosts && g != a.host
        ensures w'.hosts[g].Coherent() && BinderOk(w', g)
      {
        assert BinderOk(w, g);
      }
      forall g, j | g in w'.hosts && j in w'.machines && MC.BoundTo(w'.hosts[g], w'.machines[j].uid)
        ensures w'.hosts[g].machineRef.value.key == j
      {
        assert g != a.host ==> MC.BoundTo(w.hosts[g], w.machines[j].uid);
      }
    }
  }

  /** Why the lookup by label must be up to date: a claim by machine k keeps labels unique exactly when
      no host carries the label of k. Where one does, only a lookup that lags behind gets so far. */
  lemma AttachKeepsUniqueExactly(w: World, k: Key, a: Attempt, env: MachineEnv)
    requires Inv(w) && k in w.machines && CanClaim(w, a.host) && a.patched
    ensures UniqueLabels(Attach(w, k, w.machines[k].uid, a, env).hosts) <==>
              forall h :: h in w.hosts ==> !Carries(w.hosts[h], k)
  {
    var w' := Attach(w, k, w.machines[k].uid, a, env);
    ClaimedHostOk(w, k, a, env);
    assert !Carries(w.hosts[a.host], k);
    if h :| h in w.hosts && Carries(w.hosts[h], k) {
      assert h != a.host && w'.hosts[h].attachedLabel == w'.hosts[a.host].attachedLabel;
    } else {
      AttachKeepsInv(w, k, a, env);
    }
  }

  lemma MarkHostKeepsInv(w: World, h: string)
    requires Inv(w) && h in w.hosts && !w.hosts[h].Claimable()
    ensures Inv(MarkHost(w, h)) && h in MarkHost(w, h).hosts && !MarkHost(w, h).hosts[h].Claimable()
  {
    PutHostKeepsInv(w, h, MC.Marked(w.hosts[h]));
    var w1 := PutHost(w, h, MC.Marked(w.hosts[h]));
    forall g | g in w1.hosts
      ensures BinderOk(MarkHost(w, h), g)
    {
      assert BinderOk(w1, g);
    }
  }

  lemma ServeHostKeepsInv(w: World, h: string, env: MachineEnv)
    requires Inv(w) && h in w.hosts && !w.hosts[h].Claimable()
    ensures Inv(ServeHost(w, h, env))
  {
    MarkHostKeepsInv(w, h);
    var w1 := if Remediates(w.hosts[h], env) then MarkHost(w, h) else w;
    PutHostKeepsInv(w1, h, WithInstaller(w1.hosts[h].(paused := false), env));
  }

  /** The deletion finds no host exactly when none carries the label and none is bound to the UID. */
  lemma FallbackExactly(w: World, k: Key, uid: nat)
    ensures FoundForDelete(w, k, uid).None? <==>
              forall h :: h in w.hosts ==> !Carries(w.hosts[h], k) && !MC.BoundTo(w.hosts[h], uid)
  {
  }

  /** The search by UID never finds a host that the search by label misses. */
  lemma UidFallbackRedundant(w: World, k: Key)
    requires Inv(w) && k in w.machines
    ensures FoundForDelete(w, k, w.machines[k].uid) == Found(w.hosts, k)
  {
    if Found(w.hosts, k).None? {
      forall h | h in w.hosts
        ensures !MC.BoundTo(w.hosts[h], w.machines[k].uid)
      {
        assert w.hosts[h].Coherent() && !Carries(w.hosts[h], k);
      }
    }
  }

  lemma ReconcileDeleteKeepsInv(w: World, k: Key, env: MachineEnv)
    requires Inv(w) && k in w.machines
    ensures Inv(ReconcileDelete(w, k, env))
  {
    UidFallbackRedundant(w, k);
    MachinesChangeKeepsInv(w, k, true, true);
    var f := Found(w.hosts, k);
    if f.Some? {
      assert w.hosts[f.value].Coherent();
      MarkHostKeepsInv(w, f.value);
    }
  }

  lemma ReconcileNormalKeepsInv(w: World, k: Key, env: MachineEnv)
    requires Inv(w) && k in w.machines
    ensures Inv(ReconcileNormal(w, k, env))
  {
    MachinesChangeKeepsInv(w, k, w.machines[k].deleting, true);
    var w0 := AddFinalizer(w, k, env.lands);
    var f := Found(w.hosts, k);
    if f.Some? {
      assert w.hosts[f.value].Coherent();
      ServeHostKeepsInv(w0, f.value, env);
    } else if env.attempt.Some? {
      AttachKeepsInv(w0, k, env.attempt.value, env);
    }
  }

  lemma ReconcileMachineKeepsInv(w: World, k: Key, env: MachineEnv)
    requires Inv(w) && k in w.machines
    ensures Inv(ReconcileMachine(w, k, env))
  {
    if env.paused {
      var f := Found(w.hosts, k);
      if f.Some? {
        PutHostKeepsInv(w, f.value, w.hosts[f.value].(paused := true));
      }
    } else if w.machines[k].deleting {
      ReconcileDeleteKeepsInv(w, k, env);
    } else {
      ReconcileNormalKeepsInv(w, k, env);
    }
  }

  lemma AgentKeepsInv(w: World, h: string, skip: bool, io: HA.AgentIO, lands: bool)
    requires Inv(w)
    ensures Inv(Apply(w, AgentReconcile(h, skip, io, lands)))
  {
    var w' := Apply(w, AgentReconcile(h, skip, io, lands));
    if h in w.hosts && !w.hosts[h].paused {
      var r := HA.Reconciled(w.hosts[h], PhysOf(w, h), skip, io);
      HA.AgentOrderly(w.hosts[h], PhysOf(w, h), skip, io);
      AgentNeverRebinds(w.hosts[h], PhysOf(w, h), skip, io);
      PutHostKeepsInv(w, h, r.host);
      var w1 := if lands then PutHost(w, h, r.host) else w;
      forall g | g in w1.hosts
        ensures BinderOk(w', g)
      {
        assert BinderOk(w1, g);
      }
    }
  }

  lemma AgentNeverRebinds(x: Host, p: HA.Phys, skip: bool, io: HA.AgentIO)
    requires x.Coherent()
    ensures Shrinks(x, HA.Reconciled(x, p, skip, io).host)
  {
    HA.AgentOrderly(x, p, skip, io);
    HA.AgentFrame(x, p, skip, io);
  }

  lemma HostReconcileShrinks(x: Host, now: int, timeout: int, node: HC.NodeIO)
    requires x.Coherent()
    ensures Shrinks(x, HC.Reconciled(x, now, timeout, node).host)
  {
  }

  /** Every step keeps hygiene and coherence. */
  lemma ApplyKeepsInv(w: World, s: Step)
    requires Inv(w)
    ensures Inv(Apply(w, s))
  {
    match s
    case Tick(elapsed) =>
      forall g | g in w.hosts
        ensures BinderOk(Apply(w, s), g)
      {
        assert BinderOk(w, g);
      }
    case Register(h) => RegisterKeepsInv(w, h);
    case CreateMachine(k) => CreateMachineKeepsInv(w, k);
    case DeleteMachine(k) => if k in w.machines { MachinesChangeKeepsInv(w, k, true, true); }
    case MachineReconcile(k, env) => if k in w.machines { ReconcileMachineKeepsInv(w, k, env); }
    case HostReconcile(h, timeout, node) =>
      if h in w.hosts {
        HostReconcileShrinks(w.hosts[h], w.now, timeout, node);
        PutHostKeepsInv(w, h, HC.Reconciled(w.hosts[h], w.now, timeout, node).host);
      }
    case AgentReconcile(h, skip, io, lands) => AgentKeepsInv(w, h, skip, io, lands);
    case DeleteHost(h, held) =>
      RemoveHostKeepsInv(w, h);
      if h in w.hosts { PutHostKeepsInv(w, h, w.hosts[h].(deletedAt := Some(w.now))); }
    case FinalizeHost(h) => RemoveHostKeepsInv(w, h);
  }

  lemma {:induction false} ExecFromKeepsInv(w: World, steps: seq<Step>)
    requires Inv(w)
    ensures Inv(Exec(w, steps))
    decreases |steps|
  {
    if steps != [] {
      ExecFromKeepsInv(w, steps[..|steps| - 1]);
      ApplyKeepsInv(Exec(w, steps[..|steps| - 1]), steps[|steps| - 1]);
    }
  }

  /** Every reachable world satisfies the invariant. */
  lemma {:induction false} ExecKeepsInv(steps: seq<Step>)
    ensures Inv(Exec(INIT, steps))
  {
    ExecFromKeepsInv(INIT, steps);
  }

  /** Pool hygiene: after any run, a host without the cluster label carries nothing of an earlier
      binding, and the start-time annotation exists only beside the cleanup annotation. */
  lemma {:induction false} PoolHygiene(steps: seq<Step>, h: string)
    requires h in Exec(INIT, steps).hosts
    ensures var x := Exec(INIT, steps).hosts[h];
            && (x.clusterLabel.None? ==>
                  && x.attachedLabel.None? && x.machineRef.None? && x.bootstrapSecret.None?
                  && x.installationSecret.None? && x.uninstallScript.None?
                  && !x.cleanup && x.startedAt.None?
                  && x.endpoint.None? && x.version.None? && x.registry.None?
                  && !x.bootstrapped && !x.installed)
            && (x.startedAt.Some? ==> x.cleanup && x.startedAt.value.At?)
  {
    ExecKeepsInv(steps);
  }

  /** Binding coherence: after any run, a set reference comes with both labels and the bootstrap
      secret, and looking a machine up by label returns exactly the host bound to it. */
  lemma {:induction false} BindingCoherence(steps: seq<Step>, h: string, k: Key)
    requires h in Exec(INIT, steps).hosts
    requires var r := Exec(INIT, steps).hosts[h].machineRef; r.Some? && r.value.key == k
    ensures var w := Exec(INIT, steps);
            && w.hosts[h].clusterLabel.Some? && w.hosts[h].bootstrapSecret.Some?
            && Carries(w.hosts[h], k)
            && Found(w.hosts, k) == Some(h)
            && forall g :: g in w.hosts && g != h ==>
                             && !Carries(w.hosts[g], k)
                             && !(w.hosts[g].machineRef.Some? && w.hosts[g].machineRef.value.key == k)
  {
    ExecKeepsInv(steps);
  }

  /** Each machine is attached to at most one host, and each label value names one machine. */
  lemma OneHostPerMachine(steps: seq<Step>, g: string, h: string, j: Key, k: Key)
    requires var w := Exec(INIT, steps);
             g in w.hosts && h in w.hosts && Carries(w.hosts[g], j) && Carries(w.hosts[h], k)
    ensures g == h <==> j == k
  {
    ExecKeepsInv(steps);
    if g == h {
      AttachedLabelInjective(j, k);
    }
  }
}
