/** What one step can do to one host, one machine entry and one physical machine. The run-level
    proofs reason from this relation instead of from the step function. */
module LifecycleEffect {
  import opened ByoModel
  import opened Lifecycle
  import opened LifecycleBinding
  import MC = MachineController
  import HC = HostController
  import HA = HostAgent

  predicate AgentRuns(w: World, s: Step, h: string) {
    s.AgentReconcile? && s.host == h && h in w.hosts && !w.hosts[h].paused
  }

  function AgentResult(w: World, s: Step, h: string): HA.Result
    requires AgentRuns(w, s, h)
  {
    HA.Reconciled(w.hosts[h], PhysOf(w, h), s.skip, s.io)
  }

  /** A labelled host is cleaned up to the end, and its patch lands. */
  predicate FreesByCleanup(w: World, s: Step, h: string) {
    && AgentRuns(w, s, h) && s.lands && !w.hosts[h].Claimable()
    && HA.CleansThrough(w.hosts[h], PhysOf(w, h), s.skip, s.io)
  }

  /** This step claims host h: the reconcile found no host by label, and its claim patch lands. */
  ghost predicate Claims(w: World, s: Step, h: string) {
    && s.MachineReconcile? && s.key in w.machines && !s.env.paused && !w.machines[s.key].deleting
    && Found(w.hosts, s.key).None? && s.env.ready && s.env.attempt.Some?
    && s.env.attempt.value.patched && s.env.attempt.value.host == h && CanClaim(w, h)
  }

  predicate SameBinder(w: World, w': World, h: string) {
    (h in w.binder <==> h in w'.binder) && (h in w.binder ==> w'.binder[h] == w.binder[h])
  }

  /** An edit by one of the controllers: labels and deletion stay, and neither condition is lowered. */
  predicate Kept(x: Host, y: Host) {
    && y.clusterLabel == x.clusterLabel && y.attachedLabel == x.attachedLabel
    && y.deletedAt == x.deletedAt && (x.bootstrapped ==> y.bootstrapped)
  }

  predicate Condemned(x: Host, y: Host) {
    && y.clusterLabel == x.clusterLabel && y.attachedLabel == x.attachedLabel
    && y.deletedAt.Some? && y.bootstrapped == x.bootstrapped
  }

  ghost predicate ClaimEffect(w: World, s: Step, w': World, h: string)
    requires Claims(w, s, h) && h in w'.hosts
  {
    var x, y := w.hosts[h], w'.hosts[h];
    && Carries(y, s.key) && !y.Claimable() && y.deletedAt == x.deletedAt && y.bootstrapped == x.bootstrapped
    && h in w'.binder && w'.binder[h] == w.machines[s.key].uid
    && s.key in w'.machines
    && w'.machines[s.key] == w.machines[s.key].(finalizer := s.env.lands || w.machines[s.key].finalizer)
  }

  /** Everything that can happen to a host other than an agent patch. */
  ghost predicate QuietEffect(w: World, s: Step, w': World, h: string) {
    if h !in w.hosts then
      h in w'.hosts ==> s == Register(h) && w'.hosts[h] == FRESH_HOST
    else if Claims(w, s, h) then
      h in w'.hosts && ClaimEffect(w, s, w', h)
    else if h !in w'.hosts then
      s == DeleteHost(h, false) || (s == FinalizeHost(h) && w.hosts[h].deletedAt.Some?)
    else
      || (SameBinder(w, w', h) && Kept(w.hosts[h], w'.hosts[h]))
      || (SameBinder(w, w', h) && s == DeleteHost(h, true) && Condemned(w.hosts[h], w'.hosts[h]))
  }

  predicate AgentPatch(w: World, s: Step, w': World, h: string) {
    && SameBinder(w, w', h) && AgentRuns(w, s, h) && s.lands
    && h in w'.hosts && w'.hosts[h] == AgentResult(w, s, h).host
  }

  ghost predicate HostEffect(w: World, s: Step, w': World, h: string) {
    if AgentRuns(w, s, h) && s.lands then AgentPatch(w, s, w', h) else QuietEffect(w, s, w', h)
  }

  /** A machine with a finalizer stays, unless its own reconcile finds that every host carrying
      its label is being deleted. */
  ghost predicate MachineEffect(w: World, s: Step, w': World, k: Key) {
    k in w.machines && w.machines[k].finalizer ==>
      || (k in w'.machines && w'.machines[k].finalizer && w'.machines[k].uid == w.machines[k].uid)
      || (forall h :: h in w.hosts && Carries(w.hosts[h], k) ==> w.hosts[h].deletedAt.Some?)
  }

  predicate PhysEffect(w: World, s: Step, w': World, h: string) {
    PhysOf(w', h) == if AgentRuns(w, s, h) then AgentResult(w, s, h).phys else PhysOf(w, h)
  }

  ghost predicate Effect(w: World, s: Step, w': World) {
    && (forall h {:trigger HostEffect(w, s, w', h)} :: HostEffect(w, s, w', h))
    && (forall k {:trigger MachineEffect(w, s, w', k)} :: MachineEffect(w, s, w', k))
    && (forall h {:trigger PhysEffect(w, s, w', h)} :: PhysEffect(w, s, w', h))
  }

  /** A controller edit of host g, as seen by any host h. */
  lemma EditEffect(w: World, s: Step, w': World, g: string, h: string)
    requires g in w.hosts && w'.hosts.Keys == w.hosts.Keys && w'.binder == w.binder && !Claims(w, s, h)
    requires forall f :: f in w.hosts && f != g ==> w'.hosts[f] == w.hosts[f]
    requires Kept(w.hosts[g], w'.hosts[g])
    ensures QuietEffect(w, s, w', h)
  {
  }

  lemma ClaimPatchEffect(w: World, k: Key, env: MachineEnv, h: string)
    requires Claims(w, MachineReconcile(k, env), h)
    ensures var w' := Attach(AddFinalizer(w, k, env.lands), k, w.machines[k].uid, env.attempt.value, env);
            h in w'.hosts && ClaimEffect(w, MachineReconcile(k, env), w', h)
  {
  }

  lemma AttachEffect(w: World, k: Key, env: MachineEnv, h: string)
    requires k in w.machines && !env.paused && !w.machines[k].deleting
    requires Found(w.hosts, k).None? && env.ready && env.attempt.Some?
    ensures var w' := Attach(AddFinalizer(w, k, env.lands), k, w.machines[k].uid, env.attempt.value, env);
            QuietEffect(w, MachineReconcile(k, env), w', h)
  {
    var s, g := MachineReconcile(k, env), env.attempt.value.host;
    var w' := Attach(AddFinalizer(w, k, env.lands), k, w.machines[k].uid, env.attempt.value, env);
    if Claims(w, s, h) {
      ClaimPatchEffect(w, k, env, h);
    } else if Claims(w, s, g) {
      assert h in w.hosts ==> w'.hosts[h] == w.hosts[h] && SameBinder(w, w', h);
    } else if CanClaim(w, g) {
      EditEffect(w, s, w', g, h);
    }
  }

  /** A reconcile that found its host edits no other. */
  lemma ServeEffect(w: World, g: string, env: MachineEnv)
    requires g in w.hosts
    ensures var w' := ServeHost(w, g, env);
            && w'.hosts.Keys == w.hosts.Keys && w'.binder == w.binder && Kept(w.hosts[g], w'.hosts[g])
            && forall f :: f in w.hosts && f != g ==> w'.hosts[f] == w.hosts[f]
  {
  }

  lemma NormalEffect(w: World, k: Key, env: MachineEnv, h: string)
    requires k in w.machines && !env.paused && !w.machines[k].deleting
    ensures QuietEffect(w, MachineReconcile(k, env), ReconcileNormal(w, k, env), h)
  {
    var s, w' := MachineReconcile(k, env), ReconcileNormal(w, k, env);
    var f := Found(w.hosts, k);
    if f.Some? {
      ServeEffect(AddFinalizer(w, k, env.lands), f.value, env);
      EditEffect(w, s, w', f.value, h);
    } else if env.ready && env.attempt.Some? {
      AttachEffect(w, k, env, h);
    }
  }

  lemma DeleteEffect(w: World, k: Key, env: MachineEnv, h: string)
    requires k in w.machines && w.machines[k].deleting
    requires FoundForDelete(w, k, w.machines[k].uid) == Found(w.hosts, k)
    ensures QuietEffect(w, MachineReconcile(k, env), ReconcileDelete(w, k, env), h)
  {
    var f := Found(w.hosts, k);
    if f.Some? {
      EditEffect(w, MachineReconcile(k, env), ReconcileDelete(w, k, env), f.value, h);
    }
  }

  lemma PausedEffect(w: World, k: Key, env: MachineEnv, h: string)
    requires env.paused
    ensures QuietEffect(w, MachineReconcile(k, env), ReconcilePaused(w, k, env), h)
  {
    var f := Found(w.hosts, k);
    if f.Some? {
      EditEffect(w, MachineReconcile(k, env), ReconcilePaused(w, k, env), f.value, h);
    }
  }

  lemma MachineStepEffect(w: World, k: Key, env: MachineEnv, h: string)
    requires k in w.machines && FoundForDelete(w, k, w.machines[k].uid) == Found(w.hosts, k)
    ensures QuietEffect(w, MachineReconcile(k, env), ReconcileMachine(w, k, env), h)
  {
    if env.paused {
      PausedEffect(w, k, env, h);
    } else if w.machines[k].deleting {
      DeleteEffect(w, k, env, h);
    } else {
      NormalEffect(w, k, env, h);
    }
  }

  lemma AgentStepEffect(w: World, s: Step, h: string)
    requires s.AgentReconcile?
    ensures HostEffect(w, s, ReconcileAgent(w, s.host, s.skip, s.io, s.lands), h)
  {
    var w' := ReconcileAgent(w, s.host, s.skip, s.io, s.lands);
    assert SameBinder(w, w', h);
    if h in w.hosts && !(AgentRuns(w, s, h) && s.lands) {
      assert Kept(w.hosts[h], w'.hosts[h]);
    }
  }

  lemma HostStepEffect(w: World, s: Step, h: string)
    requires s.HostReconcile?
    ensures QuietEffect(w, s, Apply(w, s), h)
  {
    if s.host in w.hosts {
      EditEffect(w, s, Apply(w, s), s.host, h);
    }
  }

  lemma DeletionEffect(w: World, g: string, held: bool, h: string)
    ensures QuietEffect(w, DeleteHost(g, held), HostDeleted(w, g, held), h)
  {
    var w' := HostDeleted(w, g, held);
    if h in w.hosts && h in w'.hosts && !(h == g && held && w' != w) {
      assert w'.hosts[h] == w.hosts[h];
    }
  }

  lemma FinalizationEffect(w: World, g: string, h: string)
    ensures QuietEffect(w, FinalizeHost(g), HostFinalized(w, g), h)
  {
  }

  lemma OtherStepEffect(w: World, s: Step, h: string)
    requires s.Tick? || s.Register? || s.CreateMachine? || s.DeleteMachine?
    ensures QuietEffect(w, s, Apply(w, s), h)
  {
    assert h in w.hosts ==> Apply(w, s).hosts[h] == w.hosts[h];
  }

  lemma StepEffectOnHost(w: World, s: Step, h: string)
    requires Inv(w)
    ensures HostEffect(w, s, Apply(w, s), h)
  {
    match s
    case MachineReconcile(k, env) =>
      if k in w.machines {
        UidFallbackRedundant(w, k);
        MachineStepEffect(w, k, env, h);
      }
    case AgentReconcile(_, _, _, _) => AgentStepEffect(w, s, h);
    case HostReconcile(_, _, _) => HostStepEffect(w, s, h);
    case DeleteHost(g, held) => DeletionEffect(w, g, held, h);
    case FinalizeHost(g) => FinalizationEffect(w, g, h);
    case _ => OtherStepEffect(w, s, h);
  }

  lemma StepEffectOnMachine(w: World, s: Step, k: Key)
    requires Inv(w)
    ensures MachineEffect(w, s, Apply(w, s), k)
  {
    if s.MachineReconcile? {
      if s.key in w.machines {
        MachineStepEffectOnMachine(w, s.key, s.env, k);
      }
    } else if k in w.machines && w.machines[k].finalizer {
      OtherStepKeepsMachine(w, s, k);
    }
  }

  lemma OtherStepKeepsMachine(w: World, s: Step, k: Key)
    requires !s.MachineReconcile? && k in w.machines && w.machines[k].finalizer
    ensures var ms := Apply(w, s).machines; k in ms && ms[k].finalizer && ms[k].uid == w.machines[k].uid
  {
  }

  lemma MachineStepEffectOnMachine(w: World, j: Key, env: MachineEnv, k: Key)
    requires Inv(w) && j in w.machines
    ensures MachineEffect(w, MachineReconcile(j, env), ReconcileMachine(w, j, env), k)
  {
    UidFallbackRedundant(w, j);
    if k == j && !env.paused && w.machines[j].deleting && Found(w.hosts, j).Some? {
      assert forall h :: h in w.hosts && Carries(w.hosts[h], j) ==> h == Found(w.hosts, j).value;
    }
  }

  lemma StepEffectOnPhys(w: World, s: Step, h: string)
    ensures PhysEffect(w, s, Apply(w, s), h)
  {
  }

  lemma ApplyEffect(w: World, s: Step)
    requires Inv(w)
    ensures Effect(w, s, Apply(w, s)) && Inv(Apply(w, s))
  {
    ApplyKeepsInv(w, s);
    forall h ensures HostEffect(w, s, Apply(w, s), h) { StepEffectOnHost(w, s, h); }
    forall k ensures MachineEffect(w, s, Apply(w, s), k) { StepEffectOnMachine(w, s, k); }
    forall h ensures PhysEffect(w, s, Apply(w, s), h) { StepEffectOnPhys(w, s, h); }
  }

  /** Consecutive states of a run from the empty world are coherent and related by the effect. */
  lemma RunEffect(steps: seq<Step>, i: nat)
    requires i < |steps|
    ensures Inv(Exec(INIT, steps[..i])) && Inv(Exec(INIT, steps[..i + 1]))
    ensures Effect(Exec(INIT, steps[..i]), steps[i], Exec(INIT, steps[..i + 1]))
  {
    ExecKeepsInv(steps[..i]);
    ExecNext(INIT, steps, i);
    ApplyEffect(Exec(INIT, steps[..i]), steps[i]);
  }
}
