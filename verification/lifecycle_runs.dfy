/** Safety over whole runs: how a binding ends, when a machine's finalizer goes, and what force
    release does to a host. Where the code needs a condition on its environment, a lemma gives the
    exact one, step by step. */
module LifecycleRuns {
  import opened ByoModel
  import opened Lifecycle
  import opened LifecycleBinding
  import opened LifecycleEffect
  import MC = MachineController
  import HC = HostController
  import HA = HostAgent

  // ---- How a binding ends ---------------------------------------------------------------------

  /** Host h, not being deleted, is still labelled by the claim of the machine with this UID. */
  predicate Held(w: World, h: string, uid: nat) {
    && h in w.hosts && !w.hosts[h].Claimable() && w.hosts[h].deletedAt.None?
    && h in w.binder && w.binder[h] == uid
  }

  /** A complete agent cleanup whose patch lands, or a deletion of the host object. */
  predicate Frees(w: World, s: Step, h: string) {
    || FreesByCleanup(w, s, h)
    || (s.DeleteHost? && s.host == h)
  }

  lemma AgentKeepsDeletedAt(x: Host, p: HA.Phys, skip: bool, io: HA.AgentIO)
    ensures HA.Reconciled(x, p, skip, io).host.deletedAt == x.deletedAt
  {
    HA.AgentFrame(x, p, skip, io);
  }

  lemma EffectKeepsHeld(w: World, s: Step, w': World, h: string, uid: nat)
    requires Inv(w) && Effect(w, s, w') && Held(w, h, uid) && !Frees(w, s, h)
    ensures Held(w', h, uid)
  {
    assert HostEffect(w, s, w', h);
    if AgentPatch(w, s, w', h) {
      HA.ReturnsToPoolExactly(w.hosts[h], PhysOf(w, h), s.skip, s.io);
      AgentKeepsDeletedAt(w.hosts[h], PhysOf(w, h), s.skip, s.io);
    }
  }

  /** A run in which a host stops being held has, in between, a step that frees it: no controller
      step does, and in particular no force release does. */
  lemma {:induction false} HeldUntilFreed(steps: seq<Step>, i: nat, j: nat, h: string, uid: nat) returns (m: nat)
    requires i <= j <= |steps|
    requires Held(Exec(INIT, steps[..i]), h, uid)
    requires !Held(Exec(INIT, steps[..j]), h, uid)
    ensures i <= m < j && Frees(Exec(INIT, steps[..m]), steps[m], h)
    decreases j - i
  {
    RunEffect(steps, i);
    if Frees(Exec(INIT, steps[..i]), steps[i], h) {
      m := i;
    } else {
      EffectKeepsHeld(Exec(INIT, steps[..i]), steps[i], Exec(INIT, steps[..i + 1]), h, uid);
      m := HeldUntilFreed(steps, i + 1, j, h, uid);
    }
  }

  /** This step force-releases host h, which is not being deleted. */
  predicate Forces(w: World, s: Step, h: string) {
    && s.HostReconcile? && s.host == h && h in w.hosts && w.hosts[h].deletedAt.None?
    && HC.Reconciled(w.hosts[h], w.now, s.timeout, s.node).forced
  }

  /** Right after a force release the host is still held and the agent's zombie check sees it. */
  lemma ForceReleaseLeavesZombie(w: World, s: Step, h: string)
    requires Inv(w) && Forces(w, s, h)
    ensures h in w.binder && Held(Apply(w, s), h, w.binder[h])
    ensures HA.Zombie(Apply(w, s).hosts[h]) && !Apply(w, s).hosts[h].cleanup
  {
    assert BinderOk(w, h);
    HC.ForceReleaseKeepsHostOutOfPool(w.hosts[h], w.now, s.timeout, s.node);
  }

  /** Force release never returns a host to the pool: if it is claimable later on, its agent has
      completed a cleanup after the release, or the object was deleted. */
  lemma ForceReleasedHostNeedsAgent(steps: seq<Step>, i: nat, j: nat, h: string) returns (m: nat)
    requires i < j <= |steps| && Forces(Exec(INIT, steps[..i]), steps[i], h)
    requires var w := Exec(INIT, steps[..j]); h in w.hosts && w.hosts[h].Claimable()
    ensures i < m < j && Frees(Exec(INIT, steps[..m]), steps[m], h)
  {
    var w := Exec(INIT, steps[..i]);
    RunEffect(steps, i);
    ExecNext(INIT, steps, i);
    ForceReleaseLeavesZombie(w, steps[i], h);
    m := HeldUntilFreed(steps, i + 1, j, h, w.binder[h]);
  }

  /** One agent reconcile whose cleanup I/O works is enough after a force release. */
  lemma AgentRecoversForceReleased(w: World, s: Step, h: string, skip: bool, io: HA.AgentIO)
    requires Inv(w) && Forces(w, s, h) && !w.hosts[h].paused && HA.AllWorks(io.clean)
    ensures var w1 := Apply(w, s);
            var w2 := Apply(w1, AgentReconcile(h, skip, io, true));
            h in w2.hosts && w2.hosts[h].Claimable() && w2.hosts[h].Pristine() && PhysOf(w2, h) == HA.CLEAN
  {
    ForceReleaseLeavesZombie(w, s, h);
  }

  lemma MarkedIsCleanedUp(x: Host, p: HA.Phys, skip: bool, io: HA.AgentIO)
    requires x.cleanup && HA.AllWorks(io.clean)
    ensures var r := HA.Reconciled(x, p, skip, io);
            r.host.Claimable() && r.host.Pristine() && r.phys == HA.CLEAN
  {
  }

  lemma DeletingMachineMarks(w: World, h: string, k: Key, env: MachineEnv)
    requires Inv(w) && k in w.machines && w.machines[k].deleting
    requires h in w.hosts && Carries(w.hosts[h], k) && w.hosts[h].deletedAt.None?
    requires !env.paused && env.hostPatch
    ensures Apply(w, MachineReconcile(k, env)) == MarkHost(w, h)
  {
    UidFallbackRedundant(w, k);
    assert Found(w.hosts, k) == Some(h);
  }

  /** Recovery, stranded hosts included: once the machine of an unpaused host is being deleted, one
      machine reconcile and one agent reconcile whose I/O works return the host to the pool. */
  lemma TwoReconcilesRecover(w: World, h: string, k: Key, env: MachineEnv, skip: bool, io: HA.AgentIO)
    requires Inv(w) && k in w.machines && w.machines[k].deleting
    requires h in w.hosts && Carries(w.hosts[h], k) && w.hosts[h].deletedAt.None? && !w.hosts[h].paused
    requires !env.paused && env.hostPatch && HA.AllWorks(io.clean)
    ensures var w1 := Apply(w, MachineReconcile(k, env));
            var w2 := Apply(w1, AgentReconcile(h, skip, io, true));
            h in w2.hosts && w2.hosts[h].Claimable() && w2.hosts[h].Pristine() && PhysOf(w2, h) == HA.CLEAN
  {
    DeletingMachineMarks(w, h, k, env);
    MarkedIsCleanedUp(MC.Marked(w.hosts[h]), PhysOf(w, h), skip, io);
  }

  // ---- Finalizers -----------------------------------------------------------------------------

  /** The machine k that claimed the host still exists and holds its finalizer. */
  predicate BackedBy(w: World, h: string, k: Key) {
    && h in w.hosts && h in w.binder && k in w.machines
    && Carries(w.hosts[h], k) && w.machines[k].finalizer && w.machines[k].uid == w.binder[h]
  }

  predicate Unclaimed(w: World, h: string) {
    h in w.hosts ==> w.hosts[h].Claimable() || w.hosts[h].deletedAt.Some?
  }

  ghost predicate Backed(w: World, h: string) {
    exists k :: BackedBy(w, h, k)
  }

  ghost predicate FinalizersOk(w: World) {
    forall h {:trigger Backed(w, h)} :: Unclaimed(w, h) || Backed(w, h)
  }

  /** A claim of a host that is not being deleted is made only with the finalizer stored: it was
      there, or its own patch lands too. */
  ghost predicate FinalizerFirst(w: World, s: Step) {
    forall h :: Claims(w, s, h) && w.hosts[h].deletedAt.None? ==> s.env.lands || w.machines[s.key].finalizer
  }

  lemma OldBindingStaysBacked(w: World, s: Step, w': World, h: string)
    requires Inv(w) && Effect(w, s, w') && Backed(w, h) && !Claims(w, s, h)
    requires w.hosts[h].deletedAt.None? && !Unclaimed(w', h)
    ensures Backed(w', h)
  {
    var k :| BackedBy(w, h, k);
    assert HostEffect(w, s, w', h) && MachineEffect(w, s, w', k);
    if AgentPatch(w, s, w', h) {
      HA.AgentOrderly(w.hosts[h], PhysOf(w, h), s.skip, s.io);
    }
    assert BackedBy(w', h, k);
  }

  lemma NewlyHeldIsClaimed(w: World, s: Step, w': World, h: string)
    requires Inv(w) && Effect(w, s, w') && Unclaimed(w, h) && !Unclaimed(w', h)
    ensures Claims(w, s, h) && w.hosts[h].deletedAt.None?
  {
    assert HostEffect(w, s, w', h);
    if AgentPatch(w, s, w', h) {
      HA.AgentOrderly(w.hosts[h], PhysOf(w, h), s.skip, s.io);
      AgentKeepsDeletedAt(w.hosts[h], PhysOf(w, h), s.skip, s.io);
      AgentNeverRebinds(w.hosts[h], PhysOf(w, h), s.skip, s.io);
    }
  }

  lemma ClaimedIsBackedExactly(w: World, s: Step, w': World, h: string)
    requires Inv(w) && Effect(w, s, w') && Claims(w, s, h) && w.hosts[h].deletedAt.None?
    ensures !Unclaimed(w', h)
    ensures Backed(w', h) <==> s.env.lands || w.machines[s.key].finalizer
  {
    assert HostEffect(w, s, w', h);
    assert w.hosts[h].Coherent();
    assert ClaimEffect(w, s, w', h);
    if s.env.lands || w.machines[s.key].finalizer {
      assert BackedBy(w', h, s.key);
    }
    if Backed(w', h) {
      var j :| BackedBy(w', h, j);
      AttachedLabelInjective(j, s.key);
    }
  }

  /** Exactly when a step keeps every held host backed by a machine with a finalizer. */
  lemma FinalizersKeptExactly(w: World, s: Step, w': World)
    requires Inv(w) && FinalizersOk(w) && Effect(w, s, w')
    ensures FinalizersOk(w') <==> FinalizerFirst(w, s)
  {
    if FinalizerFirst(w, s) {
      forall h | !Unclaimed(w', h)
        ensures Backed(w', h)
      {
        assert Unclaimed(w, h) || Backed(w, h);
        if Claims(w, s, h) && w.hosts[h].deletedAt.None? {
          ClaimedIsBackedExactly(w, s, w', h);
        } else if Unclaimed(w, h) {
          NewlyHeldIsClaimed(w, s, w', h);
        } else {
          OldBindingStaysBacked(w, s, w', h);
        }
      }
    } else {
      var h :| Claims(w, s, h) && w.hosts[h].deletedAt.None? && !(s.env.lands || w.machines[s.key].finalizer);
      ClaimedIsBackedExactly(w, s, w', h);
      assert !(Unclaimed(w', h) || Backed(w', h));
    }
  }

  lemma {:induction false} ExecKeepsFinalizers(steps: seq<Step>)
    requires Every(INIT, steps, FinalizerFirst)
    ensures FinalizersOk(Exec(INIT, steps))
    decreases |steps|
  {
    if steps != [] {
      var n := |steps| - 1;
      EveryPrefix(INIT, steps, FinalizerFirst, n);
      ExecKeepsFinalizers(steps[..n]);
      RunEffect(steps, n);
      FinalizersKeptExactly(Exec(INIT, steps[..n]), steps[n], Exec(INIT, steps[..n + 1]));
      assert steps[..n + 1] == steps;
    }
  }

  /** Host h does not hold up the deletion of the machine with this key. */
  predicate LetsGo(w: World, h: string, k: Key)
    requires h in w.hosts
  {
    Carries(w.hosts[h], k) ==>
      && w.hosts[h].deletedAt.Some?
      && (w.hosts[h].machineRef.None? || w.now - w.hosts[h].deletedAt.value > 5 * MINUTE)
  }

  /** Exactly when a machine reconcile lets its machine go: the machine is being deleted and not paused, the
      patch lands, and every host that still carries its label is itself being deleted, and unbound or
      past the five minutes. */
  lemma FinalizerDroppedExactly(w: World, k: Key, env: MachineEnv)
    requires Inv(w) && k in w.machines
    ensures k !in ReconcileMachine(w, k, env).machines <==>
              && w.machines[k].deleting && !env.paused && env.lands
              && forall h :: h in w.hosts ==> LetsGo(w, h, k)
  {
    UidFallbackRedundant(w, k);
    var f := Found(w.hosts, k);
    if f.Some? {
      forall h | h in w.hosts && Carries(w.hosts[h], k)
        ensures h == f.value
      {
        assert w.hosts[h].attachedLabel == w.hosts[f.value].attachedLabel;
      }
    }
  }

  /** What else a deletion reconcile does: a host that is not being deleted is marked, if the patch lands, and
      nothing happens while its host is being deleted, bound, and within the five minutes. */
  lemma DeletionOtherwise(w: World, k: Key, env: MachineEnv, h: string)
    requires Inv(w) && k in w.machines && w.machines[k].deleting && !env.paused
    requires h in w.hosts && !LetsGo(w, h, k)
    ensures ReconcileMachine(w, k, env)
         == if w.hosts[h].deletedAt.None? && env.hostPatch then MarkHost(w, h) else w
  {
    UidFallbackRedundant(w, k);
    assert Found(w.hosts, k) == Some(h);
  }

  /** The end of a deletion: after the two reconciles that recover the host, one more of the machine whose
      patch lands removes it. */
  lemma ThreeReconcilesRelease(w: World, h: string, k: Key, env: MachineEnv, skip: bool, io: HA.AgentIO,
                               last: MachineEnv)
    requires Inv(w) && k in w.machines && w.machines[k].deleting
    requires h in w.hosts && Carries(w.hosts[h], k) && w.hosts[h].deletedAt.None? && !w.hosts[h].paused
    requires !env.paused && env.hostPatch && HA.AllWorks(io.clean) && !last.paused && last.lands
    ensures var w1 := Apply(w, MachineReconcile(k, env));
            var w2 := Apply(w1, AgentReconcile(h, skip, io, true));
            k !in Apply(w2, MachineReconcile(k, last)).machines
  {
    var w1 := Apply(w, MachineReconcile(k, env));
    var w2 := Apply(w1, AgentReconcile(h, skip, io, true));
    ApplyKeepsInv(w, MachineReconcile(k, env));
    ApplyKeepsInv(w1, AgentReconcile(h, skip, io, true));
    RecoveryLeavesOthers(w, h, k, env, skip, io);
    TwoReconcilesRecover(w, h, k, env, skip, io);
    RecoveredIsUncarried(w, h, k, w2);
    FinalizerDroppedExactly(w2, k, last);
  }

  lemma RecoveryLeavesOthers(w: World, h: string, k: Key, env: MachineEnv, skip: bool, io: HA.AgentIO)
    requires Inv(w) && k in w.machines && w.machines[k].deleting
    requires h in w.hosts && Carries(w.hosts[h], k) && w.hosts[h].deletedAt.None?
    requires !env.paused && env.hostPatch
    ensures var w2 := Apply(Apply(w, MachineReconcile(k, env)), AgentReconcile(h, skip, io, true));
            && w2.machines == w.machines
            && forall g :: g in w2.hosts && g != h ==> g in w.hosts && w2.hosts[g] == w.hosts[g]
  {
    DeletingMachineMarks(w, h, k, env);
  }

  /** Labels are unique, so with the one host cleaned no host carries the label any more. */
  lemma RecoveredIsUncarried(w: World, h: string, k: Key, w2: World)
    requires Inv(w) && Inv(w2) && h in w.hosts && Carries(w.hosts[h], k)
    requires h in w2.hosts && w2.hosts[h].Claimable()
    requires forall g :: g in w2.hosts && g != h ==> g in w.hosts && w2.hosts[g] == w.hosts[g]
    ensures forall g :: g in w2.hosts ==> LetsGo(w2, g, k)
  {
    assert w2.hosts[h].Coherent();
    forall g | g in w2.hosts && g != h
      ensures !Carries(w2.hosts[g], k)
    {
      assert w.hosts[g].attachedLabel == w.hosts[h].attachedLabel ==> g == h;
    }
  }

  predicate Gone(w: World, uid: nat) {
    forall k :: k in w.machines ==> w.machines[k].uid != uid
  }

  /** Finalizer ordering: when the machine that a host was held for is gone, the agent has removed
      the labels in between, or the host object was deleted. */
  lemma FinalizerOrdering(steps: seq<Step>, i: nat, j: nat, h: string, uid: nat) returns (m: nat)
    requires Every(INIT, steps, FinalizerFirst) && i <= j <= |steps|
    requires Held(Exec(INIT, steps[..i]), h, uid) && Gone(Exec(INIT, steps[..j]), uid)
    ensures i <= m < j && Frees(Exec(INIT, steps[..m]), steps[m], h)
  {
    var w := Exec(INIT, steps[..j]);
    EveryPrefix(INIT, steps, FinalizerFirst, j);
    ExecKeepsFinalizers(steps[..j]);
    assert Unclaimed(w, h) || Backed(w, h);
    m := HeldUntilFreed(steps, i, j, h, uid);
  }

  /** A machine never inherits, under a reused name, a host still attached to its predecessor. */
  lemma {:induction false} NoInheritance(steps: seq<Step>, h: string, k: Key)
    requires Every(INIT, steps, FinalizerFirst)
    requires var w := Exec(INIT, steps);
             && k in w.machines && h in w.hosts && w.hosts[h].deletedAt.None? && Carries(w.hosts[h], k)
    ensures var w := Exec(INIT, steps); h in w.binder && w.binder[h] == w.machines[k].uid
  {
    var w := Exec(INIT, steps);
    ExecKeepsInv(steps);
    ExecKeepsFinalizers(steps);
    assert w.hosts[h].Coherent();
    assert Unclaimed(w, h) || Backed(w, h);
    var j :| BackedBy(w, h, j);
    AttachedLabelInjective(j, k);
  }

  /** Why the condition is needed: a claim whose machine patch is lost, then a deletion and a new
      machine of the same name, and the new machine owns a host that was never its own. */
  lemma LostFinalizerIsInherited(w: World, k: Key, env: MachineEnv, h: string)
    requires Inv(w) && Claims(w, MachineReconcile(k, env), h) && w.hosts[h].deletedAt.None?
    requires !env.lands && !w.machines[k].finalizer
    ensures var w1 := Apply(w, MachineReconcile(k, env));
            var w3 := Apply(Apply(w1, DeleteMachine(k)), CreateMachine(k));
            && k in w3.machines && h in w3.hosts && h in w3.binder && w3.hosts[h].deletedAt.None?
            && Carries(w3.hosts[h], k) && w3.binder[h] != w3.machines[k].uid
  {
    var s := MachineReconcile(k, env);
    var w1 := Apply(w, s);
    ApplyEffect(w, s);
    assert HostEffect(w, s, w1, h);
    assert BinderOk(w1, h);
  }
}
