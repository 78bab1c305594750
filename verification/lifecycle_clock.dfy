/** The cleanup clock over whole runs, and the pause that no deletion undoes. */
module LifecycleClock {
  import opened ByoModel
  import opened Lifecycle
  import opened LifecycleBinding
  import opened LifecycleRuns
  import MC = MachineController
  import HC = HostController
  import HA = HostAgent

  /** A running clock was started in the current cleanup episode of its host, not in an earlier
      one, up to the second that the stored timestamp loses. */
  predicate ClockOkAt(w: World, h: string) {
    h in w.hosts && w.hosts[h].cleanup ==>
      && h in w.markedAt && w.markedAt[h] <= w.now
      && (w.hosts[h].startedAt.Some? && w.hosts[h].startedAt.value.At? ==>
            w.markedAt[h] - SECOND < w.hosts[h].startedAt.value.time <= w.now)
  }

  /** An edit that neither starts an episode nor starts a clock. */
  lemma EditKeepsClock(w: World, w': World, g: string, h: string)
    requires ClockOkAt(w, h)
    requires w'.now == w.now && w'.markedAt == w.markedAt
    requires forall f :: f in w'.hosts && f != g ==> f in w.hosts && w'.hosts[f] == w.hosts[f]
    requires g in w'.hosts && w'.hosts[g].cleanup ==>
               g in w.hosts && w.hosts[g].cleanup && w'.hosts[g].startedAt == w.hosts[g].startedAt
    ensures ClockOkAt(w', h)
  {
  }

  lemma MarkKeepsClock(w: World, g: string, h: string)
    requires ClockOkAt(w, h) && g in w.hosts && w.hosts[g].Coherent()
    ensures ClockOkAt(MarkHost(w, g), h)
  {
  }

  lemma HostReconcileKeepsClock(w: World, g: string, timeout: int, node: HC.NodeIO, h: string)
    requires ClockOkAt(w, h) && g in w.hosts
    ensures ClockOkAt(PutHost(w, g, HC.Reconciled(w.hosts[g], w.now, timeout, node).host), h)
  {
  }

  lemma AgentEndsEpisodes(x: Host, p: HA.Phys, skip: bool, io: HA.AgentIO)
    ensures var y := HA.Reconciled(x, p, skip, io).host;
            y.cleanup ==> x.cleanup && y.startedAt == x.startedAt
  {
    HA.AgentFrame(x, p, skip, io);
  }

  lemma MachineKeepsClock(w: World, k: Key, env: MachineEnv, h: string)
    requires Inv(w) && k in w.machines && ClockOkAt(w, h)
    ensures ClockOkAt(ReconcileMachine(w, k, env), h)
  {
    UidFallbackRedundant(w, k);
    var f := Found(w.hosts, k);
    var w' := ReconcileMachine(w, k, env);
    if env.paused {
      if f.Some? { EditKeepsClock(w, w', f.value, h); }
    } else if w.machines[k].deleting {
      if f.Some? { MarkKeepsClock(w, f.value, h); }
    } else {
      NormalKeepsClock(w, k, env, h);
    }
  }

  lemma ServeKeepsClock(w: World, g: string, env: MachineEnv, h: string)
    requires ClockOkAt(w, h) && g in w.hosts && w.hosts[g].Coherent()
    ensures ClockOkAt(ServeHost(w, g, env), h)
  {
    MarkKeepsClock(w, g, h);
    var w1 := if Remediates(w.hosts[g], env) then MarkHost(w, g) else w;
    if !Remediates(w.hosts[g], env) || env.markPatch {
      EditKeepsClock(w1, ServeHost(w, g, env), g, h);
    }
  }

  lemma ClaimKeepsStart(x: Host, ref: Ref, o: MC.ClaimOrder, env: MachineEnv)
    ensures var y := WithInstaller(MC.Claimed(x, ref, o), env); y.cleanup == x.cleanup && y.startedAt == x.startedAt
  {
  }

  /** A claim or a lease left behind, as an edit of the one host. */
  lemma AttachEdits(w: World, k: Key, uid: nat, a: Attempt, env: MachineEnv)
    ensures var w' := Attach(w, k, uid, a, env);
            && w'.now == w.now && w'.markedAt == w.markedAt && w'.hosts.Keys == w.hosts.Keys
            && forall f :: f in w'.hosts ==>
                 && (f != a.host ==> w'.hosts[f] == w.hosts[f])
                 && w'.hosts[f].cleanup == w.hosts[f].cleanup && w'.hosts[f].startedAt == w.hosts[f].startedAt
  {
    if CanClaim(w, a.host) {
      var x := w.hosts[a.host].(lease := if a.released then None else Some(Lease(k, w.now)));
      ClaimKeepsStart(x, Ref(k, uid), a.order, env);
    }
  }

  lemma AttachKeepsClock(w: World, k: Key, uid: nat, a: Attempt, env: MachineEnv, h: string)
    requires ClockOkAt(w, h)
    ensures ClockOkAt(Attach(w, k, uid, a, env), h)
  {
    AttachEdits(w, k, uid, a, env);
    EditKeepsClock(w, Attach(w, k, uid, a, env), a.host, h);
  }

  lemma NormalKeepsClock(w: World, k: Key, env: MachineEnv, h: string)
    requires HostsOk(w) && k in w.machines && ClockOkAt(w, h)
    ensures ClockOkAt(ReconcileNormal(w, k, env), h)
  {
    var w0 := AddFinalizer(w, k, env.lands);
    assert ClockOkAt(w0, h);
    var f := Found(w.hosts, k);
    if f.Some? {
      ServeKeepsClock(w0, f.value, env, h);
    } else if env.ready && env.attempt.Some? {
      AttachKeepsClock(w0, k, w.machines[k].uid, env.attempt.value, env, h);
    }
  }

  lemma AgentKeepsClock(w: World, g: string, skip: bool, io: HA.AgentIO, lands: bool, h: string)
    requires ClockOkAt(w, h)
    ensures ClockOkAt(ReconcileAgent(w, g, skip, io, lands), h)
  {
    if g in w.hosts {
      AgentEndsEpisodes(w.hosts[g], PhysOf(w, g), skip, io);
    }
    EditKeepsClock(w, ReconcileAgent(w, g, skip, io, lands), g, h);
  }

  lemma DeletionKeepsClock(w: World, g: string, held: bool, h: string)
    requires ClockOkAt(w, h)
    ensures ClockOkAt(HostDeleted(w, g, held), h) && ClockOkAt(HostFinalized(w, g), h)
  {
    EditKeepsClock(w, HostDeleted(w, g, held), g, h);
    EditKeepsClock(w, HostFinalized(w, g), g, h);
  }

  lemma HostStepKeepsClock(w: World, s: Step, h: string)
    requires Inv(w) && ClockOkAt(w, h) && (s.DeleteHost? || s.FinalizeHost? || s.Register? || s.Tick?)
    ensures ClockOkAt(Apply(w, s), h)
  {
    match s
    case DeleteHost(g, held) => DeletionKeepsClock(w, g, held, h);
    case FinalizeHost(g) => DeletionKeepsClock(w, g, true, h);
    case Register(g) => EditKeepsClock(w, Apply(w, s), g, h);
    case _ =>
  }

  lemma ApplyKeepsClock(w: World, s: Step, h: string)
    requires Inv(w) && ClockOkAt(w, h)
    ensures ClockOkAt(Apply(w, s), h)
  {
    match s
    case MachineReconcile(k, env) => if k in w.machines { MachineKeepsClock(w, k, env, h); }
    case HostReconcile(g, timeout, node) =>
      if g in w.hosts { HostReconcileKeepsClock(w, g, timeout, node, h); }
    case AgentReconcile(g, skip, io, lands) => AgentKeepsClock(w, g, skip, io, lands, h);
    case CreateMachine(_) =>
    case DeleteMachine(_) =>
    case _ => HostStepKeepsClock(w, s, h);
  }

  lemma {:induction false} ExecKeepsClock(steps: seq<Step>, h: string)
    ensures ClockOkAt(Exec(INIT, steps), h)
    decreases |steps|
  {
    if steps != [] {
      var n := |steps| - 1;
      ExecKeepsClock(steps[..n], h);
      ExecKeepsInv(steps[..n]);
      ApplyKeepsClock(Exec(INIT, steps[..n]), steps[n], h);
    }
  }

  /** Force release is never early: in every run, a host that is not being deleted is released only
      when more than its timeout, less the truncated second, has passed since it was marked. */
  lemma {:induction false} ForceReleaseNeverEarly(steps: seq<Step>, i: nat, h: string)
    requires i < |steps| && Forces(Exec(INIT, steps[..i]), steps[i], h)
    ensures var w := Exec(INIT, steps[..i]);
            h in w.markedAt && w.now - w.markedAt[h] > steps[i].timeout - SECOND
  {
    ExecKeepsClock(steps[..i], h);
  }

  /** Marking an already marked host neither restarts its clock nor opens a new episode. */
  lemma RemarkKeepsClockRunning(w: World, h: string)
    requires h in w.hosts && w.hosts[h].cleanup
    ensures MarkHost(w, h).hosts[h].startedAt == w.hosts[h].startedAt
    ensures MarkHost(w, h).markedAt == w.markedAt
  {
  }

  // ---- Deleted while paused -------------------------------------------------------------------

  /** The machine of a paused host is being deleted. */
  predicate Frozen(w: World, h: string, k: Key) {
    && h in w.hosts && w.hosts[h].paused && !w.hosts[h].Claimable() && w.hosts[h].deletedAt.None?
    && Carries(w.hosts[h], k)
    && k in w.machines && w.machines[k].deleting && w.machines[k].finalizer
  }

  lemma NormalLeavesOthers(w: World, j: Key, env: MachineEnv, h: string)
    requires j in w.machines && h in w.hosts && !w.hosts[h].Claimable() && Found(w.hosts, j) != Some(h)
    ensures h in ReconcileNormal(w, j, env).hosts && ReconcileNormal(w, j, env).hosts[h] == w.hosts[h]
  {
  }

  lemma OtherMachineKeepsFrozen(w: World, j: Key, env: MachineEnv, h: string, k: Key)
    requires Frozen(w, h, k) && j in w.machines && j != k
    requires FoundForDelete(w, j, w.machines[j].uid) == Found(w.hosts, j)
    ensures Frozen(ReconcileMachine(w, j, env), h, k)
  {
    assert Found(w.hosts, j) != Some(h) by {
      if Carries(w.hosts[h], j) {
        AttachedLabelInjective(j, k);
      }
    }
    NormalLeavesOthers(w, j, env, h);
  }

  lemma OwnMachineKeepsFrozen(w: World, env: MachineEnv, h: string, k: Key)
    requires Inv(w) && Frozen(w, h, k)
    ensures Frozen(ReconcileMachine(w, k, env), h, k)
  {
    UidFallbackRedundant(w, k);
    assert Found(w.hosts, k) == Some(h);
  }

  lemma HostStepsKeepFrozen(w: World, g: string, timeout: int, node: HC.NodeIO, held: bool, h: string, k: Key)
    requires Frozen(w, h, k)
    ensures g in w.hosts ==>
              Frozen(PutHost(w, g, HC.Reconciled(w.hosts[g], w.now, timeout, node).host), h, k)
    ensures Frozen(HostFinalized(w, g), h, k)
    ensures g != h ==> Frozen(HostDeleted(w, g, held), h, k)
  {
  }

  lemma AgentKeepsFrozen(w: World, g: string, skip: bool, io: HA.AgentIO, lands: bool, h: string, k: Key)
    requires Frozen(w, h, k)
    ensures Frozen(ReconcileAgent(w, g, skip, io, lands), h, k)
  {
    var w' := ReconcileAgent(w, g, skip, io, lands);
    assert w'.hosts[h] == w.hosts[h] && w'.machines == w.machines;
  }

  lemma UserStepsKeepFrozen(w: World, s: Step, h: string, k: Key)
    requires Frozen(w, h, k) && (s.Tick? || s.Register? || s.CreateMachine? || s.DeleteMachine?)
    ensures Frozen(Apply(w, s), h, k)
  {
    assert Apply(w, s).hosts[h] == w.hosts[h];
  }

  lemma StepKeepsFrozen(w: World, s: Step, h: string, k: Key)
    requires Inv(w) && Frozen(w, h, k) && !(s.DeleteHost? && s.host == h)
    ensures Frozen(Apply(w, s), h, k)
  {
    match s
    case MachineReconcile(j, env) =>
      if j == k { OwnMachineKeepsFrozen(w, env, h, k); }
      else if j in w.machines {
        UidFallbackRedundant(w, j);
        OtherMachineKeepsFrozen(w, j, env, h, k);
      }
    case HostReconcile(g, timeout, node) => HostStepsKeepFrozen(w, g, timeout, node, true, h, k);
    case DeleteHost(g, held) => HostStepsKeepFrozen(w, g, 0, HC.NodeIO(false, false), held, h, k);
    case FinalizeHost(g) => HostStepsKeepFrozen(w, g, 0, HC.NodeIO(false, false), true, h, k);
    case AgentReconcile(g, skip, io, lands) => AgentKeepsFrozen(w, g, skip, io, lands, h, k);
    case _ => UserStepsKeepFrozen(w, s, h, k);
  }

  /** A host whose machine is deleted while the host carries the paused annotation never returns to
      the pool and its machine never goes, in any continuation that does not delete the host: the
      deletion path does not remove the annotation, and the agent ignores paused hosts. */
  lemma {:induction false} DeletedWhilePausedStaysStuck(w: World, steps: seq<Step>, h: string, k: Key)
    requires Inv(w) && Frozen(w, h, k)
    requires forall i :: 0 <= i < |steps| ==> !(steps[i].DeleteHost? && steps[i].host == h)
    ensures Frozen(Exec(w, steps), h, k)
    decreases |steps|
  {
    if steps != [] {
      var n := |steps| - 1;
      DeletedWhilePausedStaysStuck(w, steps[..n], h, k);
      ExecFromKeepsInv(w, steps[..n]);
      StepKeepsFrozen(Exec(w, steps[..n]), steps[n], h, k);
    }
  }
}
