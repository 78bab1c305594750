/** What the physical machine carries against what its host object says: no running node on a
    claimable host, a reset between two bootstraps, and the machine-id file. */
module LifecyclePhysical {
  import opened ByoModel
  import opened Lifecycle
  import opened LifecycleBinding
  import opened LifecycleEffect
  import HA = HostAgent

  predicate Boots(w: World, s: Step, h: string) {
    AgentRuns(w, s, h) && AgentResult(w, s, h).booted
  }

  predicate Resets(w: World, s: Step, h: string) {
    AgentRuns(w, s, h) && AgentResult(w, s, h).reset
  }

  predicate Enters(w: World, s: Step, h: string) {
    s == Register(h) && h !in w.hosts
  }

  /** The agent's summary: without a reset the node stays as it is or is booted, and the condition
      follows a boot. */
  lemma AgentNodeSummary(x: Host, p: HA.Phys, skip: bool, io: HA.AgentIO)
    requires x.Coherent()
    ensures var r := HA.Reconciled(x, p, skip, io);
            && (r.booted ==> r.phys.up && r.host.bootstrapped && !x.bootstrapped && !r.host.Claimable())
            && (!r.reset && p.up ==> r.phys.up)
            && (!r.reset && x.bootstrapped ==> r.host.bootstrapped)
  {
  }

  // ---- No dirty host in the pool --------------------------------------------------------------

  ghost predicate PoolClean(w: World) {
    forall h :: h in w.hosts && w.hosts[h].Claimable() ==> !PhysOf(w, h).up
  }

  /** A host object is registered only for a machine that carries no running node. */
  ghost predicate CleanRegistration(w: World, s: Step) {
    forall h :: Enters(w, s, h) ==> !PhysOf(w, h).up
  }

  /** The reset of a cleanup that frees a host stops the node that runs on it. */
  ghost predicate FreedIsStopped(w: World, s: Step) {
    forall h :: FreesByCleanup(w, s, h) && PhysOf(w, h).up ==> s.io.clean.stopped
  }

  ghost predicate CleanEntry(w: World, s: Step) {
    CleanRegistration(w, s) && FreedIsStopped(w, s)
  }

  /** An agent reconcile of a host in the pool starts no node. */
  lemma PooledStaysDown(x: Host, p: HA.Phys, skip: bool, io: HA.AgentIO)
    requires x.Coherent() && x.Claimable() && !p.up
    ensures !HA.Reconciled(x, p, skip, io).phys.up
  {
    HA.NodeUpExactly(x, p, skip, io);
  }

  lemma FreedNodeUpExactly(x: Host, p: HA.Phys, skip: bool, io: HA.AgentIO)
    requires x.Coherent() && !x.Claimable() && HA.Reconciled(x, p, skip, io).host.Claimable()
    ensures HA.CleansThrough(x, p, skip, io)
    ensures HA.Reconciled(x, p, skip, io).phys.up <==> p.up && !io.clean.stopped
  {
    HA.ReturnsToPoolExactly(x, p, skip, io);
    HA.NodeUpExactly(x, p, skip, io);
  }

  lemma PoolCleanAt(w: World, s: Step, w': World, h: string)
    requires Inv(w) && PoolClean(w) && Effect(w, s, w') && CleanEntry(w, s)
    requires h in w'.hosts && w'.hosts[h].Claimable()
    ensures !PhysOf(w', h).up
  {
    assert HostEffect(w, s, w', h) && PhysEffect(w, s, w', h);
    assert Enters(w, s, h) <==> s == Register(h) && h !in w.hosts;
    if AgentRuns(w, s, h) {
      if w.hosts[h].Claimable() {
        PooledStaysDown(w.hosts[h], PhysOf(w, h), s.skip, s.io);
      } else {
        FreedNodeUpExactly(w.hosts[h], PhysOf(w, h), s.skip, s.io);
        assert FreesByCleanup(w, s, h);
      }
    }
  }

  /** A cleanup that frees its host although the reset did not stop the node. */
  lemma FailedResetEntersPool(w: World, s: Step, w': World, h: string)
    requires Inv(w) && Effect(w, s, w') && FreesByCleanup(w, s, h) && PhysOf(w, h).up && !s.io.clean.stopped
    requires s.AgentReconcile? && s.lands ==> w'.hosts == w.hosts[s.host := AgentResult(w, s, s.host).host]
    ensures h in w'.hosts && w'.hosts[h].Claimable() && PhysOf(w', h).up
  {
    assert HostEffect(w, s, w', h) && PhysEffect(w, s, w', h);
    HA.ReturnsToPoolExactly(w.hosts[h], PhysOf(w, h), s.skip, s.io);
    FreedNodeUpExactly(w.hosts[h], PhysOf(w, h), s.skip, s.io);
  }

  /** Exactly when a step keeps running nodes out of the pool: it registers none, and the reset of a
      cleanup that frees a host stops its node. Whether patches land makes no other difference. */
  lemma PoolCleanKeptExactly(w: World, s: Step)
    requires Inv(w) && PoolClean(w)
    ensures PoolClean(Apply(w, s)) <==> CleanEntry(w, s)
  {
    var w' := Apply(w, s);
    ApplyEffect(w, s);
    StepWrites(w, s);
    if CleanEntry(w, s) {
      forall h | h in w'.hosts && w'.hosts[h].Claimable()
        ensures !PhysOf(w', h).up
      {
        PoolCleanAt(w, s, w', h);
      }
    } else if !CleanRegistration(w, s) {
      var h :| Enters(w, s, h) && PhysOf(w, h).up;
      assert PhysEffect(w, s, w', h);
    } else {
      var h :| FreesByCleanup(w, s, h) && PhysOf(w, h).up && !s.io.clean.stopped;
      FailedResetEntersPool(w, s, w', h);
    }
  }

  /** What registration and the agent write. */
  lemma StepWrites(w: World, s: Step)
    ensures forall h :: Enters(w, s, h) ==> h in Apply(w, s).hosts && Apply(w, s).hosts[h] == FRESH_HOST
    ensures s.AgentReconcile? && !s.lands ==> Apply(w, s).hosts == w.hosts
    ensures s.AgentReconcile? && s.lands && AgentRuns(w, s, s.host) ==>
              Apply(w, s).hosts == w.hosts[s.host := AgentResult(w, s, s.host).host]
  {
  }

  lemma {:induction false} ExecKeepsPoolClean(steps: seq<Step>)
    requires Every(INIT, steps, CleanEntry)
    ensures PoolClean(Exec(INIT, steps))
    decreases |steps|
  {
    if steps != [] {
      var n := |steps| - 1;
      EveryPrefix(INIT, steps, CleanEntry, n);
      ExecKeepsPoolClean(steps[..n]);
      ExecKeepsInv(steps[..n]);
      PoolCleanKeptExactly(Exec(INIT, steps[..n]), steps[n]);
    }
  }

  /** Why the resets must work: any marked host with a running node returns to the pool with the node
      still running when its reset has no effect and the rest of the cleanup works. */
  lemma FailedResetIsDirty(w: World, h: string, skip: bool, io: HA.AgentIO)
    requires Inv(w) && h in w.hosts && !w.hosts[h].Claimable() && !w.hosts[h].paused && w.hosts[h].cleanup
    requires PhysOf(w, h).up && !io.clean.stopped
    requires !HA.ParseFails(w.hosts[h], skip, io.clean) && !HA.RemovalFails(w.hosts[h], io.clean)
    ensures !PoolClean(Apply(w, AgentReconcile(h, skip, io, true)))
  {
    var s := AgentReconcile(h, skip, io, true);
    ApplyEffect(w, s);
    StepWrites(w, s);
    FailedResetEntersPool(w, s, Apply(w, s), h);
  }

  /** Why registration must be clean: an unbound host whose node is still up, as force release leaves
      it, may be deleted; registering it again puts the running node into the pool. */
  lemma ReRegistrationIsDirty(w: World, h: string)
    requires h in w.hosts && w.hosts[h].machineRef.None? && w.hosts[h].deletedAt.None? && PhysOf(w, h).up
    ensures !PoolClean(Apply(Apply(w, DeleteHost(h, false)), Register(h)))
  {
    var w2 := Apply(Apply(w, DeleteHost(h, false)), Register(h));
    assert h in w2.hosts && w2.hosts[h].Claimable() && PhysOf(w2, h).up;
  }

  // ---- Running nodes are recorded -------------------------------------------------------------

  /** A registered host whose node is up says so in its bootstrap condition. */
  ghost predicate NodesRecorded(w: World) {
    forall h :: h in w.hosts && PhysOf(w, h).up ==> w.hosts[h].bootstrapped
  }

  /** The patch that records a successful bootstrap lands. */
  predicate BootLandsAt(w: World, s: Step, h: string)
    requires AgentRuns(w, s, h)
  {
    AgentResult(w, s, h).booted ==> s.lands
  }

  /** A bootstrap that fails after starting a node is undone. */
  predicate FailedBootUndoneAt(w: World, s: Step, h: string)
    requires AgentRuns(w, s, h)
  {
    HA.Bootstraps(w.hosts[h], PhysOf(w, h), s.skip, s.io) && !s.io.booted && s.io.started ==> s.io.undone
  }

  /** The agent cleans up and lowers the conditions. */
  predicate Lowers(w: World, s: Step, h: string)
    requires AgentRuns(w, s, h)
  {
    HA.Cleans(w.hosts[h], PhysOf(w, h), s.io) && !HA.ParseFails(w.hosts[h], s.skip, s.io.clean)
  }

  /** A cleanup that lowers the condition of a running node, with a patch that lands, stops the node. */
  predicate LoweredIsStoppedAt(w: World, s: Step, h: string)
    requires AgentRuns(w, s, h)
  {
    s.lands && Lowers(w, s, h) && PhysOf(w, h).up ==> s.io.clean.stopped
  }

  predicate RecordedFor(w: World, s: Step, h: string) {
    AgentRuns(w, s, h) ==> BootLandsAt(w, s, h) && FailedBootUndoneAt(w, s, h) && LoweredIsStoppedAt(w, s, h)
  }

  ghost predicate BootRecorded(w: World, s: Step) {
    CleanRegistration(w, s) && forall h :: RecordedFor(w, s, h)
  }

  lemma CleanupRecords(x: Host, p: HA.Phys, skip: bool, io: HA.CleanIO)
    ensures var r := HA.CleanedUp(x, p, skip, io);
            !r.booted && if HA.ParseFails(x, skip, io) then r.host == x else !r.host.bootstrapped
  {
  }

  lemma BootRecords(x: Host, p: HA.Phys, skip: bool, io: HA.AgentIO)
    requires x.machineRef.Some? && !x.bootstrapped
    ensures var r := HA.BootStage(x, p, skip, io);
            && r.host.bootstrapped == r.booted
            && r.booted == (io.secretFetched && HA.InstallStage(x, skip, io.install).1 && io.dirsCleaned && io.booted)
  {
  }

  /** What the agent leaves in the condition of a host with a running node. */
  lemma AgentRecordsExactly(x: Host, p: HA.Phys, skip: bool, io: HA.AgentIO)
    requires x.Coherent() && (p.up ==> x.bootstrapped)
    ensures var r := HA.Reconciled(x, p, skip, io);
            && (HA.Cleans(x, p, io) && !HA.ParseFails(x, skip, io.clean) ==> !r.host.bootstrapped && !r.booted)
            && (HA.Cleans(x, p, io) && HA.ParseFails(x, skip, io.clean) ==> r.host == x && !r.booted)
            && (HA.Bootstraps(x, p, skip, io) ==>
                  !x.bootstrapped && r.booted == io.booted && r.host.bootstrapped == io.booted)
            && (!HA.Cleans(x, p, io) && !HA.Bootstraps(x, p, skip, io) ==>
                  !r.booted && r.host.bootstrapped == x.bootstrapped)
  {
    if HA.Cleans(x, p, io) {
      CleanupRecords(x, p, skip, io.clean);
    } else if x.machineRef.Some? && !x.bootstrapped {
      BootRecords(x, p, skip, io);
    }
  }

  lemma AgentRecordedAt(w: World, s: Step, h: string)
    requires Inv(w) && NodesRecorded(w) && AgentRuns(w, s, h)
    ensures var y := if s.lands then AgentResult(w, s, h).host else w.hosts[h];
            (AgentResult(w, s, h).phys.up ==> y.bootstrapped) <==> RecordedFor(w, s, h)
  {
    HA.NodeUpExactly(w.hosts[h], PhysOf(w, h), s.skip, s.io);
    AgentRecordsExactly(w.hosts[h], PhysOf(w, h), s.skip, s.io);
  }

  lemma NodeRecordedAt(w: World, s: Step, w': World, h: string)
    requires Inv(w) && NodesRecorded(w) && Effect(w, s, w') && CleanRegistration(w, s) && !AgentRuns(w, s, h)
    requires h in w'.hosts && PhysOf(w', h).up
    ensures w'.hosts[h].bootstrapped
  {
    assert HostEffect(w, s, w', h) && PhysEffect(w, s, w', h);
    assert Enters(w, s, h) <==> s == Register(h) && h !in w.hosts;
  }

  lemma AgentResultStored(w: World, s: Step, h: string)
    requires Inv(w) && AgentRuns(w, s, h)
    ensures h in Apply(w, s).hosts && PhysOf(Apply(w, s), h) == AgentResult(w, s, h).phys
    ensures Apply(w, s).hosts[h] == if s.lands then AgentResult(w, s, h).host else w.hosts[h]
  {
  }

  /** Exactly when a step keeps every running node recorded. */
  lemma NodesRecordedKeptExactly(w: World, s: Step)
    requires Inv(w) && NodesRecorded(w)
    ensures NodesRecorded(Apply(w, s)) <==> BootRecorded(w, s)
  {
    var w' := Apply(w, s);
    ApplyEffect(w, s);
    StepWrites(w, s);
    forall h | AgentRuns(w, s, h)
      ensures h in w'.hosts
      ensures (PhysOf(w', h).up ==> w'.hosts[h].bootstrapped) <==> RecordedFor(w, s, h)
    {
      AgentRecordedAt(w, s, h);
      AgentResultStored(w, s, h);
    }
    if BootRecorded(w, s) {
      forall h | h in w'.hosts && PhysOf(w', h).up
        ensures w'.hosts[h].bootstrapped
      {
        if !AgentRuns(w, s, h) {
          NodeRecordedAt(w, s, w', h);
        }
      }
    } else if !CleanRegistration(w, s) {
      var h :| Enters(w, s, h) && PhysOf(w, h).up;
      assert PhysEffect(w, s, w', h);
    } else {
      var h :| !RecordedFor(w, s, h);
      assert AgentRuns(w, s, h);
    }
  }

  lemma {:induction false} ExecKeepsNodesRecorded(steps: seq<Step>)
    requires Every(INIT, steps, BootRecorded)
    ensures NodesRecorded(Exec(INIT, steps))
    decreases |steps|
  {
    if steps != [] {
      var n := |steps| - 1;
      EveryPrefix(INIT, steps, BootRecorded, n);
      ExecKeepsNodesRecorded(steps[..n]);
      ExecKeepsInv(steps[..n]);
      NodesRecordedKeptExactly(Exec(INIT, steps[..n]), steps[n]);
    }
  }

  // ---- A reset between two bootstraps ---------------------------------------------------------

  /** A node runs, and its host, if it is registered, says so. */
  predicate Booted(w: World, h: string) {
    PhysOf(w, h).up && (h in w.hosts ==> w.hosts[h].bootstrapped)
  }

  lemma BootedKept(w: World, s: Step, w': World, h: string)
    requires Inv(w) && Effect(w, s, w') && CleanRegistration(w, s) && Booted(w, h) && !Resets(w, s, h)
    ensures Booted(w', h)
  {
    assert HostEffect(w, s, w', h) && PhysEffect(w, s, w', h);
    assert Enters(w, s, h) <==> s == Register(h) && h !in w.hosts;
    if AgentRuns(w, s, h) {
      AgentNodeSummary(w.hosts[h], PhysOf(w, h), s.skip, s.io);
    }
  }

  lemma BootedNext(steps: seq<Step>, i: nat, h: string)
    requires Every(INIT, steps, CleanRegistration) && i < |steps|
    requires Booted(Exec(INIT, steps[..i]), h) && !Resets(Exec(INIT, steps[..i]), steps[i], h)
    ensures Booted(Exec(INIT, steps[..i + 1]), h)
  {
    RunEffect(steps, i);
    BootedKept(Exec(INIT, steps[..i]), steps[i], Exec(INIT, steps[..i + 1]), h);
  }

  /** A node that is recorded at i and not at j has seen a reset in between. */
  lemma {:induction false} BootedUntilReset(steps: seq<Step>, i: nat, j: nat, h: string) returns (m: nat)
    requires Every(INIT, steps, CleanRegistration) && i <= j <= |steps|
    requires Booted(Exec(INIT, steps[..i]), h) && !Booted(Exec(INIT, steps[..j]), h)
    ensures i <= m < j && Resets(Exec(INIT, steps[..m]), steps[m], h)
    decreases j - i
  {
    if Resets(Exec(INIT, steps[..i]), steps[i], h) {
      m := i;
    } else {
      BootedNext(steps, i, h);
      m := BootedUntilReset(steps, i + 1, j, h);
    }
  }

  lemma BootRecordsItself(w: World, s: Step, h: string)
    requires Inv(w) && Boots(w, s, h) && s.lands
    ensures Booted(Apply(w, s), h)
  {
    AgentNodeSummary(w.hosts[h], PhysOf(w, h), s.skip, s.io);
    AgentResultStored(w, s, h);
  }

  /** Bootstrap at most once per reset: between a bootstrap whose patch lands and any later bootstrap
      of the host, a node reset has run on it, whether or not it stopped the node. */
  lemma {:induction false} ResetBetweenBootstraps(steps: seq<Step>, i: nat, j: nat, h: string) returns (m: nat)
    requires Every(INIT, steps, CleanRegistration) && i < j < |steps| && steps[i].AgentReconcile? && steps[i].lands
    requires Boots(Exec(INIT, steps[..i]), steps[i], h) && Boots(Exec(INIT, steps[..j]), steps[j], h)
    ensures i < m < j && Resets(Exec(INIT, steps[..m]), steps[m], h)
  {
    ExecKeepsInv(steps[..i]);
    ExecNext(INIT, steps, i);
    BootRecordsItself(Exec(INIT, steps[..i]), steps[i], h);
    var v := Exec(INIT, steps[..j]);
    ExecKeepsInv(steps[..j]);
    AgentNodeSummary(v.hosts[h], PhysOf(v, h), steps[j].skip, steps[j].io);
    m := BootedUntilReset(steps, i + 1, j, h);
  }

  /** Why the patch must land: after a bootstrap whose patch was lost, the same reconcile boots the
      host again on top of the running node. */
  lemma LostBootPatchBootsTwice(w: World, s: Step, h: string)
    requires Boots(w, s, h) && !s.lands
    ensures Boots(Apply(w, s), s, h) && PhysOf(Apply(w, s), h).up && !Resets(Apply(w, s), s, h)
  {
  }

  // ---- The machine-id file --------------------------------------------------------------------

  /** A machine-id file names the machine that its host is labelled for. */
  ghost predicate FilesOk(w: World) {
    forall h :: h in w.hosts && PhysOf(w, h).idFile.Some? ==>
                  !w.hosts[h].Claimable() && h in w.binder && w.binder[h] == PhysOf(w, h).idFile.value
  }

  /** No registration finds a machine-id file, and a cleanup that frees its host removes the file. */
  ghost predicate FileRemoved(w: World, s: Step) {
    && (forall h :: Enters(w, s, h) ==> PhysOf(w, h).idFile.None?)
    && (forall h :: FreesByCleanup(w, s, h) && PhysOf(w, h).idFile.Some? ==> s.io.clean.idRemoved)
  }

  lemma AgentFileSummary(x: Host, p: HA.Phys, skip: bool, io: HA.AgentIO)
    ensures var r := HA.Reconciled(x, p, skip, io);
            && (r.phys.idFile.Some? ==>
                  || r.phys.idFile == p.idFile
                  || (x.machineRef.Some? && r.phys.idFile.value == x.machineRef.value.uid))
            && (x.Claimable() && x.Coherent() ==> r.phys.idFile.None? || r.phys.idFile == p.idFile)
            && (HA.CleansThrough(x, p, skip, io) && x.Coherent() ==>
                  r.phys.idFile == if io.clean.idRemoved then None else p.idFile)
  {
  }

  lemma FileOkAt(w: World, s: Step, w': World, h: string)
    requires Inv(w) && FilesOk(w) && Effect(w, s, w') && FileRemoved(w, s)
    requires h in w'.hosts && PhysOf(w', h).idFile.Some?
    ensures !w'.hosts[h].Claimable() && h in w'.binder && w'.binder[h] == PhysOf(w', h).idFile.value
  {
    assert HostEffect(w, s, w', h) && PhysEffect(w, s, w', h);
    assert Enters(w, s, h) <==> s == Register(h) && h !in w.hosts;
    if h in w.hosts {
      assert w.hosts[h].Coherent() && BinderOk(w, h);
      if AgentRuns(w, s, h) {
        AgentFileSummary(w.hosts[h], PhysOf(w, h), s.skip, s.io);
        HA.AgentOrderly(w.hosts[h], PhysOf(w, h), s.skip, s.io);
        if !w.hosts[h].Claimable() {
          HA.ReturnsToPoolExactly(w.hosts[h], PhysOf(w, h), s.skip, s.io);
          assert FreesByCleanup(w, s, h) <==> s.lands && AgentResult(w, s, h).host.Claimable();
        }
      }
    }
  }

  /** Exactly when a step keeps every machine-id file in agreement with its host. */
  lemma FilesKeptExactly(w: World, s: Step, w': World)
    requires Inv(w) && FilesOk(w) && Effect(w, s, w')
    requires forall h :: Enters(w, s, h) ==> h in w'.hosts && w'.hosts[h] == FRESH_HOST
    ensures FilesOk(w') <==> FileRemoved(w, s)
  {
    if FileRemoved(w, s) {
      forall h | h in w'.hosts && PhysOf(w', h).idFile.Some?
        ensures !w'.hosts[h].Claimable() && h in w'.binder && w'.binder[h] == PhysOf(w', h).idFile.value
      {
        FileOkAt(w, s, w', h);
      }
    } else if exists h :: Enters(w, s, h) && PhysOf(w, h).idFile.Some? {
      var h :| Enters(w, s, h) && PhysOf(w, h).idFile.Some?;
      assert PhysEffect(w, s, w', h);
    } else {
      var h :| FreesByCleanup(w, s, h) && PhysOf(w, h).idFile.Some? && !s.io.clean.idRemoved;
      assert HostEffect(w, s, w', h) && PhysEffect(w, s, w', h);
      HA.ReturnsToPoolExactly(w.hosts[h], PhysOf(w, h), s.skip, s.io);
      AgentFileSummary(w.hosts[h], PhysOf(w, h), s.skip, s.io);
    }
  }

  lemma {:induction false} ExecKeepsFiles(steps: seq<Step>)
    requires Every(INIT, steps, FileRemoved)
    ensures FilesOk(Exec(INIT, steps))
    decreases |steps|
  {
    if steps != [] {
      var n := |steps| - 1;
      EveryPrefix(INIT, steps, FileRemoved, n);
      ExecKeepsFiles(steps[..n]);
      RunEffect(steps, n);
      ExecNext(INIT, steps, n);
      StepWrites(Exec(INIT, steps[..n]), steps[n]);
      FilesKeptExactly(Exec(INIT, steps[..n]), steps[n], Exec(INIT, steps[..n + 1]));
      assert steps[..n + 1] == steps;
    }
  }

  /** While file removal works, the machine-id mismatch branch is never taken. */
  lemma {:induction false} MismatchUnreachable(steps: seq<Step>, h: string)
    requires Every(INIT, steps, FileRemoved) && h in Exec(INIT, steps).hosts
    ensures var w := Exec(INIT, steps); !HA.Mismatch(w.hosts[h], PhysOf(w, h))
  {
    ExecKeepsFiles(steps);
    ExecKeepsInv(steps);
    assert BinderOk(Exec(INIT, steps), h);
  }
}
