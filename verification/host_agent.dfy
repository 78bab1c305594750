/** The host agent: installation, bootstrap, cleanup, and its two consistency checks. */
module HostAgent {
  import opened ByoModel

  /** The physical machine: whether a node runs on it, and the UID in its machine-id file. */
  datatype Phys = Phys(up: bool, idFile: Option<nat>)

  const CLEAN: Phys := Phys(false, None)

  /** Results of the I/O done by hostCleanUp. `stopped` is whether the node reset stopped the node:
      resetNode ignores the errors of kubeadm and systemctl and reports success either way.
      `permanent` is whether the text of the error that it returns reads as a permanent one. */
  datatype CleanIO = CleanIO(
    stopped: bool,
    parsed: bool,
    sentinel: bool,
    endpoint: bool,
    idRemoved: bool,
    permanent: bool)

  /** Results of executeInstallerController; `attempt` is the index of the first run that works. */
  datatype InstallIO = InstallIO(fetched: bool, script: string, parsed: bool, attempt: nat)

  /** `started` is whether a failing bootstrap got as far as starting a node, and `undone` whether the
      reset after it stopped that node. */
  datatype AgentIO = AgentIO(
    clean: CleanIO,
    idReadable: bool,
    secretFetched: bool,
    install: InstallIO,
    dirsCleaned: bool,
    booted: bool,
    started: bool,
    undone: bool,
    idWritten: bool)

  /** `reset` is whether a node reset has run, with or without effect. */
  datatype Result = Result(host: Host, phys: Phys, reset: bool, booted: bool, failed: bool)

  const INSTALL_RETRIES: nat := 3

  /** The host with every trace of its binding removed; node labels and the lease stay. */
  function Emptied(h: Host): Host {
    Unlabelled(Unreferenced(Lowered(h)))
  }

  function Lowered(h: Host): Host {
    h.(installed := false, bootstrapped := false)
  }

  function Unreferenced(h: Host): Host {
    h.(installationSecret := None, uninstallScript := None, machineRef := None, bootstrapSecret := None)
  }

  /** The labels and annotations that removeAnnotations takes off. */
  function Unlabelled(h: Host): Host {
    h.(clusterLabel := None, attachedLabel := None, endpoint := None, version := None,
       registry := None, cleanup := false, startedAt := None)
  }

  /** The uninstall script is there to be parsed, and does not parse. */
  predicate ParseFails(h: Host, skip: bool, io: CleanIO) {
    h.installed && !skip && h.uninstallScript.Some? && !io.parsed
  }

  predicate RemovalFails(h: Host, io: CleanIO) {
    !io.sentinel || (h.endpoint.Some? && !io.endpoint)
  }

  /** hostCleanUp. The node is reset first, and the cleanup goes on whether or not that stopped it; a
      failure leaves the labels in place, and a failure after the parse leaves both conditions False. */
  function CleanedUp(h: Host, p: Phys, skip: bool, io: CleanIO): Result {
    var p1 := p.(up := p.up && !io.stopped);
    if ParseFails(h, skip, io) then Result(h, p1, true, false, true)
    else if RemovalFails(h, io) then
      Result(Lowered(h), p1, true, false, true)
    else
      Result(Emptied(h), p1.(idFile := if io.idRemoved then None else p.idFile), true, false, false)
  }

  /** reconcileDelete: a cleanup error that reads as permanent is dropped. */
  function CleanedUpOnDelete(h: Host, p: Phys, skip: bool, io: CleanIO): Result {
    var r := CleanedUp(h, p, skip, io);
    r.(failed := r.failed && !io.permanent)
  }

  /** The zombie check: unbound, but still marked bootstrapped or installed. */
  predicate Zombie(h: Host) {
    h.machineRef.None? && (h.bootstrapped || h.installed)
  }

  /** The machine-id file names another machine than the one bound now. */
  predicate Mismatch(h: Host, p: Phys) {
    h.machineRef.Some? && p.idFile.Some? && p.idFile.value != h.machineRef.value.uid
  }

  /** The installation stage, and whether bootstrapping goes on after it. */
  function InstallStage(h: Host, skip: bool, io: InstallIO): (Host, bool) {
    if skip || h.installed then (h, true)
    else if h.installationSecret.None? then
      if h.joinMode == TlsBootstrap && h.downloadMode == Offline then (h.(installed := true), true)
      else (h, false)
    else if !io.fetched then (h, false)
    else
      var ok := io.parsed && io.attempt < INSTALL_RETRIES;
      (h.(uninstallScript := Some(io.script), installed := ok), ok)
  }

  /** The bootstrap stage for a bound host whose bootstrap condition is not True. */
  function BootStage(h: Host, p: Phys, skip: bool, io: AgentIO): Result
    requires h.machineRef.Some?
  {
    if !io.secretFetched then Result(h, p, false, false, true)
    else
      var (h1, goOn) := InstallStage(h, skip, io.install);
      if !goOn then Result(h1, p, false, false, h.installationSecret.Some?)
      else if !io.dirsCleaned then Result(h1, p, false, false, true)
      else if !io.booted then Result(h1, p.(up := (p.up || io.started) && !io.undone), true, false, true)
      else Result(h1.(bootstrapped := true),
                  Phys(true, if io.idWritten then Some(h.machineRef.value.uid) else p.idFile),
                  false, true, false)
  }

  /** One agent reconcile of its own host. */
  function Reconciled(h: Host, p: Phys, skip: bool, io: AgentIO): Result {
    if h.cleanup then CleanedUp(h, p, skip, io.clean)
    else if h.deletedAt.Some? then CleanedUpOnDelete(h, p, skip, io.clean)
    else if h.machineRef.None? then
      if Zombie(h) then CleanedUp(h, p, skip, io.clean) else Result(h, p, false, false, false)
    else if h.bootstrapSecret.None? then Result(h.(bootstrapped := false), p, false, false, false)
    else if io.idReadable && Mismatch(h, p) then CleanedUp(h, p, skip, io.clean)
    else if h.bootstrapped then Result(h, p, false, false, false)
    else BootStage(h, p, skip, io)
  }

  /** The agent process with the part of the machine it changes. */
  class Agent {
    const skip: bool
    var nodeUp: bool
    var machineIdFile: Option<nat>

    constructor (skip: bool, p: Phys)
      ensures this.skip == skip && Physical() == p
    {
      this.skip := skip;
      nodeUp, machineIdFile := p.up, p.idFile;
    }

    function Physical(): Phys
      reads this
    {
      Phys(nodeUp, machineIdFile)
    }

    method RemoveAnnotations(b: ByoHost)
      modifies b`clusterLabel, b`attachedLabel, b`endpoint, b`cleanup, b`startedAt, b`version, b`registry
      ensures b.View() == Unlabelled(old(b.View()))
    {
      b.clusterLabel := None;
      b.attachedLabel := None;
      b.endpoint := None;
      b.cleanup := false;
      b.startedAt := None;
      b.version := None;
      b.registry := None;
    }

    /** The secrets and the reference; removeAnnotations clears the last two. */
    method RemoveReferences(b: ByoHost)
      modifies b`installationSecret, b`uninstallScript, b`machineRef, b`bootstrapSecret
      ensures b.View() == Unreferenced(old(b.View()))
    {
      b.installationSecret := None;
      b.uninstallScript := None;
      b.machineRef := None;
      b.bootstrapSecret := None;
    }

    method RemoveBinding(b: ByoHost)
      modifies b
      ensures b.View() == Unlabelled(Unreferenced(old(b.View())))
    {
      RemoveReferences(b);
      RemoveAnnotations(b);
    }

    /** resetNode: every error on the way is logged and dropped. */
    method ResetNode(stopped: bool)
      modifies this`nodeUp
      ensures nodeUp == (old(nodeUp) && !stopped)
    {
      if stopped {
        nodeUp := false;
      }
    }

    /** The first half of hostCleanUp: reset the node, then lower the conditions. */
    method ResetAndLower(b: ByoHost, io: CleanIO) returns (failed: bool)
      modifies this`nodeUp, b`installed, b`bootstrapped
      ensures nodeUp == (old(nodeUp) && !io.stopped)
      ensures failed <==> ParseFails(old(b.View()), skip, io)
      ensures b.View() == if failed then old(b.View()) else Lowered(old(b.View()))
    {
      ResetNode(io.stopped);
      if b.installed {
        if !skip {
          if b.uninstallScript.Some? {
            if !io.parsed {
              return true;
            }
          }
        }
        b.installed := false;
      }
      b.bootstrapped := false;
      return false;
    }

    method HostCleanUp(b: ByoHost, io: CleanIO) returns (failed: bool)
      modifies this, b
      ensures Result(b.View(), Physical(), true, false, failed)
           == CleanedUp(old(b.View()), old(Physical()), skip, io)
    {
      failed := ResetAndLower(b, io);
      if failed {
        return;
      }
      if !io.sentinel {
        return true;
      }
      if b.endpoint.Some? {
        if !io.endpoint {
          return true;
        }
      }
      RemoveBinding(b);
      if io.idRemoved {
        machineIdFile := None;
      }
    }

    /** executeInstallerController with its retry loop: `attempt` runs fail before one works. */
    method ExecuteInstaller(b: ByoHost, io: InstallIO) returns (failed: bool)
      requires b.installationSecret.Some? && !b.installed
      modifies b`uninstallScript, b`installed
      ensures failed <==> !(io.fetched && io.parsed && io.attempt < INSTALL_RETRIES)
      ensures b.uninstallScript == if io.fetched then Some(io.script) else old(b.uninstallScript)
      ensures !b.installed
    {
      if !io.fetched {
        return true;
      }
      b.uninstallScript := Some(io.script);
      if !io.parsed {
        return true;
      }
      failed := true;
      var i := 0;
      while i < INSTALL_RETRIES
        invariant 0 <= i <= INSTALL_RETRIES
        invariant failed && i <= io.attempt
      {
        if i == io.attempt {
          failed := false;
          break;
        }
        i := i + 1;
      }
      if failed {
        b.installed := false;
      }
    }

    method Install(b: ByoHost, io: InstallIO) returns (goOn: bool)
      modifies b`uninstallScript, b`installed
      ensures (b.View(), goOn) == InstallStage(old(b.View()), skip, io)
    {
      if skip {
        return true;
      }
      if !b.installed {
        if b.installationSecret.None? {
          if b.joinMode == TlsBootstrap && b.downloadMode == Offline {
            b.installed := true;
          } else {
            b.installed := false;
            return false;
          }
        } else {
          var failed := ExecuteInstaller(b, io);
          if failed {
            return false;
          }
          b.installed := true;
        }
      }
      return true;
    }

    method Bootstrap(b: ByoHost, io: AgentIO) returns (reset: bool, booted: bool, failed: bool)
      requires b.machineRef.Some? && !b.bootstrapped
      modifies this, b`uninstallScript, b`installed, b`bootstrapped
      ensures Result(b.View(), Physical(), reset, booted, failed)
           == BootStage(old(b.View()), old(Physical()), skip, io)
    {
      if !io.secretFetched {
        return false, false, true;
      }
      var waiting := b.installationSecret.None?;
      var goOn := Install(b, io.install);
      if !goOn {
        return false, false, !waiting;
      }
      if !io.dirsCleaned {
        b.bootstrapped := false;
        return false, false, true;
      }
      if !io.booted {
        nodeUp := nodeUp || io.started;
        ResetNode(io.undone);
        b.bootstrapped := false;
        return true, false, true;
      }
      nodeUp := true;
      b.bootstrapped := true;
      if io.idWritten {
        machineIdFile := Some(b.machineRef.value.uid);
      }
      return false, true, false;
    }

    method ReconcileNormal(b: ByoHost, io: AgentIO) returns (reset: bool, booted: bool, failed: bool)
      requires !b.cleanup && b.deletedAt.None?
      modifies this, b
      ensures Result(b.View(), Physical(), reset, booted, failed)
           == Reconciled(old(b.View()), old(Physical()), skip, io)
    {
      reset, booted, failed := false, false, false;
      if b.machineRef.None? {
        if b.bootstrapped || b.installed {
          failed := HostCleanUp(b, io.clean);
          return true, false, failed;
        }
        return;
      }
      if b.bootstrapSecret.None? {
        b.bootstrapped := false;
        return;
      }
      if io.idReadable && machineIdFile.Some? {
        if machineIdFile.value != b.machineRef.value.uid {
          failed := HostCleanUp(b, io.clean);
          return true, false, failed;
        }
      }
      if !b.bootstrapped {
        reset, booted, failed := Bootstrap(b, io);
      }
    }

    method ReconcileDelete(b: ByoHost, io: CleanIO) returns (failed: bool)
      modifies this, b
      ensures Result(b.View(), Physical(), true, false, failed)
           == CleanedUpOnDelete(old(b.View()), old(Physical()), skip, io)
    {
      failed := HostCleanUp(b, io);
      if failed && io.permanent {
        failed := false;
      }
    }

    method Reconcile(b: ByoHost, io: AgentIO) returns (reset: bool, booted: bool, failed: bool)
      modifies this, b
      ensures Result(b.View(), Physical(), reset, booted, failed)
           == Reconciled(old(b.View()), old(Physical()), skip, io)
    {
      if b.cleanup {
        failed := HostCleanUp(b, io.clean);
        return true, false, failed;
      }
      if b.deletedAt.Some? {
        failed := ReconcileDelete(b, io.clean);
        return true, false, failed;
      }
      reset, booted, failed := ReconcileNormal(b, io);
    }
  }

  /** What an agent operation owes: the host stays coherent, its labels change only by being
      removed, and that comes after a node reset has run and leaves a pristine host. */
  predicate Orderly(h: Host, r: Result) {
    && r.host.Coherent()
    && (if r.host.Claimable() then h.Claimable() || (r.reset && !r.failed)
        else r.host.attachedLabel == h.attachedLabel && r.host.clusterLabel == h.clusterLabel)
  }

  lemma CleanUpOrderly(h: Host, p: Phys, skip: bool, io: CleanIO)
    requires h.Coherent()
    ensures Orderly(h, CleanedUp(h, p, skip, io))
  {
    assert Emptied(h).Coherent();
    assert Lowered(h).Coherent();
  }

  lemma InstallOrderly(h: Host, skip: bool, io: InstallIO)
    requires h.Coherent() && !h.Claimable()
    ensures var h1 := InstallStage(h, skip, io).0;
            && h1.Coherent() && h1 == h.(uninstallScript := h1.uninstallScript, installed := h1.installed)
  {
  }

  lemma BootOrderly(h: Host, p: Phys, skip: bool, io: AgentIO)
    requires h.Coherent() && h.machineRef.Some?
    ensures Orderly(h, BootStage(h, p, skip, io))
  {
    InstallOrderly(h, skip, io.install);
  }

  /** A cleanup takes everything off or leaves the binding alone. */
  lemma CleanUpFrame(h: Host, p: Phys, skip: bool, io: CleanIO)
    ensures var y := CleanedUp(h, p, skip, io).host;
            if ParseFails(h, skip, io) || RemovalFails(h, io) then SameBinding(h, y) else y == Emptied(h)
  {
    assert SameBinding(h, Lowered(h));
  }

  predicate SameBinding(x: Host, y: Host) {
    && y.clusterLabel == x.clusterLabel && y.attachedLabel == x.attachedLabel
    && y.machineRef == x.machineRef && y.deletedAt == x.deletedAt
    && y.cleanup == x.cleanup && y.startedAt == x.startedAt
  }

  lemma InstallFrame(h: Host, skip: bool, io: InstallIO)
    ensures SameBinding(h, InstallStage(h, skip, io).0)
  {
  }

  /** The installation and bootstrap stages leave the binding alone. */
  lemma BootFrame(h: Host, p: Phys, skip: bool, io: AgentIO)
    requires h.machineRef.Some?
    ensures SameBinding(h, BootStage(h, p, skip, io).host)
  {
    var h1 := InstallStage(h, skip, io.install).0;
    InstallFrame(h, skip, io.install);
    assert SameBinding(h1, h1.(bootstrapped := true));
    var y := BootStage(h, p, skip, io).host;
    assert y == h || y == h1 || y == h1.(bootstrapped := true);
  }

  /** An agent reconcile takes everything off or leaves the binding alone. */
  lemma AgentFrame(h: Host, p: Phys, skip: bool, io: AgentIO)
    ensures var y := Reconciled(h, p, skip, io).host;
            SameBinding(h, y) || (y == Emptied(h) && CleanedUp(h, p, skip, io.clean).host == y)
  {
    CleanUpFrame(h, p, skip, io.clean);
    if h.machineRef.Some? {
      BootFrame(h, p, skip, io);
    }
  }

  /** Every agent reconcile is orderly, whatever its I/O returns. */
  lemma AgentOrderly(h: Host, p: Phys, skip: bool, io: AgentIO)
    requires h.Coherent()
    ensures Orderly(h, Reconciled(h, p, skip, io))
  {
    CleanUpOrderly(h, p, skip, io.clean);
    if h.machineRef.Some? {
      BootOrderly(h, p, skip, io);
    }
  }

  predicate AllWorks(io: CleanIO) {
    io.stopped && io.parsed && io.sentinel && io.endpoint && io.idRemoved
  }

  /** What makes the agent clean up: the annotation, a deletion, or one of its two checks. */
  predicate Cleans(h: Host, p: Phys, io: AgentIO) {
    h.cleanup || h.deletedAt.Some? || Zombie(h) || (io.idReadable && Mismatch(h, p))
  }

  /** The agent cleans up and gets to the end. */
  predicate CleansThrough(h: Host, p: Phys, skip: bool, io: AgentIO) {
    Cleans(h, p, io) && !ParseFails(h, skip, io.clean) && !RemovalFails(h, io.clean)
  }

  /** The agent gets as far as running the bootstrap script. */
  predicate Bootstraps(h: Host, p: Phys, skip: bool, io: AgentIO) {
    && !Cleans(h, p, io) && h.machineRef.Some? && !h.bootstrapped
    && io.secretFetched && InstallStage(h, skip, io.install).1 && io.dirsCleaned
  }

  /** Exactly when one agent reconcile returns a labelled host to the pool. Whether the reset stopped
      the node is not among the conditions. */
  lemma ReturnsToPoolExactly(h: Host, p: Phys, skip: bool, io: AgentIO)
    requires h.Coherent() && !h.Claimable()
    ensures Reconciled(h, p, skip, io).host.Claimable() <==> CleansThrough(h, p, skip, io)
  {
    if Cleans(h, p, io) {
      CleansByCleanup(h, p, skip, io);
      CleanUpFrame(h, p, skip, io.clean);
    } else {
      OthersKeepBinding(h, p, skip, io);
    }
  }

  /** The three ways into the cleanup do the same to a coherent host. */
  lemma CleansByCleanup(h: Host, p: Phys, skip: bool, io: AgentIO)
    requires h.Coherent() && Cleans(h, p, io)
    ensures Reconciled(h, p, skip, io).host == CleanedUp(h, p, skip, io.clean).host
  {
  }

  lemma OthersKeepBinding(h: Host, p: Phys, skip: bool, io: AgentIO)
    requires !Cleans(h, p, io)
    ensures SameBinding(h, Reconciled(h, p, skip, io).host)
  {
    if h.machineRef.Some? {
      BootFrame(h, p, skip, io);
    }
  }

  /** Success does not mean cleaned up: exactly on the deletion path, and for an error that reads as
      permanent, a cleanup that has not got to the end is reported as success. */
  lemma SuccessWithoutCleanupExactly(h: Host, p: Phys, skip: bool, io: AgentIO)
    requires h.Coherent() && !h.Claimable() && Cleans(h, p, io)
    ensures var r := Reconciled(h, p, skip, io);
            !r.failed && !r.host.Claimable() <==>
              !h.cleanup && h.deletedAt.Some? && io.clean.permanent && !CleansThrough(h, p, skip, io)
  {
  }

  /** Exactly when a node runs on the machine after an agent reconcile. */
  lemma NodeUpExactly(h: Host, p: Phys, skip: bool, io: AgentIO)
    requires h.Coherent()
    ensures Reconciled(h, p, skip, io).phys.up <==>
              if Cleans(h, p, io) then p.up && !io.clean.stopped
              else if Bootstraps(h, p, skip, io) then io.booted || ((p.up || io.started) && !io.undone)
              else p.up
  {
  }

  /** The phase after a zombie cleanup failed past the parse: labels kept, conditions False, no
      annotation. The agent then does nothing about the host, whatever its I/O would return. */
  predicate Stranded(h: Host) {
    && !h.Claimable() && h.machineRef.None? && !h.cleanup && h.deletedAt.None?
    && !h.bootstrapped && !h.installed
  }

  /** How a host gets stranded: a zombie cleanup that passes the parse and fails to remove the sentinel
      file or the endpoint. */
  lemma ZombieCleanupFailureStrands(h: Host, p: Phys, skip: bool, io: AgentIO)
    requires h.Coherent() && !h.Claimable() && !h.cleanup && h.deletedAt.None? && Zombie(h)
    ensures Stranded(Reconciled(h, p, skip, io).host)
       <==> !ParseFails(h, skip, io.clean) && RemovalFails(h, io.clean)
  {
  }

  lemma AgentIgnoresStranded(h: Host, p: Phys, skip: bool, io: AgentIO)
    requires Stranded(h)
    ensures Reconciled(h, p, skip, io) == Result(h, p, false, false, false)
  {
  }

  /** A bootstrap only runs on a bound, not yet bootstrapped host whose machine-id file, when it
      can be read, is absent or names the bound machine; and it leaves the bootstrap condition True. */
  lemma BootstrapGuard(h: Host, p: Phys, skip: bool, io: AgentIO)
    requires Reconciled(h, p, skip, io).booted
    ensures h.machineRef.Some? && !h.bootstrapped && !h.cleanup && h.deletedAt.None?
    ensures io.idReadable && p.idFile.Some? ==> p.idFile.value == h.machineRef.value.uid
    ensures Reconciled(h, p, skip, io).phys.up && Reconciled(h, p, skip, io).host.bootstrapped
  {
  }

  // ---- What an agent reconcile writes, field by field -----------------------------------------

  /** The host is bound and neither marked nor being deleted, has its bootstrap secret, carries no readable
      machine-id of another machine, and is not bootstrapped: the agent goes on to bootstrap it. */
  predicate Due(h: Host, p: Phys, io: AgentIO) {
    && !h.cleanup && h.deletedAt.None? && h.machineRef.Some? && h.bootstrapSecret.Some? && !h.bootstrapped
    && !(io.idReadable && p.idFile.Some? && p.idFile.value != h.machineRef.value.uid)
  }

  /** What a bootstrap needs of the installation: it is skipped or was done before, or the binaries of an
      offline TLS host are taken to be there, or the installer's script works within three runs. */
  predicate Prepared(h: Host, skip: bool, io: InstallIO) {
    || skip || h.installed
    || (h.installationSecret.None? && h.joinMode == TlsBootstrap && h.downloadMode == Offline)
    || (h.installationSecret.Some? && io.fetched && io.parsed && io.attempt < 3)
  }

  /** Exactly when an agent reconcile bootstraps its host. */
  lemma BootsExactly(h: Host, p: Phys, skip: bool, io: AgentIO)
    ensures Reconciled(h, p, skip, io).booted <==>
              && Due(h, p, io) && io.secretFetched && Prepared(h, skip, io.install) && io.dirsCleaned && io.booted
  {
  }

  /** What the installation leaves in the host: the script as soon as the secret has been read, and the
      condition once the binaries are there. */
  lemma InstallFields(h: Host, skip: bool, io: InstallIO)
    ensures var (y, goOn) := InstallStage(h, skip, io);
            && (goOn <==> Prepared(h, skip, io))
            && y == h.(uninstallScript := y.uninstallScript, installed := y.installed)
            && (y.installed <==> h.installed || (!skip && Prepared(h, skip, io)))
            && y.uninstallScript == if !skip && !h.installed && h.installationSecret.Some? && io.fetched
                                    then Some(io.script) else h.uninstallScript
  {
  }

  /** What a reconcile that goes on to bootstrap its host writes: script and condition of the installation
      if the bootstrap secret is read, the bootstrap condition if the bootstrap works; and when it
      reports an error. */
  lemma BootFields(h: Host, p: Phys, skip: bool, io: AgentIO)
    requires Due(h, p, io)
    ensures var r := Reconciled(h, p, skip, io);
            && r.host == h.(uninstallScript := r.host.uninstallScript, installed := r.host.installed,
                            bootstrapped := r.booted)
            && (r.host.installed <==> h.installed || (io.secretFetched && !skip && Prepared(h, skip, io.install)))
            && r.host.uninstallScript == (if && io.secretFetched && !skip && !h.installed
                                             && h.installationSecret.Some? && io.install.fetched
                                          then Some(io.install.script) else h.uninstallScript)
            && (r.failed <==> || !io.secretFetched
                              || (Prepared(h, skip, io.install) && !(io.dirsCleaned && io.booted))
                              || (!Prepared(h, skip, io.install) && h.installationSecret.Some?))
            && (r.reset <==> io.secretFetched && Prepared(h, skip, io.install) && io.dirsCleaned && !io.booted)
            && r.phys.idFile == if r.booted && io.idWritten then Some(h.machineRef.value.uid) else p.idFile
  {
    InstallFields(h, skip, io.install);
  }

  /** A bound host that still waits for its installation secret, and is not in the offline TLS mode, is
      left exactly as it was. */
  lemma WaitingLeftAlone(h: Host, p: Phys, skip: bool, io: AgentIO)
    requires Due(h, p, io) && !skip && !h.installed && h.installationSecret.None?
    requires h.joinMode != TlsBootstrap || h.downloadMode != Offline
    ensures Reconciled(h, p, skip, io) == Result(h, p, false, false, !io.secretFetched)
  {
  }

  /** Nothing is done about an unbound host that is clean, or about a bootstrapped one that carries no other
      machine's id; a bound one without its bootstrap secret only has its condition lowered. */
  lemma OthersLeftAlone(h: Host, p: Phys, skip: bool, io: AgentIO)
    requires !h.cleanup && h.deletedAt.None?
    ensures h.machineRef.None? && !h.bootstrapped && !h.installed ==>
              Reconciled(h, p, skip, io) == Result(h, p, false, false, false)
    ensures h.machineRef.Some? && h.bootstrapSecret.None? ==>
              Reconciled(h, p, skip, io) == Result(h.(bootstrapped := false), p, false, false, false)
    ensures && h.machineRef.Some? && h.bootstrapSecret.Some? && h.bootstrapped
            && !(io.idReadable && p.idFile.Some? && p.idFile.value != h.machineRef.value.uid) ==>
              Reconciled(h, p, skip, io) == Result(h, p, false, false, false)
  {
  }

  /** Exactly when an agent reconcile resets the node: the host is marked or being deleted, or is unbound with a
      condition left over, or carries the readable id of another machine, or its bootstrap has failed. */
  lemma ResetsExactly(h: Host, p: Phys, skip: bool, io: AgentIO)
    ensures Reconciled(h, p, skip, io).reset <==>
              || h.cleanup || h.deletedAt.Some?
              || (h.machineRef.None? && (h.bootstrapped || h.installed))
              || (&& h.machineRef.Some? && h.bootstrapSecret.Some? && io.idReadable && p.idFile.Some?
                  && p.idFile.value != h.machineRef.value.uid)
              || (&& Due(h, p, io) && io.secretFetched && Prepared(h, skip, io.install) && io.dirsCleaned
                  && !io.booted)
  {
  }

  /** What a complete cleanup takes off, and what it leaves on: the lease, the pause, the node labels and the
      settings of the last machine. */
  lemma EmptiedFields(x: Host)
    ensures var y := Emptied(x);
            && y.Claimable() && y.Pristine()
            && y.deletedAt == x.deletedAt && y.paused == x.paused && y.lease == x.lease
            && y.joinMode == x.joinMode && y.downloadMode == x.downloadMode
            && y.kubernetesVersion == x.kubernetesVersion && y.manageKubeProxy == x.manageKubeProxy
            && y.nodeLabels == x.nodeLabels
  {
  }

  /** What a cleanup leaves, by where it stops: everything where the uninstall script does not parse; both
      conditions lowered where a file or the endpoint cannot be removed; and otherwise nothing of the
      binding, nor, where that can be removed, the machine-id file. */
  lemma CleanupFields(h: Host, p: Phys, skip: bool, io: CleanIO)
    ensures var r := CleanedUp(h, p, skip, io);
            var parseFails := h.installed && !skip && h.uninstallScript.Some? && !io.parsed;
            var removalFails := !io.sentinel || (h.endpoint.Some? && !io.endpoint);
            && r.reset && !r.booted && (r.failed <==> parseFails || removalFails)
            && r.phys.up == (p.up && !io.stopped)
            && r.phys.idFile == (if !r.failed && io.idRemoved then None else p.idFile)
            && r.host == if parseFails then h
                         else if removalFails then h.(installed := false, bootstrapped := false)
                         else Emptied(h)
  {
  }
}
