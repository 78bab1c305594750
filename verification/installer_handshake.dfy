/** The installation-secret handshake. The ByoMachine controller attaches a host and waits; the
    K8sInstallerConfig controller writes the installation secret only while the machine's
    BYOHostReady condition gives the reason InstallationSecretNotAvailable; the ByoMachine
    controller then copies the reference of a Ready config to the host. */
module InstallerHandshake {
  import opened ByoModel

  /** The reason of the condition BYOHostReady; `Provisioned` is the condition at True. */
  datatype Reason =
    | NoReason
    | ClusterOrResourcePaused
    | WaitingForClusterInfrastructure
    | WaitingForBootstrapDataSecret
    | HostsUnavailable
    | InstallationSecretNotAvailable
    | WaitingForNodeRef
    | Provisioned

  datatype Config = Config(finalizer: bool, ready: bool, installationSecret: bool)

  const NEW_CONFIG := Config(false, false, false)

  /** One ByoMachine with an installer reference. `stored` holds the data of the installation
      secret, which is named after the config; `hostSecret` says whether the attached host
      refers to it. */
  datatype State = State(
    reason: Reason,
    attached: bool,
    hostSecret: bool,
    config: Option<Config>,
    stored: Option<string>)

  const INIT := State(NoReason, false, false, None, None)

  datatype AttachResult = NoneListed | AttachFailed | Attached

  datatype NodeResult = NodeError | NodeNotFound | NodeProvisioned

  /** What a ByoMachine reconcile meets; `lands` is the deferred patch of the machine. */
  datatype MachineEnv = MachineEnv(
    fetched: bool,
    paused: bool,
    deleting: bool,
    unpauseOk: bool,
    configOk: bool,
    infrastructureReady: bool,
    bootstrapReady: bool,
    attach: AttachResult,
    lookupOk: bool,
    hostPatchOk: bool,
    node: NodeResult,
    lands: bool)

  /** What a K8sInstallerConfig reconcile meets; `lands` is the deferred patch of the config. */
  datatype ConfigEnv = ConfigEnv(
    deleting: bool,
    ownerFound: bool,
    paused: bool,
    installerOk: bool,
    script: string,
    createOk: bool,
    updateOk: bool,
    lands: bool)

  /** Creating the secret, or updating the one an earlier reconcile has created. */
  predicate WriteOk(stored: Option<string>, e: ConfigEnv) {
    if stored.None? then e.createOk else e.updateOk
  }

  /** `Detach` is the cleanup by the host's agent, which takes the label and the secret off; `Collect` is
      the garbage collection of a secret whose config is gone. */
  datatype Step = MachineReconcile(m: MachineEnv) | ConfigReconcile(c: ConfigEnv) | Detach | Collect

  // ---- ByoMachine controller ------------------------------------------------------------------

  predicate Deliverable(s: State, e: MachineEnv) {
    e.lookupOk && s.config.Some? && s.config.value.ready && s.config.value.installationSecret && e.hostPatchOk
  }

  function NodeReason(reason: Reason, node: NodeResult): Reason {
    match node
    case NodeError => reason
    case NodeNotFound => WaitingForNodeRef
    case NodeProvisioned => Provisioned
  }

  /** The tail of reconcileNormal, with the host attached: secret first, then the node. */
  function Provided(s: State, e: MachineEnv): State {
    if s.hostSecret then s.(reason := NodeReason(s.reason, e.node))
    else if Deliverable(s, e) then s.(hostSecret := true, reason := NodeReason(s.reason, e.node))
    else s
  }

  /** reconcileNormal once the installer config exists. */
  function Served(s: State, e: MachineEnv): State {
    if !e.infrastructureReady then s.(reason := WaitingForClusterInfrastructure)
    else if !e.bootstrapReady then s.(reason := WaitingForBootstrapDataSecret)
    else if s.attached then Provided(s, e)
    else
      match e.attach
      case NoneListed => s.(reason := HostsUnavailable)
      case AttachFailed => s
      case Attached => Provided(s.(attached := true, hostSecret := false, reason := InstallationSecretNotAvailable), e)
  }

  /** The machine as the reconcile leaves it in memory, and the objects it wrote on the way. */
  function Worked(s: State, e: MachineEnv): State {
    if !e.fetched then s
    else if e.paused then s.(reason := ClusterOrResourcePaused)
    else if e.deleting then s
    else if s.attached && !e.unpauseOk then s
    else if s.config.None? && !e.configOk then s
    else Served(if s.config.None? then s.(config := Some(NEW_CONFIG)) else s, e)
  }

  function MachineStep(s: State, e: MachineEnv): State {
    if e.lands then Worked(s, e) else Worked(s, e).(reason := s.reason)
  }

  /** The objects a ByoMachine reconcile works on. */
  class MachineScope {
    var reason: Reason
    var attached: bool
    var hostSecret: bool
    var config: Option<Config>
    const stored: Option<string>

    function View(): State
      reads this
    {
      State(reason, attached, hostSecret, config, stored)
    }

    constructor (s: State)
      ensures View() == s
    {
      reason, attached, hostSecret, config, stored := s.reason, s.attached, s.hostSecret, s.config, s.stored;
    }

    method SetInstallationSecret(e: MachineEnv) returns (done: bool)
      modifies this`hostSecret
      ensures done == Deliverable(View(), e)
      ensures hostSecret == (old(hostSecret) || done)
    {
      if !e.lookupOk || config.None? {
        return false;
      }
      if !config.value.ready {
        return false;
      }
      if !config.value.installationSecret || !e.hostPatchOk {
        return false;
      }
      hostSecret := true;
      return true;
    }

    method UpdateNodeProviderID(e: MachineEnv)
      modifies this`reason
      ensures reason == NodeReason(old(reason), e.node)
    {
      if e.node.NodeNotFound? {
        reason := WaitingForNodeRef;
      } else if e.node.NodeProvisioned? {
        reason := Provisioned;
      }
    }

    method ReconcileNormal(e: MachineEnv)
      requires e.fetched && !e.paused && !e.deleting
      modifies this
      ensures View() == Worked(old(View()), e)
    {
      if attached && !e.unpauseOk {
        return;
      }
      if config.None? {
        if !e.configOk {
          return;
        }
        config := Some(NEW_CONFIG);
      }
      if !e.infrastructureReady {
        reason := WaitingForClusterInfrastructure;
        return;
      }
      if !e.bootstrapReady {
        reason := WaitingForBootstrapDataSecret;
        return;
      }
      if !attached {
        if e.attach.NoneListed? {
          reason := HostsUnavailable;
          return;
        }
        if e.attach.AttachFailed? {
          return;
        }
        attached, hostSecret := true, false;
        reason := InstallationSecretNotAvailable;
      }
      if !hostSecret {
        var done := SetInstallationSecret(e);
        if !done {
          return;
        }
      }
      UpdateNodeProviderID(e);
    }

    method Reconcile(e: MachineEnv)
      modifies this
      ensures View() == MachineStep(old(View()), e)
    {
      if !e.fetched {
        return;
      }
      var served := reason;
      if e.paused {
        reason := ClusterOrResourcePaused;
      } else if !e.deleting {
        ReconcileNormal(e);
      }
      if !e.lands {
        reason := served;
      }
    }
  }

  // ---- K8sInstallerConfig controller ----------------------------------------------------------

  /** The gate of the K8sInstallerConfig reconcile. */
  predicate Generates(s: State, e: ConfigEnv) {
    && !e.deleting && e.ownerFound && !e.paused
    && s.reason == InstallationSecretNotAvailable
    && s.config.Some? && !s.config.value.ready
  }

  /** A config that is being deleted loses its finalizer, and with that it is gone. */
  function ConfigStep(s: State, e: ConfigEnv): State {
    if s.config.None? then s
    else if e.deleting then if e.lands then s.(config := None) else s
    else
      var writes := Generates(s, e) && e.installerOk && WriteOk(s.stored, e);
      var config := if writes then Config(true, true, true) else s.config.value.(finalizer := true);
      s.(config := if e.lands then Some(config) else s.config,
         stored := if writes then Some(e.script) else s.stored)
  }

  class Secrets {
    var stored: Option<string>

    constructor (stored: Option<string>)
      ensures this.stored == stored
    {
      this.stored := stored;
    }
  }

  class K8sInstallerConfig {
    var finalizer: bool
    var ready: bool
    var installationSecret: bool

    function View(): Config
      reads this
    {
      Config(finalizer, ready, installationSecret)
    }

    constructor (c: Config)
      ensures View() == c
    {
      finalizer, ready, installationSecret := c.finalizer, c.ready, c.installationSecret;
    }

    method StoreInstallationData(secrets: Secrets, e: ConfigEnv)
      modifies this`ready, this`installationSecret, secrets
      ensures var ok := WriteOk(old(secrets.stored), e);
              && secrets.stored == (if ok then Some(e.script) else old(secrets.stored))
              && ready == (old(ready) || ok)
              && installationSecret == (old(installationSecret) || ok)
    {
      if secrets.stored.None? {
        if !e.createOk {
          return;
        }
        secrets.stored := Some(e.script);
      } else {
        if !e.updateOk {
          return;
        }
        secrets.stored := Some(e.script);
      }
      installationSecret := true;
      ready := true;
    }

    /** `s` is the state the reconcile read; the config it leaves in memory is patched afterwards. */
    method Reconcile(ghost s: State, reason: Reason, secrets: Secrets, e: ConfigEnv)
      requires s.reason == reason && s.config == Some(View()) && s.stored == secrets.stored
      modifies this, secrets
      ensures e.deleting ==> !finalizer && secrets.stored == s.stored
      ensures ConfigStep(s, e) == if !e.lands then s.(stored := secrets.stored)
                                  else if e.deleting then s.(config := None)
                                  else s.(config := Some(View()), stored := secrets.stored)
    {
      if !finalizer {
        finalizer := true;
      }
      if e.deleting {
        finalizer := false;
        return;
      }
      if !e.ownerFound {
        return;
      }
      if e.paused {
        return;
      }
      if reason != InstallationSecretNotAvailable || ready {
        return;
      }
      if !e.installerOk {
        return;
      }
      StoreInstallationData(secrets, e);
    }
  }

  // ---- Runs -----------------------------------------------------------------------------------

  function Apply(s: State, step: Step): State {
    match step
    case MachineReconcile(e) => MachineStep(s, e)
    case ConfigReconcile(e) => ConfigStep(s, e)
    case Detach => s.(attached := false, hostSecret := false)
    case Collect => if s.config.None? then s.(stored := None) else s
  }

  function Exec(s: State, run: seq<Step>): State {
    if run == [] then s else Apply(Exec(s, run[..|run| - 1]), run[|run| - 1])
  }

  // ---- What a reconcile does, from what it meets ----------------------------------------------

  /** A reconcile of the machine gets past the installer config. */
  predicate Prepares(s: State, e: MachineEnv) {
    && e.fetched && !e.paused && !e.deleting && (s.attached ==> e.unpauseOk) && (s.config.Some? || e.configOk)
  }

  /** It gets past the attachment. */
  predicate HasHost(s: State, e: MachineEnv) {
    Prepares(s, e) && e.infrastructureReady && e.bootstrapReady && (s.attached || e.attach.Attached?)
  }

  /** The secret of a Ready config can be read and written to the host. */
  predicate Offered(s: State, e: MachineEnv) {
    s.config.Some? && s.config.value.ready && s.config.value.installationSecret && e.lookupOk && e.hostPatchOk
  }

  /** The host has its secret when the reconcile comes to the node. */
  predicate Equipped(s: State, e: MachineEnv) {
    HasHost(s, e) && ((s.attached && s.hostSecret) || Offered(s, e))
  }

  /** The reason that a reconcile gives, whether or not it is stored. */
  function GivenReason(s: State, e: MachineEnv): Reason {
    var kept := if HasHost(s, e) && !s.attached then InstallationSecretNotAvailable else s.reason;
    if e.fetched && e.paused then ClusterOrResourcePaused
    else if !Prepares(s, e) then s.reason
    else if !e.infrastructureReady then WaitingForClusterInfrastructure
    else if !e.bootstrapReady then WaitingForBootstrapDataSecret
    else if !HasHost(s, e) then if e.attach.NoneListed? then HostsUnavailable else s.reason
    else if Equipped(s, e) && e.node.NodeNotFound? then WaitingForNodeRef
    else if Equipped(s, e) && e.node.NodeProvisioned? then Provisioned
    else kept
  }

  /** What a reconcile of the machine writes: the attachment, the secret on the host, the config it creates and
      the reason, of which only the last is lost with the deferred patch. */
  lemma MachineStepExactly(s: State, e: MachineEnv)
    requires Sound(s)
    ensures var t := MachineStep(s, e);
            && (t.attached <==> s.attached || HasHost(s, e))
            && (t.hostSecret <==> s.hostSecret || Equipped(s, e))
            && t.config == (if s.config.None? && Prepares(s, e) then Some(Config(false, false, false)) else s.config)
            && t.stored == s.stored
            && t.reason == (if e.lands then GivenReason(s, e) else s.reason)
  {
  }

  /** The installer writes the secret exactly when its config is neither deleted nor Ready, its machine is
      found, unpaused and waiting for the secret, and the installer and the write work. */
  predicate Writes(s: State, e: ConfigEnv) {
    && s.config.Some? && !s.config.value.ready && s.reason == InstallationSecretNotAvailable
    && !e.deleting && e.ownerFound && !e.paused && e.installerOk
    && (if s.stored.None? then e.createOk else e.updateOk)
  }

  /** What a reconcile of the config writes: the secret at once, and with the deferred patch the finalizer, the
      reference and Ready, or the end of a config that is being deleted. */
  lemma ConfigStepExactly(s: State, e: ConfigEnv)
    ensures var t := ConfigStep(s, e);
            && t.stored == (if Writes(s, e) then Some(e.script) else s.stored)
            && t == s.(config := t.config, stored := t.stored)
            && (s.config.None? || !e.lands ==> t.config == s.config)
            && (s.config.Some? && e.lands ==>
                  if e.deleting then t.config.None?
                  else
                    && t.config.Some? && t.config.value.finalizer
                    && (t.config.value.ready <==> s.config.value.ready || Writes(s, e))
                    && (t.config.value.installationSecret <==> s.config.value.installationSecret || Writes(s, e)))
  {
  }

  /** Ready implies the reference, and the reference implies the secret. */
  predicate Sound(s: State) {
    && (s.config.Some? && s.config.value.ready ==> s.config.value.installationSecret)
    && (s.config.Some? && s.config.value.installationSecret ==> s.stored.Some?)
    && (s.hostSecret ==> s.attached)
  }

  lemma ApplyKeepsSound(s: State, step: Step)
    requires Sound(s)
    ensures Sound(Apply(s, step))
  {
  }

  lemma {:induction false} RunKeepsSound(s: State, run: seq<Step>)
    requires Sound(s)
    ensures Sound(Exec(s, run))
    decreases |run|
  {
    if run != [] {
      RunKeepsSound(s, run[..|run| - 1]);
      ApplyKeepsSound(Exec(s, run[..|run| - 1]), run[|run| - 1]);
    }
  }

  /** In every run a Ready config names its secret, and the secret that it names is stored. */
  lemma {:induction false} ReadyNamesStoredSecret(run: seq<Step>)
    ensures var s := Exec(INIT, run);
            s.config.Some? && s.config.value.ready ==> s.config.value.installationSecret && s.stored.Some?
  {
    RunKeepsSound(INIT, run);
  }

  /** In every run without a collected secret, the secret that a host names is stored too. */
  lemma {:induction false} HostNamesStoredSecret(run: seq<Step>)
    requires Collect !in run
    ensures Exec(INIT, run).hostSecret ==> Exec(INIT, run).stored.Some?
    decreases |run|
  {
    if run != [] {
      var n := |run| - 1;
      HostNamesStoredSecret(run[..n]);
      RunKeepsSound(INIT, run[..n]);
      assert run[n] in run;
    }
  }

  /** A host waits for a secret that no Ready config offers yet. */
  predicate Pending(s: State) {
    s.attached && !s.hostSecret && (s.config.None? || !s.config.value.ready)
  }

  /** While a host waits, the installer controller's gate is open. */
  predicate Live(s: State) {
    Pending(s) ==> s.reason == InstallationSecretNotAvailable
  }

  /** Machine reconciles that close the gate on a waiting host: one that finds the machine paused, or the
      cluster's readiness withdrawn, and whose patch lands; and an attach whose patch is lost. */
  predicate MachineCloses(s: State, e: MachineEnv) {
    && e.fetched
    && if Pending(s) then
         e.lands && (e.paused || (!e.deleting && e.unpauseOk && (s.config.Some? || e.configOk)
                                  && (!e.infrastructureReady || !e.bootstrapReady)))
       else
         && !s.attached && !e.paused && !e.deleting && (s.config.Some? || e.configOk)
         && e.infrastructureReady && e.bootstrapReady && e.attach.Attached?
         && (s.config.Some? ==> !s.config.value.ready)
         && !e.lands && s.reason != InstallationSecretNotAvailable
  }

  /** The deletion of a Ready config whose secret has not reached its host, after the reason is gone. */
  predicate ConfigCloses(s: State, e: ConfigEnv) {
    && e.deleting && e.lands && s.config.Some? && s.config.value.ready
    && s.attached && !s.hostSecret && s.reason != InstallationSecretNotAvailable
  }

  predicate Closes(s: State, step: Step) {
    match step
    case MachineReconcile(e) => MachineCloses(s, e)
    case ConfigReconcile(e) => ConfigCloses(s, e)
    case _ => false
  }

  /** The exact condition: a step keeps the gate open unless it is one of those. */
  lemma LiveKeptExactly(s: State, step: Step)
    requires Sound(s) && Live(s)
    ensures Live(Apply(s, step)) <==> !Closes(s, step)
  {
  }

  predicate NeverCloses(s: State, run: seq<Step>) {
    forall i :: 0 <= i < |run| ==> !Closes(Exec(s, run[..i]), run[i])
  }

  lemma {:induction false} RunKeepsLive(s: State, run: seq<Step>)
    requires Sound(s) && Live(s) && NeverCloses(s, run)
    ensures Live(Exec(s, run))
    decreases |run|
  {
    if run != [] {
      var n := |run| - 1;
      forall i | 0 <= i < n
        ensures !Closes(Exec(s, run[..n][..i]), run[..n][i])
      {
        assert run[..n][..i] == run[..i];
      }
      RunKeepsLive(s, run[..n]);
      RunKeepsSound(s, run[..n]);
      LiveKeptExactly(Exec(s, run[..n]), run[n]);
    }
  }

  predicate Steady(step: Step) {
    step.MachineReconcile? ==>
      !step.m.paused && step.m.infrastructureReady && step.m.bootstrapReady && step.m.lands
  }

  /** No deadlock: with the machine unpaused, infrastructure and bootstrap secret ready and the
      machine's patches landing, a host that lacks its secret always finds the installer's gate open,
      also when configs are deleted and created again. */
  lemma {:induction false} NoDeadlock(run: seq<Step>)
    requires forall step :: step in run ==> Steady(step)
    ensures var s := Exec(INIT, run); s.attached && !s.hostSecret ==> s.reason == InstallationSecretNotAvailable
    decreases |run|
  {
    if run != [] {
      var n := |run| - 1;
      NoDeadlock(run[..n]);
      assert Steady(run[n]);
    }
  }

  predicate Succeeds(c: ConfigEnv, m: MachineEnv) {
    && !c.deleting && c.ownerFound && !c.paused && c.installerOk && c.createOk && c.updateOk && c.lands
    && m.fetched && !m.paused && !m.deleting && m.unpauseOk && m.infrastructureReady && m.bootstrapReady
    && m.lookupOk && m.hostPatchOk
  }

  /** Progress: wherever such a run has left a waiting host, one good reconcile of the config and one
      of the machine give it the secret, also after reconciles that wrote the secret and lost the
      patch of the config. */
  lemma TwoReconcilesDeliver(run: seq<Step>, c: ConfigEnv, m: MachineEnv)
    requires NeverCloses(INIT, run) && Pending(Exec(INIT, run)) && Exec(INIT, run).config.Some? && Succeeds(c, m)
    ensures var s := Exec(INIT, run + [ConfigReconcile(c), MachineReconcile(m)]);
            s.attached && s.hostSecret && s.stored == Some(c.script)
  {
    RunKeepsLive(INIT, run);
    var longer := run + [ConfigReconcile(c), MachineReconcile(m)];
    assert longer[..|run| + 1] == run + [ConfigReconcile(c)];
    assert (run + [ConfigReconcile(c)])[..|run|] == run;
  }

  /** A waiting host behind a closed gate. */
  predicate Stuck(s: State) {
    Pending(s) && s.reason != InstallationSecretNotAvailable
  }

  /** Nothing reopens the gate: in every run in which the host is not detached, whatever the
      reconciles meet, it never gets its secret. */
  lemma {:induction false} StuckUntilDetached(s: State, run: seq<Step>)
    requires Stuck(s) && Detach !in run
    ensures Stuck(Exec(s, run))
    decreases |run|
  {
    if run != [] {
      StuckUntilDetached(s, run[..|run| - 1]);
      assert run[|run| - 1] in run;
    }
  }

  /** The family of the failure: one pause that lands on any waiting host strands it for good. */
  lemma PauseStrands(s: State, e: MachineEnv, run: seq<Step>)
    requires Pending(s) && e.fetched && e.paused && e.lands && Detach !in run
    ensures !Exec(MachineStep(s, e), run).hostSecret
  {
    StuckUntilDetached(MachineStep(s, e), run);
  }
}
