/** The ByoHost record, as a value (`Host`) and as the object the reconcilers edit in place
    (`ByoHost`), together with the key and label vocabulary shared by every controller. */
module ByoModel {

  datatype Option<+T> = None | Some(value: T)

  /** Times and durations are nanoseconds, as in Go's `time` package. */
  const SECOND: int := 1_000_000_000
  const MINUTE: int := 60 * SECOND

  const LEASE_TIMEOUT: int := 30 * SECOND

  datatype MachineKey = MachineKey(namespace: string, name: string)

  /** Namespaces are DNS labels, so the API server admits none that contains a dot. */
  type Key = k: MachineKey | '.' !in k.namespace witness MachineKey("", "")

  datatype Ref = Ref(key: Key, uid: nat)

  /** The value stored under the byomachine-name label. */
  function AttachedLabel(k: Key): string {
    k.namespace + "." + k.name
  }

  /** The first dot of a label value ends the namespace. */
  lemma NamespaceEndsAtFirstDot(k: Key)
    ensures var s, n := AttachedLabel(k), |k.namespace|;
            && n < |s| && s[n] == '.' && (forall i :: 0 <= i < n ==> s[i] != '.')
            && k.namespace == s[..n] && k.name == s[n + 1..]
  {
  }

  /** Label lookup identifies the machine: two keys never share a label value. */
  lemma AttachedLabelInjective(a: Key, b: Key)
    requires AttachedLabel(a) == AttachedLabel(b)
    ensures a == b
  {
    NamespaceEndsAtFirstDot(a);
    NamespaceEndsAtFirstDot(b);
  }

  datatype Lease = Lease(holder: Key, at: int) | Unparsable

  /** The test of tryAcquireLease: a parsable lease younger than 30 s blocks the claimant. */
  predicate LeaseBlocks(lease: Option<Lease>, now: int) {
    lease.Some? && lease.value.Lease? && lease.value.at + LEASE_TIMEOUT > now
  }

  /** The cleanup-started-at annotation: an RFC 3339 time, or text that does not parse. */
  datatype Stamp = At(time: int) | Malformed

  datatype JoinMode = Kubeadm | TlsBootstrap
  datatype DownloadMode = Unset | Offline | Online

  /** The fields of a ByoHost object that any of the controllers reads or writes.
      Conditions are recorded by whether their status is True. */
  datatype Host = Host(
    deletedAt: Option<int>,
    clusterLabel: Option<string>,
    attachedLabel: Option<string>,
    paused: bool,
    cleanup: bool,
    startedAt: Option<Stamp>,
    lease: Option<Lease>,
    endpoint: Option<string>,
    version: Option<string>,
    registry: Option<string>,
    bootstrapSecret: Option<string>,
    installationSecret: Option<string>,
    uninstallScript: Option<string>,
    joinMode: JoinMode,
    downloadMode: DownloadMode,
    kubernetesVersion: string,
    manageKubeProxy: bool,
    nodeLabels: map<string, string>,
    machineRef: Option<Ref>,
    bootstrapped: bool,
    installed: bool)
  {
    /** Only hosts without the cluster-name label are listed by a claimant. */
    predicate Claimable() {
      clusterLabel.None?
    }

    /** Nothing left over from an earlier binding. */
    predicate Pristine() {
      && attachedLabel.None? && machineRef.None?
      && bootstrapSecret.None? && installationSecret.None? && uninstallScript.None?
      && !cleanup && startedAt.None?
      && endpoint.None? && version.None? && registry.None?
      && !bootstrapped && !installed
    }

    /** What every controller keeps of a single host, whatever the interleaving. */
    predicate Coherent() {
      && (Claimable() ==> Pristine())
      && (clusterLabel.Some? ==> attachedLabel.Some?)
      && (machineRef.Some? ==>
            && bootstrapSecret.Some?
            && attachedLabel == Some(AttachedLabel(machineRef.value.key)))
      && (startedAt.Some? ==> cleanup && startedAt.value.At?)
    }
  }

  /** A host object as the agent registers it. */
  const FRESH_HOST: Host :=
    Host(None, None, None, false, false, None, None, None, None, None, None, None, None,
         Kubeadm, Unset, "", false, map[], None, false, false)

  /** The in-memory object a reconciler fetches, edits field by field and patches back. */
  class ByoHost {
    var deletedAt: Option<int>
    var clusterLabel: Option<string>
    var attachedLabel: Option<string>
    var paused: bool
    var cleanup: bool
    var startedAt: Option<Stamp>
    var lease: Option<Lease>
    var endpoint: Option<string>
    var version: Option<string>
    var registry: Option<string>
    var bootstrapSecret: Option<string>
    var installationSecret: Option<string>
    var uninstallScript: Option<string>
    var joinMode: JoinMode
    var downloadMode: DownloadMode
    var kubernetesVersion: string
    var manageKubeProxy: bool
    var nodeLabels: map<string, string>
    var machineRef: Option<Ref>
    var bootstrapped: bool
    var installed: bool

    function View(): Host
      reads this
    {
      Host(deletedAt, clusterLabel, attachedLabel, paused, cleanup, startedAt, lease, endpoint,
           version, registry, bootstrapSecret, installationSecret, uninstallScript, joinMode,
           downloadMode, kubernetesVersion, manageKubeProxy, nodeLabels, machineRef, bootstrapped, installed)
    }

    constructor (h: Host)
      ensures View() == h
    {
      deletedAt, clusterLabel, attachedLabel := h.deletedAt, h.clusterLabel, h.attachedLabel;
      paused, cleanup, startedAt, lease := h.paused, h.cleanup, h.startedAt, h.lease;
      endpoint, version, registry := h.endpoint, h.version, h.registry;
      bootstrapSecret, installationSecret := h.bootstrapSecret, h.installationSecret;
      uninstallScript, joinMode, downloadMode := h.uninstallScript, h.joinMode, h.downloadMode;
      kubernetesVersion, manageKubeProxy := h.kubernetesVersion, h.manageKubeProxy;
      nodeLabels, machineRef := h.nodeLabels, h.machineRef;
      bootstrapped, installed := h.bootstrapped, h.installed;
    }
  }
}
