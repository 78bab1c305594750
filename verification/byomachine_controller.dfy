/** The edits the ByoMachine controller makes to a ByoHost, and its deletion handling. */
module MachineController {
  import opened ByoModel

  const CLUSTER_NAME_LABEL: string := "cluster.x-k8s.io/cluster-name"
  const DELETION_TIMEOUT: int := 5 * MINUTE

  /** What a claim copies from the machine, its cluster and the chosen bootstrap secret. */
  datatype ClaimOrder = ClaimOrder(
    cluster: string,
    secret: string,
    joinMode: JoinMode,
    downloadMode: DownloadMode,
    kubernetesVersion: string,
    manageKubeProxy: bool,
    endpoint: string,
    version: Option<string>,
    registry: string,
    labels: map<string, string>)

  /** A version without its build metadata: what comes before the first plus sign. */
  function BaseVersion(v: string): (base: string)
    ensures base <= v && '+' !in base && (|base| < |v| ==> v[|base|] == '+')
  {
    if v == "" || v[0] == '+' then "" else [v[0]] + BaseVersion(v[1..])
  }

  /** The claim that attachByoHost writes; the TLS bootstrap mode always manages kube-proxy. */
  function Claimed(h: Host, ref: Ref, o: ClaimOrder): Host {
    Filled(Reserved(h, ref, o.cluster), o)
  }

  function Reserved(h: Host, ref: Ref, cluster: string): Host {
    h.(machineRef := Some(ref), clusterLabel := Some(cluster), attachedLabel := Some(AttachedLabel(ref.key)))
  }

  function Filled(h: Host, o: ClaimOrder): Host {
    Annotated(Synced(h, o), o)
  }

  function Synced(h: Host, o: ClaimOrder): Host {
    NodeSynced(ModesSynced(h, o), o)
  }

  function ModesSynced(h: Host, o: ClaimOrder): Host {
    h.(bootstrapSecret := Some(o.secret), joinMode := o.joinMode, downloadMode := o.downloadMode)
  }

  function NodeSynced(h: Host, o: ClaimOrder): Host {
    h.(kubernetesVersion := o.kubernetesVersion,
       manageKubeProxy := o.joinMode == TlsBootstrap || o.manageKubeProxy,
       nodeLabels := h.nodeLabels + (o.labels - {CLUSTER_NAME_LABEL}))
  }

  /** An absent machine version leaves the old annotation. */
  function Annotated(h: Host, o: ClaimOrder): Host {
    h.(endpoint := Some(o.endpoint),
       version := if o.version.Some? then Some(BaseVersion(o.version.value)) else h.version,
       registry := Some(o.registry))
  }

  /** The patch of markHostForCleanup. */
  function Marked(h: Host): Host {
    h.(cleanup := true, machineRef := None, lease := None)
  }

  // ---- What a claim and a mark write, field by field -------------------------------------------

  /** y has the reference and both labels of the machine, and what the machine and its cluster say. */
  predicate HasBinding(y: Host, ref: Ref, o: ClaimOrder) {
    && y.machineRef == Some(ref) && y.clusterLabel == Some(o.cluster)
    && y.attachedLabel == Some(ref.key.namespace + "." + ref.key.name)
    && y.bootstrapSecret == Some(o.secret) && y.endpoint == Some(o.endpoint) && y.registry == Some(o.registry)
    && y.joinMode == o.joinMode && y.downloadMode == o.downloadMode && y.kubernetesVersion == o.kubernetesVersion
    && y.manageKubeProxy == (o.joinMode == TlsBootstrap || o.manageKubeProxy)
  }

  /** The machine's version annotation, cut before its build metadata, or else the old one. */
  predicate HasVersion(y: Host, x: Host, o: ClaimOrder) {
    if o.version.None? then y.version == x.version
    else
      && y.version.Some? && y.version.value <= o.version.value && '+' !in y.version.value
      && (|y.version.value| < |o.version.value| ==> o.version.value[|y.version.value|] == '+')
  }

  /** The machine's labels, except the cluster name, over those of the host. */
  ghost predicate HasLabels(y: Host, x: Host, o: ClaimOrder) {
    forall k :: && (k in y.nodeLabels <==>
                      k in x.nodeLabels || (k in o.labels && k != "cluster.x-k8s.io/cluster-name"))
                && (k in y.nodeLabels ==>
                      y.nodeLabels[k] == if k in o.labels && k != "cluster.x-k8s.io/cluster-name" then o.labels[k]
                                         else x.nodeLabels[k])
  }

  predicate RestAsBefore(y: Host, x: Host) {
    && y.deletedAt == x.deletedAt && y.paused == x.paused && y.cleanup == x.cleanup && y.startedAt == x.startedAt
    && y.lease == x.lease && y.installationSecret == x.installationSecret && y.uninstallScript == x.uninstallScript
    && y.bootstrapped == x.bootstrapped && y.installed == x.installed
  }

  /** What a claim writes, and what it leaves. */
  lemma ClaimedFields(x: Host, ref: Ref, o: ClaimOrder)
    ensures var y := Claimed(x, ref, o);
            HasBinding(y, ref, o) && HasVersion(y, x, o) && HasLabels(y, x, o) && RestAsBefore(y, x)
  {
  }

  /** The marking sets the annotation, takes reference and lease off, and leaves labels, clock,
      conditions and everything else. */
  lemma MarkedFields(x: Host)
    ensures var y := Marked(x);
            && y.cleanup && y.machineRef.None? && y.lease.None?
            && y == x.(cleanup := y.cleanup, machineRef := y.machineRef, lease := y.lease)
  {
  }

  /** The label synchronisation loop: every machine label except the cluster name is copied. */
  method MergeLabels(labels: map<string, string>, machineLabels: map<string, string>)
    returns (merged: map<string, string>)
    ensures merged == labels + (machineLabels - {CLUSTER_NAME_LABEL})
  {
    merged := labels;
    var keys := machineLabels.Keys;
    while keys != {}
      invariant keys <= machineLabels.Keys
      invariant merged == labels + (machineLabels - keys - {CLUSTER_NAME_LABEL})
      decreases keys
    {
      var k :| k in keys;
      keys := keys - {k};
      if k == CLUSTER_NAME_LABEL {
        continue;
      }
      merged := merged[k := machineLabels[k]];
    }
  }

  /** The reservation part of the claim: reference and labels. */
  method ReserveHost(b: ByoHost, ref: Ref, cluster: string)
    modifies b`machineRef, b`clusterLabel, b`attachedLabel
    ensures b.View() == Reserved(old(b.View()), ref, cluster)
  {
    b.machineRef := Some(ref);
    b.clusterLabel := Some(cluster);
    b.attachedLabel := Some(ref.key.namespace + "." + ref.key.name);
  }

  /** The spec part: bootstrap secret and modes, then version, kube-proxy and node labels. */
  method SyncSpec(b: ByoHost, o: ClaimOrder)
    modifies b`bootstrapSecret, b`joinMode, b`downloadMode, b`kubernetesVersion, b`manageKubeProxy, b`nodeLabels
    ensures b.View() == Synced(old(b.View()), o)
  {
    SyncModes(b, o);
    SyncNode(b, o);
  }

  method SyncModes(b: ByoHost, o: ClaimOrder)
    modifies b`bootstrapSecret, b`joinMode, b`downloadMode
    ensures b.View() == ModesSynced(old(b.View()), o)
  {
    b.bootstrapSecret := Some(o.secret);
    b.joinMode := o.joinMode;
    b.downloadMode := o.downloadMode;
  }

  method SyncNode(b: ByoHost, o: ClaimOrder)
    modifies b`kubernetesVersion, b`manageKubeProxy, b`nodeLabels
    ensures b.View() == NodeSynced(old(b.View()), o)
  {
    b.kubernetesVersion := o.kubernetesVersion;
    if o.joinMode == TlsBootstrap {
      b.manageKubeProxy := true;
    } else {
      b.manageKubeProxy := o.manageKubeProxy;
    }
    b.nodeLabels := MergeLabels(b.nodeLabels, o.labels);
  }

  /** The annotation part. */
  method Annotate(b: ByoHost, o: ClaimOrder)
    modifies b`endpoint, b`version, b`registry
    ensures b.View() == Annotated(old(b.View()), o)
  {
    b.endpoint := Some(o.endpoint);
    if o.version.Some? {
      b.version := Some(BaseVersion(o.version.value));
    }
    b.registry := Some(o.registry);
  }

  method FillClaim(b: ByoHost, o: ClaimOrder)
    modifies b
    ensures b.View() == Filled(old(b.View()), o)
  {
    SyncSpec(b, o);
    Annotate(b, o);
  }

  /** Writing the claim into the fetched object. In the TLS bootstrap mode the secret is created on the
      way, and a failure leaves the claim half written. */
  method ClaimHost(b: ByoHost, ref: Ref, o: ClaimOrder, secretOk: bool) returns (failed: bool)
    modifies b
    ensures failed <==> o.joinMode == TlsBootstrap && !secretOk
    ensures !failed ==> b.View() == Claimed(old(b.View()), ref, o)
    ensures b.lease == old(b.lease)
  {
    ReserveHost(b, ref, o.cluster);
    if o.joinMode == TlsBootstrap {
      if !secretOk {
        return true;
      }
    }
    FillClaim(b, o);
    return false;
  }

  method MarkHostForCleanup(b: ByoHost)
    modifies b`cleanup, b`machineRef, b`lease
    ensures b.View() == Marked(old(b.View()))
  {
    b.cleanup := true;
    b.machineRef := None;
    b.lease := None;
  }

  class ByoMachine {
    var ref: Ref
    var finalizer: bool
    var cleanupStarted: bool
    var cleanupCompleted: bool
    var nodeRef: Option<string>
  }

  datatype DeleteAction = Finish | Wait | Mark

  /** What reconcileDelete does about the host it found. */
  function DeleteActionFor(found: Option<Host>, now: int): DeleteAction {
    if found.None? then Finish
    else if found.value.deletedAt.None? then Mark
    else if found.value.machineRef.Some? && now - found.value.deletedAt.value <= DELETION_TIMEOUT then Wait
    else Finish
  }

  predicate BoundTo(h: Host, uid: nat) {
    h.machineRef.Some? && h.machineRef.value.uid == uid
  }

  /** The first host that is bound to the UID. */
  ghost predicate FirstBound(hosts: seq<ByoHost>, uid: nat, b: ByoHost)
    reads hosts
  {
    exists i :: && 0 <= i < |hosts| && hosts[i] == b && BoundTo(hosts[i].View(), uid)
                && forall j :: 0 <= j < i ==> !BoundTo(hosts[j].View(), uid)
  }

  /** The fallback search by machineRef UID over the full host list. */
  method FindByUid(hosts: seq<ByoHost>, uid: nat) returns (found: ByoHost?)
    ensures found == null <==> forall b :: b in hosts ==> !BoundTo(b.View(), uid)
    ensures found != null ==> FirstBound(hosts, uid, found)
  {
    for i := 0 to |hosts|
      invariant forall j :: 0 <= j < i ==> !BoundTo(hosts[j].View(), uid)
    {
      if hosts[i].machineRef.Some? && hosts[i].machineRef.value.uid == uid {
        assert BoundTo(hosts[i].View(), uid);
        return hosts[i];
      }
    }
    return null;
  }

  /** reconcileDelete, given the host found by label, if any, and the list of all hosts; `patched` is
      whether the cleanup patch succeeded. The finalizer goes only in the Finish case. */
  method ReconcileDelete(m: ByoMachine, byLabel: ByoHost?, hosts: seq<ByoHost>, now: int, patched: bool)
    returns (b: ByoHost?, action: DeleteAction)
    requires byLabel != null ==> byLabel in hosts
    modifies m`finalizer, m`cleanupStarted, m`cleanupCompleted, m`nodeRef
    modifies hosts
    ensures byLabel != null ==> b == byLabel
    ensures b != null ==> b in hosts
    ensures byLabel == null && b != null && b in hosts ==> old(FirstBound(hosts, m.ref.uid, b))
    ensures b == null <==> byLabel == null && forall x :: x in hosts ==> !BoundTo(old(x.View()), m.ref.uid)
    ensures action == DeleteActionFor(if b == null then None else Some(old(b.View())), now)
    ensures b != null ==> b.View() == if action.Mark? then Marked(old(b.View())) else old(b.View())
    ensures forall x :: x in hosts && x != b ==> x.View() == old(x.View())
    ensures m.finalizer == (old(m.finalizer) && !action.Finish?)
    ensures m.cleanupStarted == (old(m.cleanupStarted) || (action.Mark? && patched))
    ensures m.cleanupCompleted == (old(m.cleanupCompleted) || action.Finish?)
    ensures m.nodeRef == if action.Finish? then None else old(m.nodeRef)
  {
    b := byLabel;
    if b == null {
      b := FindByUid(hosts, m.ref.uid);
    }
    action := Release(m, b, now, patched);
  }

  /** The rest of reconcileDelete, with the host that was found. */
  method Release(m: ByoMachine, b: ByoHost?, now: int, patched: bool) returns (action: DeleteAction)
    modifies m`finalizer, m`cleanupStarted, m`cleanupCompleted, m`nodeRef
    modifies if b == null then {} else {b}
    ensures action == DeleteActionFor(if b == null then None else Some(old(b.View())), now)
    ensures b != null ==> b.View() == if action.Mark? then Marked(old(b.View())) else old(b.View())
    ensures m.finalizer == (old(m.finalizer) && !action.Finish?)
    ensures m.cleanupStarted == (old(m.cleanupStarted) || (action.Mark? && patched))
    ensures m.cleanupCompleted == (old(m.cleanupCompleted) || action.Finish?)
    ensures m.nodeRef == if action.Finish? then None else old(m.nodeRef)
  {
    if b != null {
      if b.deletedAt.Some? {
        if b.machineRef.Some? {
          var elapsed := now - b.deletedAt.value;
          if elapsed > DELETION_TIMEOUT {
          } else {
            return Wait;
          }
        }
      } else {
        MarkHostForCleanup(b);
        if !patched {
          return Mark;
        }
        m.cleanupStarted := true;
        return Mark;
      }
    }
    m.cleanupCompleted := true;
    m.nodeRef := None;
    m.finalizer := false;
    return Finish;
  }
}
