/** One attempt of attachByoHost as a function on values: how it ends, and what it makes of the store,
    given what its reads return, which of its writes succeed and what others do in between. */
module AttachSpec {
  import opened ByoModel
  import opened MachineController
  import opened P = ClaimProtocol

  datatype Object = Object(host: Host, version: nat)

  /** What the claim protocol sees of an object. */
  function Shown(o: Object): Obj {
    Obj(o.version, o.host.machineRef, o.host.lease)
  }

  function ShownAll(objects: map<string, Object>): map<string, Obj> {
    map h | h in objects :: Shown(objects[h])
  }

  /** A step of someone else, with what it leaves in the other fields of the hosts that it writes. */
  datatype Deed = Deed(step: Step, rest: Host)

  predicate Foreign(deeds: seq<Deed>, c: Key) {
    forall i :: 0 <= i < |deeds| ==> !Acts(deeds[i].step, c)
  }

  function Rewritten(objects: map<string, Object>, hosts: map<string, Obj>, rest: Host): map<string, Object> {
    map h | h in hosts ::
      if h in objects && Shown(objects[h]) == hosts[h] then objects[h]
      else Object(rest.(machineRef := hosts[h].ref, lease := hosts[h].lease), hosts[h].version)
  }

  lemma RewrittenShows(objects: map<string, Object>, hosts: map<string, Obj>, rest: Host)
    ensures ShownAll(Rewritten(objects, hosts, rest)) == hosts
  {
    var after := Rewritten(objects, hosts, rest);
    forall h | h in hosts
      ensures Shown(after[h]) == hosts[h]
    {
    }
  }

  // ---- Merge patches --------------------------------------------------------------------------

  function Changed<T(==)>(stored: T, before: T, after: T): T {
    if before == after then stored else after
  }

  function ChangedKeys(stored: map<string, string>, before: map<string, string>, after: map<string, string>)
    : map<string, string>
  {
    map k | k in stored.Keys + after.Keys
            && (if k in after && (k !in before || before[k] != after[k]) then true
                else k in stored && (k in before ==> k in after)) ::
      if k in after && (k !in before || before[k] != after[k]) then after[k] else stored[k]
  }

  /** The patch helper sends the fields that differ between the object as it was and as it is, and they
      replace what is stored (section 2 of RFC 7396). */
  function Merged(x: Host, before: Host, after: Host): (m: Host)
    ensures m.machineRef == Changed(x.machineRef, before.machineRef, after.machineRef)
    ensures m.lease == Changed(x.lease, before.lease, after.lease)
  {
    Host(
      x.deletedAt,
      Changed(x.clusterLabel, before.clusterLabel, after.clusterLabel),
      Changed(x.attachedLabel, before.attachedLabel, after.attachedLabel),
      Changed(x.paused, before.paused, after.paused),
      Changed(x.cleanup, before.cleanup, after.cleanup),
      Changed(x.startedAt, before.startedAt, after.startedAt),
      Changed(x.lease, before.lease, after.lease),
      Changed(x.endpoint, before.endpoint, after.endpoint),
      Changed(x.version, before.version, after.version),
      Changed(x.registry, before.registry, after.registry),
      Changed(x.bootstrapSecret, before.bootstrapSecret, after.bootstrapSecret),
      Changed(x.installationSecret, before.installationSecret, after.installationSecret),
      Changed(x.uninstallScript, before.uninstallScript, after.uninstallScript),
      Changed(x.joinMode, before.joinMode, after.joinMode),
      Changed(x.downloadMode, before.downloadMode, after.downloadMode),
      Changed(x.kubernetesVersion, before.kubernetesVersion, after.kubernetesVersion),
      Changed(x.manageKubeProxy, before.manageKubeProxy, after.manageKubeProxy),
      ChangedKeys(x.nodeLabels, before.nodeLabels, after.nodeLabels),
      Changed(x.machineRef, before.machineRef, after.machineRef),
      Changed(x.bootstrapped, before.bootstrapped, after.bootstrapped),
      Changed(x.installed, before.installed, after.installed))
  }

  // ---- The store as a value -------------------------------------------------------------------

  datatype Store = Store(
    now: int,
    version: nat,
    objects: map<string, Object>,
    machines: map<Key, P.Machine>,
    nextUid: nat,
    calls: map<Key, P.Call>)

  /** What the claim protocol sees of the store. */
  function Seen(st: Store): State {
    State(st.now, st.version, ShownAll(st.objects), st.machines, st.nextUid, st.calls)
  }

  function Did(st: Store, d: Deed): Store {
    var s := Apply(Seen(st), d.step);
    Store(s.now, s.version, Rewritten(st.objects, s.hosts, d.rest), s.machines, s.nextUid, s.calls)
  }

  /** The store after others have done these things. */
  function After(st: Store, deeds: seq<Deed>): Store
    decreases |deeds|
  {
    if deeds == [] then st else Did(After(st, deeds[..|deeds| - 1]), deeds[|deeds| - 1])
  }

  /** The attach call of c has come to pc. */
  function Moved(st: Store, c: Key, pc: Pc): Store {
    if c in st.calls then st.(calls := st.calls[c := st.calls[c].(pc := pc)]) else st
  }

  /** A read is served by a cache, which answers with the stored object or an earlier one, or fails. */
  function Answer(st: Store, h: string, answer: Option<Object>): Option<Object> {
    if answer.Some? && MaybePast(Seen(st), h, Shown(answer.value)) then answer else None
  }

  function Put(st: Store, h: string, x: Host): Store {
    st.(version := st.version + 1, objects := st.objects[h := Object(x, st.version + 1)])
  }

  /** A patch without a difference is not sent, and succeeds. */
  predicate Lands(st: Store, h: string, before: Host, after: Host, ok: bool) {
    before == after || (ok && h in st.objects)
  }

  /** The store after a patch that lands. */
  function Sent(st: Store, h: string, before: Host, after: Host): Store {
    if before == after || h !in st.objects then st
    else Put(st, h, Merged(st.objects[h].host, before, after))
  }

  lemma ShownUpdate(objects: map<string, Object>, h: string, o: Object)
    ensures ShownAll(objects[h := o]) == ShownAll(objects)[h := Shown(o)]
  {
  }

  datatype UpdateResult = Updated | Conflict | UpdateError

  /** How an attempt ends. */
  datatype Attempt =
    | GetFailed
    | MachineLookupFailed
    | StillClaimed
    | StaleRefetchFailed
    | LeaseError
    | LeaseHeld
    | RefetchFailed
    | HelperFailed
    | SecretFailed
    | PatchFailed
    | Patched

  datatype Judgement = LookupFailed | Wanted | Orphaned | Open

  /** What the reads of an attempt return, which of its writes succeed, and what others do before each
      of them. */
  datatype Weather = Weather(
    get: Option<Object>,
    lookup: Lookup,
    clearOk: bool,
    refetch: Option<Object>,
    updateOk: bool,
    reload: Option<Object>,
    helperOk: bool,
    secretOk: bool,
    patchOk: bool,
    releaseOk: bool,
    beforeGet: seq<Deed>,
    beforeLookup: seq<Deed>,
    beforeClear: seq<Deed>,
    beforeRefetch: seq<Deed>,
    beforeLease: seq<Deed>,
    beforeUpdate: seq<Deed>,
    beforeReload: seq<Deed>,
    beforePatch: seq<Deed>,
    beforeRelease: seq<Deed>)

  predicate AllForeign(w: Weather, c: Key) {
    && Foreign(w.beforeGet, c) && Foreign(w.beforeLookup, c) && Foreign(w.beforeClear, c)
    && Foreign(w.beforeRefetch, c) && Foreign(w.beforeLease, c) && Foreign(w.beforeUpdate, c)
    && Foreign(w.beforeReload, c) && Foreign(w.beforePatch, c) && Foreign(w.beforeRelease, c)
  }

  // ---- The attempt, stage by stage ------------------------------------------------------------

  function JudgedAs(ref: Option<Ref>, lookup: Lookup): Judgement {
    if ref.None? then Open
    else
      match lookup
      case LookupError => LookupFailed
      case NotFound => Orphaned
      case Exists(deleting) => if deleting then Open else Wanted
  }

  function AtGet(st: Store, w: Weather): Store {
    After(st, w.beforeGet)
  }

  /** How the vetting ends the attempt, or else the object that is tried; and the store after it. */
  datatype Vetting = Stopped(end: Attempt, store: Store) | Passed(o: Object, store: Store)

  function Vet(st: Store, c: Key, h: string, w: Weather): Vetting {
    var o := Answer(AtGet(st, w), h, w.get);
    if o.None? then Stopped(GetFailed, AtGet(st, w))
    else VetRead(Moved(AtGet(st, w), c, Fetched(h, Shown(o.value))), c, h, o.value, w)
  }

  /** The vetting of an object that has been read. */
  function VetRead(st: Store, c: Key, h: string, o: Object, w: Weather): Vetting {
    var st1 := After(st, w.beforeLookup);
    match JudgedAs(o.host.machineRef, w.lookup)
    case LookupFailed => Stopped(MachineLookupFailed, Moved(st1, c, Idle))
    case Wanted => Stopped(StillClaimed, Moved(st1, c, Idle))
    case Open => Passed(o, Moved(st1, c, Vetted(h, Shown(o))))
    case Orphaned => Revet(AtRefetch(Moved(st1, c, Clearing(h, Shown(o))), c, h, o, w), c, h, w.refetch)
  }

  /** The reference is off the host, if the patch lands. */
  function Unbound(st: Store, h: string, ok: bool): Store {
    if ok && h in st.objects then Put(st, h, st.objects[h].host.(machineRef := None)) else st
  }

  /** The store of the re-read after the clearing of the reference on object o. */
  function AtRefetch(st: Store, c: Key, h: string, o: Object, w: Weather): Store {
    After(Moved(Unbound(After(st, w.beforeClear), h, w.clearOk), c, Refetching(h, o.host.machineRef)), w.beforeRefetch)
  }

  function Revet(st: Store, c: Key, h: string, answer: Option<Object>): Vetting {
    var o := Answer(st, h, answer);
    if o.None? then Stopped(StaleRefetchFailed, Moved(st, c, Idle))
    else Passed(o.value, Moved(st, c, Vetted(h, Shown(o.value))))
  }

  /** tryAcquireLease: the time of the lease, or whether it ended in an error. */
  datatype Grab = Got(at: int, store: Store) | Missed(error: bool, store: Store)

  function Grabbed(st: Store, c: Key, h: string, o: Object, deeds: seq<Deed>, ok: bool): Grab {
    if LeaseBlocks(o.host.lease, st.now) then Missed(false, Moved(st, c, Idle))
    else LeaseUpdated(After(Moved(st, c, Updating(h, Shown(o), st.now)), deeds), c, h, o, st.now, ok)
  }

  /** The Update that takes the lease is admitted only for the object that is stored. */
  function LeaseUpdated(st: Store, c: Key, h: string, o: Object, at: int, ok: bool): Grab {
    if !ok || h !in st.objects then Missed(true, Moved(st, c, Idle))
    else if st.objects[h].version != o.version then Missed(false, Moved(st, c, Idle))
    else Got(at, Moved(Put(st, h, o.host.(lease := Some(Lease(c, at)))), c, Leased(h, at)))
  }

  /** releaseLease; `shown` is whether the object in memory has a lease. */
  datatype Drop = Drop(failed: bool, store: Store)

  function Dropped(st: Store, c: Key, h: string, shown: bool, w: Weather): Drop {
    Unleased(After(st, w.beforeRelease), c, h, shown, w.releaseOk)
  }

  function Unleased(st: Store, c: Key, h: string, shown: bool, ok: bool): Drop {
    if !shown then Drop(false, Moved(st, c, Idle))
    else if !ok || h !in st.objects then Drop(true, Moved(st, c, Idle))
    else Drop(false, Moved(Put(st, h, st.objects[h].host.(lease := None)), c, Idle))
  }

  /** How an attempt ends, whether it may have left its lease behind, and the store after it. */
  datatype Result = Result(end: Attempt, unreleased: bool, store: Store)

  function Ended(end: Attempt, drop: Drop): Result {
    Result(end, drop.failed, drop.store)
  }

  /** From the loaded object x to the released lease. */
  function Claiming(st: Store, c: Key, uid: nat, h: string, at: int, x: Host, order: ClaimOrder, w: Weather): Result {
    var shown := x.lease.Some?;
    if !w.helperOk then Ended(HelperFailed, Dropped(Moved(st, c, Releasing(h, at, shown)), c, h, shown, w))
    else if order.joinMode == TlsBootstrap && !w.secretOk then
      Ended(SecretFailed, Dropped(Moved(st, c, Releasing(h, at, shown)), c, h, shown, w))
    else Sending(After(st, w.beforePatch), c, h, at, x, Claimed(x, Ref(c, uid), order), w)
  }

  /** The claim patch from x to y, and the release after it. */
  function Sending(st: Store, c: Key, h: string, at: int, x: Host, y: Host, w: Weather): Result {
    var shown := x.lease.Some?;
    if Lands(st, h, x, y, w.patchOk)
    then Ended(Patched, Dropped(Moved(Sent(st, h, x, y), c, Releasing(h, at, shown)), c, h, shown, w))
    else Ended(PatchFailed, Dropped(Moved(st, c, Releasing(h, at, shown)), c, h, shown, w))
  }

  /** From the acquired lease to the end. */
  function Loading(st: Store, c: Key, uid: nat, h: string, at: int, order: ClaimOrder, w: Weather): Result {
    var st1 := After(st, w.beforeReload);
    var o := Answer(st1, h, w.reload);
    if o.None? then Ended(RefetchFailed, Dropped(Moved(st1, c, Releasing(h, at, true)), c, h, true, w))
    else
      var r := Claiming(Moved(st1, c, Loaded(h, at, Shown(o.value))), c, uid, h, at, o.value.host, order, w);
      r.(unreleased := r.unreleased || o.value.host.lease.None?)
  }

  /** From the vetted object to the end. */
  function Leasing(st: Store, c: Key, uid: nat, h: string, o: Object, order: ClaimOrder, w: Weather): Result {
    var grab := Grabbed(st, c, h, o, w.beforeUpdate, w.updateOk);
    if grab.Missed? then Result(if grab.error then LeaseError else LeaseHeld, false, grab.store)
    else Loading(grab.store, c, uid, h, grab.at, order, w)
  }

  function Attempted(st: Store, c: Key, uid: nat, h: string, order: ClaimOrder, w: Weather): Result {
    var v := Vet(st, c, h, w);
    if v.Stopped? then Result(v.end, false, v.store)
    else Leasing(After(v.store, w.beforeLease), c, uid, h, v.o, order, w)
  }

  // ---- Patches of one field -------------------------------------------------------------------

  /** A patch from an object with a lease to the same without it takes the lease off, whatever else the
      stored object has. */
  lemma MergedUnlease(x: Host, before: Host)
    requires before.lease.Some?
    ensures Merged(x, before, before.(lease := None)) == x.(lease := None)
  {
    ChangedKeysSame(x.nodeLabels, before.nodeLabels);
  }

  lemma MergedUnbind(x: Host, before: Host)
    requires before.machineRef.Some?
    ensures Merged(x, before, before.(machineRef := None)) == x.(machineRef := None)
  {
    ChangedKeysSame(x.nodeLabels, before.nodeLabels);
  }

  lemma ChangedKeysSame(stored: map<string, string>, same: map<string, string>)
    ensures ChangedKeys(stored, same, same) == stored
  {
  }

  lemma ChangedKeysOver(before: map<string, string>, after: map<string, string>)
    ensures ChangedKeys(before, before, after) == after
  {
  }

  /** A patch of the very object that is stored makes it the new one. */
  lemma MergedOver(before: Host, after: Host)
    requires before.deletedAt == after.deletedAt
    ensures Merged(before, before, after) == after
  {
    ChangedKeysOver(before.nodeLabels, after.nodeLabels);
  }

  /** A claim patch on whatever is stored by then: what others have put into the fields that a claim does not
      touch stays, and each field of the binding is as claimed, unless the object that was loaded had it
      already, and then as stored. */
  lemma ClaimPatchFields(x: Host, before: Host, ref: Ref, o: ClaimOrder)
    ensures var y, claim := Merged(x, before, Claimed(before, ref, o)), Claimed(before, ref, o);
            && RestAsBefore(y, x)
            && y.machineRef == (if before.machineRef == Some(ref) then x.machineRef else Some(ref))
            && y.clusterLabel == (if before.clusterLabel == Some(o.cluster) then x.clusterLabel else Some(o.cluster))
            && y.bootstrapSecret == (if before.bootstrapSecret == Some(o.secret) then x.bootstrapSecret
                                     else Some(o.secret))
            && y.endpoint == (if before.endpoint == Some(o.endpoint) then x.endpoint else Some(o.endpoint))
            && y.registry == (if before.registry == Some(o.registry) then x.registry else Some(o.registry))
            && (y.attachedLabel == x.attachedLabel || y.attachedLabel == claim.attachedLabel)
            && (before.attachedLabel.None? ==> y.attachedLabel == Some(ref.key.namespace + "." + ref.key.name))
  {
    ClaimedFields(before, ref, o);
  }

  // ---- What the protocol sees -----------------------------------------------------------------

  lemma SeenPut(st: Store, h: string, x: Host)
    requires h in st.objects
    ensures Seen(Put(st, h, x)) == Write(Seen(st), h, x.machineRef, x.lease)
  {
    ShownUpdate(st.objects, h, Object(x, st.version + 1));
  }

  lemma SeenMoved(st: Store, c: Key, pc: Pc)
    ensures Seen(Moved(st, c, pc)) == Goto(Seen(st), c, pc)
  {
  }

  /** The clearing patch is the protocol's. */
  lemma UnboundIsClear(st: Store, c: Key, h: string, snap: Obj, ok: bool)
    requires c in st.calls && st.calls[c].pc == Clearing(h, snap)
    ensures Seen(Moved(Unbound(st, h, ok), c, Refetching(h, snap.ref)))
         == Apply(Seen(st), P.Clear(c, ok && h in st.objects))
  {
    if ok && h in st.objects {
      SeenPut(st, h, st.objects[h].host.(machineRef := None));
    }
    SeenMoved(Unbound(st, h, ok), c, Refetching(h, snap.ref));
  }

  /** The update that takes the lease is the protocol's. */
  lemma LeaseUpdatedIsUpdate(st: Store, c: Key, h: string, o: Object, at: int, ok: bool)
    requires c in st.calls && st.calls[c].pc == Updating(h, Shown(o), at)
    ensures var grab := LeaseUpdated(st, c, h, o, at, ok); Seen(grab.store) == Apply(Seen(st), P.Update(c, grab.Got?))
  {
    if h in st.objects {
      SeenPut(st, h, o.host.(lease := Some(Lease(c, at))));
    }
  }

  /** A patch that changes neither reference nor lease is a touch to the protocol. */
  lemma SentIsTouch(st: Store, h: string, before: Host, after: Host)
    requires h in st.objects && before != after
    requires before.machineRef == after.machineRef && before.lease == after.lease
    ensures Seen(Sent(st, h, before, after)) == Apply(Seen(st), P.Touch(h))
  {
    SeenPut(st, h, Merged(st.objects[h].host, before, after));
  }

  /** A patch that sets the reference is the protocol's claim. */
  lemma SentIsClaim(st: Store, c: Key, uid: nat, h: string, at: int, snap: Obj, before: Host, after: Host)
    requires h in st.objects && c in st.calls && st.calls[c] == Call(uid, Loaded(h, at, snap))
    requires snap.ref == before.machineRef != after.machineRef == Some(Ref(c, uid)) && before.lease == after.lease
    ensures Seen(Moved(Sent(st, h, before, after), c, Releasing(h, at, snap.lease.Some?)))
         == Apply(Seen(st), P.Claim(c, true))
  {
    SeenPut(st, h, Merged(st.objects[h].host, before, after));
    SeenMoved(Sent(st, h, before, after), c, Releasing(h, at, snap.lease.Some?));
  }

  /** A patch that removes the lease is the protocol's release, and so is none where no lease is shown. */
  lemma UnleasedIsRelease(st: Store, c: Key, h: string, at: int, shown: bool, ok: bool)
    requires c in st.calls && st.calls[c].pc == Releasing(h, at, shown)
    ensures var drop := Unleased(st, c, h, shown, ok); Seen(drop.store) == Apply(Seen(st), P.Release(c, !drop.failed))
  {
    if h in st.objects {
      SeenPut(st, h, st.objects[h].host.(lease := None));
    }
  }
}
