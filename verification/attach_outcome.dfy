/** How an attempt ends, decided from what it meets: for each of the eleven ends the exact condition on
    the reads, the writes and the store at the time, and what a calm attempt leaves in the store. */
module AttachOutcome {
  import opened ByoModel
  import opened MachineController
  import opened P = ClaimProtocol
  import opened AttachSpec

  // ---- The store at the time of each API call -------------------------------------------------

  /** When the object that was read is judged. */
  function JudgeTime(st: Store, c: Key, h: string, read: Object, w: Weather): Store {
    After(Moved(After(st, w.beforeGet), c, Fetched(h, Shown(read))), w.beforeLookup)
  }

  /** When the host is read again, its reference having been found stale and, perhaps, cleared. */
  function RefetchTime(st: Store, c: Key, h: string, read: Object, w: Weather): Store {
    var judged := Moved(JudgeTime(st, c, h, read, w), c, Clearing(h, Shown(read)));
    var cleared := Unbound(After(judged, w.beforeClear), h, w.clearOk);
    After(Moved(cleared, c, Refetching(h, read.host.machineRef)), w.beforeRefetch)
  }

  predicate Stale(read: Object, w: Weather) {
    read.host.machineRef.Some? && w.lookup.NotFound?
  }

  /** When the lease of the object o, which is tried, is tested. */
  function LeaseTime(st: Store, c: Key, h: string, read: Object, o: Object, w: Weather): Store {
    var judged := if Stale(read, w) then RefetchTime(st, c, h, read, w) else JudgeTime(st, c, h, read, w);
    After(Moved(judged, c, Vetted(h, Shown(o))), w.beforeLease)
  }

  function UpdateTime(st: Store, c: Key, h: string, read: Object, o: Object, w: Weather): Store {
    var tested := LeaseTime(st, c, h, read, o, w);
    After(Moved(tested, c, Updating(h, Shown(o), tested.now)), w.beforeUpdate)
  }

  /** When the host is reloaded, with the lease on it. */
  function ReloadTime(st: Store, c: Key, h: string, read: Object, o: Object, w: Weather): Store {
    var at := LeaseTime(st, c, h, read, o, w).now;
    var leased := Put(UpdateTime(st, c, h, read, o, w), h, o.host.(lease := Some(Lease(c, at))));
    After(Moved(leased, c, Leased(h, at)), w.beforeReload)
  }

  function PatchTime(st: Store, c: Key, h: string, read: Object, o: Object, loaded: Object, w: Weather): Store {
    var at := LeaseTime(st, c, h, read, o, w).now;
    After(Moved(ReloadTime(st, c, h, read, o, w), c, Loaded(h, at, Shown(loaded))), w.beforePatch)
  }

  predicate Readable(st: Store, h: string, answer: Option<Object>) {
    answer.Some? && MaybePast(Seen(st), h, Shown(answer.value))
  }

  // ---- How far an attempt gets ----------------------------------------------------------------

  predicate Reads(st: Store, h: string, w: Weather) {
    Readable(After(st, w.beforeGet), h, w.get)
  }

  /** The host is free, or its machine is being deleted, or is gone and the host could be read again. */
  predicate Vets(st: Store, c: Key, h: string, w: Weather) {
    && Reads(st, h, w)
    && (|| w.get.value.host.machineRef.None?
        || w.lookup == Exists(true)
        || (w.lookup.NotFound? && Readable(RefetchTime(st, c, h, w.get.value, w), h, w.refetch)))
  }

  /** The object that is tried. */
  function Candidate(w: Weather): Object
    requires w.get.Some? && (Stale(w.get.value, w) ==> w.refetch.Some?)
  {
    if Stale(w.get.value, w) then w.refetch.value else w.get.value
  }

  predicate Blocked(st: Store, c: Key, h: string, w: Weather)
    requires Vets(st, c, h, w)
  {
    var lease := Candidate(w).host.lease;
    && lease.Some? && lease.value.Lease?
    && LeaseTime(st, c, h, w.get.value, Candidate(w), w).now < lease.value.at + 30 * SECOND
  }

  predicate UpdateReaches(st: Store, c: Key, h: string, w: Weather)
    requires Vets(st, c, h, w)
  {
    w.updateOk && h in UpdateTime(st, c, h, w.get.value, Candidate(w), w).objects
  }

  predicate Current(st: Store, c: Key, h: string, w: Weather)
    requires Vets(st, c, h, w) && UpdateReaches(st, c, h, w)
  {
    UpdateTime(st, c, h, w.get.value, Candidate(w), w).objects[h].version == Candidate(w).version
  }

  predicate Acquires(st: Store, c: Key, h: string, w: Weather) {
    Vets(st, c, h, w) && !Blocked(st, c, h, w) && UpdateReaches(st, c, h, w) && Current(st, c, h, w)
  }

  predicate Loads(st: Store, c: Key, h: string, w: Weather) {
    Acquires(st, c, h, w) && Readable(ReloadTime(st, c, h, w.get.value, Candidate(w), w), h, w.reload)
  }

  predicate SecretOk(order: ClaimOrder, w: Weather) {
    order.joinMode == TlsBootstrap ==> w.secretOk
  }

  /** The claim patch has nothing to send, or is sent to a host that is still there. */
  predicate PatchLands(st: Store, c: Key, uid: nat, h: string, order: ClaimOrder, w: Weather)
    requires Loads(st, c, h, w)
  {
    || Claimed(w.reload.value.host, Ref(c, uid), order) == w.reload.value.host
    || (w.patchOk && h in PatchTime(st, c, h, w.get.value, Candidate(w), w.reload.value, w).objects)
  }

  predicate Succeeds(st: Store, c: Key, uid: nat, h: string, order: ClaimOrder, w: Weather) {
    Loads(st, c, h, w) && w.helperOk && SecretOk(order, w) && PatchLands(st, c, uid, h, order, w)
  }

  // ---- The ends -------------------------------------------------------------------------------

  /** The vetting passes an object exactly when the attempt vets, and ends otherwise for these reasons. */
  lemma VettingExactly(st: Store, c: Key, h: string, w: Weather)
    ensures var v := Vet(st, c, h, w);
            && (v.Passed? <==> Vets(st, c, h, w))
            && (v.Passed? ==> v.o == Candidate(w) && After(v.store, w.beforeLease)
                                                     == LeaseTime(st, c, h, w.get.value, Candidate(w), w))
            && (v.Stopped? ==>
                  && (v.end == GetFailed <==> !Reads(st, h, w))
                  && (v.end == MachineLookupFailed <==> Reads(st, h, w) && w.lookup.LookupError?)
                  && (v.end == StillClaimed <==> Reads(st, h, w) && w.lookup == Exists(false))
                  && (v.end == StaleRefetchFailed <==> Reads(st, h, w) && w.lookup.NotFound?))
  {
  }

  lemma GrabExactly(st: Store, c: Key, h: string, w: Weather)
    requires Vets(st, c, h, w)
    ensures var o := Candidate(w);
            var tested := LeaseTime(st, c, h, w.get.value, o, w);
            var grab := Grabbed(tested, c, h, o, w.beforeUpdate, w.updateOk);
            && (grab.Got? <==> Acquires(st, c, h, w))
            && (grab.Got? ==> grab.at == tested.now && After(grab.store, w.beforeReload)
                                                       == ReloadTime(st, c, h, w.get.value, o, w))
            && (grab.Missed? ==> (grab.error <==> !Blocked(st, c, h, w) && !UpdateReaches(st, c, h, w)))
  {
  }

  /** From the loaded object x on. */
  lemma ClaimingExactly(st: Store, c: Key, uid: nat, h: string, at: int, x: Host, order: ClaimOrder, w: Weather)
    ensures var end := Claiming(st, c, uid, h, at, x, order, w).end;
            var y := Claimed(x, Ref(c, uid), order);
            end == if !w.helperOk then HelperFailed
                   else if !SecretOk(order, w) then SecretFailed
                   else if y == x || (w.patchOk && h in After(st, w.beforePatch).objects) then Patched
                   else PatchFailed
  {
  }

  /** From the acquired lease on. */
  lemma LoadingExactly(st: Store, c: Key, uid: nat, h: string, order: ClaimOrder, w: Weather, leased: Store)
    requires Acquires(st, c, h, w)
    requires After(leased, w.beforeReload) == ReloadTime(st, c, h, w.get.value, Candidate(w), w)
    ensures var at := LeaseTime(st, c, h, w.get.value, Candidate(w), w).now;
            var end := Loading(leased, c, uid, h, at, order, w).end;
            && (end == RefetchFailed <==> !Loads(st, c, h, w))
            && (end == HelperFailed <==> Loads(st, c, h, w) && !w.helperOk)
            && (end == SecretFailed <==> Loads(st, c, h, w) && w.helperOk && !SecretOk(order, w))
            && (end == Patched <==> Succeeds(st, c, uid, h, order, w))
            && (end.RefetchFailed? || end.HelperFailed? || end.SecretFailed? || end.PatchFailed? || end.Patched?)
  {
    if Loads(st, c, h, w) {
      var at := LeaseTime(st, c, h, w.get.value, Candidate(w), w).now;
      var loaded := Moved(After(leased, w.beforeReload), c, Loaded(h, at, Shown(w.reload.value)));
      ClaimingExactly(loaded, c, uid, h, at, w.reload.value.host, order, w);
    }
  }

  /** Exactly when an attempt attaches: the first read is answered; the reference is absent, of a machine
      being deleted, or of one that is gone and the host is read again; no lease under 30 seconds is on
      the object tried; the Update reaches that very object; the reload is answered; the helper and, in
      the TLS mode, the secret work; and the patch lands. */
  lemma PatchedExactly(st: Store, c: Key, uid: nat, h: string, order: ClaimOrder, w: Weather)
    ensures Attempted(st, c, uid, h, order, w).end.Patched? <==> Succeeds(st, c, uid, h, order, w)
  {
    EndsExactly(st, c, uid, h, order, w);
  }

  /** Exactly when an attempt ends as it does. */
  lemma EndsExactly(st: Store, c: Key, uid: nat, h: string, order: ClaimOrder, w: Weather)
    ensures match Attempted(st, c, uid, h, order, w).end
            case GetFailed => !Reads(st, h, w)
            case MachineLookupFailed => Reads(st, h, w) && w.get.value.host.machineRef.Some? && w.lookup.LookupError?
            case StillClaimed => Reads(st, h, w) && w.get.value.host.machineRef.Some? && w.lookup == Exists(false)
            case StaleRefetchFailed => Reads(st, h, w) && Stale(w.get.value, w) && !Vets(st, c, h, w)
            case LeaseHeld =>
              && Vets(st, c, h, w)
              && (Blocked(st, c, h, w) || (UpdateReaches(st, c, h, w) && !Current(st, c, h, w)))
            case LeaseError => Vets(st, c, h, w) && !Blocked(st, c, h, w) && !UpdateReaches(st, c, h, w)
            case RefetchFailed => Acquires(st, c, h, w) && !Loads(st, c, h, w)
            case HelperFailed => Loads(st, c, h, w) && !w.helperOk
            case SecretFailed => Loads(st, c, h, w) && w.helperOk && !SecretOk(order, w)
            case PatchFailed =>
              Loads(st, c, h, w) && w.helperOk && SecretOk(order, w) && !PatchLands(st, c, uid, h, order, w)
            case Patched => Succeeds(st, c, uid, h, order, w)
  {
    VettingExactly(st, c, h, w);
    if Vets(st, c, h, w) {
      GrabExactly(st, c, h, w);
      if Acquires(st, c, h, w) {
        var tested := LeaseTime(st, c, h, w.get.value, Candidate(w), w);
        var grab := Grabbed(tested, c, h, Candidate(w), w.beforeUpdate, w.updateOk);
        LoadingExactly(st, c, uid, h, order, w, grab.store);
      }
    }
  }

  // ---- A calm attempt -------------------------------------------------------------------------

  /** Nobody else does anything. */
  predicate Still(w: Weather) {
    && w.beforeGet == [] && w.beforeLookup == [] && w.beforeClear == [] && w.beforeRefetch == []
    && w.beforeLease == [] && w.beforeUpdate == [] && w.beforeReload == [] && w.beforePatch == []
    && w.beforeRelease == []
  }

  /** The store in which the lease is taken: a stale reference may have been cleared before. */
  function Judged(st: Store, h: string, w: Weather): Store
    requires h in st.objects
  {
    if Stale(st.objects[h], w) then Unbound(st, h, w.clearOk) else st
  }

  /** The host as it is then, with the lease of c. */
  function LeasedHost(st: Store, c: Key, h: string, w: Weather): Host
    requires h in st.objects
  {
    Judged(st, h, w).objects[h].host.(lease := Some(Lease(c, st.now)))
  }

  /** The reads return what is stored at the time. */
  predicate Fresh(st: Store, c: Key, h: string, w: Weather) {
    && h in st.objects && w.get == Some(st.objects[h])
    && (Stale(st.objects[h], w) ==> w.refetch == Some(Judged(st, h, w).objects[h]))
    && w.reload == Some(Object(LeasedHost(st, c, h, w), Judged(st, h, w).version + 1))
  }

  /** The host is free, or of a machine that is gone or being deleted, and no lease blocks. */
  predicate Attachable(st: Store, h: string, w: Weather)
    requires h in st.objects
  {
    && (st.objects[h].host.machineRef.None? || w.lookup.NotFound? || w.lookup == Exists(true))
    && !LeaseBlocks(st.objects[h].host.lease, st.now)
  }

  /** A stored object has a version and a reference that were issued. */
  predicate StoredOk(st: Store, h: string)
    requires h in st.objects
  {
    st.objects[h].version <= st.version && Known(Seen(st), st.objects[h].host.machineRef)
  }

  lemma MovedTwice(st: Store, c: Key, p: Pc, q: Pc)
    ensures Moved(Moved(st, c, p), c, q) == Moved(st, c, q)
  {
    if c in st.calls {
      var call := st.calls[c];
      assert st.calls[c := call.(pc := p)][c := call.(pc := q)] == st.calls[c := call.(pc := q)];
    }
  }

  lemma MovedBack(st: Store, c: Key, pc: Pc)
    requires c in st.calls && st.calls[c].pc == pc
    ensures Moved(st, c, pc) == st
  {
    assert st.calls[c := st.calls[c]] == st.calls;
  }

  /** The store with another object for host h. */
  function Replaced(st: Store, h: string, x: Host, version: nat): Store {
    st.(version := version, objects := st.objects[h := Object(x, version)])
  }

  lemma ReplacedTwice(st: Store, h: string, x: Host, v: nat, y: Host, u: nat)
    ensures Replaced(Replaced(st, h, x, v), h, y, u) == Replaced(st, h, y, u)
  {
    assert st.objects[h := Object(x, v)][h := Object(y, u)] == st.objects[h := Object(y, u)];
  }

  lemma CalmVet(st: Store, c: Key, h: string, w: Weather)
    requires Still(w) && h in st.objects && StoredOk(st, h) && Fresh(st, c, h, w) && Attachable(st, h, w)
    ensures var st1 := Judged(st, h, w);
            Vet(st, c, h, w) == Passed(st1.objects[h], Moved(st1, c, Vetted(h, Shown(st1.objects[h]))))
  {
    var read := st.objects[h];
    MovedTwice(st, c, Fetched(h, Shown(read)), Vetted(h, Shown(read)));
    MovedTwice(st, c, Fetched(h, Shown(read)), Clearing(h, Shown(read)));
    if Stale(read, w) {
      CalmRevet(st, c, h, w);
    }
  }

  lemma CalmRevet(st: Store, c: Key, h: string, w: Weather)
    requires Still(w) && h in st.objects && StoredOk(st, h) && Fresh(st, c, h, w) && Stale(st.objects[h], w)
    ensures var st0, st1 := Moved(st, c, Clearing(h, Shown(st.objects[h]))), Judged(st, h, w);
            Revet(AtRefetch(st0, c, h, st.objects[h], w), c, h, w.refetch)
            == Passed(st1.objects[h], Moved(st1, c, Vetted(h, Shown(st1.objects[h]))))
  {
    var read, st1 := st.objects[h], Judged(st, h, w);
    var st0 := Moved(st, c, Clearing(h, Shown(read)));
    assert Unbound(st0, h, w.clearOk) == Moved(st1, c, Clearing(h, Shown(read)));
    MovedTwice(st1, c, Clearing(h, Shown(read)), Refetching(h, read.host.machineRef));
    var st2 := Moved(st1, c, Refetching(h, read.host.machineRef));
    assert AtRefetch(st0, c, h, read, w) == st2;
    assert Answer(st2, h, w.refetch) == w.refetch;
    MovedTwice(st1, c, Refetching(h, read.host.machineRef), Vetted(h, Shown(st1.objects[h])));
  }

  lemma CalmGrab(st: Store, c: Key, h: string, w: Weather, pc: Pc)
    requires h in st.objects && !LeaseBlocks(st.objects[h].host.lease, st.now)
    ensures var x := st.objects[h].host.(lease := Some(Lease(c, st.now)));
            Grabbed(Moved(st, c, pc), c, h, st.objects[h], [], true)
            == Got(st.now, Moved(Put(st, h, x), c, Leased(h, st.now)))
  {
    var updating := Updating(h, Shown(st.objects[h]), st.now);
    MovedTwice(st, c, pc, updating);
    MovedTwice(Put(st, h, st.objects[h].host.(lease := Some(Lease(c, st.now)))), c, updating, Leased(h, st.now));
  }

  /** The release of a lease that is stored. */
  lemma CalmDrop(st: Store, c: Key, h: string, w: Weather, pc: Pc)
    requires Still(w) && w.releaseOk && h in st.objects
    ensures Dropped(Moved(st, c, pc), c, h, true, w)
         == Drop(false, Moved(Put(st, h, st.objects[h].host.(lease := None)), c, Idle))
  {
    MovedTwice(Put(st, h, st.objects[h].host.(lease := None)), c, pc, Idle);
  }

  /** What the claim makes of the stored host, lease apart. */
  lemma ClaimedBesides(x: Host, lease: Option<Lease>, ref: Ref, o: ClaimOrder)
    ensures Claimed(x.(lease := lease), ref, o).(lease := None) == Claimed(x.(lease := None), ref, o)
    ensures Claimed(x, ref, o).deletedAt == x.deletedAt && Claimed(x, ref, o).lease == x.lease
  {
  }

  /** The claim patch from the stored host x to y, and the release. */
  lemma CalmSend(st: Store, c: Key, h: string, at: int, y: Host, w: Weather, pc: Pc)
    requires Still(w) && w.releaseOk && w.patchOk && h in st.objects && st.objects[h].host != y
    requires var x := st.objects[h].host; x.lease.Some? && y.deletedAt == x.deletedAt
    ensures Sending(Moved(st, c, pc), c, h, at, st.objects[h].host, y, w)
         == Result(Patched, false, Replaced(Moved(st, c, Idle), h, y.(lease := None), st.version + 2))
  {
    var next := Releasing(h, at, true);
    MergedOver(st.objects[h].host, y);
    MovedTwice(Put(st, h, y), c, pc, next);
    CalmDrop(Put(st, h, y), c, h, w, next);
    ReplacedTwice(Moved(st, c, Idle), h, y, st.version + 1, y.(lease := None), st.version + 2);
  }

  /** A claim patch that is not sent, or is lost, and the release. */
  lemma CalmSkip(st: Store, c: Key, h: string, at: int, y: Host, w: Weather, pc: Pc)
    requires Still(w) && w.releaseOk && h in st.objects && (st.objects[h].host == y || !w.patchOk)
    requires st.objects[h].host.lease.Some?
    ensures var x := st.objects[h].host;
            Sending(Moved(st, c, pc), c, h, at, x, y, w)
            == Result(if x == y then Patched else PatchFailed, false,
                      Replaced(Moved(st, c, Idle), h, x.(lease := None), st.version + 1))
  {
    MovedTwice(st, c, pc, Releasing(h, at, true));
    CalmDrop(st, c, h, w, Releasing(h, at, true));
  }

  /** How a calm attempt on an attachable host ends. */
  function CalmEnd(x: Host, c: Key, uid: nat, order: ClaimOrder, w: Weather): Attempt {
    if !w.helperOk then HelperFailed
    else if !SecretOk(order, w) then SecretFailed
    else if w.patchOk || Claimed(x, Ref(c, uid), order) == x then Patched
    else PatchFailed
  }

  /** The host as a calm attempt leaves it. */
  function CalmHost(x: Host, end: Attempt, c: Key, uid: nat, order: ClaimOrder): Host {
    if end.Patched? then Claimed(x.(lease := None), Ref(c, uid), order) else x.(lease := None)
  }

  /** The lease makes no difference to what is left. */
  lemma CalmHostIs(x: Host, lease: Option<Lease>, end: Attempt, c: Key, uid: nat, order: ClaimOrder)
    ensures CalmHost(x.(lease := lease), end, c, uid, order) == CalmHost(x, end, c, uid, order)
    ensures end.Patched? ==> CalmHost(x, end, c, uid, order) == Claimed(x, Ref(c, uid), order).(lease := None)
  {
    ClaimedBesides(x, x.lease, Ref(c, uid), order);
    assert x.(lease := x.lease) == x;
  }

  predicate CalmResult(r: Result, st: Store, x: Host, c: Key, uid: nat, h: string, order: ClaimOrder, w: Weather) {
    && r.end == CalmEnd(x, c, uid, order, w) && !r.unreleased
    && r.store == Replaced(Moved(st, c, Idle), h, CalmHost(x, r.end, c, uid, order), r.store.version)
  }

  lemma CalmSending(st: Store, c: Key, h: string, at: int, y: Host, w: Weather, pc: Pc)
    requires Still(w) && w.releaseOk && h in st.objects && st.objects[h].host.lease.Some?
    requires y.deletedAt == st.objects[h].host.deletedAt
    ensures var x := st.objects[h].host;
            var r := Sending(Moved(st, c, pc), c, h, at, x, y, w);
            && r.end == (if w.patchOk || x == y then Patched else PatchFailed) && !r.unreleased
            && r.store == Replaced(Moved(st, c, Idle), h, (if r.end.Patched? then y else x).(lease := None),
                                 r.store.version)
  {
    if w.patchOk && st.objects[h].host != y {
      CalmSend(st, c, h, at, y, w, pc);
    } else {
      CalmSkip(st, c, h, at, y, w, pc);
    }
  }

  lemma CalmPatch(st: Store, c: Key, uid: nat, h: string, at: int, order: ClaimOrder, w: Weather, pc: Pc)
    requires Still(w) && w.releaseOk && h in st.objects && st.objects[h].host.lease.Some?
    requires w.helperOk && SecretOk(order, w)
    ensures var x := st.objects[h].host;
            CalmResult(Sending(Moved(st, c, pc), c, h, at, x, Claimed(x, Ref(c, uid), order), w),
                       st, x, c, uid, h, order, w)
  {
    var x := st.objects[h].host;
    CalmHostIs(x, None, Patched, c, uid, order);
    ClaimedBesides(x, None, Ref(c, uid), order);
    CalmSending(st, c, h, at, Claimed(x, Ref(c, uid), order), w, pc);
  }

  /** From the loaded object, which is the stored one with the lease, on. */
  lemma CalmClaim(st: Store, c: Key, uid: nat, h: string, at: int, order: ClaimOrder, w: Weather, pc: Pc)
    requires Still(w) && w.releaseOk && h in st.objects && st.objects[h].host.lease.Some?
    ensures CalmResult(Claiming(Moved(st, c, pc), c, uid, h, at, st.objects[h].host, order, w),
                       st, st.objects[h].host, c, uid, h, order, w)
  {
    if !w.helperOk || !SecretOk(order, w) {
      MovedTwice(st, c, pc, Releasing(h, at, true));
      CalmDrop(st, c, h, w, Releasing(h, at, true));
    } else {
      CalmPatch(st, c, uid, h, at, order, w, pc);
    }
  }

  /** From the reload of the stored host with the lease on. */
  lemma CalmLoad(st: Store, c: Key, uid: nat, h: string, at: int, order: ClaimOrder, w: Weather)
    requires Still(w) && w.releaseOk && h in st.objects && StoredOk(st, h)
    requires st.objects[h].host.lease.Some? && w.reload == Some(st.objects[h])
    ensures CalmResult(Loading(Moved(st, c, Leased(h, at)), c, uid, h, at, order, w),
                       st, st.objects[h].host, c, uid, h, order, w)
  {
    var loaded := Loaded(h, at, Shown(st.objects[h]));
    MovedTwice(st, c, Leased(h, at), loaded);
    assert Answer(Moved(st, c, Leased(h, at)), h, w.reload) == w.reload;
    CalmClaim(st, c, uid, h, at, order, w, loaded);
  }

  /** The objects that were stored on the way do not show in the end. */
  lemma CalmCollapse(st: Store, c: Key, h: string, w: Weather, y: Host, z: Host, version: nat)
    requires h in st.objects && c in st.calls && st.calls[c].pc.Idle?
    ensures Replaced(Moved(Put(Judged(st, h, w), h, y), c, Idle), h, z, version) == Replaced(st, h, z, version)
  {
    var st1 := Judged(st, h, w);
    MovedBack(st, c, Idle);
    ReplacedTwice(st1, h, y, st1.version + 1, z, version);
    ReplacedTwice(st, h, st1.objects[h].host, st1.version, z, version);
  }

  lemma CalmFinish(st: Store, c: Key, uid: nat, h: string, order: ClaimOrder, w: Weather, r: Result)
    requires h in st.objects && c in st.calls && st.calls[c].pc.Idle?
    requires var y := LeasedHost(st, c, h, w); CalmResult(r, Put(Judged(st, h, w), h, y), y, c, uid, h, order, w)
    ensures var x := Judged(st, h, w).objects[h].host;
            r.store == Replaced(st, h, CalmHost(x, r.end, c, uid, order), r.store.version)
  {
    var x, y := Judged(st, h, w).objects[h].host, LeasedHost(st, c, h, w);
    CalmHostIs(x, y.lease, r.end, c, uid, order);
    CalmCollapse(st, c, h, w, y, CalmHost(x, r.end, c, uid, order), r.store.version);
  }

  /** The attempt goes through to the reload. */
  lemma CalmStart(st: Store, c: Key, uid: nat, h: string, order: ClaimOrder, w: Weather)
    requires Still(w) && w.updateOk
    requires h in st.objects && StoredOk(st, h) && Fresh(st, c, h, w) && Attachable(st, h, w)
    ensures Attempted(st, c, uid, h, order, w)
         == Loading(Moved(Put(Judged(st, h, w), h, LeasedHost(st, c, h, w)), c, Leased(h, st.now)),
                    c, uid, h, st.now, order, w)
  {
    var st1 := Judged(st, h, w);
    CalmVet(st, c, h, w);
    CalmGrab(st1, c, h, w, Vetted(h, Shown(st1.objects[h])));
  }

  /** A calm attempt on an attachable host: it ends as the helper, the secret and the patch decide; the
      call is idle and its lease gone; the host has the claim in the place of its old fields if the
      attempt attaches, and is as it was otherwise, up to a cleared stale reference; and nothing else
      in the store has changed. */
  lemma CalmAttempt(st: Store, c: Key, uid: nat, h: string, order: ClaimOrder, w: Weather)
    requires Still(w) && w.updateOk && w.releaseOk && c in st.calls && st.calls[c].pc.Idle?
    requires h in st.objects && StoredOk(st, h) && Fresh(st, c, h, w) && Attachable(st, h, w)
    ensures var x, r := Judged(st, h, w).objects[h].host, Attempted(st, c, uid, h, order, w);
            && r.end == CalmEnd(LeasedHost(st, c, h, w), c, uid, order, w) && !r.unreleased
            && r.store == Replaced(st, h, CalmHost(x, r.end, c, uid, order), r.store.version)
  {
    CalmStart(st, c, uid, h, order, w);
    CalmLoad(Put(Judged(st, h, w), h, LeasedHost(st, c, h, w)), c, uid, h, st.now, order, w);
    CalmFinish(st, c, uid, h, order, w, Attempted(st, c, uid, h, order, w));
  }

  /** A calm attempt whose helper, secret and patch work attaches: the machine's reference, labels and
      settings are on the host, no lease is, and every other host is as it was. */
  lemma CalmAttemptAttaches(st: Store, c: Key, uid: nat, h: string, order: ClaimOrder, w: Weather)
    requires Still(w) && w.updateOk && w.releaseOk && c in st.calls && st.calls[c].pc.Idle?
    requires h in st.objects && StoredOk(st, h) && Fresh(st, c, h, w) && Attachable(st, h, w)
    requires w.helperOk && w.patchOk && (order.joinMode == TlsBootstrap ==> w.secretOk)
    ensures var x, r := st.objects[h].host, Attempted(st, c, uid, h, order, w);
            && r.end == Patched && !r.unreleased && r.store.objects.Keys == st.objects.Keys
            && (forall g :: g in st.objects && g != h ==> r.store.objects[g] == st.objects[g])
            && var y := r.store.objects[h].host;
               && HasBinding(y, Ref(c, uid), order) && HasVersion(y, x, order) && HasLabels(y, x, order)
               && y.lease.None? && RestAsBefore(y, x.(lease := None))
  {
    CalmAttempt(st, c, uid, h, order, w);
    AttachedFields(st.objects[h].host, Judged(st, h, w).objects[h].host, Ref(c, uid), order);
  }

  /** The claim over the host x0 as it was, of which the reference may have been cleared on the way. */
  lemma AttachedFields(x0: Host, x: Host, ref: Ref, o: ClaimOrder)
    requires x == x0 || x == x0.(machineRef := None)
    ensures var y := Claimed(x.(lease := None), ref, o);
            && HasBinding(y, ref, o) && HasVersion(y, x0, o) && HasLabels(y, x0, o)
            && y.lease.None? && RestAsBefore(y, x0.(lease := None))
  {
    ClaimedFields(x.(lease := None), ref, o);
  }
}
