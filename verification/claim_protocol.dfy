/** The host-claim protocol of attachByoHost at the grain of single API calls. Every read comes from a
    cache that may lag behind, and what was read may be out of date when it is used. `Update` is
    admitted only for the current resource version; a patch writes the fields it changes without any
    check. */
module ClaimProtocol {
  import opened ByoModel

  /** The part of a host object the protocol touches, with its resource version. */
  datatype Obj = Obj(version: nat, ref: Option<Ref>, lease: Option<Lease>)

  datatype Machine = Machine(uid: nat, deleting: bool)

  /** Where one attach call stands. */
  datatype Pc =
    | Idle
    | Fetched(host: string, snap: Obj)
    | Clearing(host: string, snap: Obj)
    | Refetching(host: string, judged: Option<Ref>)
    | Vetted(host: string, snap: Obj)
    | Updating(host: string, snap: Obj, at: int)
    | Leased(host: string, at: int)
    | Loaded(host: string, at: int, snap: Obj)
    | Releasing(host: string, at: int, seen: bool)

  /** What a lookup of a machine says. */
  datatype Lookup = LookupError | NotFound | Exists(deleting: bool)

  /** An attach call works for one machine; a key has at most one call at a time. */
  datatype Call = Call(uid: nat, pc: Pc)

  datatype State = State(
    now: int,
    version: nat,
    hosts: map<string, Obj>,
    machines: map<Key, Machine>,
    nextUid: nat,
    calls: map<Key, Call>)

  const INIT: State := State(0, 0, map[], map[], 0, map[])

  datatype Step =
    // the attach call of a machine
    | Start(c: Key)
    | Fetch(c: Key, host: string, seen: Option<Obj>)
    | Judge(c: Key, lookup: Lookup)
    | Clear(c: Key, ok: bool)
    | Refetch(c: Key, seen: Option<Obj>)
    | Decide(c: Key)
    | Update(c: Key, ok: bool)
    | Load(c: Key, seen: Option<Obj>)
    | Claim(c: Key, ok: bool)
    | Release(c: Key, ok: bool)
    | Stop(c: Key)
    // everyone else
    | Tick(elapsed: nat)
    | CreateMachine(k: Key)
    | DeleteMachine(k: Key)
    | RemoveMachine(k: Key)
    | AddHost(host: string)
    | RemoveHost(host: string)
    | Touch(host: string)
    | Mark(host: string)
    | Unbind(host: string)
    | Corrupt(host: string)

  /** A write of host h; a host that is gone stays gone. */
  function Write(s: State, h: string, ref: Option<Ref>, lease: Option<Lease>): State {
    if h !in s.hosts then s
    else s.(version := s.version + 1, hosts := s.hosts[h := Obj(s.version + 1, ref, lease)])
  }

  function RefOf(s: State, h: string): Option<Ref> {
    if h in s.hosts then s.hosts[h].ref else None
  }

  function LeaseOf(s: State, h: string): Option<Lease> {
    if h in s.hosts then s.hosts[h].lease else None
  }

  function PcOf(s: State, c: Key): Pc {
    if c in s.calls then s.calls[c].pc else Idle
  }

  /** The reference that a call writes into the host it claims. */
  function Me(s: State, c: Key): Ref {
    Ref(c, if c in s.calls then s.calls[c].uid else 0)
  }

  function Goto(s: State, c: Key, pc: Pc): State {
    if c in s.calls then s.(calls := s.calls[c := s.calls[c].(pc := pc)]) else s
  }

  /** A snapshot whose version is still current shows the current object. */
  predicate SnapOk(s: State, h: string, snap: Obj) {
    && snap.version <= s.version
    && (h in s.hosts && s.hosts[h].version == snap.version ==> s.hosts[h] == snap)
  }

  /** The reference names a machine that there is or has been. */
  predicate Known(s: State, ref: Option<Ref>) {
    ref.Some? ==> ref.value.uid < s.nextUid
  }

  /** What a cache may return for host h: the stored object or an earlier one. An earlier one has an
      older version and names only machines that there have been. */
  predicate MaybePast(s: State, h: string, o: Obj) {
    SnapOk(s, h, o) && Known(s, o.ref)
  }

  /** A read fails, or returns what a cache may return. */
  function Read(s: State, h: string, seen: Option<Obj>): (o: Option<Obj>)
    ensures o.Some? ==> o == seen && MaybePast(s, h, o.value)
  {
    if seen.Some? && MaybePast(s, h, seen.value) then seen else None
  }

  /** The check on a fetched host: unclaimed and orphaned hosts are tried, hosts of a machine that
      is being deleted too; a host of a machine that is still wanted is not. With no reference there
      is nothing to look up, and a lookup that fails ends the attempt. */
  function Verdict(h: string, snap: Obj, lookup: Lookup): Pc {
    if snap.ref.None? then Vetted(h, snap)
    else
      match lookup
      case LookupError => Idle
      case NotFound => Clearing(h, snap)
      case Exists(deleting) => if deleting then Vetted(h, snap) else Idle
  }

  /** The Update of tryAcquireLease is admitted: the snapshot is the current object. */
  predicate Admitted(s: State, pc: Pc) {
    pc.Updating? && pc.host in s.hosts && s.hosts[pc.host].version == pc.snap.version
  }

  predicate ByCall(st: Step) {
    || st.Fetch? || st.Judge? || st.Clear? || st.Refetch? || st.Decide? || st.Update? || st.Load?
    || st.Claim? || st.Release?
  }

  /** The steps of a call that write no host. */
  predicate Quiet(st: Step) {
    st.Fetch? || st.Judge? || st.Refetch? || st.Decide? || st.Load?
  }

  /** The step belongs to the attach call of c. */
  predicate Acts(st: Step, c: Key) {
    (ByCall(st) || st.Start? || st.Stop?) && st.c == c
  }

  /** The call has taken the lease of host h and not yet come to its release. */
  predicate HoldsOn(pc: Pc, h: string) {
    (pc.Leased? || pc.Loaded? || pc.Releasing?) && pc.host == h
  }

  function FetchStep(s: State, c: Key, h: string, seen: Option<Obj>): State {
    if PcOf(s, c).Idle? && Read(s, h, seen).Some? then Goto(s, c, Fetched(h, seen.value)) else s
  }

  function JudgeStep(s: State, c: Key, lookup: Lookup): State {
    var pc := PcOf(s, c);
    if pc.Fetched? then Goto(s, c, Verdict(pc.host, pc.snap, lookup)) else s
  }

  function ClearStep(s: State, c: Key, ok: bool): State {
    var pc := PcOf(s, c);
    if !pc.Clearing? then s
    else Goto(if ok then Write(s, pc.host, None, LeaseOf(s, pc.host)) else s, c, Refetching(pc.host, pc.snap.ref))
  }

  function RefetchStep(s: State, c: Key, seen: Option<Obj>): State {
    var pc := PcOf(s, c);
    if !pc.Refetching? then s
    else Goto(s, c, if Read(s, pc.host, seen).Some? then Vetted(pc.host, seen.value) else Idle)
  }

  function DecideStep(s: State, c: Key): State {
    var pc := PcOf(s, c);
    if !pc.Vetted? then s
    else Goto(s, c, if LeaseBlocks(pc.snap.lease, s.now) then Idle else Updating(pc.host, pc.snap, s.now))
  }

  function UpdateStep(s: State, c: Key, ok: bool): State {
    var pc := PcOf(s, c);
    if !pc.Updating? then s
    else if ok && Admitted(s, pc) then
      Goto(Write(s, pc.host, pc.snap.ref, Some(Lease(c, pc.at))), c, Leased(pc.host, pc.at))
    else Goto(s, c, Idle)
  }

  function LoadStep(s: State, c: Key, seen: Option<Obj>): State {
    var pc := PcOf(s, c);
    if !pc.Leased? then s
    else Goto(s, c, if Read(s, pc.host, seen).Some? then Loaded(pc.host, pc.at, seen.value)
                    else Releasing(pc.host, pc.at, true))
  }

  /** The patch carries machineRef only if it differs from what was loaded. */
  function ClaimStep(s: State, c: Key, ok: bool): State {
    var pc := PcOf(s, c);
    if !pc.Loaded? then s
    else
      var writes := ok && pc.snap.ref != Some(Me(s, c));
      var s1 := if writes then Write(s, pc.host, Some(Me(s, c)), LeaseOf(s, pc.host)) else s;
      Goto(s1, c, Releasing(pc.host, pc.at, pc.snap.lease.Some?))
  }

  function ReleaseStep(s: State, c: Key, ok: bool): State {
    var pc := PcOf(s, c);
    if !pc.Releasing? then s
    else Goto(if ok && pc.seen then Write(s, pc.host, RefOf(s, pc.host), None) else s, c, Idle)
  }

  function CallStep(s: State, st: Step): State
    requires ByCall(st)
  {
    match st
    case Fetch(c, h, seen) => FetchStep(s, c, h, seen)
    case Judge(c, lookup) => JudgeStep(s, c, lookup)
    case Clear(c, ok) => ClearStep(s, c, ok)
    case Refetch(c, seen) => RefetchStep(s, c, seen)
    case Decide(c) => DecideStep(s, c)
    case Update(c, ok) => UpdateStep(s, c, ok)
    case Load(c, seen) => LoadStep(s, c, seen)
    case Claim(c, ok) => ClaimStep(s, c, ok)
    case Release(c, ok) => ReleaseStep(s, c, ok)
  }

  function WorldStep(s: State, st: Step): State {
    match st
    case Start(c) =>
      if c in s.machines && !s.machines[c].deleting && c !in s.calls
      then s.(calls := s.calls[c := Call(s.machines[c].uid, Idle)]) else s
    case Stop(c) => s.(calls := s.calls - {c})
    case Tick(elapsed) => s.(now := s.now + elapsed)
    case CreateMachine(k) =>
      if k in s.machines then s
      else s.(machines := s.machines[k := Machine(s.nextUid, false)], nextUid := s.nextUid + 1)
    case DeleteMachine(k) =>
      if k in s.machines then s.(machines := s.machines[k := s.machines[k].(deleting := true)]) else s
    case RemoveMachine(k) =>
      if k in s.machines && s.machines[k].deleting then s.(machines := s.machines - {k}) else s
    case AddHost(h) =>
      if h in s.hosts then s
      else s.(version := s.version + 1, hosts := s.hosts[h := Obj(s.version + 1, None, None)])
    case RemoveHost(h) => s.(hosts := s.hosts - {h})
    case Touch(h) => Write(s, h, RefOf(s, h), LeaseOf(s, h))
    case Mark(h) => Write(s, h, None, None)
    case Unbind(h) => Write(s, h, None, LeaseOf(s, h))
    case Corrupt(h) => Write(s, h, RefOf(s, h), Some(Unparsable))
    case _ => s
  }

  function Apply(s: State, st: Step): State {
    if ByCall(st) then CallStep(s, st) else WorldStep(s, st)
  }

  function Exec(s: State, steps: seq<Step>): State
    decreases |steps|
  {
    if steps == [] then s else Apply(Exec(s, steps[..|steps| - 1]), steps[|steps| - 1])
  }

  lemma ExecNext(s: State, steps: seq<Step>, i: nat)
    requires i < |steps|
    ensures Exec(s, steps[..i + 1]) == Apply(Exec(s, steps[..i]), steps[i])
  {
    assert steps[..i + 1][..i] == steps[..i];
  }

  // ---- Snapshots ------------------------------------------------------------------------------

  predicate PcOk(s: State, pc: Pc) {
    && (pc.Fetched? || pc.Clearing? || pc.Vetted? || pc.Updating? || pc.Loaded? ==> SnapOk(s, pc.host, pc.snap))
    && (pc.Updating? ==> !LeaseBlocks(pc.snap.lease, pc.at))
  }

  ghost predicate Inv(s: State) {
    && (forall h :: h in s.hosts ==> s.hosts[h].version <= s.version)
    && (forall c {:trigger PcOf(s, c)} :: PcOk(s, PcOf(s, c)))
  }

  lemma GotoPc(s: State, c: Key, pc: Pc, d: Key)
    ensures PcOf(Goto(s, c, pc), d) == if d == c && c in s.calls then pc else PcOf(s, d)
  {
  }

  lemma WriteKeepsPcOk(s: State, h: string, ref: Option<Ref>, lease: Option<Lease>, pc: Pc)
    requires PcOk(s, pc)
    ensures PcOk(Write(s, h, ref, lease), pc)
  {
  }

  lemma WriteKeepsInv(s: State, h: string, ref: Option<Ref>, lease: Option<Lease>)
    requires Inv(s)
    ensures Inv(Write(s, h, ref, lease))
  {
    var s' := Write(s, h, ref, lease);
    forall c ensures PcOk(s', PcOf(s', c)) {
      assert PcOf(s', c) == PcOf(s, c);
      WriteKeepsPcOk(s, h, ref, lease, PcOf(s, c));
    }
  }

  lemma GotoKeepsInv(s: State, c: Key, pc: Pc)
    requires Inv(s) && PcOk(s, pc)
    ensures Inv(Goto(s, c, pc))
  {
    var s' := Goto(s, c, pc);
    forall d ensures PcOk(s', PcOf(s', d)) {
      GotoPc(s, c, pc, d);
      assert PcOk(s, PcOf(s, d));
    }
  }

  lemma QuietKeepsInv(s: State, st: Step)
    requires Inv(s) && Quiet(st)
    ensures Inv(CallStep(s, st))
  {
    var c, pc := st.c, PcOf(s, st.c);
    assert PcOk(s, pc);
    match st
    case Fetch(_, h, seen) => if pc.Idle? && Read(s, h, seen).Some? { GotoKeepsInv(s, c, Fetched(h, seen.value)); }
    case Judge(_, lookup) => if pc.Fetched? { GotoKeepsInv(s, c, Verdict(pc.host, pc.snap, lookup)); }
    case Refetch(_, seen) =>
      if pc.Refetching? {
        GotoKeepsInv(s, c, if Read(s, pc.host, seen).Some? then Vetted(pc.host, seen.value) else Idle);
      }
    case Decide(_) =>
      if pc.Vetted? {
        GotoKeepsInv(s, c, if LeaseBlocks(pc.snap.lease, s.now) then Idle else Updating(pc.host, pc.snap, s.now));
      }
    case Load(_, seen) =>
      if pc.Leased? {
        GotoKeepsInv(s, c, if Read(s, pc.host, seen).Some? then Loaded(pc.host, pc.at, seen.value)
                           else Releasing(pc.host, pc.at, true));
      }
  }

  lemma ClearKeepsInv(s: State, c: Key, ok: bool)
    requires Inv(s)
    ensures Inv(ClearStep(s, c, ok)) && Inv(ReleaseStep(s, c, ok))
  {
    var pc := PcOf(s, c);
    if pc.Clearing? {
      WriteKeepsInv(s, pc.host, None, LeaseOf(s, pc.host));
      GotoKeepsInv(if ok then Write(s, pc.host, None, LeaseOf(s, pc.host)) else s, c,
                   Refetching(pc.host, pc.snap.ref));
    } else if pc.Releasing? {
      WriteKeepsInv(s, pc.host, RefOf(s, pc.host), None);
      GotoKeepsInv(if ok && pc.seen then Write(s, pc.host, RefOf(s, pc.host), None) else s, c, Idle);
    }
  }

  lemma ClaimKeepsInv(s: State, c: Key, ok: bool)
    requires Inv(s)
    ensures Inv(UpdateStep(s, c, ok)) && Inv(ClaimStep(s, c, ok))
  {
    var pc := PcOf(s, c);
    if pc.Updating? {
      WriteKeepsInv(s, pc.host, pc.snap.ref, Some(Lease(c, pc.at)));
      GotoKeepsInv(s, c, Idle);
      GotoKeepsInv(Write(s, pc.host, pc.snap.ref, Some(Lease(c, pc.at))), c, Leased(pc.host, pc.at));
    } else if pc.Loaded? {
      WriteKeepsInv(s, pc.host, Some(Me(s, c)), LeaseOf(s, pc.host));
      var writes := ok && pc.snap.ref != Some(Me(s, c));
      var s1 := if writes then Write(s, pc.host, Some(Me(s, c)), LeaseOf(s, pc.host)) else s;
      GotoKeepsInv(s1, c, Releasing(pc.host, pc.at, pc.snap.lease.Some?));
    }
  }

  lemma CallStepKeepsInv(s: State, st: Step)
    requires Inv(s) && ByCall(st)
    ensures Inv(CallStep(s, st))
  {
    if Quiet(st) {
      QuietKeepsInv(s, st);
    } else {
      ClearKeepsInv(s, st.c, st.ok);
      ClaimKeepsInv(s, st.c, st.ok);
    }
  }

  lemma WorldStepKeepsInv(s: State, st: Step)
    requires Inv(s)
    ensures Inv(WorldStep(s, st))
  {
    var s' := WorldStep(s, st);
    if st.Touch? || st.Mark? || st.Unbind? || st.Corrupt? {
      WriteKeepsInv(s, st.host, RefOf(s, st.host), LeaseOf(s, st.host));
      WriteKeepsInv(s, st.host, None, None);
      WriteKeepsInv(s, st.host, None, LeaseOf(s, st.host));
      WriteKeepsInv(s, st.host, RefOf(s, st.host), Some(Unparsable));
    } else {
      forall c ensures PcOk(s', PcOf(s', c)) {
        assert PcOk(s, PcOf(s, c));
      }
    }
  }

  lemma ApplyKeepsInv(s: State, st: Step)
    requires Inv(s)
    ensures Inv(Apply(s, st))
  {
    if ByCall(st) {
      CallStepKeepsInv(s, st);
    } else {
      WorldStepKeepsInv(s, st);
    }
  }

  lemma {:induction false} ExecKeepsInv(steps: seq<Step>)
    ensures Inv(Exec(INIT, steps))
    decreases |steps|
  {
    if steps != [] {
      var n := |steps| - 1;
      ExecKeepsInv(steps[..n]);
      var s := Exec(INIT, steps[..n]);
      ApplyKeepsInv(s, steps[n]);
    }
  }

  /** Exactly when a claim patch that lands leaves the host bound to the claimant: a host whose loaded
      object already named it is not written, and is bound only if it still is. */
  lemma ClaimBindsExactly(s: State, c: Key)
    requires PcOf(s, c).Loaded?
    ensures var pc, t := PcOf(s, c), Apply(s, Claim(c, true));
            RefOf(t, pc.host) == Some(Me(s, c)) <==>
              pc.host in s.hosts && (pc.snap.ref == Some(Me(s, c)) ==> RefOf(s, pc.host) == Some(Me(s, c)))
  {
  }

  // ---- The lease law --------------------------------------------------------------------------

  /** This step acquires the lease of host h. */
  predicate Acquires(s: State, st: Step, h: string) {
    st.Update? && st.ok && st.c in s.calls && Admitted(s, PcOf(s, st.c)) && PcOf(s, st.c).host == h
  }

  function AcquireTime(s: State, st: Step, h: string): int
    requires Acquires(s, st, h)
  {
    PcOf(s, st.c).at
  }

  /** Host h carries a parsable lease, acquired at `from` or later. */
  predicate LeasedSince(s: State, h: string, from: int) {
    LeaseOf(s, h).Some? && LeaseOf(s, h).value.Lease? && LeaseOf(s, h).value.at >= from
  }

  /** The step takes a parsable lease off host h, or makes it unreadable. */
  predicate Removes(s: State, st: Step, h: string) {
    && LeaseOf(s, h).Some? && LeaseOf(s, h).value.Lease?
    && (LeaseOf(Apply(s, st), h).None? || LeaseOf(Apply(s, st), h).value.Unparsable?)
  }

  /** An acquisition never takes over a lease younger than 30 seconds. */
  lemma AcquisitionWaits(s: State, st: Step, h: string)
    requires Inv(s) && Acquires(s, st, h) && LeaseOf(s, h).Some? && LeaseOf(s, h).value.Lease?
    ensures AcquireTime(s, st, h) >= LeaseOf(s, h).value.at + LEASE_TIMEOUT
  {
    assert PcOk(s, PcOf(s, st.c));
  }

  lemma StepKeepsLease(s: State, st: Step, h: string, from: int)
    requires Inv(s) && LeasedSince(s, h, from) && !Removes(s, st, h)
    ensures LeasedSince(Apply(s, st), h, from)
  {
    if Acquires(s, st, h) {
      AcquisitionWaits(s, st, h);
    } else if st.Update? {
      assert LeaseOf(Apply(s, st), h) == LeaseOf(s, h);
    }
  }

  lemma {:induction false} LeaseLastsUntilRemoved(steps: seq<Step>, i: nat, j: nat, h: string, from: int)
    returns (m: nat)
    requires i <= j <= |steps|
    requires LeasedSince(Exec(INIT, steps[..i]), h, from)
    ensures i <= m <= j
    ensures m < j ==> Removes(Exec(INIT, steps[..m]), steps[m], h)
    ensures m == j ==> LeasedSince(Exec(INIT, steps[..j]), h, from)
    decreases j - i
  {
    if i == j {
      m := j;
    } else if Removes(Exec(INIT, steps[..i]), steps[i], h) {
      m := i;
    } else {
      ExecKeepsInv(steps[..i]);
      ExecNext(INIT, steps, i);
      StepKeepsLease(Exec(INIT, steps[..i]), steps[i], h, from);
      m := LeaseLastsUntilRemoved(steps, i + 1, j, h, from);
    }
  }

  /** The lease law, with no assumption on timing or on anyone's behaviour: between two successful
      acquisitions of one host's lease, the lease was taken off the host or made unreadable, or
      the second one was decided at least 30 seconds after the first. */
  lemma LeaseLaw(steps: seq<Step>, i: nat, j: nat, h: string) returns (m: nat)
    requires i < j < |steps|
    requires Acquires(Exec(INIT, steps[..i]), steps[i], h) && Acquires(Exec(INIT, steps[..j]), steps[j], h)
    ensures i < m <= j
    ensures m < j ==> Removes(Exec(INIT, steps[..m]), steps[m], h)
    ensures m == j ==>
              AcquireTime(Exec(INIT, steps[..j]), steps[j], h) - AcquireTime(Exec(INIT, steps[..i]), steps[i], h)
              >= LEASE_TIMEOUT
  {
    var s := Exec(INIT, steps[..i]);
    ExecNext(INIT, steps, i);
    m := LeaseLastsUntilRemoved(steps, i + 1, j, h, AcquireTime(s, steps[i], h));
    if m == j {
      ExecKeepsInv(steps[..j]);
      AcquisitionWaits(Exec(INIT, steps[..j]), steps[j], h);
    }
  }
}
