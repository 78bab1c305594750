/** Claim exclusivity: under timely claims, every interleaving of the claim protocol refines an
    allocator that binds a host only when it is free. */
module ClaimRefinement {
  import opened ByoModel
  import opened ClaimProtocol

  // ---- The abstract allocator -----------------------------------------------------------------

  /** The referenced machine exists under its own UID and is not being deleted. */
  predicate Live(machines: map<Key, Machine>, r: Ref) {
    r.key in machines && machines[r.key].uid == r.uid && !machines[r.key].deleting
  }

  predicate Free(machines: map<Key, Machine>, owner: Option<Ref>) {
    owner.Some? ==> !Live(machines, owner.value)
  }

  datatype Alloc = Alloc(owner: map<string, Option<Ref>>, machines: map<Key, Machine>)

  datatype Action =
    | Bind(host: string, r: Ref)
    | Reap(host: string)
    | Vacate(host: string)
    | Join(host: string)
    | Leave(host: string)
    | Machines
    | Nothing

  /** The allocator: a free host is bound, a dead owner is reaped, an owner's own release vacates;
      hosts come unowned, and machines come and go without touching any binding. */
  predicate Allowed(a: Alloc, act: Action, b: Alloc) {
    match act
    case Bind(h, r) =>
      h in a.owner && Free(a.machines, a.owner[h]) && b == a.(owner := a.owner[h := Some(r)])
    case Reap(h) =>
      h in a.owner && Free(a.machines, a.owner[h]) && b == a.(owner := a.owner[h := None])
    case Vacate(h) => h in a.owner && b == a.(owner := a.owner[h := None])
    case Join(h) => h !in a.owner && b == a.(owner := a.owner[h := None])
    case Leave(h) => b == a.(owner := a.owner - {h})
    case Machines => b.owner == a.owner
    case Nothing => b == a
  }

  function Abs(s: State): Alloc {
    Alloc(map h | h in s.hosts :: s.hosts[h].ref, s.machines)
  }

  /** What a protocol step does to the allocator. */
  function ActionOf(s: State, st: Step): Action {
    match st
    case Clear(c, ok) =>
      if PcOf(s, c).Clearing? && ok && PcOf(s, c).host in s.hosts then Reap(PcOf(s, c).host) else Nothing
    case Claim(c, ok) =>
      if PcOf(s, c).Loaded? && ok && PcOf(s, c).host in s.hosts && PcOf(s, c).snap.ref != Some(Me(s, c))
      then Bind(PcOf(s, c).host, Me(s, c)) else Nothing
    case Mark(h) => if h in s.hosts then Vacate(h) else Nothing
    case Unbind(h) => if h in s.hosts then Vacate(h) else Nothing
    case AddHost(h) => if h !in s.hosts then Join(h) else Nothing
    case RemoveHost(h) => Leave(h)
    case CreateMachine(_) => Machines
    case DeleteMachine(_) => Machines
    case RemoveMachine(_) => Machines
    case _ => Nothing
  }

  // ---- Timeliness -----------------------------------------------------------------------------

  /** Call c holds the lease of host h and is still within its 30 seconds. */
  predicate Window(s: State, c: Key, h: string) {
    HoldsOn(PcOf(s, c), h) && s.now < PcOf(s, c).at + LEASE_TIMEOUT
  }

  /** Since a call judged the reference on host h orphaned, nobody has put another one there. */
  predicate Unclaimed(s: State, h: string, judged: Option<Ref>) {
    RefOf(s, h).None? || RefOf(s, h) == judged
  }

  /** The lookup failed, or says what is stored. */
  predicate UpToDate(s: State, k: Key, lookup: Lookup) {
    lookup.LookupError? || lookup == if k in s.machines then Exists(s.machines[k].deleting) else NotFound
  }

  /** What exclusivity asks of the environment: lookups of machines are up to date; claims and releases
      land within 30 seconds of the acquisition; no other claim lands between the judgement that a
      reference is stale and its clearing, or is shown by the re-read after it; nobody else takes the
      lease off a host, or registers the host anew, while a call is within its 30 seconds. Reads of
      hosts may lag behind as they like. */
  ghost predicate Timely(s: State, st: Step) {
    match st
    case Judge(c, lookup) =>
      PcOf(s, c).Fetched? && PcOf(s, c).snap.ref.Some? ==> UpToDate(s, PcOf(s, c).snap.ref.value.key, lookup)
    case Claim(c, ok) => ok && PcOf(s, c).Loaded? ==> s.now < PcOf(s, c).at + LEASE_TIMEOUT
    case Release(c, ok) => ok && PcOf(s, c).Releasing? ==> s.now < PcOf(s, c).at + LEASE_TIMEOUT
    case Clear(c, ok) => ok && PcOf(s, c).Clearing? ==> Unclaimed(s, PcOf(s, c).host, PcOf(s, c).snap.ref)
    case Refetch(c, seen) =>
      PcOf(s, c).Refetching? && Read(s, PcOf(s, c).host, seen).Some? ==>
        seen.value.ref.None? || seen.value.ref == PcOf(s, c).judged
    case Mark(h) => forall c {:trigger Window(s, c, h)} :: !Window(s, c, h)
    case Corrupt(h) => forall c {:trigger Window(s, c, h)} :: !Window(s, c, h)
    case AddHost(h) => forall c {:trigger Window(s, c, h)} :: !Window(s, c, h)
    case _ => true
  }

  // ---- The invariant --------------------------------------------------------------------------

  /** A reference of an issued UID whose machine is gone or unwanted, and stays so. */
  predicate Dead(s: State, ref: Option<Ref>) {
    Known(s, ref) && Free(s.machines, ref)
  }

  /** Within its window a call is the holder written on the host, and until it claims, the host is
      still as free as when the lease was taken. */
  predicate WindowOk(s: State, c: Key) {
    var pc := PcOf(s, c);
    (pc.Leased? || pc.Loaded? || pc.Releasing?) && Window(s, c, pc.host) && pc.host in s.hosts ==>
      && s.hosts[pc.host].lease == Some(Lease(c, pc.at))
      && (pc.Releasing? || Free(s.machines, s.hosts[pc.host].ref))
  }

  predicate CallOk(s: State, c: Key) {
    var pc := PcOf(s, c);
    && (c in s.calls ==> s.calls[c].uid < s.nextUid)
    && (pc.Fetched? ==> Known(s, pc.snap.ref))
    && (pc.Clearing? || pc.Vetted? || pc.Updating? ==> Dead(s, pc.snap.ref))
    && (pc.Refetching? ==> Dead(s, pc.judged))
    && (pc.Updating? || pc.Leased? || pc.Loaded? || pc.Releasing? ==> pc.at <= s.now)
    && WindowOk(s, c)
  }

  ghost predicate Calls(s: State) {
    forall c {:trigger CallOk(s, c)} :: CallOk(s, c)
  }

  predicate RefsKnown(s: State) {
    && (forall h :: h in s.hosts ==> Known(s, s.hosts[h].ref))
    && (forall k :: k in s.machines ==> s.machines[k].uid < s.nextUid)
  }

  ghost predicate InvX(s: State) {
    Inv(s) && Calls(s) && RefsKnown(s)
  }

  /** From s to t time and UIDs only go on, and no dead reference comes back to life. */
  ghost predicate Later(s: State, t: State) {
    && s.now <= t.now && s.nextUid <= t.nextUid
    && (forall r: Ref {:trigger Live(t.machines, r)} ::
          r.uid < s.nextUid && !Live(s.machines, r) ==> !Live(t.machines, r))
  }

  /** A call that a step leaves where it was stays in order if the step left the lease of its host
      alone and at most cleared the reference. */
  lemma BystanderOk(s: State, t: State, d: Key)
    requires RefsKnown(s) && CallOk(s, d) && Later(s, t)
    requires PcOf(t, d) == PcOf(s, d) && (d in t.calls ==> d in s.calls && t.calls[d] == s.calls[d])
    requires var pc := PcOf(s, d);
             (pc.Leased? || pc.Loaded? || pc.Releasing?) && Window(s, d, pc.host) && pc.host in t.hosts ==>
               && pc.host in s.hosts && t.hosts[pc.host].lease == s.hosts[pc.host].lease
               && (t.hosts[pc.host].ref == s.hosts[pc.host].ref || t.hosts[pc.host].ref.None?)
    ensures CallOk(t, d)
  {
    var pc := PcOf(s, d);
    if pc.Leased? || pc.Loaded? || pc.Releasing? {
      assert Window(t, d, pc.host) ==> Window(s, d, pc.host);
    }
  }

  /** Two calls are never within their windows on the same host. */
  lemma WindowExclusive(s: State, c: Key, d: Key, h: string)
    requires CallOk(s, c) && CallOk(s, d) && h in s.hosts && Window(s, c, h) && Window(s, d, h)
    ensures c == d
  {
  }

  /** An acquisition is admitted only when no other call is within its window on that host. */
  lemma AcquisitionFindsNoWindow(s: State, st: Step, h: string, d: Key)
    requires Inv(s) && Acquires(s, st, h) && CallOk(s, st.c) && CallOk(s, d)
    ensures !Window(s, d, h)
  {
    if Window(s, d, h) {
      AcquisitionWaits(s, st, h);
    }
  }

  lemma StepIsLater(s: State, st: Step)
    requires RefsKnown(s)
    ensures Later(s, Apply(s, st))
  {
  }

  /** The host that a step of an attach call writes, if it writes one. */
  lemma CallWritesOnlyItsHost(s: State, st: Step, g: string)
    requires ByCall(st)
    ensures var pc, t := PcOf(s, st.c), CallStep(s, st);
            g in t.hosts ==> g in s.hosts && (t.hosts[g] == s.hosts[g] || (!pc.Idle? && pc.host == g))
  {
  }

  lemma OwnerSurvivesWorld(s: State, st: Step, d: Key, h: string)
    requires Timely(s, st) && !ByCall(st) && Window(s, d, h) && h in WorldStep(s, st).hosts
    ensures var t := WorldStep(s, st);
            && h in s.hosts && t.hosts[h].lease == s.hosts[h].lease
            && (t.hosts[h].ref == s.hosts[h].ref || t.hosts[h].ref.None?)
  {
  }

  lemma OwnerSurvivesCall(s: State, st: Step, d: Key, h: string)
    requires InvX(s) && Timely(s, st) && ByCall(st) && st.c != d
    requires Window(s, d, h) && h in CallStep(s, st).hosts
    ensures var t := CallStep(s, st);
            && h in s.hosts && t.hosts[h].lease == s.hosts[h].lease
            && (t.hosts[h].ref == s.hosts[h].ref || t.hosts[h].ref.None?)
  {
    var c := st.c;
    assert CallOk(s, d) && CallOk(s, c);
    CallWritesOnlyItsHost(s, st, h);
    if st.Update? && Acquires(s, st, h) {
      AcquisitionFindsNoWindow(s, st, h, d);
    }
    if Window(s, c, h) {
      WindowExclusive(s, c, d, h);
    }
  }

  lemma OtherCallOkByCall(s: State, st: Step, d: Key)
    requires InvX(s) && Timely(s, st) && ByCall(st) && st.c != d && Later(s, CallStep(s, st))
    ensures CallOk(CallStep(s, st), d)
  {
    var t, pc := CallStep(s, st), PcOf(s, d);
    assert CallOk(s, d);
    if (pc.Leased? || pc.Loaded? || pc.Releasing?) && Window(s, d, pc.host) && pc.host in t.hosts {
      OwnerSurvivesCall(s, st, d, pc.host);
    }
    BystanderOk(s, t, d);
  }

  lemma OtherCallOkByWorld(s: State, st: Step, d: Key)
    requires InvX(s) && Timely(s, st) && !ByCall(st) && !Acts(st, d) && Later(s, WorldStep(s, st))
    ensures CallOk(WorldStep(s, st), d)
  {
    var t, pc := WorldStep(s, st), PcOf(s, d);
    assert CallOk(s, d);
    if (pc.Leased? || pc.Loaded? || pc.Releasing?) && Window(s, d, pc.host) && pc.host in t.hosts {
      OwnerSurvivesWorld(s, st, d, pc.host);
    }
    BystanderOk(s, t, d);
  }

  lemma OwnCallOk(s: State, st: Step)
    requires InvX(s) && Timely(s, st) && ByCall(st)
    ensures CallOk(CallStep(s, st), st.c)
  {
    var c, t := st.c, CallStep(s, st);
    assert CallOk(s, c) && PcOk(s, PcOf(s, c));
  }

  lemma RefsStayKnown(s: State, st: Step)
    requires InvX(s)
    ensures RefsKnown(Apply(s, st))
  {
    if ByCall(st) {
      assert CallOk(s, st.c);
    }
  }

  lemma ApplyKeepsInvX(s: State, st: Step)
    requires InvX(s) && Timely(s, st)
    ensures InvX(Apply(s, st))
  {
    ApplyKeepsInv(s, st);
    RefsStayKnown(s, st);
    StepIsLater(s, st);
    forall d ensures CallOk(Apply(s, st), d) {
      if ByCall(st) {
        if st.c == d { OwnCallOk(s, st); } else { OtherCallOkByCall(s, st, d); }
      } else if !Acts(st, d) {
        OtherCallOkByWorld(s, st, d);
      } else {
        assert CallOk(s, d);
      }
    }
  }

  /** The reference that a timely clearing erases has no wanted owner. */
  lemma UnclaimedIsFree(s: State, c: Key)
    requires CallOk(s, c) && PcOf(s, c).Clearing? && Unclaimed(s, PcOf(s, c).host, PcOf(s, c).snap.ref)
    ensures Free(s.machines, RefOf(s, PcOf(s, c).host))
  {
  }

  lemma CallRefines(s: State, st: Step)
    requires InvX(s) && Timely(s, st) && ByCall(st)
    ensures Allowed(Abs(s), ActionOf(s, st), Abs(CallStep(s, st)))
  {
    assert CallOk(s, st.c) && PcOk(s, PcOf(s, st.c));
    if st.Clear? && st.ok && PcOf(s, st.c).Clearing? {
      UnclaimedIsFree(s, st.c);
    }
  }

  lemma WorldRefines(s: State, st: Step)
    requires !ByCall(st)
    ensures Allowed(Abs(s), ActionOf(s, st), Abs(WorldStep(s, st)))
  {
  }

  /** Refinement, step by step: a timely protocol step is the allocator's action it stands for. */
  lemma StepRefines(s: State, st: Step)
    requires InvX(s) && Timely(s, st)
    ensures Allowed(Abs(s), ActionOf(s, st), Abs(Apply(s, st)))
  {
    if ByCall(st) {
      CallRefines(s, st);
    } else {
      WorldRefines(s, st);
    }
  }

  ghost predicate AllTimely(steps: seq<Step>) {
    forall i :: 0 <= i < |steps| ==> Timely(Exec(INIT, steps[..i]), steps[i])
  }

  lemma {:induction false} ExecKeepsInvX(steps: seq<Step>)
    requires AllTimely(steps)
    ensures InvX(Exec(INIT, steps))
    decreases |steps|
  {
    if steps != [] {
      var n := |steps| - 1;
      TimelyPrefix(steps, n);
      ExecKeepsInvX(steps[..n]);
      ApplyKeepsInvX(Exec(INIT, steps[..n]), steps[n]);
    }
  }

  /** Claim exclusivity as refinement: every step of every timely run is an allocator action, so a
      host is bound only when it is free. */
  lemma ClaimExclusivity(steps: seq<Step>, i: nat)
    requires AllTimely(steps) && i < |steps|
    ensures Allowed(Abs(Exec(INIT, steps[..i])), ActionOf(Exec(INIT, steps[..i]), steps[i]),
                    Abs(Exec(INIT, steps[..i + 1])))
  {
    TimelyPrefix(steps, i);
    ExecKeepsInvX(steps[..i]);
    ExecNext(INIT, steps, i);
    StepRefines(Exec(INIT, steps[..i]), steps[i]);
  }

  // ---- What the allocator's users get ---------------------------------------------------------

  predicate Vacates(st: Step, h: string) {
    (st.Mark? || st.Unbind? || st.RemoveHost?) && st.host == h
  }

  predicate Owned(s: State, h: string, r: Ref) {
    RefOf(s, h) == Some(r)
  }

  /** The allocator gives up a live owner only when it is told to. */
  lemma AllowedKeepsOwner(a: Alloc, act: Action, b: Alloc, h: string, r: Ref)
    requires Allowed(a, act, b) && h in a.owner && a.owner[h] == Some(r) && Live(a.machines, r)
    requires (act.Vacate? || act.Leave?) ==> act.host != h
    ensures h in b.owner && b.owner[h] == Some(r)
  {
  }

  lemma VacatingAction(s: State, st: Step, h: string)
    requires !Vacates(st, h)
    ensures var act := ActionOf(s, st); (act.Vacate? || act.Leave?) ==> act.host != h
  {
  }

  lemma StepKeepsOwner(s: State, st: Step, h: string, r: Ref)
    requires InvX(s) && Timely(s, st) && Owned(s, h, r) && Live(s.machines, r) && !Vacates(st, h)
    ensures Owned(Apply(s, st), h, r)
  {
    StepRefines(s, st);
    VacatingAction(s, st, h);
    AbsOwned(s, h, r);
    AbsOwned(Apply(s, st), h, r);
    AllowedKeepsOwner(Abs(s), ActionOf(s, st), Abs(Apply(s, st)), h, r);
  }

  lemma AbsOwned(s: State, h: string, r: Ref)
    ensures Owned(s, h, r) <==> h in Abs(s).owner && Abs(s).owner[h] == Some(r)
  {
  }

  lemma {:induction false} NeverAliveAgain(steps: seq<Step>, i: nat, j: nat, r: Ref)
    requires i <= j <= |steps| && AllTimely(steps)
    requires !Live(Exec(INIT, steps[..i]).machines, r) && r.uid < Exec(INIT, steps[..i]).nextUid
    ensures !Live(Exec(INIT, steps[..j]).machines, r)
    decreases j - i
  {
    if i < j {
      TimelyPrefix(steps, i);
      ExecKeepsInvX(steps[..i]);
      ExecNext(INIT, steps, i);
      StepIsLater(Exec(INIT, steps[..i]), steps[i]);
      NeverAliveAgain(steps, i + 1, j, r);
    }
  }

  lemma TimelyPrefix(steps: seq<Step>, n: nat)
    requires AllTimely(steps) && n <= |steps|
    ensures AllTimely(steps[..n])
  {
    forall i | 0 <= i < n ensures Timely(Exec(INIT, steps[..n][..i]), steps[..n][i]) {
      assert steps[..n][..i] == steps[..i];
    }
  }

  lemma RunKeepsOwner(steps: seq<Step>, i: nat, h: string, r: Ref)
    requires i < |steps| && AllTimely(steps)
    requires Owned(Exec(INIT, steps[..i]), h, r) && Live(Exec(INIT, steps[..i]).machines, r)
    requires !Vacates(steps[i], h)
    ensures Owned(Exec(INIT, steps[..i + 1]), h, r)
  {
    TimelyPrefix(steps, i);
    ExecKeepsInvX(steps[..i]);
    ExecNext(INIT, steps, i);
    StepKeepsOwner(Exec(INIT, steps[..i]), steps[i], h, r);
  }

  lemma OwnerStillAlive(steps: seq<Step>, i: nat, j: nat, h: string, r: Ref)
    requires i <= j <= |steps| && AllTimely(steps)
    requires Owned(Exec(INIT, steps[..i]), h, r) && Live(Exec(INIT, steps[..j]).machines, r)
    ensures Live(Exec(INIT, steps[..i]).machines, r)
  {
    TimelyPrefix(steps, i);
    ExecKeepsInvX(steps[..i]);
    if !Live(Exec(INIT, steps[..i]).machines, r) {
      NeverAliveAgain(steps, i, j, r);
    }
  }

  ghost predicate OwnedAt(steps: seq<Step>, i: nat, h: string, r: Ref) {
    i <= |steps| && Owned(Exec(INIT, steps[..i]), h, r)
  }

  ghost predicate LiveAt(steps: seq<Step>, i: nat, r: Ref) {
    i <= |steps| && Live(Exec(INIT, steps[..i]).machines, r)
  }

  lemma OwnedNext(steps: seq<Step>, i: nat, j: nat, h: string, r: Ref)
    requires i < j && AllTimely(steps) && OwnedAt(steps, i, h, r) && LiveAt(steps, j, r) && !Vacates(steps[i], h)
    ensures OwnedAt(steps, i + 1, h, r)
  {
    OwnerStillAlive(steps, i, j, h, r);
    RunKeepsOwner(steps, i, h, r);
  }

  /** A machine that stays wanted keeps its host: if its binding is gone, the host was marked for
      cleanup, cleaned up by its agent, or removed in between; no other claim displaced it. */
  lemma {:induction false} LiveOwnerKeepsHost(steps: seq<Step>, i: nat, j: nat, h: string, r: Ref) returns (m: nat)
    requires i <= j && AllTimely(steps)
    requires OwnedAt(steps, i, h, r) && LiveAt(steps, j, r) && !OwnedAt(steps, j, h, r)
    ensures i <= m < j && Vacates(steps[m], h)
    decreases j - i
  {
    if Vacates(steps[i], h) {
      m := i;
    } else {
      OwnedNext(steps, i, j, h, r);
      m := LiveOwnerKeepsHost(steps, i + 1, j, h, r);
    }
  }
}
