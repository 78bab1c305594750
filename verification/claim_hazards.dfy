/** Why exclusivity and lease balance need their conditions: for each of them a run of the claim protocol,
    built step by step, that breaks it, and in which a wanted owner is displaced or a lease stays. */
module ClaimHazards {
  import opened ByoModel
  import opened ClaimProtocol
  import opened ClaimLeases
  import opened ClaimRefinement

  /** Any three machines, called A, B and C below, and any host. */
  datatype Cast = Cast(a: Key, b: Key, c: Key, h: string)

  predicate Distinct(x: Cast) {
    x.a != x.b && x.a != x.c && x.b != x.c
  }

  /** After the run the host has a wanted owner, and a step that is no release of it takes it away. */
  predicate Displaces(x: Cast, steps: seq<Step>, st: Step, r: Ref) {
    var s := Exec(INIT, steps);
    Owned(s, x.h, r) && Live(s.machines, r) && !Vacates(st, x.h) && !Owned(Apply(s, st), x.h, r)
  }

  lemma Extend(steps: seq<Step>, s: State, st: Step) returns (steps': seq<Step>, s': State)
    requires s == Exec(INIT, steps)
    ensures steps' == steps + [st] && s' == Apply(s, st) && s' == Exec(INIT, steps')
  {
    steps', s' := steps + [st], Apply(s, st);
    assert steps'[..|steps|] == steps;
  }

  /** One host, two machines, one attach call for each. */
  lemma Setup(x: Cast) returns (steps: seq<Step>, s: State)
    requires Distinct(x)
    ensures s == Exec(INIT, steps)
    ensures s == State(0, 1, map[x.h := Obj(1, None, None)], map[x.a := Machine(0, false), x.b := Machine(1, false)], 2,
                       map[x.a := Call(0, Idle), x.b := Call(1, Idle)])
    ensures forall i :: 0 <= i < |steps| ==> !steps[i].Stop? && !steps[i].Release?
  {
    steps, s := [], INIT;
    steps, s := Extend(steps, s, AddHost(x.h));
    steps, s := Extend(steps, s, CreateMachine(x.a));
    steps, s := Extend(steps, s, CreateMachine(x.b));
    steps, s := Extend(steps, s, Start(x.a));
    steps, s := Extend(steps, s, Start(x.b));
    assert s.hosts == map[x.h := Obj(1, None, None)];
    assert s.machines == map[x.a := Machine(0, false), x.b := Machine(1, false)];
    assert s.calls == map[x.a := Call(0, Idle), x.b := Call(1, Idle)];
  }

  /** An idle call takes the lease of a host it may take, and loads the host. */
  lemma TakeLease(x: Cast, steps0: seq<Step>, s0: State, c: Key) returns (steps: seq<Step>, s: State)
    requires s0 == Exec(INIT, steps0) && c in s0.calls && s0.calls[c].pc.Idle? && x.h in s0.hosts
    requires s0.hosts[x.h].ref.None? && !LeaseBlocks(s0.hosts[x.h].lease, s0.now)
    ensures s == Exec(INIT, steps)
    ensures var o := Obj(s0.version + 1, None, Some(Lease(c, s0.now)));
            s == s0.(version := s0.version + 1, hosts := s0.hosts[x.h := o],
                     calls := s0.calls[c := s0.calls[c].(pc := Loaded(x.h, s0.now, o))])
  {
    steps, s := Acquire(x, steps0, s0, c);
    steps, s := Extend(steps, s, Load(c, Some(s.hosts[x.h])));
  }

  /** A call that holds the stored object, and finds no lease in the way, takes the lease. */
  lemma TakeVetted(x: Cast, steps0: seq<Step>, s0: State, c: Key) returns (steps: seq<Step>, s: State)
    requires s0 == Exec(INIT, steps0) && c in s0.calls && x.h in s0.hosts
    requires s0.calls[c].pc == Vetted(x.h, s0.hosts[x.h]) && !LeaseBlocks(s0.hosts[x.h].lease, s0.now)
    ensures s == Exec(INIT, steps)
    ensures s == s0.(version := s0.version + 1,
                     hosts := s0.hosts[x.h := Obj(s0.version + 1, s0.hosts[x.h].ref, Some(Lease(c, s0.now)))],
                     calls := s0.calls[c := s0.calls[c].(pc := Leased(x.h, s0.now))])
    ensures steps == steps0 + [Decide(c), Update(c, true)]
  {
    steps, s := Extend(steps0, s0, Decide(c));
    steps, s := Extend(steps, s, Update(c, true));
  }

  /** An idle call takes the lease of a host it may take. */
  lemma Acquire(x: Cast, steps0: seq<Step>, s0: State, c: Key) returns (steps: seq<Step>, s: State)
    requires s0 == Exec(INIT, steps0) && c in s0.calls && s0.calls[c].pc.Idle? && x.h in s0.hosts
    requires s0.hosts[x.h].ref.None? && !LeaseBlocks(s0.hosts[x.h].lease, s0.now)
    ensures s == Exec(INIT, steps)
    ensures s == s0.(version := s0.version + 1,
                     hosts := s0.hosts[x.h := Obj(s0.version + 1, None, Some(Lease(c, s0.now)))],
                     calls := s0.calls[c := s0.calls[c].(pc := Leased(x.h, s0.now))])
    ensures steps == steps0 + [Fetch(c, x.h, Some(s0.hosts[x.h])), Judge(c, LookupError), Decide(c), Update(c, true)]
  {
    ExecKeepsInv(steps0);
    steps, s := Extend(steps0, s0, Fetch(c, x.h, Some(s0.hosts[x.h])));
    steps, s := Extend(steps, s, Judge(c, LookupError));
    steps, s := TakeVetted(x, steps, s, c);
  }

  /** A loaded call claims and releases. */
  lemma Finish(x: Cast, steps0: seq<Step>, s0: State, c: Key) returns (steps: seq<Step>, s: State)
    requires s0 == Exec(INIT, steps0) && c in s0.calls && s0.calls[c].pc.Loaded? && s0.calls[c].pc.host == x.h
    requires x.h in s0.hosts && s0.calls[c].pc.snap.ref.None? && s0.calls[c].pc.snap.lease.Some?
    ensures s == Exec(INIT, steps)
    ensures s == s0.(version := s0.version + 2,
                     hosts := s0.hosts[x.h := Obj(s0.version + 2, Some(Ref(c, s0.calls[c].uid)), None)],
                     calls := s0.calls[c := s0.calls[c].(pc := Idle)])
  {
    steps, s := Extend(steps0, s0, Claim(c, true));
    steps, s := Extend(steps, s, Release(c, true));
  }

  /** A loaded call claims, whatever the host says by now. */
  lemma ClaimDisplaces(x: Cast, steps: seq<Step>, s: State, c: Key, r: Ref)
    requires s == Exec(INIT, steps) && c in s.calls && s.calls[c].pc.Loaded? && s.calls[c].pc.host == x.h
    requires s.calls[c].pc.snap.ref != Some(Me(s, c)) && r.key != c && Owned(s, x.h, r) && Live(s.machines, r)
    ensures Displaces(x, steps, Claim(c, true), r)
  {
  }

  /** While A is loaded, B attaches to a host that is open to it, and A's claim displaces B. */
  lemma {:induction false} Overtake(x: Cast, steps0: seq<Step>, s0: State) returns (steps: seq<Step>)
    requires Distinct(x)
    requires s0 == Exec(INIT, steps0) && x.a in s0.calls && x.b in s0.calls && s0.calls[x.b] == Call(1, Idle)
    requires s0.calls[x.a].pc.Loaded? && s0.calls[x.a].pc.host == x.h && s0.calls[x.a].pc.snap.ref.None?
    requires x.h in s0.hosts && s0.hosts[x.h].ref.None? && !LeaseBlocks(s0.hosts[x.h].lease, s0.now)
    requires x.b in s0.machines && s0.machines[x.b] == Machine(1, false)
    ensures Displaces(x, steps, Claim(x.a, true), Ref(x.b, 1))
  {
    var s;
    steps, s := TakeLease(x, steps0, s0, x.b);
    steps, s := Finish(x, steps, s, x.b);
    ClaimDisplaces(x, steps, s, x.a, Ref(x.b, 1));
  }

  /** A slow claimant: A takes the lease and stalls for 30 seconds, B takes the expired lease and
      attaches, and A's late claim displaces B. */
  lemma LateClaimDisplaces(x: Cast) returns (steps: seq<Step>)
    requires Distinct(x)
    ensures Displaces(x, steps, Claim(x.a, true), Ref(x.b, 1))
  {
    var s;
    steps, s := Setup(x);
    steps, s := TakeLease(x, steps, s, x.a);
    steps, s := Extend(steps, s, Tick(30 * SECOND));
    steps := Overtake(x, steps, s);
  }

  /** A releases the lease that B holds, takes it again and attaches before B claims. */
  lemma Reclaim(x: Cast, steps0: seq<Step>, s0: State) returns (steps: seq<Step>)
    requires Distinct(x)
    requires s0 == Exec(INIT, steps0) && x.a in s0.calls && x.b in s0.calls && s0.calls[x.a].uid == 0
    requires s0.calls[x.a].pc.Releasing? && s0.calls[x.a].pc.host == x.h && s0.calls[x.a].pc.seen
    requires s0.calls[x.b].pc.Loaded? && s0.calls[x.b].pc.host == x.h && s0.calls[x.b].pc.snap.ref.None?
    requires x.h in s0.hosts && s0.hosts[x.h].ref.None? && x.a in s0.machines && s0.machines[x.a] == Machine(0, false)
    ensures Displaces(x, steps, Claim(x.b, true), Ref(x.a, 0))
  {
    var s;
    steps, s := Extend(steps0, s0, Release(x.a, true));
    steps, s := TakeLease(x, steps, s, x.a);
    steps, s := Finish(x, steps, s, x.a);
    ClaimDisplaces(x, steps, s, x.b, Ref(x.a, 0));
  }

  /** A late release: B has taken the lease that A let expire, A releases it, takes it again and
      attaches, and B's claim, well within its own 30 seconds, displaces A. */
  lemma LateReleaseDisplaces(x: Cast) returns (steps: seq<Step>)
    requires Distinct(x)
    ensures Displaces(x, steps, Claim(x.b, true), Ref(x.a, 0))
  {
    var s;
    steps, s := Setup(x);
    steps, s := TakeLease(x, steps, s, x.a);
    steps, s := Extend(steps, s, Claim(x.a, false));
    steps, s := Extend(steps, s, Tick(30 * SECOND));
    steps, s := TakeLease(x, steps, s, x.b);
    steps := Reclaim(x, steps, s);
  }

  /** A lease that someone else takes off, or makes unreadable, within its 30 seconds. */
  lemma LostLeaseDisplaces(x: Cast, loss: Step) returns (steps: seq<Step>)
    requires Distinct(x)
    requires loss == Mark(x.h) || loss == Corrupt(x.h)
    ensures Displaces(x, steps, Claim(x.a, true), Ref(x.b, 1))
  {
    var s;
    steps, s := Setup(x);
    steps, s := TakeLease(x, steps, s, x.a);
    steps, s := Extend(steps, s, loss);
    steps := Overtake(x, steps, s);
  }

  /** A host that is registered anew under the name of one that A holds the lease of. */
  lemma ReRegistrationDisplaces(x: Cast) returns (steps: seq<Step>)
    requires Distinct(x)
    ensures Displaces(x, steps, Claim(x.a, true), Ref(x.b, 1))
  {
    var s;
    steps, s := Setup(x);
    steps, s := TakeLease(x, steps, s, x.a);
    steps, s := Extend(steps, s, RemoveHost(x.h));
    steps, s := Extend(steps, s, AddHost(x.h));
    steps := Overtake(x, steps, s);
  }

  /** A machine is deleted and created again under its name, with a new attach call. */
  lemma Renew(x: Cast, steps0: seq<Step>, s0: State, k: Key) returns (steps: seq<Step>, s: State)
    requires s0 == Exec(INIT, steps0) && k !in s0.machines && k !in s0.calls
    ensures s == Exec(INIT, steps)
    ensures s == s0.(machines := s0.machines[k := Machine(s0.nextUid, false)], nextUid := s0.nextUid + 1,
                     calls := s0.calls[k := Call(s0.nextUid, Idle)])
  {
    steps, s := Extend(steps0, s0, CreateMachine(k));
    steps, s := Extend(steps, s, Start(k));
  }

  lemma Remove(x: Cast, steps0: seq<Step>, s0: State, k: Key) returns (steps: seq<Step>, s: State)
    requires s0 == Exec(INIT, steps0) && k in s0.machines
    ensures s == Exec(INIT, steps)
    ensures s == s0.(machines := s0.machines - {k}, calls := s0.calls - {k})
  {
    steps, s := Extend(steps0, s0, DeleteMachine(k));
    steps, s := Extend(steps, s, RemoveMachine(k));
    steps, s := Extend(steps, s, Stop(k));
    assert s.machines == s0.machines - {k};
  }

  /** An idle call reads the host and does not find the machine it names. */
  lemma Suspect(x: Cast, steps0: seq<Step>, s0: State, c: Key) returns (steps: seq<Step>, s: State)
    requires s0 == Exec(INIT, steps0) && c in s0.calls && s0.calls[c].pc.Idle? && x.h in s0.hosts
    requires s0.hosts[x.h].ref.Some? && s0.hosts[x.h].ref.value.uid < s0.nextUid
    ensures s == Exec(INIT, steps)
    ensures s == s0.(calls := s0.calls[c := s0.calls[c].(pc := Clearing(x.h, s0.hosts[x.h]))])
  {
    ExecKeepsInv(steps0);
    steps, s := Extend(steps0, s0, Fetch(c, x.h, Some(s0.hosts[x.h])));
    steps, s := Extend(steps, s, Judge(c, NotFound));
  }

  /** An idle call finds the host orphaned and clears its reference. */
  lemma ClearStale(x: Cast, steps0: seq<Step>, s0: State, c: Key) returns (steps: seq<Step>, s: State)
    requires s0 == Exec(INIT, steps0) && c in s0.calls && s0.calls[c].pc.Idle? && x.h in s0.hosts
    requires s0.hosts[x.h].ref.Some? && s0.hosts[x.h].ref.value.uid < s0.nextUid
    ensures s == Exec(INIT, steps)
    ensures s == s0.(version := s0.version + 1,
                     hosts := s0.hosts[x.h := Obj(s0.version + 1, None, s0.hosts[x.h].lease)],
                     calls := s0.calls[c := s0.calls[c].(pc := Refetching(x.h, s0.hosts[x.h].ref))])
  {
    steps, s := Suspect(x, steps0, s0, c);
    steps, s := Extend(steps, s, Clear(c, true));
  }

  /** A call in the middle of the stale-reference branch goes on, whatever the host says now. */
  lemma Resume(x: Cast, steps0: seq<Step>, s0: State, c: Key) returns (steps: seq<Step>, s: State)
    requires s0 == Exec(INIT, steps0) && c in s0.calls && s0.calls[c].pc.Refetching? && s0.calls[c].pc.host == x.h
    requires x.h in s0.hosts && s0.hosts[x.h].lease.None?
    requires s0.hosts[x.h].ref.Some? ==> s0.hosts[x.h].ref.value.uid < s0.nextUid
    ensures s == Exec(INIT, steps)
    ensures var o := Obj(s0.version + 1, s0.hosts[x.h].ref, Some(Lease(c, s0.now)));
            s == s0.(version := s0.version + 1, hosts := s0.hosts[x.h := o],
                     calls := s0.calls[c := s0.calls[c].(pc := Loaded(x.h, s0.now, o))])
  {
    ExecKeepsInv(steps0);
    steps, s := Extend(steps0, s0, Refetch(c, Some(s0.hosts[x.h])));
    steps, s := TakeVetted(x, steps, s, c);
    steps, s := ReloadOwn(x, steps, s, c);
  }

  lemma ReloadOwn(x: Cast, steps0: seq<Step>, s0: State, c: Key) returns (steps: seq<Step>, s: State)
    requires s0 == Exec(INIT, steps0) && c in s0.calls && s0.calls[c].pc.Leased? && s0.calls[c].pc.host == x.h
    requires x.h in s0.hosts && MaybePast(s0, x.h, s0.hosts[x.h])
    ensures s == Exec(INIT, steps)
    ensures s == s0.(calls := s0.calls[c := s0.calls[c].(pc := Loaded(x.h, s0.calls[c].pc.at, s0.hosts[x.h]))])
  {
    steps, s := Extend(steps0, s0, Load(c, Some(s0.hosts[x.h])));
  }

  /** B has attached and is gone. */
  lemma Abandoned(x: Cast) returns (steps: seq<Step>, s: State)
    requires Distinct(x)
    ensures s == Exec(INIT, steps)
    ensures s == State(0, 4, map[x.h := Obj(4, Some(Ref(x.b, 1)), None)], map[x.a := Machine(0, false)], 2,
                       map[x.a := Call(0, Idle)])
  {
    steps, s := Setup(x);
    steps, s := TakeLease(x, steps, s, x.b);
    steps, s := Finish(x, steps, s, x.b);
    steps, s := Remove(x, steps, s, x.b);
    assert s.hosts == map[x.h := Obj(4, Some(Ref(x.b, 1)), None)];
    assert s.machines == map[x.a := Machine(0, false)];
    assert s.calls == map[x.a := Call(0, Idle)];
  }

  /** A has cleared the reference and is about to re-read the host. */
  lemma Cleared(x: Cast) returns (steps: seq<Step>, s: State)
    requires Distinct(x)
    ensures s == Exec(INIT, steps)
    ensures s == State(0, 5, map[x.h := Obj(5, None, None)], map[x.a := Machine(0, false)], 2,
                       map[x.a := Call(0, Refetching(x.h, Some(Ref(x.b, 1))))])
  {
    steps, s := Abandoned(x);
    steps, s := ClearStale(x, steps, s, x.a);
    assert s.hosts == map[x.h := Obj(5, None, None)];
    assert s.calls == map[x.a := Call(0, Refetching(x.h, Some(Ref(x.b, 1))))];
  }

  /** B attaches before A re-reads the host, and A goes on. */
  lemma {:induction false} Unchecked(x: Cast, steps0: seq<Step>, s0: State) returns (steps: seq<Step>)
    requires Distinct(x)
    requires s0 == Exec(INIT, steps0) && x.a in s0.calls && x.b in s0.calls && s0.calls[x.b] == Call(2, Idle)
    requires s0.calls[x.a].pc.Refetching? && s0.calls[x.a].pc.host == x.h
    requires x.h in s0.hosts && s0.hosts[x.h].ref.None? && s0.hosts[x.h].lease.None?
    requires x.b in s0.machines && s0.machines[x.b] == Machine(2, false) && s0.nextUid > 2
    ensures Displaces(x, steps, Claim(x.a, true), Ref(x.b, 2))
  {
    var s;
    steps, s := TakeLease(x, steps0, s0, x.b);
    steps, s := Finish(x, steps, s, x.b);
    steps, s := Resume(x, steps, s, x.a);
    ClaimDisplaces(x, steps, s, x.a, Ref(x.b, 2));
  }

  /** The host is re-read after a stale reference was cleared, but not checked again: A finds the
      host orphaned and clears the reference, the renewed B attaches, and A goes on to displace B. */
  lemma UncheckedRefetchDisplaces(x: Cast) returns (steps: seq<Step>)
    requires Distinct(x)
    ensures Displaces(x, steps, Claim(x.a, true), Ref(x.b, 2))
  {
    var s;
    steps, s := Cleared(x);
    steps, s := Renew(x, steps, s, x.b);
    steps := Unchecked(x, steps, s);
  }

  /** A has judged the host orphaned; C does the same, clears the reference and attaches first. */
  lemma Overwrite(x: Cast, steps0: seq<Step>, s0: State) returns (steps: seq<Step>)
    requires Distinct(x)
    requires s0 == Exec(INIT, steps0) && x.a in s0.calls && x.c in s0.calls && s0.calls[x.c] == Call(2, Idle)
    requires s0.calls[x.a].pc.Clearing? && s0.calls[x.a].pc.host == x.h
    requires x.h in s0.hosts && s0.hosts[x.h].lease.None?
    requires s0.hosts[x.h].ref.Some? && s0.hosts[x.h].ref.value.uid < s0.nextUid
    requires x.c in s0.machines && s0.machines[x.c] == Machine(2, false)
    ensures Displaces(x, steps, Clear(x.a, true), Ref(x.c, 2))
  {
    var s;
    steps, s := ClearStale(x, steps0, s0, x.c);
    steps, s := Resume(x, steps, s, x.c);
    steps, s := Finish(x, steps, s, x.c);
  }

  /** The clearing itself is not checked either: A finds the host orphaned, C clears the reference and
      attaches, and A's clearing erases the reference to C. */
  lemma UncheckedClearDisplaces(x: Cast) returns (steps: seq<Step>)
    requires Distinct(x)
    ensures Displaces(x, steps, Clear(x.a, true), Ref(x.c, 2))
  {
    var s;
    steps, s := Abandoned(x);
    steps, s := Renew(x, steps, s, x.c);
    steps, s := Suspect(x, steps, s, x.a);
    steps := Overwrite(x, steps, s);
  }

  /** A lookup that lags behind: B is attached and wanted, A does not find B and clears the reference. */
  lemma LaggingLookupDisplaces(x: Cast) returns (steps: seq<Step>)
    requires Distinct(x)
    ensures Displaces(x, steps, Clear(x.a, true), Ref(x.b, 1))
  {
    var s;
    steps, s := Setup(x);
    steps, s := TakeLease(x, steps, s, x.b);
    steps, s := Finish(x, steps, s, x.b);
    steps, s := Suspect(x, steps, s, x.a);
  }

  /** A reload that lags behind: A takes the lease, reloads the object from before, claims the host and
      finds no lease to release. No release has failed and no call was cut off, A stands idle and
      attached, and its lease stays on the host. */
  lemma LaggingReloadLeavesLease(x: Cast) returns (steps: seq<Step>)
    requires Distinct(x)
    ensures var s := Exec(INIT, steps);
            PcOf(s, x.a).Idle? && Owned(s, x.h, Ref(x.a, 0)) && Own(s, x.a, x.h)
    ensures forall i :: 0 <= i < |steps| ==> !steps[i].Stop? && (steps[i].Release? ==> steps[i].ok)
  {
    var s;
    steps, s := Setup(x);
    var before := s.hosts[x.h];
    steps, s := Acquire(x, steps, s, x.a);
    steps := FinishBlind(x, steps, s, before);
  }

  /** A call that has the lease reloads an object without it, claims and releases. */
  lemma FinishBlind(x: Cast, steps0: seq<Step>, s0: State, before: Obj) returns (steps: seq<Step>)
    requires s0 == Exec(INIT, steps0) && x.a in s0.calls && s0.calls[x.a].uid == 0 && x.h in s0.hosts
    requires s0.calls[x.a].pc.Leased? && s0.calls[x.a].pc.host == x.h && Own(s0, x.a, x.h)
    requires before.version < s0.hosts[x.h].version <= s0.version && before.ref.None? && before.lease.None?
    ensures steps == steps0 + [Load(x.a, Some(before)), Claim(x.a, true), Release(x.a, true)]
    ensures var s := Exec(INIT, steps);
            PcOf(s, x.a).Idle? && Owned(s, x.h, Ref(x.a, 0)) && Own(s, x.a, x.h)
  {
    var s;
    steps, s := Extend(steps0, s0, Load(x.a, Some(before)));
    steps, s := Extend(steps, s, Claim(x.a, true));
    steps, s := Extend(steps, s, Release(x.a, true));
  }
}
