/** Lease balance of the claim protocol: a lease of a call is on a host only while the call is on its
    way to releasing it. */
module ClaimLeases {
  import opened ByoModel
  import opened ClaimProtocol

  /** Host h carries a lease that call c took. */
  predicate Own(s: State, c: Key, h: string) {
    LeaseOf(s, h).Some? && LeaseOf(s, h).value.Lease? && LeaseOf(s, h).value.holder == c
  }

  /** The hosts that carry a lease of call c. */
  function LeasedBy(s: State, c: Key): set<string> {
    set h | h in s.hosts && Own(s, c, h)
  }

  /** The call will send a release of the lease on host h. */
  predicate WillRelease(pc: Pc, h: string) {
    HoldsOn(pc, h) && (pc.Loaded? ==> pc.snap.lease.Some?) && (pc.Releasing? ==> pc.seen)
  }

  predicate Accounted(s: State, c: Key, h: string) {
    Own(s, c, h) ==> WillRelease(PcOf(s, c), h)
  }

  /** The reload of call c returns an object without a lease. */
  predicate LoadsBlind(s: State, st: Step, c: Key) {
    && st.Load? && st.c == c && PcOf(s, c).Leased?
    && Read(s, PcOf(s, c).host, st.seen).Some? && st.seen.value.lease.None?
  }

  /** The steps that leave a lease behind: a reload from before the lease, after which the release finds
      nothing to send; a release that does not land; and a call that is cut off. */
  predicate Leaks(s: State, st: Step, c: Key, h: string) {
    && Own(s, c, h)
    && (LoadsBlind(s, st, c) || (st == Release(c, false) && PcOf(s, c).Releasing?) || st == Stop(c))
  }

  lemma QuietKeepsAccount(s: State, st: Step, h: string)
    requires Quiet(st) && Accounted(s, st.c, h)
    ensures Accounted(CallStep(s, st), st.c, h) <==> !Leaks(s, st, st.c, h)
  {
    assert CallStep(s, st).hosts == s.hosts;
  }

  lemma UpdateKeepsAccount(s: State, c: Key, ok: bool, h: string)
    requires Accounted(s, c, h)
    ensures Accounted(UpdateStep(s, c, ok), c, h)
  {
  }

  lemma WriteKeepsAccount(s: State, st: Step, h: string)
    requires (st.Clear? || st.Claim? || st.Release?) && Accounted(s, st.c, h)
    ensures Accounted(CallStep(s, st), st.c, h) <==> !Leaks(s, st, st.c, h)
  {
  }

  lemma OwnCallKeepsAccount(s: State, st: Step, h: string)
    requires ByCall(st) && Accounted(s, st.c, h)
    ensures Accounted(CallStep(s, st), st.c, h) <==> !Leaks(s, st, st.c, h)
  {
    if Quiet(st) {
      QuietKeepsAccount(s, st, h);
    } else if st.Update? {
      UpdateKeepsAccount(s, st.c, st.ok, h);
    } else {
      WriteKeepsAccount(s, st, h);
    }
  }

  lemma OtherCallKeepsAccount(s: State, st: Step, c: Key, h: string)
    requires Accounted(s, c, h) && ByCall(st) && st.c != c
    ensures Accounted(CallStep(s, st), c, h)
  {
  }

  lemma WorldKeepsAccount(s: State, st: Step, c: Key, h: string)
    requires Accounted(s, c, h) && !ByCall(st)
    ensures Accounted(WorldStep(s, st), c, h) <==> !Leaks(s, st, c, h)
  {
  }

  /** Exactly when a step leaves a lease of call c on host h with nobody to release it. */
  lemma AccountKeptExactly(s: State, st: Step, c: Key, h: string)
    requires Accounted(s, c, h)
    ensures Accounted(Apply(s, st), c, h) <==> !Leaks(s, st, c, h)
  {
    if ByCall(st) {
      if st.c == c {
        OwnCallKeepsAccount(s, st, h);
      } else {
        OtherCallKeepsAccount(s, st, c, h);
      }
    } else {
      WorldKeepsAccount(s, st, c, h);
    }
  }

  ghost predicate NeverLeaks(steps: seq<Step>, c: Key, h: string) {
    forall i :: 0 <= i < |steps| ==> !Leaks(Exec(INIT, steps[..i]), steps[i], c, h)
  }

  lemma {:induction false} RunKeepsAccount(steps: seq<Step>, c: Key, h: string)
    requires NeverLeaks(steps, c, h)
    ensures Accounted(Exec(INIT, steps), c, h)
    decreases |steps|
  {
    if steps != [] {
      var n := |steps| - 1;
      forall i | 0 <= i < n
        ensures !Leaks(Exec(INIT, steps[..n][..i]), steps[..n][i], c, h)
      {
        assert steps[..n][..i] == steps[..i];
      }
      RunKeepsAccount(steps[..n], c, h);
      AccountKeptExactly(Exec(INIT, steps[..n]), steps[n], c, h);
    }
  }

  /** Lease balance over every run, whatever the other calls and the world do: when an attach call
      stands idle, and while its lease was on host h no reload missed it, no release of it failed and
      the call was not cut off, then host h carries no lease of it. */
  lemma {:induction false} IdleCallHoldsNoLease(steps: seq<Step>, c: Key, h: string)
    requires NeverLeaks(steps, c, h) && PcOf(Exec(INIT, steps), c).Idle?
    ensures !Own(Exec(INIT, steps), c, h)
  {
    RunKeepsAccount(steps, c, h);
  }

  /** A call moves nobody but itself. */
  predicate MovesOnly(s: State, t: State, d: Key) {
    forall c :: c in s.calls && c != d ==> c in t.calls && t.calls[c] == s.calls[c]
  }

  lemma QuietMovesOnly(s: State, st: Step)
    requires Quiet(st)
    ensures MovesOnly(s, CallStep(s, st), st.c)
  {
  }

  lemma WriteMovesOnly(s: State, st: Step)
    requires ByCall(st) && !Quiet(st)
    ensures MovesOnly(s, CallStep(s, st), st.c)
  {
  }

  lemma OtherCallLeavesCall(s: State, st: Step, c: Key)
    requires ByCall(st) && st.c != c && c in s.calls
    ensures c in CallStep(s, st).calls && CallStep(s, st).calls[c] == s.calls[c]
  {
    if Quiet(st) {
      QuietMovesOnly(s, st);
    } else {
      WriteMovesOnly(s, st);
    }
  }

  /** The steps of others leave a call where it stands. */
  lemma OthersLeaveCall(s: State, st: Step, c: Key)
    requires !Acts(st, c) && c in s.calls
    ensures c in Apply(s, st).calls && Apply(s, st).calls[c] == s.calls[c]
  {
    if ByCall(st) {
      OtherCallLeavesCall(s, st, c);
    }
  }
}
