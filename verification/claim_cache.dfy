/** The reads of the claim protocol: a cache may return every object that a host has had so far. */
module ClaimCache {
  import opened ByoModel
  import opened ClaimProtocol

  predicate SnapKnown(s: State, pc: Pc) {
    pc.Fetched? || pc.Clearing? || pc.Vetted? || pc.Updating? ==> Known(s, pc.snap.ref)
  }

  /** Every UID in sight was issued. */
  ghost predicate Issued(s: State) {
    && (forall h :: h in s.hosts ==> Known(s, s.hosts[h].ref))
    && (forall k :: k in s.machines ==> s.machines[k].uid < s.nextUid)
    && (forall c :: c in s.calls ==> s.calls[c].uid < s.nextUid && SnapKnown(s, s.calls[c].pc))
  }

  lemma WriteKeepsIssued(s: State, h: string, ref: Option<Ref>, lease: Option<Lease>)
    requires Issued(s) && Known(s, ref)
    ensures Issued(Write(s, h, ref, lease))
  {
  }

  lemma GotoKeepsIssued(s: State, c: Key, pc: Pc)
    requires Issued(s) && SnapKnown(s, pc)
    ensures Issued(Goto(s, c, pc))
  {
  }

  lemma QuietKeepsIssued(s: State, st: Step)
    requires Issued(s) && Quiet(st)
    ensures Issued(CallStep(s, st))
  {
    var c, pc := st.c, PcOf(s, st.c);
    match st
    case Fetch(_, h, seen) => if Read(s, h, seen).Some? { GotoKeepsIssued(s, c, Fetched(h, seen.value)); }
    case Judge(_, lookup) => if pc.Fetched? { GotoKeepsIssued(s, c, Verdict(pc.host, pc.snap, lookup)); }
    case _ =>
  }

  lemma ClearKeepsIssued(s: State, c: Key, ok: bool)
    requires Issued(s)
    ensures Issued(ClearStep(s, c, ok)) && Issued(ReleaseStep(s, c, ok))
  {
    var pc := PcOf(s, c);
    if pc.Clearing? {
      WriteKeepsIssued(s, pc.host, None, LeaseOf(s, pc.host));
    }
    if pc.Releasing? {
      WriteKeepsIssued(s, pc.host, RefOf(s, pc.host), None);
    }
  }

  lemma ClaimKeepsIssued(s: State, c: Key, ok: bool)
    requires Issued(s)
    ensures Issued(ClaimStep(s, c, ok))
  {
    var pc := PcOf(s, c);
    if pc.Loaded? {
      WriteKeepsIssued(s, pc.host, Some(Me(s, c)), LeaseOf(s, pc.host));
    }
  }

  lemma UpdateKeepsIssued(s: State, c: Key, ok: bool)
    requires Issued(s)
    ensures Issued(UpdateStep(s, c, ok))
  {
    var pc := PcOf(s, c);
    if pc.Updating? {
      WriteKeepsIssued(s, pc.host, pc.snap.ref, Some(Lease(c, pc.at)));
    }
  }

  lemma CallKeepsIssued(s: State, st: Step)
    requires Issued(s) && ByCall(st)
    ensures Issued(CallStep(s, st))
  {
    if Quiet(st) {
      QuietKeepsIssued(s, st);
    } else {
      ClearKeepsIssued(s, st.c, st.ok);
      ClaimKeepsIssued(s, st.c, st.ok);
      UpdateKeepsIssued(s, st.c, st.ok);
    }
  }

  lemma WorldKeepsIssued(s: State, st: Step)
    requires Issued(s) && !ByCall(st)
    ensures Issued(WorldStep(s, st))
  {
    if st.Touch? || st.Mark? || st.Unbind? || st.Corrupt? {
      WriteKeepsIssued(s, st.host, RefOf(s, st.host), LeaseOf(s, st.host));
      WriteKeepsIssued(s, st.host, None, None);
      WriteKeepsIssued(s, st.host, None, LeaseOf(s, st.host));
      WriteKeepsIssued(s, st.host, RefOf(s, st.host), Some(Unparsable));
    }
  }

  lemma {:induction false} ExecKeepsIssued(steps: seq<Step>)
    ensures Issued(Exec(INIT, steps))
    decreases |steps|
  {
    if steps != [] {
      var n := |steps| - 1;
      ExecKeepsIssued(steps[..n]);
      if ByCall(steps[n]) {
        CallKeepsIssued(Exec(INIT, steps[..n]), steps[n]);
      } else {
        WorldKeepsIssued(Exec(INIT, steps[..n]), steps[n]);
      }
    }
  }

  /** A step leaves the object of a host, removes it, or stores one with a new version. */
  predicate Stores(s: State, t: State, h: string) {
    && s.version <= t.version && s.nextUid <= t.nextUid
    && (h in t.hosts ==> (h in s.hosts && t.hosts[h] == s.hosts[h]) || t.hosts[h].version == s.version + 1)
  }

  lemma CallStores(s: State, st: Step, h: string)
    requires ByCall(st)
    ensures Stores(s, CallStep(s, st), h)
  {
    if Quiet(st) {
      assert CallStep(s, st).hosts == s.hosts;
    }
  }

  lemma StepStores(s: State, st: Step, h: string)
    ensures Stores(s, Apply(s, st), h)
  {
    if ByCall(st) {
      CallStores(s, st, h);
    }
  }

  lemma PastStaysPast(s: State, st: Step, h: string, o: Obj)
    requires MaybePast(s, h, o)
    ensures MaybePast(Apply(s, st), h, o)
  {
    StepStores(s, st, h);
  }

  /** In every run, what was stored at i may be read at any later j, and so may what is stored now. */
  lemma {:induction false} EarlierObjectReadable(steps: seq<Step>, i: nat, j: nat, h: string)
    requires i <= j <= |steps| && h in Exec(INIT, steps[..i]).hosts
    ensures MaybePast(Exec(INIT, steps[..j]), h, Exec(INIT, steps[..i]).hosts[h])
    decreases j - i
  {
    if i == j {
      ExecKeepsInv(steps[..i]);
      ExecKeepsIssued(steps[..i]);
    } else {
      EarlierObjectReadable(steps, i, j - 1, h);
      ExecNext(INIT, steps, j - 1);
      PastStaysPast(Exec(INIT, steps[..j - 1]), steps[j - 1], h, Exec(INIT, steps[..i]).hosts[h]);
    }
  }
}
