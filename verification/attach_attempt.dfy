/** One attempt of attachByoHost on a chosen host, as code against a store of host objects that other
    actors change between any two of its API calls. The store keeps the history of the claim
    protocol, and every call of the code is shown to be a step of it. What the attempt returns and what
    it leaves in the store is given by `AttachSpec`. */
module AttachAttempt {
  import opened ByoModel
  import opened MachineController
  import opened P = ClaimProtocol
  import opened ClaimLeases
  import opened AttachSpec
  import opened AttachOutcome

  // ---- The store ------------------------------------------------------------------------------

  class Cluster {
    var now: int
    var version: nat
    var objects: map<string, Object>
    var machines: map<Key, P.Machine>
    var nextUid: nat
    /** Where each attach call stands. */
    var calls: map<Key, P.Call>
    ghost var history: seq<Step>

    function Contents(): Store
      reads this
    {
      Store(now, version, objects, machines, nextUid, calls)
    }

    function View(): State
      reads this
    {
      Seen(Contents())
    }

    /** The store is what the history of protocol steps made of the empty one. */
    ghost predicate Valid()
      reads this
    {
      View() == Exec(INIT, history)
    }

    constructor ()
      ensures Valid() && history == [] && View() == INIT
    {
      now, version, objects, machines, nextUid, calls, history := 0, 0, map[], map[], 0, map[], [];
    }

    /** The store has made one more step. */
    ghost method Record(st: Step, before: State, c: Key)
      requires before == Exec(INIT, history) && View() == Apply(before, st)
      modifies this`history
      ensures Valid() && history == old(history) + [st]
      ensures forall h :: Accounted(before, c, h) && !Leaks(before, st, c, h) ==> Accounted(View(), c, h)
    {
      history := history + [st];
      assert history[..|history| - 1] == old(history);
      forall h | Accounted(before, c, h) && !Leaks(before, st, c, h)
        ensures Accounted(View(), c, h)
      {
        AccountKeptExactly(before, st, c, h);
      }
    }

    /** What others do between two API calls of an attach call. */
    method Others(c: Key, deeds: seq<Deed>)
      requires Valid() && Foreign(deeds, c)
      modifies this
      ensures Valid() && old(history) <= history
      ensures Contents() == After(old(Contents()), deeds)
      ensures c in old(calls) ==> c in calls && calls[c] == old(calls)[c]
      ensures forall h :: Accounted(old(View()), c, h) ==> Accounted(View(), c, h)
    {
      for i := 0 to |deeds|
        invariant Valid() && old(history) <= history
        invariant Contents() == After(old(Contents()), deeds[..i])
        invariant c in old(calls) ==> c in calls && calls[c] == old(calls)[c]
        invariant forall h :: Accounted(old(View()), c, h) ==> Accounted(View(), c, h)
      {
        var s := View();
        Install(Apply(s, deeds[i].step), deeds[i].rest);
        Record(deeds[i].step, s, c);
        if c in s.calls {
          OthersLeaveCall(s, deeds[i].step, c);
        }
        assert deeds[..i + 1][..i] == deeds[..i];
      }
      assert deeds[..|deeds|] == deeds;
    }

    /** A reconcile of machine c begins its attach call. */
    method Begin(c: Key)
      requires Valid() && c in machines && !machines[c].deleting && c !in calls
      modifies this
      ensures Valid() && old(history) <= history
      ensures Contents() == old(Contents()).(calls := old(calls)[c := Call(old(machines)[c].uid, Idle)])
    {
      ghost var s := View();
      calls := calls[c := Call(machines[c].uid, Idle)];
      Record(P.Start(c), s, c);
    }

    method Install(s: State, rest: Host)
      modifies this`now, this`version, this`objects, this`machines, this`nextUid, this`calls
      ensures View() == s && objects == Rewritten(old(objects), s.hosts, rest)
    {
      RewrittenShows(objects, s.hosts, rest);
      now, version, machines, nextUid, calls := s.now, s.version, s.machines, s.nextUid, s.calls;
      objects := Rewritten(objects, s.hosts, rest);
    }

    // ---- The API --------------------------------------------------------------------------------

    method Get(h: string, answer: Option<Object>) returns (o: Option<Object>)
      ensures o == Answer(Contents(), h, answer)
    {
      if answer.Some? && MaybePast(View(), h, Shown(answer.value)) {
        return answer;
      }
      return None;
    }

    /** Optimistic locking: only the current version may be replaced. */
    method Update(h: string, x: Host, base: nat, ok: bool) returns (r: UpdateResult)
      modifies this`objects, this`version
      ensures r.Updated? <==> ok && h in old(objects) && old(objects)[h].version == base
      ensures r.UpdateError? <==> !ok || h !in old(objects)
      ensures Contents() == if r.Updated? then Put(old(Contents()), h, x) else old(Contents())
    {
      if !ok || h !in objects {
        return UpdateError;
      }
      if objects[h].version != base {
        return Conflict;
      }
      version := version + 1;
      objects := objects[h := Object(x, version)];
      return Updated;
    }

    /** A merge patch has no version check; without a difference nothing is sent. */
    method Patch(h: string, before: Host, after: Host, ok: bool) returns (landed: bool)
      modifies this`objects, this`version
      ensures landed <==> Lands(old(Contents()), h, before, after, ok)
      ensures Contents() == if landed then Sent(old(Contents()), h, before, after) else old(Contents())
    {
      if before == after {
        return true;
      }
      if !ok || h !in objects {
        return false;
      }
      version := version + 1;
      objects := objects[h := Object(Merged(objects[h].host, before, after), version)];
      return true;
    }

    /** The attach call of c goes on. */
    method Go(c: Key, pc: Pc)
      requires c in calls
      modifies this`calls
      ensures Contents() == Moved(old(Contents()), c, pc)
    {
      calls := calls[c := calls[c].(pc := pc)];
    }
  }

  // ---- The attempt ----------------------------------------------------------------------------

  /** The attach call of one machine. */
  class Caller {
    const cluster: Cluster
    const c: Key
    const uid: nat

    constructor (cluster: Cluster, c: Key, uid: nat)
      ensures this.cluster == cluster && this.c == c && this.uid == uid
    {
      this.cluster, this.c, this.uid := cluster, c, uid;
    }

    /** The store has a history, and this call stands at pc. */
    ghost predicate Stands(pc: Pc)
      reads cluster
    {
      cluster.Valid() && c in cluster.calls && cluster.calls[c] == Call(uid, pc)
    }

    /** The history has gone on, and no lease of this call was left to itself. */
    twostate predicate Advanced()
      reads cluster
    {
      && old(cluster.history) <= cluster.history
      && forall h :: Accounted(old(cluster.View()), c, h) ==> Accounted(cluster.View(), c, h)
    }

    /** The same, but perhaps for a lease on host h. */
    twostate predicate AdvancedBut(h: string, failed: bool)
      reads cluster
    {
      && old(cluster.history) <= cluster.history
      && forall g :: Accounted(old(cluster.View()), c, g) && (g == h ==> !failed) ==> Accounted(cluster.View(), c, g)
    }

    method Wait(deeds: seq<Deed>, ghost pc: Pc)
      requires Stands(pc) && Foreign(deeds, c)
      modifies cluster
      ensures Stands(pc) && Advanced()
      ensures cluster.Contents() == After(old(cluster.Contents()), deeds)
    {
      cluster.Others(c, deeds);
    }

    /** A step of the call that only moves it on. */
    method Move(pc: Pc, ghost st: Step)
      requires cluster.Valid() && c in cluster.calls && cluster.calls[c].uid == uid
      requires Apply(cluster.View(), st) == Goto(cluster.View(), c, pc)
      modifies cluster`calls, cluster`history
      ensures Stands(pc) && cluster.Contents() == Moved(old(cluster.Contents()), c, pc)
      ensures cluster.history == old(cluster.history) + [st]
      ensures forall h :: Accounted(old(cluster.View()), c, h) && !Leaks(old(cluster.View()), st, c, h) ==>
                            Accounted(cluster.View(), c, h)
    {
      ghost var s := cluster.View();
      SeenMoved(cluster.Contents(), c, pc);
      cluster.Go(c, pc);
      cluster.Record(st, s, c);
    }

    method Fetch(h: string, answer: Option<Object>) returns (o: Option<Object>)
      requires Stands(Idle)
      modifies cluster
      ensures Advanced() && Stands(if o.Some? then Fetched(h, Shown(o.value)) else Idle)
      ensures o == Answer(old(cluster.Contents()), h, answer)
      ensures cluster.Contents() == if o.None? then old(cluster.Contents())
                                    else Moved(old(cluster.Contents()), c, Fetched(h, Shown(o.value)))
    {
      o := cluster.Get(h, answer);
      if o.Some? {
        Move(Fetched(h, Shown(o.value)), P.Fetch(c, h, Some(Shown(o.value))));
      }
    }

    /** The check of the reference on the fetched object. */
    method Judge(b: ByoHost, h: string, snap: Obj, existing: Lookup) returns (r: Judgement)
      requires Stands(Fetched(h, snap)) && snap.ref == b.machineRef
      modifies cluster
      ensures Advanced() && r == JudgedAs(b.machineRef, existing)
      ensures var pc := if r.Orphaned? then Clearing(h, snap) else if r.Open? then Vetted(h, snap) else Idle;
              Stands(pc) && cluster.Contents() == Moved(old(cluster.Contents()), c, pc)
    {
      if b.machineRef.Some? {
        if existing.LookupError? {
          Move(Idle, P.Judge(c, existing));
          return LookupFailed;
        }
        if existing.NotFound? {
          Move(Clearing(h, snap), P.Judge(c, existing));
          return Orphaned;
        }
        if !existing.deleting {
          Move(Idle, P.Judge(c, existing));
          return Wanted;
        }
      }
      Move(Vetted(h, snap), P.Judge(c, existing));
      return Open;
    }

    /** The unchecked clearing of a stale reference. */
    method ClearStale(b: ByoHost, h: string, snap: Obj, ok: bool)
      requires Stands(Clearing(h, snap)) && b.machineRef.Some?
      modifies cluster, b`machineRef
      ensures Advanced() && Stands(Refetching(h, snap.ref))
      ensures cluster.Contents() == Moved(Unbound(old(cluster.Contents()), h, ok), c, Refetching(h, snap.ref))
    {
      var before := b.View();
      b.machineRef := None;
      PatchStale(h, snap, before, b.View(), ok);
    }

    method PatchStale(h: string, snap: Obj, before: Host, after: Host, ok: bool)
      requires Stands(Clearing(h, snap)) && before.machineRef.Some? && after == before.(machineRef := None)
      modifies cluster
      ensures Advanced() && Stands(Refetching(h, snap.ref))
      ensures cluster.Contents() == Moved(Unbound(old(cluster.Contents()), h, ok), c, Refetching(h, snap.ref))
    {
      ghost var st := cluster.Contents();
      UnboundIsClear(st, c, h, snap, ok);
      var landed := cluster.Patch(h, before, after, ok);
      if landed {
        MergedUnbind(st.objects[h].host, before);
      }
      cluster.Go(c, Refetching(h, snap.ref));
      cluster.Record(P.Clear(c, landed), Seen(st), c);
    }

    method Refetch(h: string, ghost judged: Option<Ref>, answer: Option<Object>) returns (o: Option<Object>)
      requires Stands(Refetching(h, judged))
      modifies cluster
      ensures Advanced() && Stands(if o.Some? then Vetted(h, Shown(o.value)) else Idle)
      ensures Revet(old(cluster.Contents()), c, h, answer)
           == if o.Some? then Passed(o.value, cluster.Contents()) else Stopped(StaleRefetchFailed, cluster.Contents())
    {
      o := cluster.Get(h, answer);
      if o.Some? {
        Move(Vetted(h, Shown(o.value)), P.Refetch(c, Some(Shown(o.value))));
      } else {
        Move(Idle, P.Refetch(c, None));
      }
    }

    /** tryAcquireLease: a conflict is no error, it only means that someone else was faster. */
    method TryAcquireLease(b: ByoHost, h: string, base: nat, deeds: seq<Deed>, ok: bool)
      returns (acquired: bool, error: bool, at: int)
      requires Stands(Vetted(h, Obj(base, b.machineRef, b.lease))) && Foreign(deeds, c)
      modifies cluster, b`lease
      ensures Advanced() && Stands(if acquired then Leased(h, at) else Idle)
      ensures acquired ==> b.lease == Some(Lease(c, at)) && !LeaseBlocks(old(b.lease), at)
      ensures Grabbed(old(cluster.Contents()), c, h, Object(old(b.View()), base), deeds, ok)
           == if acquired then Got(at, cluster.Contents()) else Missed(error, cluster.Contents())
    {
      ghost var o := Object(b.View(), base);
      at := cluster.now;
      var held := StillHeld(b, at);
      if held {
        Move(Idle, P.Decide(c));
        return false, false, at;
      }
      Move(Updating(h, Obj(base, b.machineRef, b.lease), at), P.Decide(c));
      WriteLease(b, at);
      acquired, error := GrabLease(b, h, base, o, at, deeds, ok);
    }

    /** The expiry test on the object in memory. */
    method StillHeld(b: ByoHost, at: int) returns (held: bool)
      ensures held == LeaseBlocks(b.lease, at)
    {
      if b.lease.Some? {
        if b.lease.value.Lease? {
          if b.lease.value.at + 30 * SECOND > at {
            return true;
          }
        }
      }
      return false;
    }

    method WriteLease(b: ByoHost, at: int)
      modifies b`lease
      ensures b.View() == old(b.View()).(lease := Some(Lease(c, at)))
    {
      b.lease := Some(Lease(c, at));
    }

    /** The lease is in the object in memory. */
    method GrabLease(b: ByoHost, h: string, base: nat, ghost o: Object, at: int, deeds: seq<Deed>, ok: bool)
      returns (acquired: bool, error: bool)
      requires Stands(Updating(h, Shown(o), at)) && o.version == base && Foreign(deeds, c)
      requires b.View() == o.host.(lease := Some(Lease(c, at)))
      modifies cluster
      ensures Advanced() && Stands(if acquired then Leased(h, at) else Idle)
      ensures LeaseUpdated(After(old(cluster.Contents()), deeds), c, h, o, at, ok)
           == if acquired then Got(at, cluster.Contents()) else Missed(error, cluster.Contents())
    {
      Wait(deeds, Updating(h, Shown(o), at));
      acquired, error := UpdateLease(b, h, base, o, at, ok);
    }

    /** The Update that takes the lease. */
    method UpdateLease(b: ByoHost, h: string, base: nat, ghost o: Object, at: int, ok: bool)
      returns (acquired: bool, error: bool)
      requires Stands(Updating(h, Shown(o), at)) && o.version == base
      requires b.View() == o.host.(lease := Some(Lease(c, at)))
      modifies cluster
      ensures Advanced() && Stands(if acquired then Leased(h, at) else Idle)
      ensures LeaseUpdated(old(cluster.Contents()), c, h, o, at, ok)
           == if acquired then Got(at, cluster.Contents()) else Missed(error, cluster.Contents())
    {
      ghost var st := cluster.Contents();
      LeaseUpdatedIsUpdate(st, c, h, o, at, ok);
      var r := cluster.Update(h, b.View(), base, ok);
      if r.Updated? {
        cluster.Go(c, Leased(h, at));
      } else {
        cluster.Go(c, Idle);
      }
      cluster.Record(P.Update(c, r.Updated?), Seen(st), c);
      return r.Updated?, r.UpdateError?;
    }

    /** The reload may show an object from before the lease, and then the lease is left to itself. */
    method Reload(h: string, at: int, answer: Option<Object>) returns (o: Option<Object>)
      requires Stands(Leased(h, at))
      modifies cluster
      ensures AdvancedBut(h, o.Some? && o.value.host.lease.None?) && o == Answer(old(cluster.Contents()), h, answer)
      ensures var pc := if o.Some? then Loaded(h, at, Shown(o.value)) else Releasing(h, at, true);
              Stands(pc) && cluster.Contents() == Moved(old(cluster.Contents()), c, pc)
    {
      o := cluster.Get(h, answer);
      if o.Some? {
        Move(Loaded(h, at, Shown(o.value)), P.Load(c, Some(Shown(o.value))));
      } else {
        Move(Releasing(h, at, true), P.Load(c, None));
      }
    }

    /** An attempt that gives up before its claim patch, or whose patch does not land. */
    method Forgo(h: string, at: int, snap: Obj)
      requires Stands(Loaded(h, at, snap))
      modifies cluster
      ensures Advanced() && Stands(Releasing(h, at, snap.lease.Some?))
      ensures cluster.Contents() == Moved(old(cluster.Contents()), c, Releasing(h, at, snap.lease.Some?))
    {
      Move(Releasing(h, at, snap.lease.Some?), P.Claim(c, false));
    }

    /** A claim patch in which the reference makes no difference. */
    method Reaffirm(h: string, at: int, snap: Obj)
      requires Stands(Loaded(h, at, snap)) && snap.ref == Some(Ref(c, uid))
      modifies cluster
      ensures Advanced() && Stands(Releasing(h, at, snap.lease.Some?))
      ensures cluster.Contents() == Moved(old(cluster.Contents()), c, Releasing(h, at, snap.lease.Some?))
      ensures ClaimedSince(cluster.history, |old(cluster.history)|, c, h)
    {
      ghost var before := cluster.history;
      Move(Releasing(h, at, snap.lease.Some?), P.Claim(c, true));
      ClaimedLast(before, c, h);
    }

    /** A patch has left the reference and the lease as they were. */
    ghost method RecordTouch(st: Store, h: string, before: Host, after: Host)
      requires Seen(st) == Exec(INIT, cluster.history) && h in st.objects && before != after
      requires before.machineRef == after.machineRef && before.lease == after.lease
      requires cluster.Contents() == Sent(st, h, before, after)
      modifies cluster`history
      ensures cluster.Valid() && old(cluster.history) <= cluster.history
      ensures forall g :: Accounted(Seen(st), c, g) ==> Accounted(cluster.View(), c, g)
    {
      SentIsTouch(st, h, before, after);
      cluster.Record(P.Touch(h), Seen(st), c);
    }

    /** The patch has set the reference. */
    method Settle(ghost st: Store, h: string, at: int, snap: Obj, ghost before: Host, ghost after: Host)
      requires Seen(st) == Exec(INIT, cluster.history) && h in st.objects
      requires c in st.calls && st.calls[c] == Call(uid, Loaded(h, at, snap))
      requires snap.ref == before.machineRef != after.machineRef == Some(Ref(c, uid))
      requires before.lease == after.lease && cluster.Contents() == Sent(st, h, before, after)
      modifies cluster
      ensures Stands(Releasing(h, at, snap.lease.Some?)) && old(cluster.history) <= cluster.history
      ensures cluster.Contents() == Moved(old(cluster.Contents()), c, Releasing(h, at, snap.lease.Some?))
      ensures forall g :: Accounted(Seen(st), c, g) ==> Accounted(cluster.View(), c, g)
      ensures ClaimedSince(cluster.history, |old(cluster.history)|, c, h)
    {
      SentIsClaim(st, c, uid, h, at, snap, before, after);
      ClaimedLast(cluster.history, c, h);
      cluster.Go(c, Releasing(h, at, snap.lease.Some?));
      cluster.Record(P.Claim(c, true), Seen(st), c);
    }

    /** The claim patch: the difference between the object as loaded and as claimed. */
    method PatchClaim(h: string, at: int, snap: Obj, before: Host, after: Host, ok: bool) returns (landed: bool)
      requires Stands(Loaded(h, at, snap)) && snap.ref == before.machineRef
      requires after.machineRef == Some(Ref(c, uid)) && after.lease == before.lease
      modifies cluster
      ensures Advanced() && Stands(Releasing(h, at, snap.lease.Some?))
      ensures landed == Lands(old(cluster.Contents()), h, before, after, ok)
      ensures var st := old(cluster.Contents());
              cluster.Contents()
              == Moved(if landed then Sent(st, h, before, after) else st, c, Releasing(h, at, snap.lease.Some?))
      ensures landed ==> ClaimedSince(cluster.history, |old(cluster.history)|, c, h)
    {
      ghost var st := cluster.Contents();
      landed := cluster.Patch(h, before, after, ok);
      if !landed {
        Forgo(h, at, snap);
      } else if before.machineRef == after.machineRef {
        if before != after {
          RecordTouch(st, h, before, after);
        }
        ghost var touched := cluster.history;
        Reaffirm(h, at, snap);
        ClaimedEarlier(cluster.history, |old(cluster.history)|, |touched|, c, h);
      } else {
        Settle(st, h, at, snap, before, after);
      }
    }

    /** releaseLease: whatever lease the object at hand shows is removed, and its holder not compared. */
    method ReleaseLease(b: ByoHost, h: string, at: int, w: Weather) returns (failed: bool)
      requires Stands(Releasing(h, at, b.lease.Some?)) && AllForeign(w, c)
      modifies cluster, b`lease
      ensures Stands(Idle) && AdvancedBut(h, failed)
      ensures Dropped(old(cluster.Contents()), c, h, old(b.lease).Some?, w) == Drop(failed, cluster.Contents())
    {
      Wait(w.beforeRelease, Releasing(h, at, b.lease.Some?));
      if b.lease.None? {
        Move(Idle, P.Release(c, true));
        return false;
      }
      var before := b.View();
      b.lease := None;
      failed := PatchRelease(h, at, before, b.View(), w.releaseOk);
    }

    method PatchRelease(h: string, at: int, before: Host, after: Host, ok: bool) returns (failed: bool)
      requires Stands(Releasing(h, at, true)) && before.lease.Some? && after == before.(lease := None)
      modifies cluster
      ensures Stands(Idle) && AdvancedBut(h, failed)
      ensures Unleased(old(cluster.Contents()), c, h, true, ok) == Drop(failed, cluster.Contents())
    {
      ghost var st := cluster.Contents();
      UnleasedIsRelease(st, c, h, at, true, ok);
      var landed := cluster.Patch(h, before, after, ok);
      if landed {
        MergedUnlease(st.objects[h].host, before);
      }
      cluster.Go(c, Idle);
      cluster.Record(P.Release(c, landed), Seen(st), c);
      return !landed;
    }

    /** From the loaded object to the released lease: each of the four exits releases on its own. */
    method ClaimLoaded(b: ByoHost, h: string, at: int, snap: Obj, order: ClaimOrder, w: Weather)
      returns (a: Attempt, failed: bool)
      requires Stands(Loaded(h, at, snap)) && snap.ref == b.machineRef && snap.lease == b.lease && AllForeign(w, c)
      modifies cluster, b
      ensures Stands(Idle) && AdvancedBut(h, failed)
      ensures Result(a, failed, cluster.Contents())
           == Claiming(old(cluster.Contents()), c, uid, h, at, old(b.View()), order, w)
      ensures a.Patched? ==> ClaimedSince(cluster.history, |old(cluster.history)|, c, h)
    {
      if !w.helperOk {
        Forgo(h, at, snap);
        failed := ReleaseLease(b, h, at, w);
        return HelperFailed, failed;
      }
      var before := b.View();
      var noSecret := ClaimHost(b, Ref(c, uid), order, w.secretOk);
      if noSecret {
        Forgo(h, at, snap);
        failed := ReleaseLease(b, h, at, w);
        return SecretFailed, failed;
      }
      Wait(w.beforePatch, Loaded(h, at, snap));
      ghost var waited := cluster.history;
      a, failed := SendClaim(b, before, h, at, snap, w);
      if a.Patched? {
        ClaimedEarlier(cluster.history, |old(cluster.history)|, |waited|, c, h);
      }
    }

    /** The claim is written into the object; before it was `before`. */
    method SendClaim(b: ByoHost, before: Host, h: string, at: int, snap: Obj, w: Weather)
      returns (a: Attempt, failed: bool)
      requires Stands(Loaded(h, at, snap)) && AllForeign(w, c)
      requires snap.ref == before.machineRef && snap.lease == before.lease
      requires b.machineRef == Some(Ref(c, uid)) && b.lease == before.lease
      modifies cluster, b
      ensures Stands(Idle) && AdvancedBut(h, failed)
      ensures Result(a, failed, cluster.Contents())
           == Sending(old(cluster.Contents()), c, h, at, before, old(b.View()), w)
      ensures a.Patched? ==> ClaimedSince(cluster.history, |old(cluster.history)|, c, h)
    {
      var landed := PatchClaim(h, at, snap, before, b.View(), w.patchOk);
      ghost var claimed := cluster.history;
      failed := ReleaseLease(b, h, at, w);
      if !landed {
        return PatchFailed, failed;
      }
      StillClaimedSince(claimed, cluster.history, |old(cluster.history)|, c, h);
      return Patched, failed;
    }

    /** The branch for an orphaned host; whether the clearing worked makes no difference to it. */
    method ClearAndRefetch(b: ByoHost, h: string, before: Object, w: Weather) returns (o: Option<Object>)
      requires Stands(Clearing(h, Shown(before))) && AllForeign(w, c)
      requires b.View() == before.host && b.machineRef.Some?
      modifies cluster, b
      ensures Advanced() && Stands(if o.Some? then Vetted(h, Shown(o.value)) else Idle)
      ensures Revet(AtRefetch(old(cluster.Contents()), c, h, before, w), c, h, w.refetch)
           == if o.Some? then Passed(o.value, cluster.Contents()) else Stopped(StaleRefetchFailed, cluster.Contents())
    {
      Wait(w.beforeClear, Clearing(h, Shown(before)));
      ClearStale(b, h, Shown(before), w.clearOk);
      Wait(w.beforeRefetch, Refetching(h, before.host.machineRef));
      o := Refetch(h, before.host.machineRef, w.refetch);
    }

    /** From the idle call to an object that may be tried; `end` is how the attempt ends before that. */
    method Vet(h: string, w: Weather) returns (end: Option<Attempt>, o: Option<Object>)
      requires Stands(Idle) && AllForeign(w, c)
      modifies cluster
      ensures Advanced() && (end.None? ==> o.Some?)
      ensures Stands(if end.None? then Vetted(h, Shown(o.value)) else Idle)
      ensures AttachSpec.Vet(old(cluster.Contents()), c, h, w)
           == if end.Some? then Stopped(end.value, cluster.Contents()) else Passed(o.value, cluster.Contents())
    {
      Wait(w.beforeGet, Idle);
      o := Fetch(h, w.get);
      if o.None? {
        return Some(GetFailed), None;
      }
      end, o := VetRead(h, o.value, w);
    }

    /** The same from the object that was read. */
    method VetRead(h: string, read: Object, w: Weather) returns (end: Option<Attempt>, o: Option<Object>)
      requires Stands(Fetched(h, Shown(read))) && AllForeign(w, c)
      modifies cluster
      ensures Advanced() && (end.None? ==> o.Some?)
      ensures Stands(if end.None? then Vetted(h, Shown(o.value)) else Idle)
      ensures AttachSpec.VetRead(old(cluster.Contents()), c, h, read, w)
           == if end.Some? then Stopped(end.value, cluster.Contents()) else Passed(o.value, cluster.Contents())
    {
      var b := new ByoHost(read.host);
      Wait(w.beforeLookup, Fetched(h, Shown(read)));
      var r := Judge(b, h, Shown(read), w.lookup);
      if r.LookupFailed? {
        return Some(MachineLookupFailed), None;
      }
      if r.Wanted? {
        return Some(StillClaimed), None;
      }
      if r.Orphaned? {
        o := ClearAndRefetch(b, h, read, w);
        if o.None? {
          return Some(StaleRefetchFailed), None;
        }
        return None, o;
      }
      return None, Some(read);
    }

    /** From a vetted object to the end of the attempt. */
    method LeaseAndClaim(h: string, o: Object, order: ClaimOrder, w: Weather) returns (a: Attempt, failed: bool)
      requires Stands(Vetted(h, Shown(o))) && AllForeign(w, c)
      modifies cluster
      ensures Stands(Idle) && AdvancedBut(h, failed)
      ensures Result(a, failed, cluster.Contents()) == Leasing(old(cluster.Contents()), c, uid, h, o, order, w)
      ensures a.Patched? ==> ClaimedSince(cluster.history, |old(cluster.history)|, c, h)
    {
      var b := new ByoHost(o.host);
      var acquired, error, at := TryAcquireLease(b, h, o.version, w.beforeUpdate, w.updateOk);
      if !acquired {
        if error {
          return LeaseError, false;
        }
        return LeaseHeld, false;
      }
      ghost var leased := cluster.history;
      a, failed := ClaimLeased(b, h, at, order, w);
      if a.Patched? {
        ClaimedEarlier(cluster.history, |old(cluster.history)|, |leased|, c, h);
      }
    }

    /** From an acquired lease to the end of the attempt. */
    method ClaimLeased(b: ByoHost, h: string, at: int, order: ClaimOrder, w: Weather)
      returns (a: Attempt, failed: bool)
      requires Stands(Leased(h, at)) && AllForeign(w, c) && b.lease == Some(Lease(c, at))
      modifies cluster, b`lease
      ensures Stands(Idle) && AdvancedBut(h, failed)
      ensures Result(a, failed, cluster.Contents()) == Loading(old(cluster.Contents()), c, uid, h, at, order, w)
      ensures a.Patched? ==> ClaimedSince(cluster.history, |old(cluster.history)|, c, h)
    {
      Wait(w.beforeReload, Leased(h, at));
      var loaded := Reload(h, at, w.reload);
      if loaded.None? {
        failed := ReleaseLease(b, h, at, w);
        return RefetchFailed, failed;
      }
      var latest := new ByoHost(loaded.value.host);
      ghost var reloaded := cluster.history;
      a, failed := ClaimLoaded(latest, h, at, Shown(loaded.value), order, w);
      failed := failed || loaded.value.host.lease.None?;
      if a.Patched? {
        ClaimedEarlier(cluster.history, |old(cluster.history)|, |reloaded|, c, h);
      }
    }

    /** One attempt on host h. Whatever happens, the call stands idle afterwards, and a lease that it
        took is on its host only if its release failed or the reload did not show it. */
    method Try(h: string, order: ClaimOrder, w: Weather) returns (a: Attempt, failed: bool)
      requires Stands(Idle) && AllForeign(w, c)
      modifies cluster
      ensures Stands(Idle) && AdvancedBut(h, failed)
      ensures Result(a, failed, cluster.Contents()) == Attempted(old(cluster.Contents()), c, uid, h, order, w)
      ensures a.Patched? <==> Succeeds(old(cluster.Contents()), c, uid, h, order, w)
      ensures a.Patched? ==> ClaimedSince(cluster.history, |old(cluster.history)|, c, h)
    {
      PatchedExactly(cluster.Contents(), c, uid, h, order, w);
      a, failed := VetAndClaim(h, order, w);
    }

    method VetAndClaim(h: string, order: ClaimOrder, w: Weather) returns (a: Attempt, failed: bool)
      requires Stands(Idle) && AllForeign(w, c)
      modifies cluster
      ensures Stands(Idle) && AdvancedBut(h, failed)
      ensures Result(a, failed, cluster.Contents()) == Attempted(old(cluster.Contents()), c, uid, h, order, w)
      ensures a.Patched? ==> ClaimedSince(cluster.history, |old(cluster.history)|, c, h)
    {
      var end, o := Vet(h, w);
      if end.Some? {
        return end.value, false;
      }
      Wait(w.beforeLease, Vetted(h, Shown(o.value)));
      ghost var vetted := cluster.history;
      a, failed := LeaseAndClaim(h, o.value, order, w);
      if a.Patched? {
        ClaimedEarlier(cluster.history, |old(cluster.history)|, |vetted|, c, h);
      }
    }
  }

  /** From position n on the history has a claim by c of the host h that it had loaded. */
  ghost predicate ClaimedSince(history: seq<Step>, n: nat, c: Key, h: string) {
    exists i :: n <= i < |history| && history[i] == P.Claim(c, true) && LoadedAt(history, i, c, h)
  }

  ghost predicate LoadedAt(history: seq<Step>, i: nat, c: Key, h: string)
    requires i <= |history|
  {
    var pc := PcOf(Exec(INIT, history[..i]), c);
    pc.Loaded? && pc.host == h
  }

  lemma ClaimedEarlier(history: seq<Step>, n: nat, m: nat, c: Key, h: string)
    requires n <= m && ClaimedSince(history, m, c, h)
    ensures ClaimedSince(history, n, c, h)
  {
  }

  lemma StillClaimedSince(a: seq<Step>, b: seq<Step>, n: nat, c: Key, h: string)
    requires a <= b && ClaimedSince(a, n, c, h)
    ensures ClaimedSince(b, n, c, h)
  {
    var i :| n <= i < |a| && a[i] == P.Claim(c, true) && LoadedAt(a, i, c, h);
    assert b[..i] == a[..i] && b[i] == a[i];
    assert LoadedAt(b, i, c, h);
  }

  lemma ClaimedLast(a: seq<Step>, c: Key, h: string)
    requires PcOf(Exec(INIT, a), c).Loaded? && PcOf(Exec(INIT, a), c).host == h
    ensures ClaimedSince(a + [P.Claim(c, true)], |a|, c, h)
  {
    var b := a + [P.Claim(c, true)];
    assert b[..|a|] == a && LoadedAt(b, |a|, c, h) && b[|a|] == P.Claim(c, true);
  }
}
