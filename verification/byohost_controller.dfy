/** The ByoHost controller: the cleanup clock and the force release. */
module HostController {
  import opened ByoModel
  import opened CleanupTimeout
  import MachineController

  /** The lookup of the Node and its deletion; a Node that is already gone counts as deleted. */
  datatype NodeIO = NodeIO(found: bool, deleted: bool)
  {
    /** Only a failed deletion holds the release up; a failed lookup does not. */
    predicate Stays() {
      found && !deleted
    }
  }

  datatype Outcome = Outcome(host: Host, forced: bool, requeueAfter: Option<int>, failed: bool)

  /** Formatting as RFC 3339 keeps whole seconds (section 5.6 of RFC 3339). */
  function Truncate(t: int): (r: int)
    ensures r <= t < r + SECOND && r % SECOND == 0
  {
    t - t % SECOND
  }

  /** The cleanup timeout has passed since deletion, or since the recorded start. */
  predicate TimedOut(h: Host, now: int, timeout: int) {
    if h.deletedAt.Some? then now - h.deletedAt.value > timeout
    else h.startedAt.Some? && h.startedAt.value.At? && now - h.startedAt.value.time > timeout
  }

  function ForceReleased(h: Host): Host {
    h.(machineRef := None, bootstrapped := true, cleanup := false, startedAt := None)
  }

  /** One reconcile of the host object. */
  function Reconciled(h: Host, now: int, timeout: int, node: NodeIO): Outcome {
    if !h.cleanup then Outcome(h, false, None, false)
    else if TimedOut(h, now, timeout) then
      if node.Stays() then Outcome(h, false, None, true)
      else Outcome(ForceReleased(h), true, None, false)
    else if h.deletedAt.None? && h.startedAt.None? then
      Outcome(h.(startedAt := Some(At(Truncate(now)))), false, Some(timeout), false)
    else Outcome(h, false, Some(timeout), false)
  }

  method Reconcile(b: ByoHost, now: int, override: Option<int>, cpu: Option<Quantity>,
                   memory: Option<Quantity>, node: NodeIO)
    returns (requeueAfter: Option<int>, forced: bool, failed: bool)
    modifies b
    ensures Outcome(b.View(), forced, requeueAfter, failed)
         == Reconciled(old(b.View()), now, Timeout(override, cpu, memory), node)
  {
    requeueAfter, forced, failed := None, false, false;
    if b.cleanup {
      var timeout := GetCleanupTimeout(override, cpu, memory);
      var force := false;
      if b.deletedAt.Some? {
        if now - b.deletedAt.value > timeout {
          force := true;
        }
      } else if b.startedAt.Some? {
        if b.startedAt.value.At? {
          if now - b.startedAt.value.time > timeout {
            force := true;
          }
        }
      } else {
        b.startedAt := Some(At(Truncate(now)));
      }
      if force {
        if node.found {
          if !node.deleted {
            return None, false, true;
          }
        }
        b.machineRef := None;
        b.bootstrapped := true;
        b.cleanup := false;
        b.startedAt := None;
        return None, true, false;
      }
      return Some(timeout), false, false;
    }
  }

  /** Force release keeps both labels, so the host does not become claimable, and raises the
      bootstrap condition that the agent's zombie check looks for. */
  lemma ForceReleaseKeepsHostOutOfPool(h: Host, now: int, timeout: int, node: NodeIO)
    requires h.Coherent()
    requires Reconciled(h, now, timeout, node).forced
    ensures var r := Reconciled(h, now, timeout, node).host;
            && r.Coherent() && !r.Claimable()
            && r.clusterLabel == h.clusterLabel && r.attachedLabel == h.attachedLabel
            && r.machineRef.None? && r.bootstrapped && !r.cleanup && r.startedAt.None?
            && r.bootstrapSecret == h.bootstrapSecret
  {
  }

  /** A visit of the controller. Before it the machine controller may mark the host again. */
  datatype Visit = Visit(at: int, timeout: int, node: NodeIO, remarked: bool)

  function Before(h: Host, v: Visit): Host {
    if v.remarked then MachineController.Marked(h) else h
  }

  function Visited(h: Host, v: Visit): Outcome {
    Reconciled(Before(h, v), v.at, v.timeout, v.node)
  }

  /** The host after the given visits, with a dead agent. */
  function Drive(h: Host, visits: seq<Visit>): Host
    decreases |visits|
  {
    if visits == [] then h else Drive(Visited(h, visits[0]).host, visits[1..])
  }

  /** What the reconcile of visit i asks for. */
  function Asked(h: Host, visits: seq<Visit>, i: nat): Option<int>
    requires i < |visits|
  {
    Visited(Drive(h, visits[..i]), visits[i]).requeueAfter
  }

  /** The visit after visit i comes no later than the requeue that visit i asked for, if it did. */
  predicate HonouredAt(h: Host, visits: seq<Visit>, i: nat)
    requires i + 1 < |visits|
  {
    && visits[i].at <= visits[i + 1].at
    && (Asked(h, visits, i).Some? ==> visits[i + 1].at <= visits[i].at + Asked(h, visits, i).value)
  }

  /** Each visit comes no later than the requeue that the reconcile before it returned. */
  ghost predicate Honoured(h: Host, visits: seq<Visit>) {
    forall i: nat :: i + 1 < |visits| ==> HonouredAt(h, visits, i)
  }

  /** When a reconcile asks to be called again, and for what: a marked host that is neither released nor
      stuck with its Node is looked at again after its timeout, and no other. */
  lemma RequeuesExactly(h: Host, now: int, timeout: int, node: NodeIO)
    ensures var r := Reconciled(h, now, timeout, node);
            r.requeueAfter == if h.cleanup && !r.forced && !r.failed then Some(timeout) else None
    ensures !h.cleanup ==> Reconciled(h, now, timeout, node) == Outcome(h, false, None, false)
  {
  }

  predicate Running(h: Host, start: int) {
    h.cleanup && h.deletedAt.None? && h.startedAt == Some(At(start))
  }

  /** Timeouts up to the limit, and no deletion of the Node that fails. */
  predicate Bounded(visits: seq<Visit>, limit: int) {
    forall v :: v in visits ==> 0 <= v.timeout <= limit && !v.node.Stays()
  }

  /** After the first visit the rest is honoured too, and it begins in time where the clock runs on. */
  lemma RestVisits(h: Host, visits: seq<Visit>, limit: int)
    requires visits != [] && Honoured(h, visits) && Bounded(visits, limit)
    ensures Honoured(Visited(h, visits[0]).host, visits[1..]) && Bounded(visits[1..], limit)
    ensures 0 <= visits[0].timeout <= limit && !visits[0].node.Stays()
    ensures |visits| > 1 ==> visits[0].at <= visits[1].at
    ensures |visits| > 1 && Before(h, visits[0]).cleanup && !Visited(h, visits[0]).forced ==>
              visits[1].at <= visits[0].at + limit
  {
    assert visits[0] in visits;
    var h1, rest := Visited(h, visits[0]).host, visits[1..];
    forall i: nat | i + 1 < |rest|
      ensures HonouredAt(h1, rest, i)
    {
      DriveNext(h, visits, i);
      assert HonouredAt(h, visits, i + 1);
    }
    if |visits| > 1 {
      assert HonouredAt(h, visits, 0) && visits[..0] == [];
      RequeuesExactly(Before(h, visits[0]), visits[0].at, visits[0].timeout, visits[0].node);
    }
  }

  /** While the clock runs, a visit forces or leaves it running, and it forces when it is late. */
  lemma VisitRunning(h: Host, v: Visit, start: int)
    requires Running(h, start) && v.timeout >= 0
    ensures Visited(h, v).forced || Running(Visited(h, v).host, start)
    ensures v.at > start + v.timeout && !v.node.Stays() ==> Visited(h, v).forced
  {
  }

  lemma DriveNext(h: Host, visits: seq<Visit>, k: nat)
    requires k + 1 < |visits|
    ensures Drive(h, visits[..k + 1]) == Drive(Visited(h, visits[0]).host, visits[1..][..k])
  {
    assert visits[..k + 1][1..] == visits[1..][..k];
  }

  /** The clock started at `start`: the first visit past the bound `limit` on the timeouts forces,
      and it comes no later than one more requeue. */
  lemma {:induction false} ForcedByNextRequeue(h: Host, visits: seq<Visit>, start: int, limit: int, last: int)
    returns (j: nat)
    requires Running(h, start)
    requires |visits| > 0 && Honoured(h, visits)
    requires Bounded(visits, limit)
    requires last <= start + limit && last <= visits[0].at <= last + limit
    requires visits[|visits| - 1].at > start + limit
    decreases |visits|
    ensures j < |visits| && visits[j].at <= start + 2 * limit
    ensures Visited(Drive(h, visits[..j]), visits[j]).forced
  {
    RestVisits(h, visits, limit);
    VisitRunning(h, visits[0], start);
    if Visited(h, visits[0]).forced {
      j := 0;
      assert visits[..0] == [];
    } else {
      var k := ForcedByNextRequeue(Visited(h, visits[0]).host, visits[1..], start, limit, visits[0].at);
      DriveNext(h, visits, k);
      j := k + 1;
    }
  }

  lemma ClockStarts(h: Host, v: Visit)
    requires h.cleanup && h.deletedAt.None? && h.startedAt.None? && v.timeout >= MIN_TIMEOUT
    ensures Running(Visited(h, v).host, Truncate(v.at)) && !Visited(h, v).forced
  {
  }

  /** With requeues honoured and no deletion of the Node failing, a marked host whose agent is dead is
      force-released within twice the largest timeout from its recorded start, however often it is
      marked again meanwhile. */
  lemma ForceReleaseDeadline(h: Host, visits: seq<Visit>, limit: int) returns (j: nat)
    requires h.cleanup && h.deletedAt.None? && h.startedAt.None?
    requires |visits| > 0 && Honoured(h, visits)
    requires forall v :: v in visits ==> MIN_TIMEOUT <= v.timeout <= limit && !v.node.Stays()
    requires visits[|visits| - 1].at > visits[0].at + limit
    ensures 0 < j < |visits|
    ensures Visited(Drive(h, visits[..j]), visits[j]).forced
    ensures visits[j].at <= Truncate(visits[0].at) + 2 * limit
  {
    assert visits[0] in visits;
    ClockStarts(h, visits[0]);
    RestVisits(h, visits, limit);
    var k := ForcedByNextRequeue(Visited(h, visits[0]).host, visits[1..], Truncate(visits[0].at), limit, visits[0].at);
    DriveNext(h, visits, k);
    j := k + 1;
  }

  /** Whatever the host's capacity and the environment say at each visit, the release comes within
      thirty minutes of the recorded start. */
  lemma ForceReleaseWithinThirtyMinutes(h: Host, visits: seq<Visit>,
                                        capacity: Visit -> (Option<int>, Option<Quantity>, Option<Quantity>))
    returns (j: nat)
    requires h.cleanup && h.deletedAt.None? && h.startedAt.None?
    requires |visits| > 0 && Honoured(h, visits)
    requires forall v :: v in visits ==> v.timeout == Timeout(capacity(v).0, capacity(v).1, capacity(v).2)
    requires forall v :: v in visits ==> !v.node.Stays()
    requires visits[|visits| - 1].at > visits[0].at + MAX_TIMEOUT
    ensures 0 < j < |visits|
    ensures Visited(Drive(h, visits[..j]), visits[j]).forced
    ensures visits[j].at <= Truncate(visits[0].at) + 30 * MINUTE
  {
    j := ForceReleaseDeadline(h, visits, MAX_TIMEOUT);
  }

  /** The wait is over: since the deletion, or else since a recorded start that can be read. */
  ghost predicate Overdue(h: Host, now: int, timeout: int) {
    if h.deletedAt.Some? then h.deletedAt.value < now - timeout
    else exists s :: h.startedAt == Some(At(s)) && s < now - timeout
  }

  /** Exactly when a reconcile force-releases a host, and when it fails instead: the wait of a marked host
      is over, and the Node is not found or is deleted, or stays. The clock of a host that is not being
      deleted starts at its first reconcile, and an unreadable start blocks the release forever. */
  lemma ForcedExactly(h: Host, now: int, timeout: int, node: NodeIO)
    ensures var r := Reconciled(h, now, timeout, node);
            && (r.forced <==> h.cleanup && Overdue(h, now, timeout) && !node.Stays())
            && (r.failed <==> h.cleanup && Overdue(h, now, timeout) && node.Stays())
            && (!r.forced ==>
                  r.host == h.(startedAt := if h.cleanup && h.deletedAt.None? && h.startedAt.None?
                                            then Some(At(Truncate(now))) else h.startedAt))
    ensures h.cleanup && h.deletedAt.None? && h.startedAt == Some(Malformed) ==>
              Reconciled(h, now, timeout, node) == Outcome(h, false, Some(timeout), false)
  {
    if TimedOut(h, now, timeout) && h.deletedAt.None? {
      assert h.startedAt == Some(At(h.startedAt.value.time));
    }
    assert h.(startedAt := h.startedAt) == h;
  }

  /** What a force release writes, and that it leaves everything else. */
  lemma ForceReleaseFields(h: Host, now: int, timeout: int, node: NodeIO)
    requires Reconciled(h, now, timeout, node).forced
    ensures var y := Reconciled(h, now, timeout, node).host;
            && y.machineRef.None? && y.bootstrapped && !y.cleanup && y.startedAt.None?
            && y == h.(machineRef := y.machineRef, bootstrapped := y.bootstrapped, cleanup := y.cleanup,
                       startedAt := y.startedAt)
  {
  }
}
