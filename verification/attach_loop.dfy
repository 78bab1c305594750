/** The retry loop of attachByoHost: which hosts it tries, which leases it leaves, how long it sleeps. */
module AttachLoop {
  import opened ByoModel
  import opened HostSelection
  import opened AttachAttempt
  import opened AttachSpec
  import opened AttachOutcome
  import MC = MachineController
  import P = ClaimProtocol
  import ClaimCache
  import ClaimLeases

  const MAX_RETRIES: nat := 5

  datatype Event = Tried(host: nat) | Slept(milliseconds: nat)

  datatype Outcome = AttachedTo(host: nat) | NoHostSelected | Panicked | SecretError | Exhausted

  function Pow2(n: nat): (p: nat)
    ensures p > 0
  {
    if n == 0 then 1 else 2 * Pow2(n - 1)
  }

  /** exponentialBackoff, in milliseconds. */
  function Backoff(attempt: nat): nat {
    if attempt == 0 then 0 else Pow2(attempt - 1) * 100
  }

  /** `calls` counts the selections made. */
  datatype Run = Run(outcome: Outcome, log: seq<Event>, calls: nat)

  /** Whether the attempt fails in a way that goes on to the next one. */
  predicate Retries(choice: Choice, a: Attempt) {
    choice.Chosen? && !a.Patched? && !a.SecretFailed?
  }

  function RetryLog(host: nat, n: nat): seq<Event> {
    [Tried(host), Slept(Backoff(n))]
  }

  /** How an attempt that does not go on to the next one ends the loop, and what it logs. */
  function Ending(choice: Choice, a: Attempt): (Outcome, seq<Event>)
    requires !Retries(choice, a)
  {
    match choice
    case NoHost => (NoHostSelected, [])
    case Panic => (Panicked, [])
    case Chosen(h) => (if a.Patched? then AttachedTo(h) else SecretError, [Tried(h)])
  }

  /** The loop from attempt n on, against the hosts the selection offers and the ends of the attempts. */
  function Attach(choices: seq<Choice>, ends: seq<Attempt>, n: nat): Run
    requires |choices| == |ends|
    decreases |ends|
  {
    if ends == [] then Run(Exhausted, [], 0)
    else if !Retries(choices[0], ends[0]) then
      var (outcome, log) := Ending(choices[0], ends[0]);
      Run(outcome, log, 1)
    else
      var rest := Attach(choices[1..], ends[1..], n + 1);
      Run(rest.outcome, RetryLog(choices[0].host, n) + rest.log, 1 + rest.calls)
  }

  /** The hosts that n selections in a row offer for the same list, and the index before each of them
      and after the last. */
  function Choices(index: map<string, nat>, q: Query, n: nat): (choices: seq<Choice>)
    ensures |choices| == n
    decreases n
  {
    if n == 0 then [] else [Select(index, q).0] + Choices(Select(index, q).1, q, n - 1)
  }

  function Indexes(index: map<string, nat>, q: Query, n: nat): (indexes: seq<map<string, nat>>)
    ensures |indexes| == n + 1
    decreases n
  {
    if n == 0 then [index] else [index] + Indexes(Select(index, q).1, q, n - 1)
  }

  /** Choice number j is the selection at its index, and leads to the next index. */
  predicate SelectedAt(q: Query, indexes: seq<map<string, nat>>, choices: seq<Choice>, j: nat) {
    j < |choices| && j + 1 < |indexes| && Select(indexes[j], q) == (choices[j], indexes[j + 1])
  }

  ghost predicate Selections(q: Query, indexes: seq<map<string, nat>>, choices: seq<Choice>) {
    |indexes| == |choices| + 1 && forall j: nat :: j < |choices| ==> SelectedAt(q, indexes, choices, j)
  }

  lemma {:induction false} SelectionsOf(index: map<string, nat>, q: Query, n: nat)
    ensures Indexes(index, q, n)[0] == index && Selections(q, Indexes(index, q, n), Choices(index, q, n))
    decreases n
  {
    if n > 0 {
      var next := Select(index, q).1;
      SelectionsOf(next, q, n - 1);
      SelectionsPrepend(q, index, Indexes(next, q, n - 1), Choices(next, q, n - 1));
    }
  }

  lemma SelectionsPrepend(q: Query, index: map<string, nat>, indexes: seq<map<string, nat>>, choices: seq<Choice>)
    requires Selections(q, indexes, choices) && indexes[0] == Select(index, q).1
    ensures Selections(q, [index] + indexes, [Select(index, q).0] + choices)
  {
    forall j: nat | j < |choices| + 1
      ensures SelectedAt(q, [index] + indexes, [Select(index, q).0] + choices, j)
    {
      if j > 0 {
        assert SelectedAt(q, indexes, choices, j - 1);
      }
    }
  }

  // ---- How the loop ends ----------------------------------------------------------------------

  /** The first n attempts were made on chosen hosts, and none attached or lacked its secret. */
  predicate FailedSoFar(choices: seq<Choice>, ends: seq<Attempt>, n: nat) {
    && n <= |choices| && n <= |ends|
    && forall j :: 0 <= j < n ==> choices[j].Chosen? && !ends[j].Patched? && !ends[j].SecretFailed?
  }

  /** The outcome of the loop: the first attempt without a host, with a panic, that attaches or that lacks
      its secret ends it, in this way; and if there is none, it is exhausted. */
  lemma LoopEndsExactly(choices: seq<Choice>, ends: seq<Attempt>, n: nat)
    requires |choices| == |ends| && FailedSoFar(choices, ends, n) && (n < |ends| ==> !FailedSoFar(choices, ends, n + 1))
    requires n <= |ends|
    ensures var run := Attach(choices, ends, 0);
            && (run.outcome == Exhausted <==> n == |ends|)
            && (run.outcome == NoHostSelected <==> n < |ends| && choices[n].NoHost?)
            && (run.outcome == Panicked <==> n < |ends| && choices[n].Panic?)
            && (run.outcome == SecretError <==> n < |ends| && choices[n].Chosen? && ends[n].SecretFailed?)
            && (run.outcome.AttachedTo? <==> n < |ends| && choices[n].Chosen? && ends[n].Patched?)
            && (run.outcome.AttachedTo? ==> choices[n] == Chosen(run.outcome.host))
            && run.calls == if n == |ends| then n else n + 1
  {
    if n == |ends| {
      AttachExhausts(choices, ends);
    } else {
      assert !Retries(choices[n], ends[n]);
      AttachEnds(choices, ends, n);
    }
  }

  /** The log of n attempts that all go on to the next one. */
  function RetriedLog(choices: seq<Choice>, n: nat): seq<Event>
    requires n <= |choices| && forall j :: 0 <= j < n ==> choices[j].Chosen?
  {
    if n == 0 then [] else RetriedLog(choices, n - 1) + RetryLog(choices[n - 1].host, n - 1)
  }

  predicate AllRetry(choices: seq<Choice>, ends: seq<Attempt>, n: nat) {
    n <= |choices| && n <= |ends| && forall j :: 0 <= j < n ==> Retries(choices[j], ends[j])
  }

  /** All attempts but the last go on to the next one, and the last ends the loop with this outcome. */
  predicate EndedBy(choices: seq<Choice>, ends: seq<Attempt>, outcome: Outcome, log: seq<Event>) {
    var n := |ends| - 1;
    && 0 <= n < |choices| && AllRetry(choices, ends, n) && !Retries(choices[n], ends[n])
    && (outcome, log) == (Ending(choices[n], ends[n]).0, RetriedLog(choices, n) + Ending(choices[n], ends[n]).1)
  }

  /** The run `all` has produced `log` in `calls` attempts and goes on as `rest`. */
  ghost predicate Continues(all: Run, rest: Run, log: seq<Event>, calls: nat) {
    all == Run(rest.outcome, log + rest.log, calls + rest.calls)
  }

  lemma AttachNext(choices: seq<Choice>, ends: seq<Attempt>, n: nat)
    requires n < |choices| == |ends| && Retries(choices[n], ends[n])
    ensures Continues(Attach(choices[n..], ends[n..], n), Attach(choices[n + 1..], ends[n + 1..], n + 1),
                      RetryLog(choices[n].host, n), 1)
  {
    assert choices[n..][1..] == choices[n + 1..] && ends[n..][1..] == ends[n + 1..];
  }

  lemma {:induction false} AttachAfter(choices: seq<Choice>, ends: seq<Attempt>, n: nat)
    requires |choices| == |ends| && AllRetry(choices, ends, n)
    ensures Continues(Attach(choices, ends, 0), Attach(choices[n..], ends[n..], n), RetriedLog(choices, n), n)
  {
    if n == 0 {
      assert choices[0..] == choices && ends[0..] == ends;
      assert [] + Attach(choices, ends, 0).log == Attach(choices, ends, 0).log;
    } else {
      AttachAfter(choices, ends, n - 1);
      AttachNext(choices, ends, n - 1);
      var last := Attach(choices[n..], ends[n..], n).log;
      assert RetriedLog(choices, n - 1) + (RetryLog(choices[n - 1].host, n - 1) + last)
          == RetriedLog(choices, n) + last;
    }
  }

  /** A run of n retries and an attempt that ends it. */
  lemma AttachEnds(choices: seq<Choice>, ends: seq<Attempt>, n: nat)
    requires n < |choices| == |ends| && AllRetry(choices, ends, n) && !Retries(choices[n], ends[n])
    ensures var (outcome, log) := Ending(choices[n], ends[n]);
            Attach(choices, ends, 0) == Run(outcome, RetriedLog(choices, n) + log, n + 1)
  {
    AttachAfter(choices, ends, n);
  }

  /** A run of retries only. */
  lemma AttachExhausts(choices: seq<Choice>, ends: seq<Attempt>)
    requires |choices| == |ends| && AllRetry(choices, ends, |ends|)
    ensures Attach(choices, ends, 0) == Run(Exhausted, RetriedLog(choices, |ends|), |ends|)
  {
    AttachAfter(choices, ends, |ends|);
    assert RetriedLog(choices, |ends|) + [] == RetriedLog(choices, |ends|);
  }

  lemma RetrySnoc(choices: seq<Choice>, ends: seq<Attempt>, a: Attempt)
    requires |ends| < |choices| && AllRetry(choices, ends, |ends|)
    ensures AllRetry(choices, ends + [a], |ends|)
    ensures Retries(choices[|ends|], a) ==>
              && AllRetry(choices, ends + [a], |ends| + 1)
              && RetriedLog(choices, |ends| + 1) == RetriedLog(choices, |ends|) + RetryLog(choices[|ends|].host, |ends|)
  {
  }

  function Padding(n: nat): (ends: seq<Attempt>)
    ensures |ends| == n
  {
    if n == 0 then [] else Padding(n - 1) + [GetFailed]
  }

  /** The listed hosts with their names, the claim to write, and what each attempt will meet. */
  datatype Job = Job(q: Query, names: seq<string>, order: MC.ClaimOrder, weather: seq<Weather>)

  ghost predicate Sensible(job: Job, c: Key) {
    |job.names| == |job.q.hosts| && forall i :: 0 <= i < |job.weather| ==> AllForeign(job.weather[i], c)
  }

  /** One attempt of the loop on the host that was chosen, if any. */
  function Made(st: Store, c: Key, uid: nat, job: Job, choice: Choice, n: nat): AttachSpec.Result
    requires n < |job.weather|
  {
    if choice.Chosen? && choice.host < |job.names|
    then Attempted(st, c, uid, job.names[choice.host], job.order, job.weather[n])
    else AttachSpec.Result(GetFailed, false, st)
  }

  /** Attempt number j went from one of these stores to the next and ended as `ends` says. */
  predicate MadeAt(stores: seq<Store>, ends: seq<Attempt>, c: Key, uid: nat, job: Job, choices: seq<Choice>, j: nat) {
    && j < |ends| && j + 1 < |stores| && j < |choices| && j < |job.weather|
    && var r := Made(stores[j], c, uid, job, choices[j], j); ends[j] == r.end && stores[j + 1] == r.store
  }

  /** The stores before the n attempts that were made and after the last, and how they ended. */
  ghost predicate Genuine(stores: seq<Store>, ends: seq<Attempt>, c: Key, uid: nat, job: Job, choices: seq<Choice>,
                          n: nat) {
    |stores| == n + 1 && forall j: nat :: j < n ==> MadeAt(stores, ends, c, uid, job, choices, j)
  }

  /** An attempt that was made on a chosen host attached exactly when all that it needed was there. */
  lemma MadeExactly(stores: seq<Store>, ends: seq<Attempt>, c: Key, uid: nat, job: Job, choices: seq<Choice>, j: nat)
    requires MadeAt(stores, ends, c, uid, job, choices, j) && choices[j].Chosen? && choices[j].host < |job.names|
    ensures ends[j].Patched? <==>
              Succeeds(stores[j], c, uid, job.names[choices[j].host], job.order, job.weather[j])
  {
    PatchedExactly(stores[j], c, uid, job.names[choices[j].host], job.order, job.weather[j]);
  }

  lemma GenuineSnoc(stores: seq<Store>, ends: seq<Attempt>, c: Key, uid: nat, job: Job, choices: seq<Choice>,
                    a: Attempt, st: Store)
    requires Genuine(stores, ends, c, uid, job, choices, |ends|) && |ends| < |choices| == |job.weather|
    requires var r := Made(stores[|ends|], c, uid, job, choices[|ends|], |ends|); a == r.end && st == r.store
    ensures Genuine(stores + [st], ends + [a], c, uid, job, choices, |ends| + 1)
  {
    forall j: nat | j < |ends| + 1
      ensures MadeAt(stores + [st], ends + [a], c, uid, job, choices, j)
    {
      if j < |ends| {
        assert MadeAt(stores, ends, c, uid, job, choices, j);
      }
    }
  }

  lemma GenuineLonger(stores: seq<Store>, ends: seq<Attempt>, all: seq<Attempt>, c: Key, uid: nat, job: Job,
                      choices: seq<Choice>)
    requires Genuine(stores, ends, c, uid, job, choices, |ends|) && ends <= all
    ensures Genuine(stores, all, c, uid, job, choices, |ends|)
  {
    forall j: nat | j < |ends|
      ensures MadeAt(stores, all, c, uid, job, choices, j)
    {
      assert MadeAt(stores, ends, c, uid, job, choices, j);
    }
  }

  /** Nobody interferes with the first attempt, its reads are up to date and its calls succeed, and the
      host is free, or of a machine that is gone or being deleted, with no lease that blocks. */
  predicate CalmFor(st: Store, c: Key, job: Job, host: nat) {
    && host < |job.names| && job.weather != []
    && var h, w := job.names[host], job.weather[0];
       && h in st.objects && Still(w) && Fresh(st, c, h, w) && Attachable(st, h, w)
       && w.updateOk && w.helperOk && w.patchOk && w.releaseOk
       && (job.order.joinMode == TlsBootstrap ==> w.secretOk)
  }

  /** What a store with a history holds was issued. */
  lemma StoredIsOk(st: Store, history: seq<P.Step>, h: string)
    requires Seen(st) == P.Exec(P.INIT, history) && h in st.objects
    ensures StoredOk(st, h)
  {
    assert history[..|history|] == history && Seen(st).hosts[h] == Shown(st.objects[h]);
    ClaimCache.EarlierObjectReadable(history, |history|, |history|, h);
  }

  /** A calm first attempt is the only one. */
  lemma CalmCall(stores: seq<Store>, history: seq<P.Step>, c: Key, uid: nat, job: Job, choices: seq<Choice>,
                 ends: seq<Attempt>)
    requires 0 < |choices| == |job.weather| == |ends|
    requires Genuine(stores, ends, c, uid, job, choices, Attach(choices, ends, 0).calls)
    requires Seen(stores[0]) == P.Exec(P.INIT, history) && c in stores[0].calls && stores[0].calls[c].pc.Idle?
    ensures choices[0].Chosen? && CalmFor(stores[0], c, job, choices[0].host) ==>
              Attach(choices, ends, 0).outcome == AttachedTo(choices[0].host) && Attach(choices, ends, 0).calls == 1
  {
    if choices[0].Chosen? && CalmFor(stores[0], c, job, choices[0].host) {
      var calls := Attach(choices, ends, 0).calls;
      CalmFirst(stores, history, c, uid, job, choices, ends, calls);
      LoopEndsExactly(choices, ends, 0);
    }
  }

  lemma CalmFirst(stores: seq<Store>, history: seq<P.Step>, c: Key, uid: nat, job: Job, choices: seq<Choice>,
                  ends: seq<Attempt>, calls: nat)
    requires calls > 0 && ends != [] && Genuine(stores, ends, c, uid, job, choices, calls)
    requires Seen(stores[0]) == P.Exec(P.INIT, history) && c in stores[0].calls && stores[0].calls[c].pc.Idle?
    requires choices != [] && choices[0].Chosen? && CalmFor(stores[0], c, job, choices[0].host)
    ensures ends[0].Patched?
  {
    CalmMade(stores[0], history, c, uid, job, choices[0].host);
    assert MadeAt(stores, ends, c, uid, job, choices, 0);
  }

  lemma CalmMade(st: Store, history: seq<P.Step>, c: Key, uid: nat, job: Job, host: nat)
    requires CalmFor(st, c, job, host)
    requires Seen(st) == P.Exec(P.INIT, history) && c in st.calls && st.calls[c].pc.Idle?
    ensures Made(st, c, uid, job, Chosen(host), 0).end == Patched
  {
    StoredIsOk(st, history, job.names[host]);
    CalmAttemptAttaches(st, c, uid, job.names[host], job.order, job.weather[0]);
  }

  class Attacher {
    const selector: Selector
    const caller: Caller

    constructor (selector: Selector, caller: Caller)
      ensures this.selector == selector && this.caller == caller
    {
      this.selector, this.caller := selector, caller;
    }

    /** A lease of this call can be left only on these hosts. */
    twostate predicate LeavesOnly(failed: set<string>)
      reads caller.cluster
    {
      ClaimLeases.LeasedBy(caller.cluster.View(), caller.c)
      <= ClaimLeases.LeasedBy(old(caller.cluster.View()), caller.c) + failed
    }

    /** From this position on the history has the call's claim of this listed host. */
    ghost predicate Claims(job: Job, host: nat, from: nat)
      reads caller.cluster
    {
      host < |job.names| && ClaimedSince(caller.cluster.history, from, caller.c, job.names[host])
    }

    /** The history has gone on and the call is idle again. */
    twostate predicate Goes(failed: set<string>)
      reads caller.cluster
    {
      caller.Stands(P.Idle) && old(caller.cluster.history) <= caller.cluster.history && LeavesOnly(failed)
    }

    /** Five attempts at most. `ends` says how each attempt ended, filled up where none was made, and
        `failed` names the hosts on which a release failed or a reload did not show the lease. `stores`
        has the store before each attempt and after the last. */
    method AttachByoHost(job: Job)
      returns (outcome: Outcome, log: seq<Event>, ends: seq<Attempt>, failed: set<string>, ghost stores: seq<Store>)
      requires |job.weather| == MAX_RETRIES && Sensible(job, caller.c) && caller.Stands(P.Idle)
      modifies selector, caller.cluster
      ensures |ends| == |job.weather|
      ensures var run := Attach(Choices(old(selector.roundRobinIndex), job.q, |ends|), ends, 0);
              && outcome == run.outcome && log == run.log && run.calls <= |ends|
              && selector.roundRobinIndex == Indexes(old(selector.roundRobinIndex), job.q, |ends|)[run.calls]
      ensures caller.Stands(P.Idle) && old(caller.cluster.history) <= caller.cluster.history && LeavesOnly(failed)
      ensures var choices := Choices(old(selector.roundRobinIndex), job.q, |ends|);
              var calls := Attach(choices, ends, 0).calls;
              && Genuine(stores, ends, caller.c, caller.uid, job, choices, calls)
              && stores[0] == old(caller.cluster.Contents()) && stores[calls] == caller.cluster.Contents()
      ensures outcome.AttachedTo? ==> Claims(job, outcome.host, |old(caller.cluster.history)|)
      ensures var choice := Select(old(selector.roundRobinIndex), job.q).0;
              choice.Chosen? && CalmFor(old(caller.cluster.Contents()), caller.c, job, choice.host) ==>
                outcome == AttachedTo(choice.host)
    {
      ghost var index, history := selector.roundRobinIndex, caller.cluster.history;
      SelectionsOf(index, job.q, |job.weather|);
      outcome, log, ends, failed, stores :=
        RetryLoop(job, Indexes(index, job.q, |job.weather|), Choices(index, job.q, |job.weather|));
      CalmCall(stores, history, caller.c, caller.uid, job, Choices(index, job.q, |job.weather|), ends);
    }

    /** The selection for attempt n. */
    method Pick(job: Job, n: nat, ghost indexes: seq<map<string, nat>>, ghost choices: seq<Choice>)
      returns (choice: Choice)
      requires n < |choices| && Selections(job.q, indexes, choices) && selector.roundRobinIndex == indexes[n]
      modifies selector
      ensures choice == choices[n] && selector.roundRobinIndex == indexes[n + 1]
      ensures choice.Chosen? ==> choice.host < |job.q.hosts|
    {
      ChosenInList(selector.roundRobinIndex, job.q);
      assert SelectedAt(job.q, indexes, choices, n);
      choice := selector.SelectHostForClaim(job.q);
    }

    /** The attempt on a chosen host. */
    method TryHost(job: Job, host: nat, n: nat, ghost from: nat) returns (a: Attempt, failed: set<string>)
      requires n < |job.weather| && host < |job.names| && Sensible(job, caller.c) && caller.Stands(P.Idle)
      requires from <= |caller.cluster.history|
      modifies caller.cluster
      ensures Goes(failed) && (a.Patched? ==> Claims(job, host, from))
      ensures var r := Made(old(caller.cluster.Contents()), caller.c, caller.uid, job, Chosen(host), n);
              a == r.end && caller.cluster.Contents() == r.store
    {
      var unreleased;
      a, unreleased := caller.Try(job.names[host], job.order, job.weather[n]);
      failed := if unreleased then {job.names[host]} else {};
      forall h | !ClaimLeases.Own(old(caller.cluster.View()), caller.c, h) && h !in failed
        ensures !ClaimLeases.Own(caller.cluster.View(), caller.c, h)
      {
        // an idle call that owns no lease on h accounts for it before, and so after
        assert ClaimLeases.Accounted(old(caller.cluster.View()), caller.c, h);
        assert ClaimLeases.Accounted(caller.cluster.View(), caller.c, h);
      }
      if a.Patched? {
        ClaimedEarlier(caller.cluster.history, from, |old(caller.cluster.history)|, caller.c, job.names[host]);
      }
    }

    /** Which result ends the loop, if the attempt does. */
    method Conclude(choice: Choice, a: Attempt) returns (end: Option<Outcome>, log: seq<Event>)
      ensures end.None? <==> Retries(choice, a)
      ensures end.Some? ==> (end.value, log) == Ending(choice, a)
      ensures end.Some? && end.value.AttachedTo? ==> choice == Chosen(end.value.host) && a.Patched?
    {
      if choice.NoHost? {
        return Some(NoHostSelected), [];
      }
      if choice.Panic? {
        return Some(Panicked), [];
      }
      if a.SecretFailed? {
        return Some(SecretError), [Tried(choice.host)];
      }
      if a.Patched? {
        return Some(AttachedTo(choice.host)), [Tried(choice.host)];
      }
      return None, [];
    }

    /** One attempt of the loop: how it ends the loop, if it does, and what it adds to the log. */
    method Once(job: Job, n: nat, ghost from: nat, ghost indexes: seq<map<string, nat>>, ghost choices: seq<Choice>)
      returns (end: Option<Outcome>, log: seq<Event>, a: Attempt, failed: set<string>)
      requires n < |job.weather| == |choices| && Sensible(job, caller.c) && caller.Stands(P.Idle)
      requires from <= |caller.cluster.history|
      requires Selections(job.q, indexes, choices) && selector.roundRobinIndex == indexes[n]
      modifies selector, caller.cluster
      ensures selector.roundRobinIndex == indexes[n + 1] && Goes(failed)
      ensures var r := Made(old(caller.cluster.Contents()), caller.c, caller.uid, job, choices[n], n);
              a == r.end && caller.cluster.Contents() == r.store
      ensures end.None? <==> Retries(choices[n], a)
      ensures end.None? ==> log == RetryLog(choices[n].host, n)
      ensures end.Some? ==> (end.value, log) == Ending(choices[n], a)
      ensures end.Some? && end.value.AttachedTo? ==> Claims(job, end.value.host, from)
    {
      var choice := Pick(job, n, indexes, choices);
      a, failed := GetFailed, {};
      if choice.Chosen? {
        a, failed := TryHost(job, choice.host, n, from);
      }
      end, log := Conclude(choice, a);
      if end.None? {
        log := [Tried(choice.host), Slept(Backoff(n))];
      }
    }

    /** The loop: every attempt that goes on to the next one sleeps first. */
    method RetryLoop(job: Job, ghost indexes: seq<map<string, nat>>, ghost choices: seq<Choice>)
      returns (outcome: Outcome, log: seq<Event>, ends: seq<Attempt>, failed: set<string>,
               ghost stores: seq<Store>)
      requires Sensible(job, caller.c) && caller.Stands(P.Idle)
      requires |choices| == |job.weather| && Selections(job.q, indexes, choices)
      requires selector.roundRobinIndex == indexes[0]
      modifies selector, caller.cluster
      ensures |ends| == |job.weather|
      ensures var run := Attach(choices, ends, 0);
              && outcome == run.outcome && log == run.log && run.calls <= |ends|
              && selector.roundRobinIndex == indexes[run.calls]
      ensures Goes(failed)
      ensures var calls := Attach(choices, ends, 0).calls;
              && Genuine(stores, ends, caller.c, caller.uid, job, choices, calls)
              && stores[0] == old(caller.cluster.Contents()) && stores[calls] == caller.cluster.Contents()
      ensures outcome.AttachedTo? ==> Claims(job, outcome.host, |old(caller.cluster.history)|)
    {
      var end;
      end, log, ends, failed, stores := TryUntilEnd(job, indexes, choices);
      if end.Some? {
        var all := Filled(choices, ends, |job.weather|);
        GenuineLonger(stores, ends, all, caller.c, caller.uid, job, choices);
        return end.value, log, all, failed, stores;
      }
      AttachExhausts(choices, ends);
      outcome := Exhausted;
    }

    /** The attempt after those that have ended as `ends` says. */
    method Next(job: Job, ends: seq<Attempt>, ghost from: nat, ghost indexes: seq<map<string, nat>>,
                ghost choices: seq<Choice>, ghost stores: seq<Store>)
      returns (end: Option<Outcome>, log: seq<Event>, a: Attempt, failed: set<string>, ghost after: seq<Store>)
      requires |ends| < |job.weather| == |choices| && Sensible(job, caller.c) && caller.Stands(P.Idle)
      requires from <= |caller.cluster.history|
      requires Selections(job.q, indexes, choices) && selector.roundRobinIndex == indexes[|ends|]
      requires Genuine(stores, ends, caller.c, caller.uid, job, choices, |ends|)
      requires stores[|ends|] == caller.cluster.Contents()
      modifies selector, caller.cluster
      ensures selector.roundRobinIndex == indexes[|ends| + 1] && Goes(failed)
      ensures Genuine(after, ends + [a], caller.c, caller.uid, job, choices, |ends| + 1)
      ensures after[0] == stores[0] && after[|ends| + 1] == caller.cluster.Contents()
      ensures end.None? <==> Retries(choices[|ends|], a)
      ensures end.None? ==> log == RetryLog(choices[|ends|].host, |ends|)
      ensures end.Some? ==> (end.value, log) == Ending(choices[|ends|], a)
      ensures end.Some? && end.value.AttachedTo? ==> Claims(job, end.value.host, from)
    {
      end, log, a, failed := Once(job, |ends|, from, indexes, choices);
      GenuineSnoc(stores, ends, caller.c, caller.uid, job, choices, a, caller.cluster.Contents());
      after := stores + [caller.cluster.Contents()];
    }

    /** Attempts until one ends the loop or there are no more; `ends` has those that were made. */
    method TryUntilEnd(job: Job, ghost indexes: seq<map<string, nat>>, ghost choices: seq<Choice>)
      returns (end: Option<Outcome>, log: seq<Event>, ends: seq<Attempt>, failed: set<string>,
               ghost stores: seq<Store>)
      requires Sensible(job, caller.c) && caller.Stands(P.Idle)
      requires |choices| == |job.weather| && Selections(job.q, indexes, choices)
      requires selector.roundRobinIndex == indexes[0]
      modifies selector, caller.cluster
      ensures |ends| <= |choices| && selector.roundRobinIndex == indexes[|ends|] && Goes(failed)
      ensures end.None? ==>
                |ends| == |choices| && AllRetry(choices, ends, |ends|) && log == RetriedLog(choices, |ends|)
      ensures end.Some? ==> EndedBy(choices, ends, end.value, log)
      ensures Genuine(stores, ends, caller.c, caller.uid, job, choices, |ends|)
      ensures stores[0] == old(caller.cluster.Contents()) && stores[|ends|] == caller.cluster.Contents()
      ensures end.Some? && end.value.AttachedTo? ==> Claims(job, end.value.host, |old(caller.cluster.history)|)
    {
      log, ends, failed, stores := [], [], {}, [caller.cluster.Contents()];
      while |ends| < |job.weather|
        invariant |ends| <= |job.weather| && selector.roundRobinIndex == indexes[|ends|] && Goes(failed)
        invariant AllRetry(choices, ends, |ends|) && log == RetriedLog(choices, |ends|)
        invariant Genuine(stores, ends, caller.c, caller.uid, job, choices, |ends|)
        invariant stores[0] == old(caller.cluster.Contents()) && stores[|ends|] == caller.cluster.Contents()
      {
        var last, a, unreleased;
        end, last, a, unreleased, stores :=
          Next(job, ends, |old(caller.cluster.history)|, indexes, choices, stores);
        RetrySnoc(choices, ends, a);
        log, ends, failed := log + last, ends + [a], failed + unreleased;
        if end.Some? {
          return;
        }
      }
      end := None;
    }

    /** The last of the ends so far ends the loop; the rest are filled up. */
    method Filled(ghost choices: seq<Choice>, ends: seq<Attempt>, n: nat) returns (all: seq<Attempt>)
      requires 0 < |ends| <= |choices| == n && AllRetry(choices, ends, |ends| - 1)
      requires !Retries(choices[|ends| - 1], ends[|ends| - 1])
      ensures |all| == n && ends <= all
      ensures var (outcome, log) := Ending(choices[|ends| - 1], ends[|ends| - 1]);
              Attach(choices, all, 0) == Run(outcome, RetriedLog(choices, |ends| - 1) + log, |ends|)
    {
      all := ends + Padding(n - |ends|);
      AttachEnds(choices, all, |ends| - 1);
    }
  }

  // ---- Attempts and sleeps --------------------------------------------------------------------

  function Asleep(log: seq<Event>): nat {
    if log == [] then 0
    else (if log[0].Slept? then log[0].milliseconds else 0) + Asleep(log[1..])
  }

  function Targets(log: seq<Event>): seq<nat> {
    if log == [] then []
    else (if log[0].Tried? then [log[0].host] else []) + Targets(log[1..])
  }

  lemma Prepend(e: Event, log: seq<Event>)
    ensures Asleep([e] + log) == (if e.Slept? then e.milliseconds else 0) + Asleep(log)
    ensures Targets([e] + log) == (if e.Tried? then [e.host] else []) + Targets(log)
  {
    assert ([e] + log)[1..] == log;
  }

  /** One failed attempt in front of a log. */
  lemma RetryInFront(h: nat, n: nat, rest: seq<Event>)
    ensures Asleep(RetryLog(h, n) + rest) == Backoff(n) + Asleep(rest)
    ensures Targets(RetryLog(h, n) + rest) == [h] + Targets(rest)
  {
    Prepend(Slept(Backoff(n)), rest);
    Prepend(Tried(h), [Slept(Backoff(n))] + rest);
    assert RetryLog(h, n) + rest == [Tried(h)] + ([Slept(Backoff(n))] + rest);
  }

  lemma EndingLog(choice: Choice, a: Attempt)
    requires !Retries(choice, a)
    ensures var (outcome, log) := Ending(choice, a);
            Asleep(log) == 0 && Targets(log) == if choice.Chosen? then [choice.host] else []
  {
    if choice.Chosen? {
      Prepend(Tried(choice.host), []);
    }
  }

  /** How many attempts fail and go on to the next. */
  function Failures(choices: seq<Choice>, ends: seq<Attempt>): (f: nat)
    requires |choices| == |ends|
    ensures f <= |ends|
    decreases |ends|
  {
    if ends == [] || !Retries(choices[0], ends[0]) then 0 else 1 + Failures(choices[1..], ends[1..])
  }

  /** The sum of the sleeps of f attempts from attempt n on. */
  function Sleeps(n: nat, f: nat): nat
    decreases f
  {
    if f == 0 then 0 else Backoff(n) + Sleeps(n + 1, f - 1)
  }

  lemma {:induction false} SleepsClosedForm(n: nat, f: nat)
    requires 1 <= n
    ensures Sleeps(n, f) + Pow2(n - 1) * 100 == Pow2(n + f - 1) * 100
    decreases f
  {
    if f > 0 {
      SleepsClosedForm(n + 1, f - 1);
    }
  }

  lemma {:induction false} SleepsOfRun(choices: seq<Choice>, ends: seq<Attempt>, n: nat)
    requires |choices| == |ends|
    ensures Asleep(Attach(choices, ends, n).log) == Sleeps(n, Failures(choices, ends))
    decreases |ends|
  {
    if ends != [] {
      if Retries(choices[0], ends[0]) {
        SleepsOfRun(choices[1..], ends[1..], n + 1);
        RetryInFront(choices[0].host, n, Attach(choices[1..], ends[1..], n + 1).log);
      } else {
        EndingLog(choices[0], ends[0]);
      }
    }
  }

  /** A call whose first f attempts fail sleeps (2^(f-1) - 1) * 100 ms in all. */
  lemma {:induction false} TotalSleep(choices: seq<Choice>, ends: seq<Attempt>)
    requires |choices| == |ends|
    ensures var f := Failures(choices, ends);
            Asleep(Attach(choices, ends, 0).log) == if f == 0 then 0 else (Pow2(f - 1) - 1) * 100
  {
    SleepsOfRun(choices, ends, 0);
    if Failures(choices, ends) > 0 {
      SleepsClosedForm(1, Failures(choices, ends) - 1);
    }
  }

  lemma {:induction false} Pow2Monotone(m: nat, n: nat)
    requires m <= n
    ensures Pow2(m) <= Pow2(n)
    decreases n
  {
    if m < n {
      Pow2Monotone(m, n - 1);
    }
  }

  /** A call of at most five attempts sleeps at most 1.5 s. */
  lemma {:induction false} SleepBound(choices: seq<Choice>, ends: seq<Attempt>)
    requires |choices| == |ends| == MAX_RETRIES
    ensures Asleep(Attach(choices, ends, 0).log) <= 1500
    ensures Failures(choices, ends) == MAX_RETRIES ==> Asleep(Attach(choices, ends, 0).log) == 1500
  {
    TotalSleep(choices, ends);
    var f := Failures(choices, ends);
    assert Pow2(4) == 2 * Pow2(3) && Pow2(3) == 2 * Pow2(2) && Pow2(2) == 4;
    if f > 0 {
      Pow2Monotone(f - 1, 4);
    }
  }

  // ---- Coverage -------------------------------------------------------------------------------

  predicate Offered(choices: seq<Choice>, t: seq<nat>) {
    |t| <= |choices| && forall j :: 0 <= j < |t| ==> choices[j] == Chosen(t[j])
  }

  lemma OfferedNext(choices: seq<Choice>, t: seq<nat>)
    requires choices != [] && choices[0].Chosen? && Offered(choices[1..], t)
    ensures Offered(choices, [choices[0].host] + t)
  {
    forall j | 0 <= j < |t| + 1
      ensures choices[j] == Chosen(([choices[0].host] + t)[j])
    {
      if j > 0 {
        assert choices[1..][j - 1] == choices[j];
      }
    }
  }

  /** The hosts tried are the hosts offered, in order, and success is on the last of them. */
  predicate Faithful(run: Run, t: seq<nat>, choices: seq<Choice>, ends: seq<Attempt>) {
    && |t| <= run.calls <= |ends| && |choices| == |ends|
    && Offered(choices, t)
    && (run.outcome.AttachedTo? ==> t != [] && run.outcome.host == t[|t| - 1] && ends[|t| - 1].Patched?)
    && (run.outcome.Exhausted? ==> |t| == |ends|)
  }

  lemma FaithfulNext(rest: Run, t: seq<nat>, choices: seq<Choice>, ends: seq<Attempt>, log: seq<Event>)
    requires |choices| == |ends| && ends != [] && choices[0].Chosen? && Faithful(rest, t, choices[1..], ends[1..])
    ensures Faithful(Run(rest.outcome, log, 1 + rest.calls), [choices[0].host] + t, choices, ends)
  {
    OfferedNext(choices, t);
  }

  lemma {:induction false} TargetsAreChoices(choices: seq<Choice>, ends: seq<Attempt>, n: nat)
    requires |choices| == |ends|
    ensures Faithful(Attach(choices, ends, n), Targets(Attach(choices, ends, n).log), choices, ends)
    decreases |ends|
  {
    if ends != [] {
      if Retries(choices[0], ends[0]) {
        var rest := Attach(choices[1..], ends[1..], n + 1);
        TargetsAreChoices(choices[1..], ends[1..], n + 1);
        RetryInFront(choices[0].host, n, rest.log);
        FaithfulNext(rest, Targets(rest.log), choices, ends, RetryLog(choices[0].host, n) + rest.log);
      } else {
        EndingLog(choices[0], ends[0]);
      }
    }
  }

  /** With the stored index in range, the choices are the top hosts in turn. */
  lemma {:induction false} ChoicesInTurn(q: Query, indexes: seq<map<string, nat>>, choices: seq<Choice>, j: nat)
    requires Selections(q, indexes, choices) && j <= |choices| && Stored(indexes[0], q.cluster) < |Top(q)|
    ensures Stored(indexes[j], q.cluster) == Turn(Stored(indexes[0], q.cluster), j, |Top(q)|)
    ensures j < |choices| ==> choices[j] == Chosen(Top(q)[Turn(Stored(indexes[0], q.cluster), j, |Top(q)|)])
  {
    if j > 0 {
      ChoicesInTurn(q, indexes, choices, j - 1);
      assert SelectedAt(q, indexes, choices, j - 1);
      SelectAdvances(indexes[j - 1], q, q.cluster);
    }
    SelectAdvances(indexes[j], q, q.cluster);
    if j < |choices| {
      assert SelectedAt(q, indexes, choices, j);
    }
  }

  predicate InTurn(t: seq<nat>, top: seq<nat>, i: nat)
    requires i < |top|
  {
    forall j: nat :: j < |t| ==> t[j] == top[Turn(i, j, |top|)]
  }

  lemma TurnsDistinct(t: seq<nat>, top: seq<nat>, i: nat, a: nat, b: nat)
    requires i < |top| && InTurn(t, top, i) && Ascending(top) && a < b < |t| && b < |top|
    ensures t[a] != t[b]
  {
    TurnFrom(i, 0, a, |top|);
    TurnFrom(i, 0, b, |top|);
  }

  lemma TurnsCover(t: seq<nat>, top: seq<nat>, i: nat, p: nat)
    requires i < |top| <= |t| && InTurn(t, top, i) && p < |top|
    ensures top[p] in t
  {
    var n := EachPositionOnce(i, 0, |top|, p);
    assert t[n] == top[p];
  }

  lemma {:induction false} TargetsInTurn(index: map<string, nat>, q: Query, ends: seq<Attempt>)
    requires Stored(index, q.cluster) < |Top(q)|
    ensures InTurn(Targets(Attach(Choices(index, q, |ends|), ends, 0).log), Top(q), Stored(index, q.cluster))
  {
    var choices := Choices(index, q, |ends|);
    SelectionsOf(index, q, |ends|);
    TargetsAreChoices(choices, ends, 0);
    var t := Targets(Attach(choices, ends, 0).log);
    forall j: nat | j < |t|
      ensures t[j] == Top(q)[Turn(Stored(index, q.cluster), j, |Top(q)|)]
    {
      ChoicesInTurn(q, Indexes(index, q, |ends|), choices, j);
    }
  }

  /** Retry coverage: the first min(|ends|, k) attempts go to pairwise distinct top hosts, and a call
      that gives up has tried every one of them when there are at most |ends|. */
  lemma {:induction false} RetryCoverage(index: map<string, nat>, q: Query, ends: seq<Attempt>)
    requires Stored(index, q.cluster) < |Top(q)|
    ensures var t := Targets(Attach(Choices(index, q, |ends|), ends, 0).log);
            forall a: nat, b: nat :: a < b < |t| && b < |Top(q)| ==> t[a] != t[b]
    ensures var run := Attach(Choices(index, q, |ends|), ends, 0);
            run.outcome.Exhausted? && |Top(q)| <= |ends| ==>
              forall p: nat :: p < |Top(q)| ==> Top(q)[p] in Targets(run.log)
  {
    var i, run := Stored(index, q.cluster), Attach(Choices(index, q, |ends|), ends, 0);
    var t := Targets(run.log);
    TargetsInTurn(index, q, ends);
    TopAscends(q);
    forall a: nat, b: nat | a < b < |t| && b < |Top(q)|
      ensures t[a] != t[b]
    {
      TurnsDistinct(t, Top(q), i, a, b);
    }
    TargetsAreChoices(Choices(index, q, |ends|), ends, 0);
    if run.outcome.Exhausted? && |Top(q)| <= |ends| {
      forall p: nat | p < |Top(q)|
        ensures Top(q)[p] in t
      {
        TurnsCover(t, Top(q), i, p);
      }
    }
  }
}
