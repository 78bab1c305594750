/** selectHostForClaim: the highest priority first, round robin per cluster among equals. */
module HostSelection {
  import opened ByoModel

  /** What selection reads of a listed host; quantities are compared as numbers. */
  datatype Candidate = Candidate(bound: bool, priority: Option<int>, labels: map<string, string>,
                                 capacity: map<string, int>)
  {
    predicate IsAvailable() {
      !bound
    }

    function GetPriority(): int {
      if priority.None? then 0 else priority.value
    }

    /** A label that the host lacks reads as the empty string. */
    predicate MatchesRequirements(selector: map<string, string>, required: map<string, int>) {
      && (forall k :: k in selector ==> (if k in labels then labels[k] else "") == selector[k])
      && (forall r :: r in required ==> r in capacity && capacity[r] >= required[r])
    }
  }

  datatype Query = Query(hosts: seq<Candidate>, cluster: string, required: Option<map<string, int>>)

  /** Panic: the Go code indexes the slice of top hosts out of range. */
  datatype Choice = NoHost | Panic | Chosen(host: nat)

  predicate Eligible(q: Query, i: nat) {
    && i < |q.hosts| && q.hosts[i].IsAvailable()
    && (q.required.Some? ==> q.hosts[i].MatchesRequirements(map[], q.required.value))
  }

  predicate Ascending(s: seq<nat>) {
    forall a, b :: 0 <= a < b < |s| ==> s[a] < s[b]
  }

  function Priority(q: Query, i: nat): int {
    if i < |q.hosts| then q.hosts[i].GetPriority() else 0
  }

  /** The largest priority of the given hosts, but at least zero. */
  function MaxPriority(q: Query, among: seq<nat>): int {
    if among == [] then 0
    else
      var m := MaxPriority(q, among[..|among| - 1]);
      if Priority(q, among[|among| - 1]) > m then Priority(q, among[|among| - 1]) else m
  }

  /** The eligible hosts before position n, in list order. */
  function Available(q: Query, n: nat): seq<nat> {
    if n == 0 then []
    else if Eligible(q, n - 1) then Available(q, n - 1) + [n - 1]
    else Available(q, n - 1)
  }

  /** Those of the given hosts that have priority m, in order. */
  function WithPriority(q: Query, among: seq<nat>, m: int): seq<nat> {
    if among == [] then []
    else
      var n := |among| - 1;
      if Priority(q, among[n]) == m then WithPriority(q, among[..n], m) + [among[n]]
      else WithPriority(q, among[..n], m)
  }

  /** The top class: the eligible hosts of maximal priority. */
  function Top(q: Query): seq<nat> {
    var all := Available(q, |q.hosts|);
    WithPriority(q, all, MaxPriority(q, all))
  }

  function Stored(index: map<string, nat>, cluster: string): nat {
    if cluster in index then index[cluster] else 0
  }

  function Select(index: map<string, nat>, q: Query): (Choice, map<string, nat>) {
    if Available(q, |q.hosts|) == [] then (NoHost, index)
    else
      var i, k := Stored(index, q.cluster), |Top(q)|;
      if i >= k then (Panic, index[q.cluster := i])
      else (Chosen(Top(q)[i]), index[q.cluster := (i + 1) % k])
  }

  /** The reconciler's in-memory selection state. */
  class Selector {
    var roundRobinIndex: map<string, nat>

    constructor ()
      ensures roundRobinIndex == map[]
    {
      roundRobinIndex := map[];
    }

    method SelectHostForClaim(q: Query) returns (choice: Choice)
      modifies this
      ensures (choice, roundRobinIndex) == Select(old(roundRobinIndex), q)
    {
      var available := FilterAvailable(q);
      if available == [] {
        return NoHost;
      }
      var maxPriority := FindMaxPriority(q, available);
      var top := CollectPriority(q, available, maxPriority);
      if q.cluster !in roundRobinIndex {
        roundRobinIndex := roundRobinIndex[q.cluster := 0];
      }
      var current := roundRobinIndex[q.cluster];
      assert top == Top(q) && current == Stored(old(roundRobinIndex), q.cluster);
      assert roundRobinIndex == old(roundRobinIndex)[q.cluster := current];
      if current >= |top| {
        return Panic;
      }
      choice := Chosen(top[current]);
      var next := (current + 1) % |top|;
      roundRobinIndex := roundRobinIndex[q.cluster := next];
      assert roundRobinIndex == old(roundRobinIndex)[q.cluster := next];
    }
  }

  method FilterAvailable(q: Query) returns (available: seq<nat>)
    ensures available == Available(q, |q.hosts|)
  {
    available := [];
    for i := 0 to |q.hosts|
      invariant available == Available(q, i)
    {
      if !q.hosts[i].IsAvailable() {
        continue;
      }
      if q.required.Some? {
        if !q.hosts[i].MatchesRequirements(map[], q.required.value) {
          continue;
        }
      }
      available := available + [i];
    }
  }

  method FindMaxPriority(q: Query, among: seq<nat>) returns (maxPriority: int)
    ensures maxPriority == MaxPriority(q, among)
  {
    maxPriority := 0;
    for i := 0 to |among|
      invariant maxPriority == MaxPriority(q, among[..i])
    {
      assert among[..i + 1][..i] == among[..i];
      if Priority(q, among[i]) > maxPriority {
        maxPriority := Priority(q, among[i]);
      }
    }
    assert among[..|among|] == among;
  }

  method CollectPriority(q: Query, among: seq<nat>, m: int) returns (top: seq<nat>)
    ensures top == WithPriority(q, among, m)
  {
    top := [];
    for i := 0 to |among|
      invariant top == WithPriority(q, among[..i], m)
    {
      assert among[..i + 1][..i] == among[..i];
      if Priority(q, among[i]) == m {
        top := top + [among[i]];
      }
    }
    assert among[..|among|] == among;
  }

  lemma {:induction false} AvailableExactly(q: Query, n: nat, i: nat)
    ensures i in Available(q, n) <==> i < n && Eligible(q, i)
  {
    if n > 0 {
      AvailableExactly(q, n - 1, i);
    }
  }

  lemma AscendingSnoc(s: seq<nat>, x: nat)
    requires Ascending(s) && forall i :: i in s ==> i < x
    ensures Ascending(s + [x])
  {
    assert forall a :: 0 <= a < |s| ==> s[a] in s;
  }

  lemma {:induction false} AvailableAscends(q: Query, n: nat)
    ensures Ascending(Available(q, n)) && forall i :: i in Available(q, n) ==> i < n
  {
    if n > 0 {
      AvailableAscends(q, n - 1);
      AscendingSnoc(Available(q, n - 1), n - 1);
    }
  }

  lemma {:induction false} WithPriorityExactly(q: Query, among: seq<nat>, m: int, i: nat)
    ensures i in WithPriority(q, among, m) <==> i in among && Priority(q, i) == m
    decreases |among|
  {
    if among != [] {
      assert among == among[..|among| - 1] + [among[|among| - 1]];
      WithPriorityExactly(q, among[..|among| - 1], m, i);
    }
  }

  lemma {:induction false} WithPriorityAscends(q: Query, among: seq<nat>, m: int)
    requires Ascending(among)
    ensures Ascending(WithPriority(q, among, m))
    decreases |among|
  {
    if among != [] {
      var n := |among| - 1;
      WithPriorityAscends(q, among[..n], m);
      forall i: nat | i in WithPriority(q, among[..n], m)
        ensures i < among[n]
      {
        WithPriorityExactly(q, among[..n], m, i);
      }
      AscendingSnoc(WithPriority(q, among[..n], m), among[n]);
    }
  }

  lemma TopAscends(q: Query)
    ensures Ascending(Top(q))
  {
    AvailableAscends(q, |q.hosts|);
    WithPriorityAscends(q, Available(q, |q.hosts|), MaxPriority(q, Available(q, |q.hosts|)));
  }

  lemma {:induction false} MaxPriorityBounds(q: Query, among: seq<nat>, i: nat)
    requires i in among
    ensures Priority(q, i) <= MaxPriority(q, among)
    decreases |among|
  {
    if i != among[|among| - 1] {
      MaxPriorityBounds(q, among[..|among| - 1], i);
    }
  }

  lemma {:induction false} MaxPriorityReached(q: Query, among: seq<nat>) returns (i: nat)
    requires MaxPriority(q, among) != 0
    ensures i in among && Priority(q, i) == MaxPriority(q, among) > 0
    decreases |among|
  {
    var n := |among| - 1;
    if Priority(q, among[n]) > MaxPriority(q, among[..n]) {
      MaxPriorityNonNegative(q, among[..n]);
      i := among[n];
    } else {
      i := MaxPriorityReached(q, among[..n]);
    }
  }

  lemma {:induction false} MaxPriorityNonNegative(q: Query, among: seq<nat>)
    ensures MaxPriority(q, among) >= 0
    decreases |among|
  {
    if among != [] {
      MaxPriorityNonNegative(q, among[..|among| - 1]);
    }
  }

  /** i is eligible, not negative, and no eligible host outranks it. */
  ghost predicate Best(q: Query, i: nat) {
    && Eligible(q, i) && Priority(q, i) >= 0
    && forall j: nat :: Eligible(q, j) ==> Priority(q, j) <= Priority(q, i)
  }

  /** The top class is what it should be: the eligible hosts that no eligible host outranks, unless
      every eligible host has negative priority, and then it is empty. */
  lemma TopExactly(q: Query, i: nat)
    ensures i in Top(q) <==> Best(q, i)
  {
    var all := Available(q, |q.hosts|);
    var m := MaxPriority(q, all);
    AvailableExactly(q, |q.hosts|, i);
    WithPriorityExactly(q, all, m, i);
    MaxPriorityNonNegative(q, all);
    if i in Top(q) {
      forall j: nat | Eligible(q, j)
        ensures Priority(q, j) <= Priority(q, i)
      {
        AvailableExactly(q, |q.hosts|, j);
        MaxPriorityBounds(q, all, j);
      }
    } else if Best(q, i) {
      MaxPriorityBounds(q, all, i);
      var j := MaxPriorityReached(q, all);
      AvailableExactly(q, |q.hosts|, j);
      assert false;
    }
  }

  lemma TopNonEmptyExactly(q: Query)
    ensures Top(q) != [] <==> exists i: nat :: Eligible(q, i) && Priority(q, i) >= 0
  {
    if i: nat :| Eligible(q, i) && Priority(q, i) >= 0 {
      var b := SomeBest(q, i);
      TopExactly(q, b);
    }
    if Top(q) != [] {
      assert Top(q)[0] in Top(q);
      TopExactly(q, Top(q)[0]);
    }
  }

  lemma SomeBest(q: Query, i: nat) returns (b: nat)
    requires Eligible(q, i) && Priority(q, i) >= 0
    ensures Best(q, b)
  {
    var all := Available(q, |q.hosts|);
    AvailableExactly(q, |q.hosts|, i);
    MaxPriorityBounds(q, all, i);
    b := i;
    if MaxPriority(q, all) != 0 {
      b := MaxPriorityReached(q, all);
      AvailableExactly(q, |q.hosts|, b);
    }
    forall j: nat | Eligible(q, j)
      ensures Priority(q, j) <= Priority(q, b)
    {
      AvailableExactly(q, |q.hosts|, j);
      MaxPriorityBounds(q, all, j);
    }
  }

  /** The host is listed and unbound, and has as much of every required resource as is asked. */
  ghost predicate Fits(q: Query, i: nat) {
    && i < |q.hosts| && !q.hosts[i].bound
    && (q.required.Some? ==>
          forall r :: r in q.required.value ==>
                        r in q.hosts[i].capacity && q.required.value[r] <= q.hosts[i].capacity[r])
  }

  /** What makes a host eligible, and what its rank is. */
  lemma EligibleExactly(q: Query, i: nat)
    ensures Eligible(q, i) <==> Fits(q, i)
    ensures i < |q.hosts| ==> Priority(q, i) == match q.hosts[i].priority case None => 0 case Some(p) => p
  {
  }

  /** Optimality: a chosen host is unbound, meets every capacity requirement, and no host that does
      outranks it. */
  lemma SelectionOptimal(index: map<string, nat>, q: Query)
    requires Select(index, q).0.Chosen?
    ensures var i := Select(index, q).0.host;
            Fits(q, i) && (forall j: nat :: Fits(q, j) ==> Priority(q, j) <= Priority(q, i))
  {
    forall j: nat
      ensures Eligible(q, j) <==> Fits(q, j)
    {
      EligibleExactly(q, j);
    }
    TopExactly(q, Select(index, q).0.host);
    assert Select(index, q).0.host in Top(q);
  }

  /** Exactly when selection finds nothing, and exactly when it panics: some host is eligible, but
      all eligible ones have negative priority, or the stored index is not below the class size. */
  lemma SelectionFailsExactly(index: map<string, nat>, q: Query)
    ensures Select(index, q).0.NoHost? <==> forall i: nat :: !Eligible(q, i)
    ensures Select(index, q).0.Panic? <==>
              && (exists i: nat :: Eligible(q, i))
              && ((forall i: nat :: Eligible(q, i) ==> Priority(q, i) < 0)
                  || Stored(index, q.cluster) >= |Top(q)|)
  {
    TopNonEmptyExactly(q);
    var all := Available(q, |q.hosts|);
    if all != [] {
      AvailableExactly(q, |q.hosts|, all[0]);
    }
    forall i: nat | Eligible(q, i)
      ensures i in all
    {
      AvailableExactly(q, |q.hosts|, i);
    }
  }

  /** A panic ends the process, and a new one starts with an empty index. It panics on the same pool if
      and only if every eligible host has negative priority. */
  lemma PanicsAgainExactly(index: map<string, nat>, q: Query)
    requires Select(index, q).0.Panic?
    ensures Select(map[], q).0.Panic? <==> forall i: nat :: Eligible(q, i) ==> Priority(q, i) < 0
  {
    SelectionFailsExactly(index, q);
    SelectionFailsExactly(map[], q);
    TopNonEmptyExactly(q);
  }

  /** Two equal hosts in the pool: taking the first makes the next selection panic, because the
      stored index is not brought below the size of the shrunk class. */
  lemma ShrunkPoolPanics(a: Candidate, b: Candidate, cluster: string)
    requires !a.bound && !b.bound && a.GetPriority() == 0 && b.GetPriority() == 0
    ensures var first := Select(map[], Query([a, b], cluster, None));
            first.0 == Chosen(0) && Select(first.1, Query([b], cluster, None)).0 == Panic
  {
    var q, r := Query([a, b], cluster, None), Query([b], cluster, None);
    TopOfEquals(q);
    TopOfEquals(r);
  }

  /** In a pool of unbound hosts of priority zero everyone is in the top class. */
  lemma TopOfEquals(q: Query)
    requires q.required.None? && forall c :: c in q.hosts ==> !c.bound && c.GetPriority() == 0
    ensures Top(q) == seq(|q.hosts|, i => i)
  {
    var all := Available(q, |q.hosts|);
    AvailableOfAll(q, |q.hosts|);
    forall a | 0 <= a < |all|
      ensures Priority(q, all[a]) == 0
    {
      assert q.hosts[all[a]] in q.hosts;
    }
    NoneAbove(q, all);
    EveryoneHas(q, all, 0);
  }

  lemma {:induction false} AvailableOfAll(q: Query, n: nat)
    requires n <= |q.hosts| && q.required.None? && forall c :: c in q.hosts ==> !c.bound
    ensures Available(q, n) == seq(n, i => i)
  {
    if n > 0 {
      AvailableOfAll(q, n - 1);
      assert q.hosts[n - 1] in q.hosts;
    }
  }

  lemma {:induction false} EveryoneHas(q: Query, among: seq<nat>, m: int)
    requires forall a :: 0 <= a < |among| ==> Priority(q, among[a]) == m
    ensures WithPriority(q, among, m) == among
    decreases |among|
  {
    if among != [] {
      EveryoneHas(q, among[..|among| - 1], m);
    }
  }

  lemma {:induction false} NoneAbove(q: Query, among: seq<nat>)
    requires forall a :: 0 <= a < |among| ==> Priority(q, among[a]) == 0
    ensures MaxPriority(q, among) == 0
    decreases |among|
  {
    if among != [] {
      NoneAbove(q, among[..|among| - 1]);
    }
  }

  // ---- Fairness over a run of calls -----------------------------------------------------------

  /** The index map after the calls. */
  function After(index: map<string, nat>, calls: seq<Query>): map<string, nat> {
    if calls == [] then index else Select(After(index, calls[..|calls| - 1]), calls[|calls| - 1]).1
  }

  /** How many of the calls are for this cluster. */
  function CallsFor(calls: seq<Query>, cluster: string): nat {
    if calls == [] then 0
    else CallsFor(calls[..|calls| - 1], cluster) + (if calls[|calls| - 1].cluster == cluster then 1 else 0)
  }

  /** Whenever this cluster asks, the pool shows it the same top class. */
  predicate SteadyPool(calls: seq<Query>, cluster: string, top: seq<nat>) {
    forall q :: q in calls && q.cluster == cluster ==> Top(q) == top
  }

  /** The position after n turns from position i in a cycle of k. */
  function Turn(i: nat, n: nat, k: nat): (p: nat)
    requires i < k
    ensures p < k
  {
    if n == 0 then i
    else if Turn(i, n - 1, k) + 1 == k then 0 else Turn(i, n - 1, k) + 1
  }

  lemma WrapAround(x: nat, k: nat)
    requires x < k
    ensures (x + 1) % k == if x + 1 == k then 0 else x + 1
  {
    if x + 1 == k {
      assert k % k == 0;
    }
  }

  /** The stored index of a cluster counts its own calls, modulo the class size, whatever calls
      other clusters make in between. */
  lemma {:induction false} IndexCountsOwnCalls(index: map<string, nat>, calls: seq<Query>, cluster: string,
                                               top: seq<nat>)
    requires top != [] && Stored(index, cluster) < |top| && SteadyPool(calls, cluster, top)
    ensures Stored(After(index, calls), cluster)
         == Turn(Stored(index, cluster), CallsFor(calls, cluster), |top|)
    decreases |calls|
  {
    if calls != [] {
      var n := |calls| - 1;
      assert SteadyPool(calls[..n], cluster, top);
      IndexCountsOwnCalls(index, calls[..n], cluster, top);
      SelectAdvances(After(index, calls[..n]), calls[n], cluster);
    }
  }

  /** A call moves only its own cluster's index, and with an index in range it moves it by one turn. */
  lemma SelectAdvances(index: map<string, nat>, q: Query, cluster: string)
    ensures q.cluster != cluster ==> Stored(Select(index, q).1, cluster) == Stored(index, cluster)
    ensures Stored(index, q.cluster) < |Top(q)| ==>
              && Select(index, q).0 == Chosen(Top(q)[Stored(index, q.cluster)])
              && Stored(Select(index, q).1, q.cluster) == Turn(Stored(index, q.cluster), 1, |Top(q)|)
  {
    TopWithinAvailable(q);
    if Stored(index, q.cluster) < |Top(q)| {
      WrapAround(Stored(index, q.cluster), |Top(q)|);
    }
  }

  lemma TopWithinAvailable(q: Query)
    ensures Top(q) != [] ==> Available(q, |q.hosts|) != []
  {
    if Top(q) != [] {
      var all := Available(q, |q.hosts|);
      WithPriorityExactly(q, all, MaxPriority(q, all), Top(q)[0]);
    }
  }

  /** Round robin: the call number n of a cluster returns the top host number i + n, cyclically. */
  lemma {:induction false} RoundRobin(index: map<string, nat>, calls: seq<Query>, j: nat, cluster: string,
                                      top: seq<nat>)
    requires top != [] && Stored(index, cluster) < |top| && SteadyPool(calls, cluster, top)
    requires j < |calls| && calls[j].cluster == cluster
    ensures Select(After(index, calls[..j]), calls[j]).0
         == Chosen(top[Turn(Stored(index, cluster), CallsFor(calls[..j], cluster), |top|)])
  {
    assert SteadyPool(calls[..j], cluster, top);
    IndexCountsOwnCalls(index, calls[..j], cluster, top);
    assert calls[j] in calls;
    SelectAdvances(After(index, calls[..j]), calls[j], cluster);
  }

  lemma {:induction false} TurnFrom(i: nat, a: nat, d: nat, k: nat)
    requires i < k && d <= k
    ensures var e := Turn(i, a, k); Turn(i, a + d, k) == if e + d < k then e + d else e + d - k
    decreases d
  {
    if d > 0 {
      TurnFrom(i, a, d - 1, k);
    }
  }

  /** Fairness: among any k consecutive turns exactly one falls on each of the k positions. */
  lemma EachPositionOnce(i: nat, a: nat, k: nat, p: nat) returns (n: nat)
    requires i < k && p < k
    ensures a <= n < a + k && Turn(i, n, k) == p
    ensures forall m :: a <= m < a + k && Turn(i, m, k) == p ==> m == n
  {
    var e := Turn(i, a, k);
    n := if p >= e then a + (p - e) else a + (p + k - e);
    TurnFrom(i, a, n - a, k);
    forall m | a <= m < a + k && Turn(i, m, k) == p
      ensures m == n
    {
      TurnFrom(i, a, m - a, k);
    }
  }

  /** After a choice the stored index is below the size of the class it was chosen from, and the next
      call of the cluster is safe exactly when its class is larger than the index. */
  lemma NextCallSafeExactly(index: map<string, nat>, q: Query, next: Query)
    requires Select(index, q).0.Chosen? && next.cluster == q.cluster && exists i: nat :: Eligible(next, i)
    ensures Stored(Select(index, q).1, q.cluster) < |Top(q)|
    ensures Select(Select(index, q).1, next).0.Chosen? <==>
              Stored(Select(index, q).1, q.cluster) < |Top(next)|
  {
    SelectionFailsExactly(Select(index, q).1, next);
    TopNonEmptyExactly(next);
  }

  /** A call for this cluster that finds an eligible host, and so reads the index. */
  predicate Reads(calls: seq<Query>, j: nat, cluster: string) {
    j < |calls| && calls[j].cluster == cluster && Available(calls[j], |calls[j].hosts|) != []
  }

  /** From call n on, every class that the cluster is shown is larger than the index i. */
  ghost predicate Above(calls: seq<Query>, n: nat, cluster: string, i: nat) {
    forall j: nat :: n <= j && Reads(calls, j, cluster) ==> i < |Top(calls[j])|
  }

  /** The class that the cluster is shown never shrinks from one of its calls to a later one. */
  ghost predicate NeverShrinks(calls: seq<Query>, cluster: string) {
    forall j: nat, k: nat :: j < k && Reads(calls, j, cluster) && Reads(calls, k, cluster) ==>
                               |Top(calls[j])| <= |Top(calls[k])|
  }

  lemma CallKeepsIndexLow(index: map<string, nat>, calls: seq<Query>, n: nat, cluster: string)
    requires n < |calls| && NeverShrinks(calls, cluster) && Above(calls, n, cluster, Stored(index, cluster))
    ensures Above(calls, n + 1, cluster, Stored(Select(index, calls[n]).1, cluster))
  {
    SelectAdvances(index, calls[n], cluster);
    if Reads(calls, n, cluster) {
      var i := Stored(Select(index, calls[n]).1, cluster);
      assert i < |Top(calls[n])|;
      forall j: nat | n + 1 <= j && Reads(calls, j, cluster)
        ensures i < |Top(calls[j])|
      {
      }
    }
  }

  lemma {:induction false} IndexStaysLow(index: map<string, nat>, calls: seq<Query>, n: nat, cluster: string)
    requires n <= |calls| && NeverShrinks(calls, cluster) && Above(calls, 0, cluster, Stored(index, cluster))
    ensures Above(calls, n, cluster, Stored(After(index, calls[..n]), cluster))
  {
    if n > 0 {
      IndexStaysLow(index, calls, n - 1, cluster);
      CallKeepsIndexLow(After(index, calls[..n - 1]), calls, n - 1, cluster);
      assert calls[..n][..n - 1] == calls[..n - 1];
    }
  }

  /** Over every run of calls, whatever other clusters do in between: if the class that a cluster is
      shown never shrinks from one of its calls to the next, and the first is larger than the stored
      index, then no call of it panics, and whenever it reads its index that is below the class size. */
  lemma {:induction false} NoPanicWhileNotShrinking(index: map<string, nat>, calls: seq<Query>, j: nat, cluster: string)
    requires NeverShrinks(calls, cluster) && Above(calls, 0, cluster, Stored(index, cluster))
    requires j < |calls| && calls[j].cluster == cluster
    ensures var now := After(index, calls[..j]);
            && !Select(now, calls[j]).0.Panic?
            && (Reads(calls, j, cluster) ==>
                  Select(now, calls[j]).0.Chosen? && Stored(now, cluster) < |Top(calls[j])|)
  {
    IndexStaysLow(index, calls, j, cluster);
    SelectAdvances(After(index, calls[..j]), calls[j], cluster);
  }

  /** A new process starts at index zero, which is below every class with a host of non-negative
      priority. */
  lemma FreshIndexIsLow(calls: seq<Query>, cluster: string)
    requires forall j: nat :: Reads(calls, j, cluster) ==>
                                exists i: nat :: Eligible(calls[j], i) && Priority(calls[j], i) >= 0
    ensures Above(calls, 0, cluster, Stored(map[], cluster))
  {
    forall j: nat | Reads(calls, j, cluster)
      ensures 0 < |Top(calls[j])|
    {
      TopNonEmptyExactly(calls[j]);
    }
  }

  lemma ChosenInList(index: map<string, nat>, q: Query)
    ensures Select(index, q).0.Chosen? ==> Select(index, q).0.host < |q.hosts|
  {
    if Select(index, q).0.Chosen? {
      SelectionOptimal(index, q);
    }
  }
}
