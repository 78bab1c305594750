/** The agent's -label flag: a map that prints itself as key=value pairs and parses them back. */
module AgentFlags {

  // ---- Strings --------------------------------------------------------------------------------

  /** White space as Unicode defines it. */
  predicate IsSpace(c: char) {
    || c == ' ' || '\U{9}' <= c <= '\U{d}' || c == '\U{85}' || c == '\U{a0}' || c == '\U{1680}'
    || '\U{2000}' <= c <= '\U{200a}' || c == '\U{2028}' || c == '\U{2029}' || c == '\U{202f}'
    || c == '\U{205f}' || c == '\U{3000}'
  }

  function TrimLeft(s: string): string {
    if s != "" && IsSpace(s[0]) then TrimLeft(s[1..]) else s
  }

  function TrimRight(s: string): string {
    if s != "" && IsSpace(s[|s| - 1]) then TrimRight(s[..|s| - 1]) else s
  }

  function TrimSpace(s: string): string {
    TrimRight(TrimLeft(s))
  }

  predicate Trimmed(s: string) {
    s == "" || (!IsSpace(s[0]) && !IsSpace(s[|s| - 1]))
  }

  /** The first position of c, or the length. */
  function Index(s: string, c: char): (i: nat)
    ensures i <= |s| && c !in s[..i] && (i < |s| ==> s[i] == c)
  {
    if s == "" || s[0] == c then 0
    else
      var i := Index(s[1..], c);
      assert s[..i + 1] == [s[0]] + s[1..][..i];
      i + 1
  }

  function Split(s: string, c: char): (parts: seq<string>)
    ensures parts != [] && forall i :: 0 <= i < |parts| ==> c !in parts[i]
    decreases |s|
  {
    var i := Index(s, c);
    if i == |s| then assert s[..i] == s; [s] else [s[..i]] + Split(s[i + 1..], c)
  }

  function Join(parts: seq<string>, c: char): string {
    if parts == [] then "" else if |parts| == 1 then parts[0] else parts[0] + [c] + Join(parts[1..], c)
  }

  // ---- Printing and parsing -------------------------------------------------------------------

  /** An order in which a map may be iterated. */
  ghost predicate Enumerates(order: seq<string>, m: map<string, string>) {
    && (forall k :: k in order <==> k in m)
    && (forall i, j :: 0 <= i < j < |order| ==> order[i] != order[j])
  }

  function Pair(k: string, v: string): string {
    k + "=" + v
  }

  function Pairs(m: map<string, string>, order: seq<string>): (parts: seq<string>)
    requires forall k :: k in order ==> k in m
    ensures |parts| == |order| && forall i :: 0 <= i < |parts| ==> parts[i] == Pair(order[i], m[order[i]])
  {
    if order == [] then [] else [Pair(order[0], m[order[0]])] + Pairs(m, order[1..])
  }

  function Print(m: map<string, string>, order: seq<string>): string
    requires forall k :: k in order ==> k in m
  {
    Join(Pairs(m, order), ',')
  }

  /** One pair; false is the error for a missing '='. */
  function SetOne(m: map<string, string>, s: string): (bool, map<string, string>) {
    var i := Index(s, '=');
    if i == |s| then (false, m) else (true, m[TrimSpace(s[..i]) := TrimSpace(s[i + 1..])])
  }

  /** Pairs in turn; empty pieces are skipped, and an error leaves what was set before it. */
  function SetEach(m: map<string, string>, parts: seq<string>): (bool, map<string, string>)
    decreases |parts|
  {
    if parts == [] then (true, m)
    else if parts[0] == "" then SetEach(m, parts[1..])
    else
      var (ok, m') := SetOne(m, parts[0]);
      if ok then SetEach(m', parts[1..]) else (false, m')
  }

  function Parse(m: map<string, string>, value: string): (bool, map<string, string>) {
    if |Split(value, ',')| > 1 then SetEach(m, Split(value, ',')) else SetOne(m, value)
  }

  class LabelFlags {
    var labels: map<string, string>

    constructor ()
      ensures labels == map[]
    {
      labels := map[];
    }

    /** `order` is the order in which the map happens to be iterated. */
    method String(order: seq<string>) returns (s: string)
      requires Enumerates(order, labels)
      ensures s == Print(labels, order)
    {
      var result: seq<string> := [];
      ghost var all := Pairs(labels, order);
      for i := 0 to |order|
        invariant result == all[..i]
      {
        assert all[..i + 1] == all[..i] + [all[i]];
        result := result + [Pair(order[i], labels[order[i]])];
      }
      assert all[..|order|] == all;
      s := Join(result, ',');
    }

    method SetPair(s: string) returns (ok: bool)
      modifies this
      ensures (ok, labels) == SetOne(old(labels), s)
    {
      var i := Index(s, '=');
      if i == |s| {
        return false;
      }
      var k := TrimSpace(s[..i]);
      var v := TrimSpace(s[i + 1..]);
      labels := labels[k := v];
      return true;
    }

    method Set(value: string) returns (ok: bool)
      modifies this
      ensures (ok, labels) == Parse(old(labels), value)
    {
      var parts := Split(value, ',');
      if |parts| > 1 {
        var i := 0;
        assert parts[0..] == parts;
        while i < |parts|
          invariant 0 <= i <= |parts|
          invariant SetEach(labels, parts[i..]) == SetEach(old(labels), parts)
        {
          assert parts[i..][1..] == parts[i + 1..];
          if parts[i] != "" {
            ok := SetPair(parts[i]);
            if !ok {
              return;
            }
          }
          i := i + 1;
        }
        return true;
      } else {
        ok := SetPair(value);
      }
    }
  }

  // ---- Trimming -------------------------------------------------------------------------------

  lemma {:induction false} TrimLeftResult(s: string)
    ensures var t := TrimLeft(s);
            && (t == "" || !IsSpace(t[0]))
            && (forall c :: c in t ==> c in s)
            && (t != "" ==> t[|t| - 1] == s[|s| - 1])
    decreases |s|
  {
    if s != "" && IsSpace(s[0]) {
      TrimLeftResult(s[1..]);
    }
  }

  lemma {:induction false} TrimRightResult(s: string)
    ensures var t := TrimRight(s);
            && (t == "" || !IsSpace(t[|t| - 1]))
            && (forall c :: c in t ==> c in s)
            && (t != "" ==> t[0] == s[0])
    decreases |s|
  {
    if s != "" && IsSpace(s[|s| - 1]) {
      TrimRightResult(s[..|s| - 1]);
    }
  }

  lemma TrimSpaceResult(s: string)
    ensures Trimmed(TrimSpace(s)) && (forall c :: c in TrimSpace(s) ==> c in s)
    ensures TrimSpace(s) == s <==> Trimmed(s)
  {
    TrimLeftResult(s);
    TrimRightResult(TrimLeft(s));
  }

  // ---- Splitting ------------------------------------------------------------------------------

  lemma {:induction false} IndexAfter(a: string, c: char, b: string)
    requires c !in a
    ensures Index(a + [c] + b, c) == |a|
    decreases |a|
  {
    if a != "" {
      assert (a + [c] + b)[1..] == a[1..] + [c] + b;
      IndexAfter(a[1..], c, b);
    }
  }

  /** Splitting undoes joining for pieces free of the separator. */
  lemma {:induction false} SplitJoin(parts: seq<string>, c: char)
    requires parts != [] && forall i :: 0 <= i < |parts| ==> c !in parts[i]
    ensures Split(Join(parts, c), c) == parts
    decreases |parts|
  {
    if |parts| == 1 {
      var s := parts[0];
      assert forall i :: 0 <= i < |s| ==> s[i] in s;
    } else {
      var s, rest := parts[0] + [c] + Join(parts[1..], c), Join(parts[1..], c);
      IndexAfter(parts[0], c, rest);
      assert s[..|parts[0]|] == parts[0] && s[|parts[0]| + 1..] == rest;
      SplitJoin(parts[1..], c);
    }
  }

  // ---- Round trip -----------------------------------------------------------------------------

  predicate PrintableKey(k: string) {
    Trimmed(k) && '=' !in k && ',' !in k
  }

  predicate PrintableValue(v: string) {
    Trimmed(v) && ',' !in v
  }

  predicate Printable(m: map<string, string>) {
    forall k :: k in m ==> PrintableKey(k) && PrintableValue(m[k])
  }

  /** Whatever is parsed, only printable pairs are set. */
  lemma SetOnePrintable(m: map<string, string>, s: string)
    requires Printable(m) && ',' !in s
    ensures Printable(SetOne(m, s).1)
  {
    var i := Index(s, '=');
    if i < |s| {
      TrimSpaceResult(s[..i]);
      TrimSpaceResult(s[i + 1..]);
      assert forall c :: c in s[..i] ==> c in s;
      assert forall c :: c in s[i + 1..] ==> c in s;
    }
  }

  lemma {:induction false} SetEachPrintable(m: map<string, string>, parts: seq<string>)
    requires Printable(m) && forall i :: 0 <= i < |parts| ==> ',' !in parts[i]
    ensures Printable(SetEach(m, parts).1)
    decreases |parts|
  {
    if parts != [] {
      SetOnePrintable(m, parts[0]);
      SetEachPrintable(if parts[0] == "" then m else SetOne(m, parts[0]).1, parts[1..]);
    }
  }

  lemma ParsePrintable(value: string)
    ensures Printable(Parse(map[], value).1)
  {
    var parts := Split(value, ',');
    if |parts| > 1 {
      SetEachPrintable(map[], parts);
    } else {
      SingleSplit(value);
      SetOnePrintable(map[], value);
    }
  }

  lemma SingleSplit(value: string)
    requires |Split(value, ',')| == 1
    ensures ',' !in value
  {
    assert Index(value, ',') == |value|;
    assert value[..|value|] == value;
  }

  lemma SetPrintablePair(m: map<string, string>, k: string, v: string)
    requires PrintableKey(k) && PrintableValue(v)
    ensures SetOne(m, Pair(k, v)) == (true, m[k := v])
  {
    IndexAfter(k, '=', v);
    assert Pair(k, v)[..|k|] == k && Pair(k, v)[|k| + 1..] == v;
    TrimSpaceResult(k);
    TrimSpaceResult(v);
  }

  function Restrict(m: map<string, string>, order: seq<string>): map<string, string> {
    map k | k in m && k in order :: m[k]
  }

  lemma RestrictStep(acc: map<string, string>, m: map<string, string>, order: seq<string>)
    requires order != [] && order[0] in m
    ensures acc[order[0] := m[order[0]]] + Restrict(m, order[1..]) == acc + Restrict(m, order)
  {
    assert order == [order[0]] + order[1..];
    assert forall k :: k in order <==> k == order[0] || k in order[1..];
  }

  lemma {:induction false} SetEachPair(acc: map<string, string>, m: map<string, string>, order: seq<string>)
    requires Printable(m) && (forall k :: k in order ==> k in m)
    ensures SetEach(acc, Pairs(m, order)) == (true, acc + Restrict(m, order))
    decreases |order|
  {
    if order == [] {
      assert acc + Restrict(m, order) == acc;
    } else {
      var k, rest := order[0], order[1..];
      SetPrintablePair(acc, k, m[k]);
      SetEachPair(acc[k := m[k]], m, rest);
      RestrictStep(acc, m, order);
      SetEachStep(acc, Pair(k, m[k]), Pairs(m, rest));
    }
  }

  lemma SetEachStep(acc: map<string, string>, s: string, rest: seq<string>)
    requires s != "" && SetOne(acc, s).0
    ensures SetEach(acc, [s] + rest) == SetEach(SetOne(acc, s).1, rest)
  {
    assert ([s] + rest)[1..] == rest;
  }

  lemma PairFree(k: string, v: string)
    requires PrintableKey(k) && PrintableValue(v)
    ensures ',' !in Pair(k, v)
  {
  }

  /** The printed form splits into the pairs it was joined from. */
  lemma PrintedSplits(m: map<string, string>, order: seq<string>)
    requires order != [] && Printable(m) && forall k :: k in order ==> k in m
    ensures Split(Print(m, order), ',') == Pairs(m, order)
  {
    forall i | 0 <= i < |order|
      ensures ',' !in Pairs(m, order)[i]
    {
      PairFree(order[i], m[order[i]]);
    }
    SplitJoin(Pairs(m, order), ',');
  }

  lemma RestrictAll(m: map<string, string>, order: seq<string>)
    requires Enumerates(order, m)
    ensures map[] + Restrict(m, order) == m
  {
  }

  /** A single pair is printed and set on its own. */
  lemma OnePair(m: map<string, string>, k: string)
    requires Enumerates([k], m) && PrintableKey(k) && PrintableValue(m[k])
    ensures SetOne(map[], Print(m, [k])) == (true, m)
  {
    SetPrintablePair(map[], k, m[k]);
    assert [k][1..] == [];
    assert Print(m, [k]) == Pair(k, m[k]);
    assert map[][k := m[k]] == m by {
      assert forall j :: j in m ==> j in [k];
    }
  }

  lemma EnumeratesSome(m: map<string, string>, order: seq<string>)
    requires Enumerates(order, m) && m != map[]
    ensures order != []
  {
    var k :| k in m;
    assert k in order;
  }

  lemma PrintableRoundTrip(m: map<string, string>, order: seq<string>)
    requires Enumerates(order, m) && m != map[] && Printable(m)
    ensures Parse(map[], Print(m, order)) == (true, m)
  {
    EnumeratesSome(m, order);
    PrintedSplits(m, order);
    if |order| == 1 {
      assert order == [order[0]];
      OnePair(m, order[0]);
    } else {
      SetEachPair(map[], m, order);
      RestrictAll(m, order);
    }
  }

  /** Round trip, exactly: whatever order the printer uses, parsing the printed form into an empty map
      gives the map back if and only if the map is not empty, its keys are trimmed and free of '='
      and ',', and its values are trimmed and free of ','. */
  lemma RoundTripExactly(m: map<string, string>, order: seq<string>)
    requires Enumerates(order, m)
    ensures Parse(map[], Print(m, order)) == (true, m) <==> m != map[] && Printable(m)
  {
    if m != map[] && Printable(m) {
      PrintableRoundTrip(m, order);
    }
    ParsePrintable(Print(m, order));
    if m == map[] {
      assert order == [] by {
        assert forall k :: k !in order;
      }
      assert Print(m, order) == "";
    }
  }

  // ---- What parsing sets ----------------------------------------------------------------------

  /** The trimmed key and value of a piece, divided at its first equals sign. */
  function KeyOf(piece: string): string {
    TrimSpace(piece[..Index(piece, '=')])
  }

  function ValueOf(piece: string): string {
    if '=' in piece then assert Index(piece, '=') < |piece|; TrimSpace(piece[Index(piece, '=') + 1..]) else ""
  }

  predicate WellFormed(piece: string) {
    piece == "" || '=' in piece
  }

  /** Piece number i sets the key k, and no later one does. */
  predicate SetsLast(parts: seq<string>, i: nat, k: string) {
    && i < |parts| && parts[i] != "" && KeyOf(parts[i]) == k
    && forall j :: i < j < |parts| && parts[j] != "" ==> KeyOf(parts[j]) != k
  }

  predicate NeverSets(parts: seq<string>, k: string) {
    forall j :: 0 <= j < |parts| && parts[j] != "" ==> KeyOf(parts[j]) != k
  }

  lemma IndexInside(s: string, c: char)
    ensures Index(s, c) < |s| <==> c in s
  {
    var i := Index(s, c);
    if i == |s| {
      assert s[..i] == s;
    }
  }

  lemma RestOfParts(parts: seq<string>, k: string)
    requires parts != []
    ensures forall i: nat :: i > 0 && SetsLast(parts, i, k) ==> SetsLast(parts[1..], i - 1, k)
    ensures SetsLast(parts, 0, k) || NeverSets(parts, k) ==> NeverSets(parts[1..], k)
  {
  }

  /** A list of pieces is rejected exactly when one of them is neither empty nor a pair. */
  lemma {:induction false} ParseFailsExactly(m: map<string, string>, parts: seq<string>)
    ensures SetEach(m, parts).0 <==> forall i :: 0 <= i < |parts| ==> WellFormed(parts[i])
    decreases |parts|
  {
    if parts != [] {
      IndexInside(parts[0], '=');
      ParseFailsExactly(m, parts[1..]);
      ParseFailsExactly(SetOne(m, parts[0]).1, parts[1..]);
      assert forall i :: 0 < i < |parts| ==> parts[i] == parts[1..][i - 1];
    }
  }

  /** Of several pairs for one key the last one wins, and keys that no pair names keep their values. */
  lemma {:induction false} LastPairWins(m: map<string, string>, parts: seq<string>, k: string, i: nat)
    requires SetEach(m, parts).0
    ensures var m' := SetEach(m, parts).1;
            && (SetsLast(parts, i, k) ==> k in m' && m'[k] == ValueOf(parts[i]))
            && (NeverSets(parts, k) ==> (k in m' <==> k in m) && (k in m ==> m'[k] == m[k]))
    decreases |parts|
  {
    if parts != [] {
      RestOfParts(parts, k);
      IndexInside(parts[0], '=');
      var m1 := if parts[0] == "" then m else SetOne(m, parts[0]).1;
      LastPairWins(m1, parts[1..], k, if i == 0 then 0 else i - 1);
    }
  }

  /** A rejected list leaves what the pieces before the first bad one have set. */
  lemma {:induction false} ErrorKeepsEarlier(m: map<string, string>, parts: seq<string>, e: nat)
    requires e < |parts| && !WellFormed(parts[e]) && forall i :: 0 <= i < e ==> WellFormed(parts[i])
    ensures SetEach(m, parts) == (false, SetEach(m, parts[..e]).1)
    decreases |parts|
  {
    IndexInside(parts[0], '=');
    if e > 0 {
      assert parts[..e][1..] == parts[1..][..e - 1] && parts[..e][0] == parts[0];
      var m1 := if parts[0] == "" then m else SetOne(m, parts[0]).1;
      ErrorKeepsEarlier(m1, parts[1..], e - 1);
    }
  }

  /** The flag's value is a list when it has a comma, and else must be one pair, so an empty value is
      rejected. */
  lemma ParseExactly(m: map<string, string>, value: string)
    ensures ',' in value ==> Parse(m, value) == SetEach(m, Split(value, ','))
    ensures ',' !in value ==>
              Parse(m, value) == if '=' in value then (true, m[KeyOf(value) := ValueOf(value)]) else (false, m)
  {
    IndexInside(value, ',');
    IndexInside(value, '=');
  }
}
