/** Provider IDs: how they are generated, what the validating pattern accepts, and what
    setNodeProviderID leaves on a node. */
module ProviderId {
  import opened ByoModel

  const PREFIX := "byoh://"

  // ---- Host names -----------------------------------------------------------------------------

  predicate Alphanumeric(c: char) {
    'a' <= c <= 'z' || '0' <= c <= '9'
  }

  /** A DNS subdomain, which the API server demands of object names: lower-case alphanumerics, '-'
      and '.', with an alphanumeric at both ends and on both sides of every dot. */
  predicate DnsName(n: string) {
    && n != "" && Alphanumeric(n[0]) && Alphanumeric(n[|n| - 1])
    && (forall i :: 0 <= i < |n| ==> Alphanumeric(n[i]) || n[i] == '-' || n[i] == '.')
    && (forall i :: 0 < i < |n| - 1 && n[i] == '.' ==> Alphanumeric(n[i - 1]) && Alphanumeric(n[i + 1]))
  }

  function GenerateProviderID(hostname: string): string {
    PREFIX + hostname
  }

  // ---- Regular expressions --------------------------------------------------------------------

  datatype Regex =
    | Nothing
    | Literal(c: char)
    | AnyButNewline
    | Then(first: Regex, second: Regex)
    | Maybe(body: Regex)
    | OneOrMore(body: Regex)

  /** Whether the expression matches the whole of s. */
  ghost predicate Matches(r: Regex, s: string)
    decreases r, |s|
  {
    match r
    case Nothing => s == ""
    case Literal(c) => s == [c]
    case AnyButNewline => |s| == 1 && s[0] != '\n'
    case Then(a, b) => exists i :: 0 <= i <= |s| && Matches(a, s[..i]) && Matches(b, s[i..])
    case Maybe(a) => s == "" || Matches(a, s)
    case OneOrMore(a) =>
      exists i :: 0 < i <= |s| && Matches(a, s[..i]) && (i == |s| || Matches(r, s[i..]))
  }

  /** A name taken as a pattern: its dots match any character. */
  function Plain(p: string): Regex {
    if p == "" then Nothing
    else Then(if p[0] == '.' then AnyButNewline else Literal(p[0]), Plain(p[1..]))
  }

  /** ^byoh://<hostname>(/(.+))?$ */
  function Pattern(hostname: string): Regex {
    Then(Plain(PREFIX), Then(Plain(hostname), Maybe(Then(Literal('/'), OneOrMore(AnyButNewline)))))
  }

  /** ValidateProviderID, for a host name whose only pattern character is the dot; None is the error
      for an empty ID. */
  ghost function ValidateProviderID(id: string, hostname: string): Option<bool> {
    if id == "" then None else Some(Matches(Pattern(hostname), id))
  }

  ghost predicate Accepted(id: string, hostname: string) {
    ValidateProviderID(id, hostname) == Some(true)
  }

  // ---- What the pattern accepts ---------------------------------------------------------------

  /** s is p up to what its dots stand for. */
  predicate Covers(p: string, s: string) {
    |s| == |p| && forall i :: 0 <= i < |p| ==> if p[i] == '.' then s[i] != '\n' else s[i] == p[i]
  }

  lemma {:induction false} PlainMatches(p: string, s: string)
    ensures Matches(Plain(p), s) <==> Covers(p, s)
    decreases |p|
  {
    if p != "" {
      if Matches(Plain(p), s) {
        var i :| 0 <= i <= |s| && Matches(Plain(p).first, s[..i]) && Matches(Plain(p[1..]), s[i..]);
        PlainMatches(p[1..], s[i..]);
        assert i == 1;
        CoversNext(p, s);
      }
      if Covers(p, s) {
        CoversNext(p, s);
        PlainMatches(p[1..], s[1..]);
        assert s[..1] == [s[0]];
        assert Matches(Plain(p).first, s[..1]) && Matches(Plain(p).second, s[1..]);
      }
    }
  }

  lemma CoversNext(p: string, s: string)
    requires p != "" && s != ""
    ensures Covers(p, s) <==>
              (if p[0] == '.' then s[0] != '\n' else s[0] == p[0]) && Covers(p[1..], s[1..])
  {
    if (if p[0] == '.' then s[0] != '\n' else s[0] == p[0]) && Covers(p[1..], s[1..]) {
      forall i | 0 <= i < |p|
        ensures if p[i] == '.' then s[i] != '\n' else s[i] == p[i]
      {
        if i > 0 {
          assert p[i] == p[1..][i - 1] && s[i] == s[1..][i - 1];
        }
      }
    }
  }

  lemma {:induction false} AnyTextMatches(s: string)
    ensures Matches(OneOrMore(AnyButNewline), s) <==> s != "" && '\n' !in s
    decreases |s|
  {
    var r := OneOrMore(AnyButNewline);
    if Matches(r, s) {
      var i :| 0 < i <= |s| && Matches(AnyButNewline, s[..i]) && (i == |s| || Matches(r, s[i..]));
      AnyTextMatches(s[i..]);
      assert s == s[..i] + s[i..];
    }
    if s != "" && '\n' !in s {
      AnyTextMatches(s[1..]);
      assert s[0] in s && Matches(AnyButNewline, s[..1]);
      assert forall c :: c in s[1..] ==> c in s;
    }
  }

  /** A suffix the pattern allows after the name. */
  predicate Suffix(t: string) {
    t == "" || (|t| > 1 && t[0] == '/' && '\n' !in t[1..])
  }

  lemma SuffixMatches(t: string)
    ensures Matches(Maybe(Then(Literal('/'), OneOrMore(AnyButNewline))), t) <==> Suffix(t)
  {
    var r := Then(Literal('/'), OneOrMore(AnyButNewline));
    if Matches(r, t) {
      var i :| 0 <= i <= |t| && Matches(r.first, t[..i]) && Matches(r.second, t[i..]);
      AnyTextMatches(t[i..]);
      assert i == 1;
    }
    if t != "" && Suffix(t) {
      AnyTextMatches(t[1..]);
      assert Matches(r.first, t[..1]) && Matches(r.second, t[1..]);
    }
  }

  lemma PlainThen(p: string, r: Regex, s: string)
    ensures Matches(Then(Plain(p), r), s) <==> |p| <= |s| && Covers(p, s[..|p|]) && Matches(r, s[|p|..])
  {
    if Matches(Then(Plain(p), r), s) {
      var i :| 0 <= i <= |s| && Matches(Plain(p), s[..i]) && Matches(r, s[i..]);
      PlainMatches(p, s[..i]);
    }
    if |p| <= |s| {
      PlainMatches(p, s[..|p|]);
    }
  }

  lemma PrefixCovers(s: string)
    ensures Covers(PREFIX, s) <==> s == PREFIX
  {
  }

  /** What is accepted: the prefix, a text that the name covers, and an allowed suffix. */
  lemma AcceptedExactly(id: string, hostname: string)
    ensures var k := 7 + |hostname|;
            Accepted(id, hostname) <==>
              k <= |id| && id[..7] == "byoh://" && Covers(hostname, id[7..k]) && Suffix(id[k..])
  {
    var p, k := |PREFIX|, |PREFIX| + |hostname|;
    var r := Pattern(hostname).second;
    PlainThen(PREFIX, r, id);
    if p <= |id| {
      PrefixCovers(id[..p]);
      PlainThen(hostname, r.second, id[p..]);
      if k <= |id| {
        assert id[p..][..|hostname|] == id[p..k] && id[p..][|hostname|..] == id[k..];
        SuffixMatches(id[k..]);
      }
    }
  }

  lemma CoversItself(n: string)
    requires '\n' !in n
    ensures Covers(n, n)
  {
    assert forall i :: 0 <= i < |n| ==> n[i] in n;
  }

  lemma DnsNameOneLine(n: string)
    requires DnsName(n)
    ensures '\n' !in n
  {
  }

  /** Every host accepts the ID generated for it. */
  lemma GeneratedAccepted(n: string)
    requires DnsName(n)
    ensures Accepted(GenerateProviderID(n), n)
  {
    AcceptedExactly(GenerateProviderID(n), n);
    DnsNameOneLine(n);
    CoversItself(n);
    assert GenerateProviderID(n)[|PREFIX|..|PREFIX| + |n|] == n;
  }

  /** A name without dots accepts its own ID, with or without a non-empty one-line suffix after a
      slash, and nothing else. */
  lemma DotFreeAcceptedExactly(id: string, n: string)
    requires '.' !in n
    ensures Accepted(id, n) <==>
              GenerateProviderID(n) <= id && Suffix(id[|GenerateProviderID(n)|..])
  {
    AcceptedExactly(id, n);
    var p, k := |PREFIX|, |PREFIX| + |n|;
    if k <= |id| {
      DotFreeCoversOnlyItself(n, id[p..k]);
      assert id[..k] == id[..p] + id[p..k];
      if GenerateProviderID(n) <= id {
        assert id[..k] == PREFIX + n;
        assert id[..p] == id[..k][..p] && id[p..k] == id[..k][p..];
      }
    }
  }

  lemma DotFreeCoversOnlyItself(n: string, s: string)
    requires '.' !in n
    ensures Covers(n, s) <==> s == n
  {
    assert forall i :: 0 <= i < |n| ==> n[i] in n;
  }

  /** An ID is accepted for at most one of the hosts whose names are free of dots and slashes. */
  lemma IdNamesOneHost(id: string, n: string, m: string)
    requires '.' !in n && '.' !in m && '/' !in n && '/' !in m
    requires Accepted(id, n) && Accepted(id, m)
    ensures n == m
  {
    DotFreeAcceptedExactly(id, n);
    DotFreeAcceptedExactly(id, m);
    var rest := id[|PREFIX|..];
    NameStartsRest(id, n);
    NameStartsRest(id, m);
    EndsAtSlash(rest, n, m);
    EndsAtSlash(rest, m, n);
  }

  lemma NameStartsRest(id: string, n: string)
    requires GenerateProviderID(n) <= id && Suffix(id[|GenerateProviderID(n)|..])
    ensures var rest := id[|PREFIX|..]; n <= rest && (|n| < |rest| ==> rest[|n|] == '/')
  {
    var k := |PREFIX| + |n|;
    assert id[..k] == PREFIX + n;
    assert id[|PREFIX|..][..|n|] == id[..k][|PREFIX|..];
    if k < |id| {
      assert id[k..][0] == id[|PREFIX|..][|n|];
    }
  }

  lemma EndsAtSlash(rest: string, n: string, m: string)
    requires n <= rest && m <= rest && '/' !in m && (|n| < |rest| ==> rest[|n|] == '/')
    ensures |m| <= |n|
  {
    assert forall j :: 0 <= j < |m| ==> rest[j] == m[j] && m[j] in m;
  }

  function Undotted(n: string, i: nat): string
    requires i < |n|
  {
    n[..i] + "a" + n[i + 1..]
  }

  lemma UndottedIsDnsName(n: string, i: nat)
    requires DnsName(n) && i < |n| && n[i] == '.'
    ensures DnsName(Undotted(n, i)) && Undotted(n, i) != n
  {
    var m := Undotted(n, i);
    assert |m| == |n| && m[i] == 'a' && forall j :: 0 <= j < |n| && j != i ==> m[j] == n[j];
  }

  ghost predicate RejectsOthers(n: string) {
    forall m :: DnsName(m) && m != n ==> !Accepted(GenerateProviderID(m), n)
  }

  /** Exactly when validation tells hosts apart: a host rejects the IDs generated for all other hosts
      if and only if its name has no dot. */
  lemma RejectsOthersExactly(n: string)
    requires DnsName(n)
    ensures RejectsOthers(n) <==> '.' !in n
  {
    if '.' in n {
      var i :| 0 <= i < |n| && n[i] == '.';
      UndottedIsDnsName(n, i);
      UndottedAccepted(n, i);
    } else {
      forall m | DnsName(m) && Accepted(GenerateProviderID(m), n)
        ensures m == n
      {
        OnlyItsOwn(m, n);
      }
    }
  }

  lemma UndottedAccepted(n: string, i: nat)
    requires DnsName(n) && i < |n| && n[i] == '.'
    ensures Accepted(GenerateProviderID(Undotted(n, i)), n)
  {
    var m := Undotted(n, i);
    DnsNameOneLine(n);
    assert forall j :: 0 <= j < |n| ==> n[j] in n;
    AcceptedExactly(GenerateProviderID(m), n);
    assert GenerateProviderID(m)[|PREFIX|..|PREFIX| + |n|] == m;
  }

  lemma OnlyItsOwn(m: string, n: string)
    requires DnsName(m) && '.' !in n && Accepted(GenerateProviderID(m), n)
    ensures m == n
  {
    var id := GenerateProviderID(m);
    DotFreeAcceptedExactly(id, n);
    NameStartsRest(id, n);
    assert id[|PREFIX|..] == m;
    assert forall j :: 0 <= j < |m| ==> m[j] != '/';
  }

  // ---- setNodeProviderID ----------------------------------------------------------------------

  datatype Outcome = Returned(id: string) | Failed

  /** What a call meets: whether the Node is found, and whether the patch succeeds. */
  datatype Answer = Answer(found: bool, patchOk: bool)

  /** The outcome of one call on a node with the given ID, and the ID the node has afterwards. */
  ghost function Served(id: string, hostname: string, answer: Answer): (Outcome, string) {
    if !answer.found then (Failed, id)
    else if id != "" then
      (if Accepted(id, hostname) then Returned(id) else Failed, id)
    else if answer.patchOk then (Returned(GenerateProviderID(hostname)), GenerateProviderID(hostname))
    else (Failed, id)
  }

  class Node {
    var providerID: string

    constructor (id: string)
      ensures providerID == id
    {
      providerID := id;
    }

    /** `matched` is the answer of ValidateProviderID for the node's ID. */
    method SetNodeProviderID(hostname: string, matched: bool, answer: Answer) returns (r: Outcome)
      requires matched == Accepted(providerID, hostname)
      modifies this
      ensures (r, providerID) == Served(old(providerID), hostname, answer)
    {
      if !answer.found {
        return Failed;
      }
      if providerID != "" {
        if matched {
          return Returned(providerID);
        }
        return Failed;
      }
      if !answer.patchOk {
        return Failed;
      }
      providerID := GenerateProviderID(hostname);
      return Returned(providerID);
    }
  }

  /** One call: it fails on a missing Node, on an ID that the host rejects, and on a failing patch, and then
      changes nothing; an absent ID becomes the generated one; and what it returns is what the Node has. */
  lemma ServedExactly(id: string, hostname: string, answer: Answer)
    ensures var (r, after) := Served(id, hostname, answer);
            && (r.Failed? <==> !answer.found || (if id == "" then !answer.patchOk else !Accepted(id, hostname)))
            && after == (if answer.found && id == "" && answer.patchOk then "byoh://" + hostname else id)
            && (r.Returned? ==> r.id == after)
  {
  }

  ghost function After(id: string, hostname: string, answers: seq<Answer>): string {
    if answers == [] then id
    else Served(After(id, hostname, answers[..|answers| - 1]), hostname, answers[|answers| - 1]).1
  }

  /** Call number j of the run on the node. */
  ghost function Call(id: string, hostname: string, answers: seq<Answer>, j: nat): (Outcome, string)
    requires j < |answers|
  {
    Served(After(id, hostname, answers[..j]), hostname, answers[j])
  }

  /** Stability: the node keeps the ID that one call returned, and every later call that finds the node
      returns it. */
  lemma {:induction false} ReturnedIdKept(id: string, hostname: string, answers: seq<Answer>, i: nat, j: nat)
    requires DnsName(hostname) && i <= j < |answers| && Call(id, hostname, answers, i).0.Returned?
    ensures Call(id, hostname, answers, j).1 == Call(id, hostname, answers, i).0.id
    ensures answers[j].found ==> Call(id, hostname, answers, j).0 == Call(id, hostname, answers, i).0
    ensures Accepted(Call(id, hostname, answers, i).0.id, hostname)
    decreases j
  {
    GeneratedAccepted(hostname);
    if i < j {
      ReturnedIdKept(id, hostname, answers, i, j - 1);
      assert answers[..j][..j - 1] == answers[..j - 1];
    }
  }

  /** A call that finds the node and can patch it still fails exactly on a node that came with an ID that
      the host rejects, however many calls went before. */
  lemma {:induction false} RejectedForever(id: string, hostname: string, answers: seq<Answer>)
    requires DnsName(hostname)
    ensures Served(After(id, hostname, answers), hostname, Answer(true, true)).0.Failed? <==>
              id != "" && !Accepted(id, hostname)
    decreases |answers|
  {
    GeneratedAccepted(hostname);
    if answers != [] {
      RejectedForever(id, hostname, answers[..|answers| - 1]);
    }
  }
}
