/** The rewrite of a kubeadm configuration on its way to disk, and the kubelet flags of the TLS
    bootstrap mode that it has to agree with. */
module KubeadmConfig {
  import opened ByoModel
  import opened AgentFlags
  import opened ProviderId

  /** A configuration as the parser leaves it: string-keyed maps all the way down. */
  datatype Yaml = Null | Scalar(text: string) | List(items: seq<Yaml>) | Map(entries: map<string, Yaml>)

  datatype Taint = Taint(key: string, value: string, effect: string)

  /** What the host brings; `order` is the order in which its labels happen to be iterated. */
  datatype Settings = Settings(hostname: string, labels: map<string, string>, order: seq<string>, taints: seq<Taint>)
  {
    ghost predicate Valid() {
      Enumerates(order, labels)
    }
  }

  const NODE_REGISTRATION := "nodeRegistration"
  const KUBELET_EXTRA_ARGS := "kubeletExtraArgs"
  const PROVIDER_ID := "provider-id"
  const NODE_LABELS := "node-labels"
  const REGISTER_WITH_TAINTS := "register-with-taints"

  /** The entries below a key, or none when there is no map. */
  function Below(m: map<string, Yaml>, key: string): map<string, Yaml> {
    if key in m && m[key].Map? then m[key].entries else map[]
  }

  function TaintText(t: Taint): string {
    t.key + "=" + (if t.value == "" then t.key else t.value) + ":" + t.effect
  }

  function TaintTexts(taints: seq<Taint>): (texts: seq<string>)
    ensures |texts| == |taints| && forall i :: 0 <= i < |texts| ==> texts[i] == TaintText(taints[i])
  {
    if taints == [] then [] else TaintTexts(taints[..|taints| - 1]) + [TaintText(taints[|taints| - 1])]
  }

  function TaintString(taints: seq<Taint>): string {
    Join(TaintTexts(taints), ',')
  }

  /** Adds an entry only where the key is absent. */
  function Default(m: map<string, Yaml>, key: string, text: string): (r: map<string, Yaml>)
    ensures r.Keys == m.Keys + {key} && forall k :: k in m ==> r[k] == m[k]
  {
    if key in m then m else m[key := Scalar(text)]
  }

  ghost function WithArgs(args: map<string, Yaml>, s: Settings): (r: map<string, Yaml>)
    requires s.Valid()
    ensures forall k :: k in args ==> k in r && r[k] == args[k]
    ensures forall k :: k in r && k !in args ==>
                          r[k].Scalar? && (k == PROVIDER_ID || k == NODE_LABELS || k == REGISTER_WITH_TAINTS)
  {
    var args := Default(args, PROVIDER_ID, GenerateProviderID(s.hostname));
    var args := if s.labels == map[] then args else Default(args, NODE_LABELS, Print(s.labels, s.order));
    if s.taints == [] then args else Default(args, REGISTER_WITH_TAINTS, TaintString(s.taints))
  }

  /** What the rewrite looks for: a node registration, on a host that knows its name. */
  predicate Intercepts(config: map<string, Yaml>, s: Settings) {
    s.hostname != "" && NODE_REGISTRATION in config
  }

  /** The rewrite of one parsed file. Only files whose path mentions kubeadm or ends in .yaml are
      parsed at all. */
  ghost function Injected(config: map<string, Yaml>, s: Settings): map<string, Yaml>
    requires s.Valid()
  {
    if !Intercepts(config, s) then config
    else
      var registration := Below(config, NODE_REGISTRATION);
      var args := WithArgs(Below(registration, KUBELET_EXTRA_ARGS), s);
      config[NODE_REGISTRATION := Map(registration[KUBELET_EXTRA_ARGS := Map(args)])]
  }

  /** The text of a taint reads back: the key up to the first equals sign, the effect after the last colon, and
      between them the value, for which the key stands in if there is none. */
  lemma TaintReadsBack(t: Taint)
    requires '=' !in t.key && ':' !in t.effect
    ensures var s := TaintText(t);
            var i, j := |t.key|, |s| - |t.effect| - 1;
            && 0 <= i < j < |s| && s[i] == '=' && s[j] == ':' && '=' !in s[..i] && ':' !in s[j + 1..]
            && s[..i] == t.key && s[j + 1..] == t.effect
            && s[i + 1..j] == if t.value == "" then t.key else t.value
  {
    var s, v := TaintText(t), if t.value == "" then t.key else t.value;
    var i, j := |t.key|, |s| - |t.effect| - 1;
    assert s == t.key + "=" + v + ":" + t.effect;
    assert s[..i] == t.key && s[i + 1..j] == v && s[j + 1..] == t.effect;
  }

  method PrintTaints(taints: seq<Taint>) returns (text: string)
    ensures text == TaintString(taints)
  {
    var texts: seq<string> := [];
    for i := 0 to |taints|
      invariant texts == TaintTexts(taints)[..i]
    {
      var value := taints[i].value;
      if value == "" {
        value := taints[i].key;
      }
      texts := texts + [taints[i].key + "=" + value + ":" + taints[i].effect];
    }
    assert TaintTexts(taints)[..|taints|] == TaintTexts(taints);
    text := Join(texts, ',');
  }

  method PrintLabels(labels: map<string, string>, order: seq<string>) returns (text: string)
    requires Enumerates(order, labels)
    ensures text == Print(labels, order)
  {
    var flags := new LabelFlags();
    flags.labels := labels;
    text := flags.String(order);
  }

  method Inject(config: map<string, Yaml>, s: Settings) returns (config': map<string, Yaml>)
    requires s.Valid()
    ensures config' == Injected(config, s)
  {
    if s.hostname == "" {
      return config;
    }
    if NODE_REGISTRATION !in config {
      return config;
    }
    var registration: map<string, Yaml> := map[];
    if config[NODE_REGISTRATION].Map? {
      registration := config[NODE_REGISTRATION].entries;
    }
    var args: map<string, Yaml> := map[];
    if KUBELET_EXTRA_ARGS in registration && registration[KUBELET_EXTRA_ARGS].Map? {
      args := registration[KUBELET_EXTRA_ARGS].entries;
    }
    args := InjectArgs(args, s);
    registration := registration[KUBELET_EXTRA_ARGS := Map(args)];
    config' := config[NODE_REGISTRATION := Map(registration)];
  }

  /** The three arguments, each only where it is absent. */
  method InjectArgs(given: map<string, Yaml>, s: Settings) returns (args: map<string, Yaml>)
    requires s.Valid()
    ensures args == WithArgs(given, s)
  {
    args := given;
    if PROVIDER_ID !in args {
      args := args[PROVIDER_ID := Scalar(GenerateProviderID(s.hostname))];
    }
    if s.labels != map[] && NODE_LABELS !in args {
      var text := PrintLabels(s.labels, s.order);
      args := args[NODE_LABELS := Scalar(text)];
    }
    if s.taints != [] && REGISTER_WITH_TAINTS !in args {
      var text := PrintTaints(s.taints);
      args := args[REGISTER_WITH_TAINTS := Scalar(text)];
    }
  }

  // ---- Idempotence ----------------------------------------------------------------------------

  lemma WithArgsIdempotent(args: map<string, Yaml>, s: Settings, t: Settings)
    requires s.Valid() && t.Valid() && s.(order := t.order) == t
    ensures WithArgs(WithArgs(args, s), t) == WithArgs(args, s)
  {
  }

  /** A second pass changes nothing, whatever the tree and even if the labels are iterated in
      another order. */
  lemma InjectionIdempotent(config: map<string, Yaml>, s: Settings, t: Settings)
    requires s.Valid() && t.Valid() && s.(order := t.order) == t
    ensures Injected(Injected(config, s), t) == Injected(config, s)
  {
    if Intercepts(config, s) {
      var registration := Below(config, NODE_REGISTRATION);
      WithArgsIdempotent(Below(registration, KUBELET_EXTRA_ARGS), s, t);
      var args := WithArgs(Below(registration, KUBELET_EXTRA_ARGS), s);
      var registration' := registration[KUBELET_EXTRA_ARGS := Map(args)];
      assert registration'[KUBELET_EXTRA_ARGS := Map(args)] == registration';
      var config' := config[NODE_REGISTRATION := Map(registration')];
      assert config'[NODE_REGISTRATION := Map(registration')] == config';
    }
  }

  // ---- Frame ----------------------------------------------------------------------------------

  function Lookup(y: Yaml, path: seq<string>): Option<Yaml> {
    if path == [] then Some(y)
    else if y.Map? && path[0] in y.entries then Lookup(y.entries[path[0]], path[1..])
    else None
  }

  /** Data is what sits at the leaves: scalars and lists. */
  predicate DataAt(y: Yaml, path: seq<string>, v: Yaml) {
    Lookup(y, path) == Some(v) && (v.Scalar? || v.List?)
  }

  ghost predicate KeepsData(before: Yaml, after: Yaml) {
    forall path, v :: DataAt(before, path, v) ==> DataAt(after, path, v)
  }

  predicate InjectedPath(path: seq<string>) {
    || path == ["nodeRegistration", "kubeletExtraArgs", "provider-id"]
    || path == ["nodeRegistration", "kubeletExtraArgs", "node-labels"]
    || path == ["nodeRegistration", "kubeletExtraArgs", "register-with-taints"]
  }

  /** A map, a null or nothing: what the injection can extend without losing data. */
  predicate Open(m: map<string, Yaml>, key: string) {
    key !in m || m[key].Map? || m[key].Null?
  }

  lemma OneKey(path: seq<string>)
    requires |path| == 1
    ensures path == [path[0]] && path[1..] == []
  {
  }

  lemma ArgsAddOnly(args: map<string, Yaml>, s: Settings, path: seq<string>)
    requires s.Valid() && path != []
    ensures var before, after := Lookup(Map(args), path), Lookup(Map(WithArgs(args, s)), path);
            || before == after
            || (before.None? && (path == [PROVIDER_ID] || path == [NODE_LABELS] || path == [REGISTER_WITH_TAINTS]))
  {
    AddsOnly(args, WithArgs(args, s), path);
  }

  lemma AddsOnly(args: map<string, Yaml>, args': map<string, Yaml>, path: seq<string>)
    requires path != [] && forall k :: k in args ==> k in args' && args'[k] == args[k]
    requires forall k :: k in args' && k !in args ==>
                           args'[k].Scalar? && (k == PROVIDER_ID || k == NODE_LABELS || k == REGISTER_WITH_TAINTS)
    ensures var before, after := Lookup(Map(args), path), Lookup(Map(args'), path);
            || before == after
            || (before.None? && (path == [PROVIDER_ID] || path == [NODE_LABELS] || path == [REGISTER_WITH_TAINTS]))
  {
    if |path| == 1 {
      OneKey(path);
    }
  }

  /** A lookup through two maps. */
  lemma LookupTwo(config: map<string, Yaml>, path: seq<string>)
    requires |path| >= 2
    ensures var inner := Below(config, path[0]);
            Lookup(Map(config), path) == if path[1] in inner then Lookup(inner[path[1]], path[2..]) else None
  {
    assert path[1..][1..] == path[2..];
    if path[0] in config {
      assert Lookup(Map(config), path) == Lookup(config[path[0]], path[1..]);
    }
  }

  /** Below the two containers both trees hold the argument maps. */
  lemma LookupArgs(config: map<string, Yaml>, s: Settings, path: seq<string>)
    requires s.Valid() && Intercepts(config, s)
    requires |path| > 2 && path[0] == NODE_REGISTRATION && path[1] == KUBELET_EXTRA_ARGS
    ensures var args := Below(Below(config, NODE_REGISTRATION), KUBELET_EXTRA_ARGS);
            && Lookup(Map(config), path) == Lookup(Map(args), path[2..])
            && Lookup(Map(Injected(config, s)), path) == Lookup(Map(WithArgs(args, s)), path[2..])
  {
    LookupTwo(config, path);
    LookupTwo(Injected(config, s), path);
  }

  /** Everywhere outside the two containers and the three keys both trees are the same. */
  lemma SameElsewhere(config: map<string, Yaml>, s: Settings, path: seq<string>)
    requires s.Valid() && path != [] && path != [NODE_REGISTRATION]
    ensures var before, after := Lookup(Map(config), path), Lookup(Map(Injected(config, s)), path);
            || before == after
            || path == [NODE_REGISTRATION, KUBELET_EXTRA_ARGS]
            || (InjectedPath(path) && before.None?)
  {
    if Intercepts(config, s) && path[0] == NODE_REGISTRATION {
      assert path == [path[0]] + path[1..];
      if path[1] != KUBELET_EXTRA_ARGS {
        LookupTwo(config, path);
        LookupTwo(Injected(config, s), path);
      } else {
        assert path == [path[0], path[1]] + path[2..];
        if |path| > 2 {
          LookupArgs(config, s, path);
          ArgsAddOnly(Below(Below(config, NODE_REGISTRATION), KUBELET_EXTRA_ARGS), s, path[2..]);
        }
      }
    }
  }

  lemma LookupContainers(config: map<string, Yaml>, s: Settings)
    requires s.Valid() && Intercepts(config, s)
    ensures var outer, inner := [NODE_REGISTRATION], [NODE_REGISTRATION, KUBELET_EXTRA_ARGS];
            var registration := Below(config, NODE_REGISTRATION);
            && Lookup(Map(config), outer) == Some(config[NODE_REGISTRATION])
            && (KUBELET_EXTRA_ARGS in registration ==>
                  Lookup(Map(config), inner) == Some(registration[KUBELET_EXTRA_ARGS]))
            && (KUBELET_EXTRA_ARGS !in registration ==> Lookup(Map(config), inner) == None)
            && Lookup(Map(Injected(config, s)), outer).Some? && Lookup(Map(Injected(config, s)), outer).value.Map?
            && Lookup(Map(Injected(config, s)), inner).Some? && Lookup(Map(Injected(config, s)), inner).value.Map?
  {
    var outer, inner := [NODE_REGISTRATION], [NODE_REGISTRATION, KUBELET_EXTRA_ARGS];
    assert outer[1..] == [] && inner[2..] == [];
    LookupTwo(config, inner);
    LookupTwo(Injected(config, s), inner);
  }

  /** Nothing but the three keys is added: data in the new tree was there before, or sits at one of
      the three places, where there was nothing. */
  lemma InjectionAddsOnly(config: map<string, Yaml>, s: Settings, path: seq<string>, v: Yaml)
    requires s.Valid() && DataAt(Map(Injected(config, s)), path, v)
    ensures DataAt(Map(config), path, v) || (InjectedPath(path) && Lookup(Map(config), path).None?)
  {
    if Intercepts(config, s) {
      LookupContainers(config, s);
      SameElsewhere(config, s, path);
    }
  }

  /** Exactly when no data is lost: the host has no name, or both containers are absent, null or maps. */
  lemma InjectionKeepsDataExactly(config: map<string, Yaml>, s: Settings)
    requires s.Valid()
    ensures KeepsData(Map(config), Map(Injected(config, s))) <==>
              || s.hostname == ""
              || (Open(config, NODE_REGISTRATION) && Open(Below(config, NODE_REGISTRATION), KUBELET_EXTRA_ARGS))
  {
    var before, after := Map(config), Map(Injected(config, s));
    if Intercepts(config, s) {
      LookupContainers(config, s);
      var outer, inner := [NODE_REGISTRATION], [NODE_REGISTRATION, KUBELET_EXTRA_ARGS];
      var registration := Below(config, NODE_REGISTRATION);
      if !Open(config, NODE_REGISTRATION) {
        assert DataAt(before, outer, config[NODE_REGISTRATION]);
        assert !DataAt(after, outer, config[NODE_REGISTRATION]);
      } else if !Open(registration, KUBELET_EXTRA_ARGS) {
        assert DataAt(before, inner, registration[KUBELET_EXTRA_ARGS]);
        assert !DataAt(after, inner, registration[KUBELET_EXTRA_ARGS]);
      } else {
        forall path, v | DataAt(before, path, v)
          ensures DataAt(after, path, v)
        {
          SameElsewhere(config, s, path);
        }
      }
    }
  }

  // ---- Both join modes ------------------------------------------------------------------------

  /** The kubelet flags of the TLS bootstrap mode that describe the node. */
  datatype Flags = Flags(providerId: string, nodeLabels: Option<string>, taints: Option<string>)

  ghost function TlsFlags(s: Settings): Flags
    requires s.Valid()
  {
    Flags(GenerateProviderID(s.hostname),
          if s.labels == map[] then None else Some(Print(s.labels, s.order)),
          if s.taints == [] then None else Some(TaintString(s.taints)))
  }

  /** What the flags say: labels and taints are given exactly when there are any, joined by commas. */
  lemma TlsFlagsExactly(s: Settings)
    requires s.Valid()
    ensures var f := TlsFlags(s);
            && f.providerId == "byoh://" + s.hostname
            && f.nodeLabels == (if s.labels == map[] then None else Some(Join(Pairs(s.labels, s.order), ',')))
            && f.taints == (if s.taints == [] then None else Some(Join(TaintTexts(s.taints), ',')))
  {
  }

  method KubeletArgs(s: Settings) returns (flags: Flags)
    requires s.Valid()
    ensures flags == TlsFlags(s)
  {
    flags := Flags(GenerateProviderID(s.hostname), None, None);
    if s.labels != map[] {
      var text := PrintLabels(s.labels, s.order);
      flags := flags.(nodeLabels := Some(text));
    }
    if s.taints != [] {
      var text := PrintTaints(s.taints);
      flags := flags.(taints := Some(text));
    }
  }

  /** The same flags as kubeadm reads them from the rewritten configuration. */
  function ArgAt(config: map<string, Yaml>, key: string): Option<Yaml> {
    Lookup(Map(config), [NODE_REGISTRATION, KUBELET_EXTRA_ARGS, key])
  }

  function AsText(text: Option<string>): Option<Yaml> {
    if text.Some? then Some(Scalar(text.value)) else None
  }

  /** Two lists that hold the same elements equally often. */
  predicate SameUpToOrder(a: seq<string>, b: seq<string>) {
    multiset(a) == multiset(b)
  }

  lemma ArgAtBelow(config: map<string, Yaml>, s: Settings, key: string)
    requires s.Valid() && Intercepts(config, s)
    ensures var args := Below(Below(config, NODE_REGISTRATION), KUBELET_EXTRA_ARGS);
            && ArgAt(config, key) == (if key in args then Some(args[key]) else None)
            && ArgAt(Injected(config, s), key)
               == (if key in WithArgs(args, s) then Some(WithArgs(args, s)[key]) else None)
  {
    var path := [NODE_REGISTRATION, KUBELET_EXTRA_ARGS, key];
    assert path[2..] == [key] && [key][1..] == [];
    LookupArgs(config, s, path);
  }

  /** What is added to arguments that have none of the three keys. */
  lemma FreshArgs(args: map<string, Yaml>, s: Settings)
    requires s.Valid() && PROVIDER_ID !in args && NODE_LABELS !in args && REGISTER_WITH_TAINTS !in args
    ensures var r, flags := WithArgs(args, s), TlsFlags(s);
            && PROVIDER_ID in r && r[PROVIDER_ID] == Scalar(flags.providerId)
            && (if NODE_LABELS in r then Some(r[NODE_LABELS]) else None) == AsText(flags.nodeLabels)
            && (if REGISTER_WITH_TAINTS in r then Some(r[REGISTER_WITH_TAINTS]) else None) == AsText(flags.taints)
  {
  }

  predicate NoneSet(config: map<string, Yaml>) {
    ArgAt(config, PROVIDER_ID).None? && ArgAt(config, NODE_LABELS).None? && ArgAt(config, REGISTER_WITH_TAINTS).None?
  }

  /** The rewritten configuration says what the flags of the TLS mode would say for the same order. */
  lemma InjectedIsTls(config: map<string, Yaml>, s: Settings)
    requires s.Valid() && Intercepts(config, s) && NoneSet(config)
    ensures var after, flags := Injected(config, s), TlsFlags(s);
            && ArgAt(after, PROVIDER_ID) == Some(Scalar(flags.providerId))
            && ArgAt(after, NODE_LABELS) == AsText(flags.nodeLabels)
            && ArgAt(after, REGISTER_WITH_TAINTS) == AsText(flags.taints)
  {
    ArgAtBelow(config, s, PROVIDER_ID);
    ArgAtBelow(config, s, NODE_LABELS);
    ArgAtBelow(config, s, REGISTER_WITH_TAINTS);
    FreshArgs(Below(Below(config, NODE_REGISTRATION), KUBELET_EXTRA_ARGS), s);
  }

  lemma PairsUpToOrder(m: map<string, string>, a: seq<string>, b: seq<string>)
    requires Enumerates(a, m) && Enumerates(b, m)
    ensures SameUpToOrder(Pairs(m, a), Pairs(m, b))
  {
    OrdersArePermutations(m, a, b);
    PairsPermuted(m, a, b);
  }

  /** Both join modes give the kubelet the same provider ID exactly when the host has a name, and then
      also the same taints, and the same labels up to the orders s and t in which the two happen to
      iterate them. Without a name the rewrite is skipped, and kubeadm sees none of the three. */
  lemma JoinModesAgree(config: map<string, Yaml>, s: Settings, t: Settings)
    requires s.Valid() && t.Valid() && s.(order := t.order) == t
    requires NODE_REGISTRATION in config && NoneSet(config)
    ensures ArgAt(Injected(config, s), PROVIDER_ID) == Some(Scalar(TlsFlags(t).providerId)) <==> s.hostname != ""
    ensures s.hostname == "" ==> NoneSet(Injected(config, s))
    ensures var after, flags := Injected(config, s), TlsFlags(t);
            s.hostname != "" ==>
              && ArgAt(after, REGISTER_WITH_TAINTS) == AsText(flags.taints)
              && (s.labels == map[] ==> ArgAt(after, NODE_LABELS) == None && flags.nodeLabels == None)
              && (s.labels != map[] ==>
                    && ArgAt(after, NODE_LABELS) == Some(Scalar(Join(Pairs(s.labels, s.order), ',')))
                    && flags.nodeLabels == Some(Join(Pairs(t.labels, t.order), ',')))
    ensures SameUpToOrder(Pairs(s.labels, s.order), Pairs(t.labels, t.order))
  {
    if s.hostname != "" {
      InjectedIsTls(config, s);
    }
    PairsUpToOrder(s.labels, s.order, t.order);
  }

  lemma {:induction false} CountOnce(order: seq<string>, k: string)
    requires forall i, j :: 0 <= i < j < |order| ==> order[i] != order[j]
    ensures multiset(order)[k] == if k in order then 1 else 0
    decreases |order|
  {
    if order != [] {
      var n := |order| - 1;
      CountOnce(order[..n], k);
      assert order == order[..n] + [order[n]];
    }
  }

  lemma OrdersArePermutations(m: map<string, string>, a: seq<string>, b: seq<string>)
    requires Enumerates(a, m) && Enumerates(b, m)
    ensures multiset(a) == multiset(b)
  {
    forall k: string
      ensures multiset(a)[k] == multiset(b)[k]
    {
      CountOnce(a, k);
      CountOnce(b, k);
    }
  }

  function Without(b: seq<string>, j: nat): seq<string>
    requires j < |b|
  {
    b[..j] + b[j + 1..]
  }

  lemma TakeOut(b: seq<string>, j: nat)
    requires j < |b|
    ensures multiset(b) == multiset{b[j]} + multiset(Without(b, j))
  {
    assert b == b[..j] + ([b[j]] + b[j + 1..]);
  }

  lemma TakeOutBoth(a: seq<string>, b: seq<string>, j: nat)
    requires a != [] && j < |b| && a[0] == b[j]
    ensures multiset(a) == multiset(b) <==> multiset(Without(a, 0)) == multiset(Without(b, j))
  {
    TakeOut(a, 0);
    TakeOut(b, j);
    assert multiset(Without(a, 0)) == multiset(a) - multiset{a[0]};
    assert multiset(Without(b, j)) == multiset(b) - multiset{b[j]};
  }

  lemma SameMembers(a: seq<string>, b: seq<string>, k: string)
    requires multiset(a) == multiset(b)
    ensures k in a <==> k in b
  {
    assert k in a <==> k in multiset(a);
    assert k in b <==> k in multiset(b);
  }

  lemma PairsTakeOut(m: map<string, string>, b: seq<string>, j: nat)
    requires j < |b| && forall k :: k in b ==> k in m
    ensures forall k :: k in Without(b, j) ==> k in m
    ensures Without(Pairs(m, b), j) == Pairs(m, Without(b, j))
  {
    forall k | k in Without(b, j)
      ensures k in m
    {
      assert k in b;
    }
  }

  lemma {:induction false} PairsPermuted(m: map<string, string>, a: seq<string>, b: seq<string>)
    requires multiset(a) == multiset(b) && (forall k :: k in a ==> k in m) && (forall k :: k in b ==> k in m)
    ensures multiset(Pairs(m, a)) == multiset(Pairs(m, b))
    decreases |a|
  {
    if a == [] {
      assert |multiset(b)| == 0;
    } else {
      SameMembers(a, b, a[0]);
      var j :| 0 <= j < |b| && b[j] == a[0];
      TakeOutBoth(a, b, j);
      PairsTakeOut(m, a, 0);
      PairsTakeOut(m, b, j);
      PairsPermuted(m, Without(a, 0), Without(b, j));
      TakeOutBoth(Pairs(m, a), Pairs(m, b), j);
    }
  }
}
