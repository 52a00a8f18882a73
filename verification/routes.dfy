/** Host routing: which rule answers a host name, and which backends it is spread over. */
module Routes {
  import opened Prelude
  import opened Text
  import opened LoadBalancer
  import Health

  datatype BackendTarget = BackendTarget(url: string, weight: int)

  datatype Rule = Rule(host: string, target: string, targets: seq<BackendTarget>, loadBalancing: string,
                       requireAuth: bool, enabled: bool)

  /** A parsed URL; `rest` is everything after the host. */
  datatype Url = Url(scheme: string, host: string, rest: string) {
    function Text(): string { scheme + "://" + host + rest }
  }

  /** url.Parse; None is a parse error. */
  type Parser = string -> Option<Url>

  function NormalizeHost(h: string): string {
    var lower := Lower(Trim(h));
    lower[..IndexOf(lower, ':')]
  }

  lemma LowerKeeps(c: char)
    ensures (LowerChar(c) == ':' <==> c == ':') && (IsSpace(LowerChar(c)) <==> IsSpace(c))
    ensures LowerChar(LowerChar(c)) == LowerChar(c)
  {
  }

  lemma CutLower(t: string)
    ensures |Lower(t)[..IndexOf(Lower(t), ':')]| <= |t|
    ensures IndexOf(t, ':') == |t| && Lower(t) == t ==> Lower(t)[..IndexOf(Lower(t), ':')] == t
  {
  }

  /** Normalising a name without a colon in lower case only trims it. */
  lemma NormalizeLower(r: string)
    requires IndexOf(r, ':') == |r| && Lower(r) == r
    ensures NormalizeHost(r) == r <==> Trimmed(r)
  {
    TrimTrims(r);
    CutLower(Trim(r));
  }

  lemma CutName(name: string, s: string)
    requires name <= s && IndexOf(name, ':') == |name| && (|name| < |s| ==> s[|name|] == ':')
    ensures Lower(s)[..IndexOf(Lower(s), ':')] == Lower(name)
  {
    var lower := Lower(s);
    forall i | 0 <= i < |name| ensures lower[i] != ':' && lower[i] == Lower(name)[i] {
      assert name[i] != ':' && s[i] == name[i];
      LowerKeeps(name[i]);
    }
    if |name| < |s| { LowerKeeps(':'); }
    IndexIs(lower, ':', |name|);
    assert lower[..|name|] == Lower(name);
  }

  /** A host written with blanks before the colon does not normalise once and for all. */
  lemma NormalizeHostIdempotent(h: string)
    ensures var t := Trim(h); var i := IndexOf(t, ':');
            NormalizeHost(NormalizeHost(h)) == NormalizeHost(h)
            <==> i == 0 || i == |t| || !IsSpace(t[i - 1])
  {
    var t := Trim(h);
    var i := IndexOf(t, ':');
    TrimTrims(h);
    IndexIs(t[..i], ':', i);
    CutName(t[..i], t);
    var r := Lower(t[..i]);
    forall j | 0 <= j < i ensures LowerChar(r[j]) == r[j] != ':' && (IsSpace(r[j]) <==> IsSpace(t[j])) {
      LowerKeeps(t[j]);
    }
    assert Lower(r) == r;
    IndexIs(r, ':', i);
    NormalizeLower(r);
  }

  /** One such host. */
  lemma BlankBeforePort()
    ensures NormalizeHost("a :80") == "a " && NormalizeHost("a ") == "a"
  {
    TrimTrims("a :80");
    TrimTrims("a");
    IndexIs("a ", ':', 2);
    IndexIs("a", ':', 1);
    CutName("a ", "a :80");
    CutName("a", "a");
    assert "a "[..1] == "a" && Lower("a ") == "a " && Lower("a") == "a";
  }

  lemma {:induction false} TrimKeepsName(name: string, tail: string) returns (rest: string)
    requires name != "" && Trimmed(name)
    ensures Trim(name + ":" + tail) == name + ":" + rest
    decreases |tail|
  {
    var s := name + ":" + tail;
    if tail != "" && IsSpace(tail[|tail| - 1]) {
      assert s[..|s| - 1] == name + ":" + tail[..|tail| - 1];
      rest := TrimKeepsName(name, tail[..|tail| - 1]);
    } else {
      rest := tail;
    }
  }

  /** What a host is looked up by: the name in small letters, whatever the port, and with the blanks
      around it gone. */
  lemma HostName(name: string, port: string, blank: char)
    requires name != "" && Trimmed(name) && IndexOf(name, ':') == |name| && IsSpace(blank)
    ensures NormalizeHost(name) == NormalizeHost(name + ":" + port) == Lower(name)
    ensures NormalizeHost([blank] + (name + ":" + port)) == Lower(name)
  {
    TrimTrims(name);
    CutName(name, name);
    var rest := TrimKeepsName(name, port);
    CutName(name, name + ":" + rest);
    assert ([blank] + (name + ":" + port))[1..] == name + ":" + port;
  }

  /** parseTarget; None covers both its error and its nil result. */
  function ParseTarget(parse: Parser, raw: string): Option<Url> {
    var raw := Trim(raw);
    if raw == "" then None
    else
      var u := parse(raw);
      if u.None? || (u.value.scheme != "http" && u.value.scheme != "https") || u.value.host == "" then None else u
  }

  // ----- what a list of rules stands for

  datatype Destination = Destination(url: string, weight: int)

  /** The destination one target stands for. */
  function DestinationOf(parse: Parser, t: BackendTarget): Option<Destination> {
    var u := ParseTarget(parse, t.url);
    if u.None? then None else Some(Destination(u.value.Text(), if t.weight <= 0 then 1 else t.weight))
  }

  /** What `give` makes of the targets that it makes something of, in order. */
  function Collect(give: BackendTarget -> Option<Destination>, targets: seq<BackendTarget>): seq<Destination> {
    if targets == [] then []
    else
      var d := give(targets[|targets| - 1]);
      Collect(give, targets[..|targets| - 1]) + if d.None? then [] else [d.value]
  }

  function Giving(parse: Parser): BackendTarget -> Option<Destination> { t => DestinationOf(parse, t) }

  function Destinations(parse: Parser, targets: seq<BackendTarget>): seq<Destination> {
    Collect(Giving(parse), targets)
  }

  /** A target that can be used: an http or https URL with a host. */
  predicate Usable(parse: Parser, url: string) {
    Trim(url) != "" && parse(Trim(url)).Some?
    && parse(Trim(url)).value.scheme in {"http", "https"} && parse(Trim(url)).value.host != ""
  }

  /** `d` is what a usable target asks for: its URL, with its weight or else 1. */
  predicate StandsFor(parse: Parser, t: BackendTarget, d: Destination) {
    && Usable(parse, t.url) && d.url == parse(Trim(t.url)).value.Text()
    && d.weight >= 1 && (if t.weight >= 1 then d.weight == t.weight else d.weight == 1)
  }

  lemma DestinationOfExact(parse: Parser, t: BackendTarget)
    ensures DestinationOf(parse, t).Some? <==> Usable(parse, t.url)
    ensures DestinationOf(parse, t).Some? ==> StandsFor(parse, t, DestinationOf(parse, t).value)
  {
  }

  /** The positions of the targets that `give` makes something of. */
  function Sources(give: BackendTarget -> Option<Destination>, targets: seq<BackendTarget>): seq<int> {
    if targets == [] then []
    else
      var n := |targets| - 1;
      Sources(give, targets[..n]) + if give(targets[n]).None? then [] else [n]
  }

  lemma {:induction false} SourcesMatch(give: BackendTarget -> Option<Destination>, targets: seq<BackendTarget>)
    ensures |Sources(give, targets)| == |Collect(give, targets)|
    ensures forall i :: 0 <= i < |Sources(give, targets)| ==>
      var k := Sources(give, targets)[i];
      0 <= k < |targets| && give(targets[k]) == Some(Collect(give, targets)[i])
    decreases |targets|
  {
    if targets != [] { SourcesMatch(give, targets[..|targets| - 1]); }
  }

  lemma {:induction false} SourcesAscend(give: BackendTarget -> Option<Destination>, targets: seq<BackendTarget>)
    ensures forall i, j :: 0 <= i < j < |Sources(give, targets)| ==>
      Sources(give, targets)[i] < Sources(give, targets)[j]
    decreases |targets|
  {
    if targets != [] {
      SourcesMatch(give, targets[..|targets| - 1]);
      SourcesAscend(give, targets[..|targets| - 1]);
    }
  }

  lemma {:induction false} SourcesAll(give: BackendTarget -> Option<Destination>, targets: seq<BackendTarget>, k: nat)
    requires k < |targets| && give(targets[k]).Some?
    ensures k in Sources(give, targets)
    decreases |targets|
  {
    var n := |targets| - 1;
    if k < n {
      SourcesAll(give, targets[..n], k);
    } else {
      assert n in [n];
    }
  }

  /** Every usable target is served, in the order given, and nothing else is. */
  lemma DestinationsExact(parse: Parser, targets: seq<BackendTarget>) returns (from: seq<int>)
    ensures |from| == |Destinations(parse, targets)|
    ensures forall i :: 0 <= i < |from| ==>
      0 <= from[i] < |targets| && StandsFor(parse, targets[from[i]], Destinations(parse, targets)[i])
    ensures forall i, j :: 0 <= i < j < |from| ==> from[i] < from[j]
    ensures forall k :: 0 <= k < |targets| && Usable(parse, targets[k].url) ==> k in from
  {
    var give := Giving(parse);
    from := Sources(give, targets);
    SourcesMatch(give, targets);
    SourcesAscend(give, targets);
    forall i | 0 <= i < |from| ensures StandsFor(parse, targets[from[i]], Destinations(parse, targets)[i]) {
      DestinationOfExact(parse, targets[from[i]]);
    }
    forall k | 0 <= k < |targets| && Usable(parse, targets[k].url) ensures k in from {
      DestinationOfExact(parse, targets[k]);
      SourcesAll(give, targets, k);
    }
  }

  function RuleDestinations(parse: Parser, r: Rule): seq<Destination> {
    if !r.enabled then []
    else if r.targets != [] then Destinations(parse, r.targets)
    else
      var u := ParseTarget(parse, r.target);
      if u.None? then [] else [Destination(u.value.Text(), 1)]
  }

  /** A rule with a list of targets is served by that list, one without by its single target; a rule that
      is switched off by nothing. */
  lemma RuleDestinationsExact(parse: Parser, r: Rule)
    ensures !r.enabled ==> RuleDestinations(parse, r) == []
    ensures r.enabled && r.targets != [] ==> RuleDestinations(parse, r) == Destinations(parse, r.targets)
    ensures r.enabled && r.targets == [] ==>
      var ds := RuleDestinations(parse, r);
      if Usable(parse, r.target) then |ds| == 1 && StandsFor(parse, BackendTarget(r.target, 1), ds[0]) else ds == []
  {
  }

  function RuleStrategy(r: Rule): string {
    if r.targets == [] || r.loadBalancing == "" then "round-robin" else r.loadBalancing
  }

  /** The rule that answers each normalised host: the last one given for it. */
  function RulesByHost(list: seq<Rule>): map<string, Rule> {
    if list == [] then map[]
    else
      var before := RulesByHost(list[..|list| - 1]);
      var r := list[|list| - 1];
      var host := NormalizeHost(r.host);
      if host == "" then before else before[host := r]
  }

  function Urls(ds: seq<Destination>): (us: seq<string>)
    ensures |us| == |ds| && forall i :: 0 <= i < |ds| ==> us[i] == ds[i].url
  {
    seq(|ds|, i requires 0 <= i < |ds| => ds[i].url)
  }

  /** Everything Rebuild hands to the health checker. */
  function Monitored(parse: Parser, list: seq<Rule>): seq<string> {
    if list == [] then []
    else
      var r := list[|list| - 1];
      Monitored(parse, list[..|list| - 1])
      + if NormalizeHost(r.host) == "" then [] else Urls(RuleDestinations(parse, r))
  }

  lemma DestinationsNamed(parse: Parser, targets: seq<BackendTarget>)
    ensures forall d :: d in Destinations(parse, targets) ==> d.url != "" && d.weight >= 1
  {
    var from := DestinationsExact(parse, targets);
    forall d | d in Destinations(parse, targets) ensures d.url != "" && d.weight >= 1 {
      var i :| 0 <= i < |from| && Destinations(parse, targets)[i] == d;
      assert StandsFor(parse, targets[from[i]], d);
    }
  }

  /** The weights a balancer gets are always positive, and its targets always have a name. */
  lemma RuleDestinationsNamed(parse: Parser, r: Rule)
    ensures forall d :: d in RuleDestinations(parse, r) ==> d.url != "" && d.weight >= 1
  {
    DestinationsNamed(parse, r.targets);
  }

  lemma {:induction false} RoutedIsHandedOver(parse: Parser, list: seq<Rule>, host: string, d: Destination)
    requires host in RulesByHost(list) && d in RuleDestinations(parse, RulesByHost(list)[host])
    ensures d.url in Monitored(parse, list)
    decreases |list|
  {
    var front, r := list[..|list| - 1], list[|list| - 1];
    if NormalizeHost(r.host) == host && host != "" {
      var ds := RuleDestinations(parse, r);
      assert d in ds;
      var i :| 0 <= i < |ds| && ds[i] == d;
      assert Urls(ds)[i] == d.url;
    } else {
      RoutedIsHandedOver(parse, front, host, d);
    }
  }

  /** Nothing else is handed over. */
  lemma {:induction false} HandedOverIsConfigured(parse: Parser, list: seq<Rule>, t: string) returns (r: Rule)
    requires t in Monitored(parse, list)
    ensures r in list && r.enabled && NormalizeHost(r.host) != "" && t in Urls(RuleDestinations(parse, r))
  {
    r := list[|list| - 1];
    if NormalizeHost(r.host) == "" || t !in Urls(RuleDestinations(parse, r)) {
      r := HandedOverIsConfigured(parse, list[..|list| - 1], t);
    }
  }

  lemma PrefixStep(parse: Parser, list: seq<Rule>, i: nat)
    requires i < |list|
    ensures var host := NormalizeHost(list[i].host);
            RulesByHost(list[..i + 1])
              == if host == "" then RulesByHost(list[..i]) else RulesByHost(list[..i])[host := list[i]]
    ensures Monitored(parse, list[..i + 1])
         == Monitored(parse, list[..i])
            + if NormalizeHost(list[i].host) == "" then [] else Urls(RuleDestinations(parse, list[i]))
  {
    assert list[..i + 1][..i] == list[..i];
  }

  // ----- lookup

  /** `k` is a wildcard route whose domain `key` lies in. */
  predicate WildcardFor(k: string, key: string) { HasPrefix(k, "*.") && HasSuffix(key, k[1..]) }

  /** A wildcard answers for its domain with anything in front of it, and for nothing else. */
  lemma WildcardExact(k: string, key: string)
    ensures WildcardFor(k, key) <==>
            exists sub: string, domain: string :: k == "*." + domain && key == sub + "." + domain
  {
    if WildcardFor(k, key) {
      var sub, domain := key[..|key| - |k| + 1], k[2..];
      assert k == k[..2] + domain && k[..2] == "*.";
      assert k[1..] == "." + domain && key == sub + k[1..];
      assert key == sub + "." + domain;
    }
    if sub: string, domain: string :| k == "*." + domain && key == sub + "." + domain {
      assert k[..2] == "*." && k[1..] == "." + domain;
      assert key[|key| - |k[1..]|..] == "." + domain;
    }
  }

  /** `found` is the exact route, or else the one longest wildcard, or nothing if there is neither. */
  ghost predicate Resolves(keys: set<string>, key: string, found: Option<string>) {
    if key in keys then found == Some(key)
    else match found
         case None => forall k :: k in keys ==> !WildcardFor(k, key)
         case Some(best) => best in keys && WildcardFor(best, key)
                            && forall k :: k in keys && WildcardFor(k, key) && k != best ==> |k| < |best|
  }

  lemma EqualLengthWildcards(a: string, b: string, key: string)
    requires WildcardFor(a, key) && WildcardFor(b, key) && |a| == |b|
    ensures a == b
  {
    assert a == [a[0]] + a[1..] && b == [b[0]] + b[1..];
  }

  /** At most one answer fits, so the order in which a map is walked cannot show. */
  lemma ResolvesUnique(keys: set<string>, key: string, a: Option<string>, b: Option<string>)
    requires Resolves(keys, key, a) && Resolves(keys, key, b)
    ensures a == b
  {
  }

  /** The most specific wildcard answers: whichever wildcard covers the host, the one that is found is
      the same or covers less. */
  lemma MostSpecific(keys: set<string>, key: string, found: Option<string>, sub: string, domain: string)
    requires Resolves(keys, key, found) && key !in keys
    requires "*." + domain in keys && key == sub + "." + domain
    ensures found.Some? && HasPrefix(found.value, "*.") && HasSuffix(found.value, "." + domain)
  {
    var k := "*." + domain;
    WildcardExact(k, key);
    assert WildcardFor(k, key);
    var best := found.value;
    assert |k| <= |best|;
    var tail := "." + domain;
    assert best[1..] == key[|key| - |best| + 1..];
    assert best[|best| - |tail|..] == key[|key| - |tail|..] == tail;
  }

  // ----- the engine

  /** A route as the engine keeps it; `lb` is null when the rule has no usable backend. */
  datatype Route = Route(rule: Rule, backends: seq<Backend>, lb: Balancer?, disabled: bool) {
    /** The route is what `r` asks for. */
    ghost predicate Serves(parse: Parser, r: Rule) {
      && rule == r && disabled == !r.enabled
      && Made(backends, RuleDestinations(parse, r))
      && (lb == null <==> backends == [])
      && (lb != null ==> lb.backends == backends && lb.strategy == RuleStrategy(r))
    }
  }

  ghost predicate Made(backends: seq<Backend>, ds: seq<Destination>) {
    |backends| == |ds| && Distinct(backends)
    && forall i :: 0 <= i < |ds| ==> backends[i].target == ds[i].url && backends[i].weight == ds[i].weight
  }

  datatype Reply = DomainDisabled | Unavailable | Unauthorized | Empty | Proxied(backend: Backend) | Crashed

  class Engine {
    const parse: Parser
    var routes: map<string, Route>
    var targets: seq<string>
    var health: Health.Checker?

    ghost var rules: map<string, Rule>

    ghost predicate Valid()
      reads this, health, if health == null then {} else health.cells
    {
      && routes.Keys == rules.Keys
      && (forall h :: h in routes ==> routes[h].Serves(parse, rules[h]))
      && (health != null ==> health.Valid())
    }

    constructor (parse: Parser)
      ensures Valid() && this.parse == parse && routes == map[] && health == null
    {
      this.parse, routes, rules, targets, health := parse, map[], map[], [], null;
    }

    method SetHealthChecker(hc: Health.Checker)
      requires Valid() && hc.Valid()
      modifies this
      ensures Valid() && health == hc && routes == old(routes) && rules == old(rules) && targets == old(targets)
    {
      health := hc;
    }

    method BuildMultiBackends(rl: Rule) returns (backends: seq<Backend>, lb: Balancer?)
      requires rl.enabled && rl.targets != []
      ensures Route(rl, backends, lb, false).Serves(parse, rl)
      ensures lb != null ==>
        lb.strategy == if rl.loadBalancing == "" then "round-robin" else rl.loadBalancing
    {
      var strategy := if rl.loadBalancing == "" then "round-robin" else rl.loadBalancing;
      backends := [];
      for i := 0 to |rl.targets|
        invariant Made(backends, Destinations(parse, rl.targets[..i]))
      {
        assert rl.targets[..i + 1][..i] == rl.targets[..i];
        var t := rl.targets[i];
        var tgt := ParseTarget(parse, t.url);
        if tgt.None? {
          continue;
        }
        var weight := t.weight;
        if weight <= 0 {
          weight := 1;
        }
        var b := new Backend(tgt.value.Text(), weight);
        backends := backends + [b];
      }
      assert rl.targets[..|rl.targets|] == rl.targets;
      if backends == [] {
        return [], null;
      }
      lb := new Balancer(backends, strategy);
    }

    method BuildSingleBackend(rl: Rule) returns (backends: seq<Backend>, lb: Balancer?)
      requires rl.enabled && rl.targets == []
      ensures Route(rl, backends, lb, false).Serves(parse, rl)
      ensures lb != null ==> lb.strategy == "round-robin" && |backends| == 1
    {
      var tgt := ParseTarget(parse, rl.target);
      if tgt.None? {
        return [], null;
      }
      var b := new Backend(tgt.value.Text(), 1);
      backends := [b];
      lb := new Balancer(backends, "round-robin");
    }

    method BuildBackends(rl: Rule) returns (backends: seq<Backend>, lb: Balancer?)
      requires rl.enabled
      ensures Route(rl, backends, lb, false).Serves(parse, rl)
    {
      if |rl.targets| > 0 {
        backends, lb := BuildMultiBackends(rl);
      } else {
        backends, lb := BuildSingleBackend(rl);
      }
    }

    /** The targets of the backends just built, added to those so far. */
    method AppendTargets(targets: seq<string>, backends: seq<Backend>, ghost ds: seq<Destination>)
      returns (more: seq<string>)
      requires Made(backends, ds)
      ensures more == targets + Urls(ds)
    {
      more := targets;
      for k := 0 to |backends|
        invariant more == targets + Urls(ds)[..k]
      {
        more := more + [backends[k].target];
      }
      assert Urls(ds)[..|backends|] == Urls(ds);
    }

    /** The routes and the targets for a list of rules. */
    method Compile(list: seq<Rule>) returns (next: map<string, Route>, targets: seq<string>)
      ensures next.Keys == RulesByHost(list).Keys
      ensures forall h :: h in next ==> next[h].Serves(parse, RulesByHost(list)[h])
      ensures targets == Monitored(parse, list)
    {
      next, targets := map[], [];
      for i := 0 to |list|
        invariant next.Keys == RulesByHost(list[..i]).Keys
        invariant forall h :: h in next ==> next[h].Serves(parse, RulesByHost(list[..i])[h])
        invariant targets == Monitored(parse, list[..i])
      {
        PrefixStep(parse, list, i);
        var rl := list[i];
        var host := NormalizeHost(rl.host);
        if host == "" {
          continue;
        }
        var rt := Route(rl, [], null, !rl.enabled);
        if !rt.disabled {
          var backends, lb := BuildBackends(rl);
          rt := rt.(backends := backends, lb := lb);
          targets := AppendTargets(targets, backends, RuleDestinations(parse, rl));
        }
        next := next[host := rt];
      }
      assert list[..|list|] == list;
    }

    /** The first part of Rebuild, up to the unlocking: the new routes are there for every request, and
        the checker has not been told yet. */
    method Publish(list: seq<Rule>) returns (handOver: seq<string>)
      requires Valid()
      modifies this
      ensures Valid() && health == old(health)
      ensures rules == RulesByHost(list) && targets == handOver == Monitored(parse, list)
    {
      var next, targets' := Compile(list);
      routes, rules, targets := next, RulesByHost(list), targets';
      return targets';
    }

    /** The checker, if there is one, watches every backend of every route. */
    ghost predicate Watched()
      reads this, health
    {
      health != null ==> forall h, i :: h in routes && 0 <= i < |routes[h].backends| ==>
        routes[h].backends[i].target in health.view
    }

    method Rebuild(list: seq<Rule>)
      requires Valid()
      modifies this, health
      ensures Valid() && health == old(health) && Watched()
      ensures rules == RulesByHost(list) && targets == Monitored(parse, list)
      ensures health != null ==> health.view == Health.AfterSetTargets(old(health.view), targets)
    {
      var handOver := Publish(list);
      if health != null {
        health.SetTargets(handOver);
        forall h, i | h in routes && 0 <= i < |routes[h].backends| ensures routes[h].backends[i].target in health.view {
          var ds := RuleDestinations(parse, rules[h]);
          assert routes[h].Serves(parse, rules[h]) && ds[i] in ds;
          RoutedIsHandedOver(parse, list, h, ds[i]);
          RuleDestinationsNamed(parse, rules[h]);
        }
      }
    }

    method Lookup(host: string) returns (rt: Option<Route>)
      requires Valid()
      ensures exists found :: Resolves(routes.Keys, NormalizeHost(host), found)
                && rt == if found.None? then None else Some(routes[found.value])
      ensures NormalizeHost(host) in routes ==> rt == Some(routes[NormalizeHost(host)])
    {
      var key := NormalizeHost(host);
      if key in routes {
        assert Resolves(routes.Keys, key, Some(key));
        return Some(routes[key]);
      }
      rt := None;
      ghost var found: Option<string> := None;
      var bestLen := 0;
      var todo := routes.Keys;
      while todo != {}
        invariant todo <= routes.Keys
        invariant match found
                  case None => bestLen == 0 && rt.None?
                  case Some(best) => best in routes && rt == Some(routes[best]) && bestLen == |best| && WildcardFor(best, key)
        invariant forall k :: k in routes && k !in todo && WildcardFor(k, key) ==> |k| <= bestLen && found.Some?
        decreases todo
      {
        var k :| k in todo;
        todo := todo - {k};
        if !HasPrefix(k, "*.") {
          continue;
        }
        if HasSuffix(key, k[1..]) && |k| > bestLen {
          rt, found, bestLen := Some(routes[k]), Some(k), |k|;
        }
      }
      if found.Some? {
        forall k | k in routes && WildcardFor(k, key) && k != found.value ensures |k| < |found.value| {
          if |k| == |found.value| { EqualLengthWildcards(k, found.value, key); }
        }
      }
      assert Resolves(routes.Keys, key, found);
    }

    /** The proxy handler once the route is found, up to the choice of a backend; `authorized` is what
        the session check says. */
    method ServeRoute(r: Route, ghost rule: Rule, authorized: bool) returns (reply: Reply, ghost pick: Pick)
      requires Valid() && r.Serves(parse, rule)
      modifies r.lb, set b | b in r.backends
      ensures Valid() && unchanged(this)
      ensures pick == Nobody <==> r.backends == []
      ensures |r.backends| == 1 ==> pick == Index(0)
      ensures |r.backends| > 1 && rule.enabled ==> old(r.lb.MayPick(pick)) && r.lb.rr == old(r.lb.TicketAfter())
      ensures r.lb != null && !(|r.backends| > 1 && rule.enabled) ==> r.lb.rr == old(r.lb.rr)
      ensures reply == Verdict(r, pick, authorized)
      ensures forall b :: b in r.backends ==>
        b.activeConns == old(b.activeConns) + if reply == Proxied(b) then 1 else 0
      // exactly when each answer is given
      ensures pick.Index? ==> pick.i < |r.backends|
      ensures var down := pick.Index? && health != null && r.backends[pick.i].target in health.view
                          && !health.view[r.backends[pick.i].target].healthy;
              var turnedAway := rule.requireAuth && !authorized;
              && (reply.Proxied? <==> rule.enabled && pick.Index? && !down && !turnedAway)
              && (reply.Proxied? ==> reply.backend == r.backends[pick.i])
              && (reply.Unavailable? <==> rule.enabled && down)
              && (reply.Unauthorized? <==> rule.enabled && pick != Panic && !down && turnedAway)
              && (reply.Empty? <==> rule.enabled && pick == Nobody && !turnedAway)
              && (reply.DomainDisabled? <==> !rule.enabled)
    {
      pick := if r.backends == [] then Nobody else Index(0);
      if r.disabled {
        return DomainDisabled, pick;
      }
      if r.lb != null && |r.lb.backends| > 1 {
        var picked := r.lb.Next();
        if picked == Panic {
          return Crashed, picked;
        }
        reply := Admit(r, picked.i, authorized);
        return reply, picked;
      }
      if |r.backends| > 0 {
        reply := Admit(r, 0, authorized);
        return reply, pick;
      }
      return if r.rule.requireAuth && !authorized then Unauthorized else Empty, pick;
    }

    /** No checker is attached, or it does not report the backend down. */
    ghost predicate Up(b: Backend)
      reads this, health
    {
      health != null && b.target in health.view ==> health.view[b.target].healthy
    }

    /** The answer once the pick is made: a backend that is down is not replaced by another one, and
        is told before the session is looked at. */
    ghost function Verdict(r: Route, pick: Pick, authorized: bool): Reply
      reads this, health
    {
      if !r.rule.enabled then DomainDisabled
      else match pick
           case Panic => Crashed
           case Nobody => if r.rule.requireAuth && !authorized then Unauthorized else Empty
           case Index(i) =>
             if i >= |r.backends| then Crashed
             else if !Up(r.backends[i]) then Unavailable
             else if r.rule.requireAuth && !authorized then Unauthorized
             else Proxied(r.backends[i])
    }

    method Admit(r: Route, i: nat, authorized: bool) returns (reply: Reply)
      requires Valid() && r.rule.enabled && i < |r.backends|
      modifies r.backends[i]
      ensures reply == Verdict(r, Index(i), authorized)
      ensures r.backends[i].activeConns == old(r.backends[i].activeConns) + if reply.Proxied? then 1 else 0
    {
      var b := r.backends[i];
      if health != null {
        var up := health.IsHealthy(b.target);
        if !up {
          return Unavailable;
        }
      }
      if r.rule.requireAuth && !authorized {
        return Unauthorized;
      }
      b.activeConns := b.activeConns + 1;
      return Proxied(b);
    }
  }

  /** Every host that normalises as the last rule for it does is answered by that rule. */
  lemma {:induction false} LastRuleFound(list: seq<Rule>, i: nat, host: string)
    requires i < |list| && NormalizeHost(host) == NormalizeHost(list[i].host) != ""
    requires forall j :: i < j < |list| ==> NormalizeHost(list[j].host) != NormalizeHost(host)
    ensures var rules := RulesByHost(list);
            NormalizeHost(host) in rules && rules[NormalizeHost(host)] == list[i]
            && Resolves(rules.Keys, NormalizeHost(host), Some(NormalizeHost(host)))
    decreases |list|
  {
    var front := list[..|list| - 1];
    if i < |front| {
      assert NormalizeHost(list[|front|].host) != NormalizeHost(host);
      LastRuleFound(front, i, host);
    }
  }

  /** A host has an exact route exactly when some rule normalises to it. */
  lemma {:induction false} ConfiguredHosts(list: seq<Rule>, h: string)
    ensures h in RulesByHost(list) <==> h != "" && exists i :: 0 <= i < |list| && NormalizeHost(list[i].host) == h
  {
    if list != [] {
      var front := list[..|list| - 1];
      ConfiguredHosts(front, h);
      if h != "" && exists i :: 0 <= i < |list| && NormalizeHost(list[i].host) == h {
        var i :| 0 <= i < |list| && NormalizeHost(list[i].host) == h;
        if i < |front| { assert NormalizeHost(front[i].host) == h; }
      }
      if h in RulesByHost(front) {
        var i :| 0 <= i < |front| && NormalizeHost(front[i].host) == h;
        assert NormalizeHost(list[i].host) == h;
      }
    }
  }
}
