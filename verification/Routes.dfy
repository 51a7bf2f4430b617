// The migration plan of a tunnel's ingress rules onto the gateway (src/intrusion/route-plan.ts) and
// the check that verifies a migrated tunnel (src/intrusion/coverage.ts).
module Routes {
  import opened Wrappers
  import Text

  /** `originRequest` of a rule: absent, not an object, or its Host header and everything else in it
      (0 for nothing else). */
  datatype Options = NoOptions | BadOptions | Options(host: Option<string>, other: nat)

  datatype Rule = Rule(hostname: Option<string>, path: Option<string>, service: string, origin: Options, extra: nat)

  datatype Route = Route(hostname: string, path: Option<string>, routeKey: Option<string>, forwardHost: Option<string>,
                         origin: string)

  datatype Tunnel = Tunnel(id: string, hostnames: seq<string>)

  datatype Config = Config(routes: seq<Route>, tunnels: seq<Tunnel>)

  datatype TunnelConfig = TunnelConfig(ingress: seq<Rule>, origin: Options)

  function LowerChar(c: char): char {
    if 'A' <= c <= 'Z' then c - 'A' + 'a' else c
  }

  function Lower(s: string): string {
    seq(|s|, i requires 0 <= i < |s| => LowerChar(s[i]))
  }

  function Or<T>(o: Option<T>, other: T): T {
    if o.Some? then o.value else other
  }

  predicate OnHost(rule: Rule, host: string) {
    rule.hostname.Some? && Lower(rule.hostname.value) == host
  }

  predicate Matches(rule: Rule, route: Route) {
    OnHost(rule, route.hostname) && Or(rule.path, "") == Or(route.path, "")
  }

  function FindRoute(routes: seq<Route>, rule: Rule): Option<Route> {
    if routes == [] then None else if Matches(rule, routes[0]) then Some(routes[0]) else FindRoute(routes[1..], rule)
  }

  /** The routes on some of the hosts. */
  function RoutesOn(routes: seq<Route>, hosts: seq<string>): seq<Route> {
    if routes == [] then []
    else (if routes[0].hostname in hosts then [routes[0]] else []) + RoutesOn(routes[1..], hosts)
  }

  function RulesOn(ingress: seq<Rule>, host: string): seq<Rule> {
    if ingress == [] then [] else (if OnHost(ingress[0], host) then [ingress[0]] else []) + RulesOn(ingress[1..], host)
  }

  function MatchCount(ingress: seq<Rule>, route: Route): nat {
    if ingress == [] then 0 else (if Matches(ingress[0], route) then 1 else 0) + MatchCount(ingress[1..], route)
  }

  predicate AllOnce(routes: seq<Route>, ingress: seq<Rule>) {
    forall k :: 0 <= k < |routes| ==> MatchCount(ingress, routes[k]) == 1
  }

  function FindTunnel(tunnels: seq<Tunnel>, id: string): Option<Tunnel> {
    if tunnels == [] then None else if tunnels[0].id == id then Some(tunnels[0]) else FindTunnel(tunnels[1..], id)
  }

  function KeyOf(route: Route): string {
    Or(route.routeKey, route.hostname)
  }

  function Gateway(port: nat): string {
    "http://127.0.0.1:" + Text.Digits(port, 10)
  }

  function HostOf(options: Options): Option<string> {
    if options.Options? then options.host else None
  }

  // ----- The plan -----

  datatype Refusal = InvalidTarget | InvalidOptions | AmbiguousRule | OriginChanged

  datatype Plan = Planned(ingress: seq<Rule>) | Refused(why: Refusal)

  /** `sameOrigin` compares the two origins as URLs, with `localhost` read as 127.0.0.1. */
  function PlanRule(rule: Rule, routes: seq<Route>, inherited: Options, port: nat,
      sameOrigin: (string, string) -> bool): Plan {
    match FindRoute(routes, rule)
    case None => Planned([rule])
    case Some(route) =>
      if rule.origin.BadOptions? then Refused(InvalidOptions)
      else if !sameOrigin(rule.service, route.origin)
           || Or(HostOf(rule.origin), Or(HostOf(inherited), route.hostname)) != Or(route.forwardHost, route.hostname)
      then Refused(OriginChanged)
      else Planned([rule.(service := Gateway(port),
                          origin := Options(Some(KeyOf(route)),
                            if rule.origin.Options? then rule.origin.other else 0))])
  }

  function PlanRules(ingress: seq<Rule>, routes: seq<Route>, inherited: Options, port: nat,
                     sameOrigin: (string, string) -> bool): Plan {
    if ingress == [] then Planned([])
    else match PlanRule(ingress[0], routes, inherited, port, sameOrigin)
      case Refused(why) => Refused(why)
      case Planned(first) =>
        match PlanRules(ingress[1..], routes, inherited, port, sameOrigin)
        case Refused(why) => Refused(why)
        case Planned(rest) => Planned(first + rest)
  }

  function PlanGatewayRoutes(before: TunnelConfig, config: Config, tunnelId: string, port: nat,
                             sameOrigin: (string, string) -> bool): Plan {
    match FindTunnel(config.tunnels, tunnelId)
    case None => Refused(InvalidTarget)
    case Some(tunnel) =>
      var routes := RoutesOn(config.routes, tunnel.hostnames);
      if port < 1 || port > 65535 then Refused(InvalidTarget)
      else if before.origin.BadOptions? then Refused(InvalidOptions)
      else if !AllOnce(routes, before.ingress) then Refused(AmbiguousRule)
      else PlanRules(before.ingress, routes, before.origin, port, sameOrigin)
  }

  // ----- The verifier -----

  datatype Gap = NotExclusive(host: string) | Uncovered(tunnel: string) | UnsafeFallback(tunnel: string)

  function WithoutSlash(s: string): string {
    if s != [] && s[|s| - 1] == '/' then s[..|s| - 1] else s
  }

  /** Whether a rule on `host` bypasses the gateway; invalid options throw (None). */
  function Bypasses(rule: Rule, routes: seq<Route>, inherited: Options, host: string, port: nat): Option<bool> {
    match FindRoute(routes, rule)
    case None => Some(true)
    case Some(route) =>
      if WithoutSlash(rule.service) != Gateway(port) then Some(true)
      else if rule.origin.BadOptions? then None
      else Some(Or(HostOf(rule.origin), Or(HostOf(inherited), host)) != KeyOf(route))
  }

  function AnyBypasses(rules: seq<Rule>, routes: seq<Route>, inherited: Options, host: string,
      port: nat): Option<bool> {
    if rules == [] then Some(false)
    else match Bypasses(rules[0], routes, inherited, host, port)
      case None => None
      case Some(true) => Some(true)
      case Some(false) => AnyBypasses(rules[1..], routes, inherited, host, port)
  }

  function HostGap(current: TunnelConfig, config: Config, host: string, port: nat): Option<bool> {
    var rules := RulesOn(current.ingress, host);
    var routes := RoutesOn(config.routes, [host]);
    match AnyBypasses(rules, routes, current.origin, host, port)
    case None => None
    case Some(bypassed) => Some(bypassed || !AllOnce(routes, rules))
  }

  predicate StartsWith(s: string, prefix: string) {
    prefix <= s
  }

  predicate UncoveredRule(rule: Rule, hostnames: seq<string>) {
    rule.hostname.Some? && rule.hostname.value != "" && Lower(rule.hostname.value) !in hostnames
    && !StartsWith(rule.service, "http_status:")
  }

  predicate HasUncovered(ingress: seq<Rule>, hostnames: seq<string>) {
    exists k :: 0 <= k < |ingress| && UncoveredRule(ingress[k], hostnames)
  }

  predicate UnsafeEnd(ingress: seq<Rule>) {
    ingress == [] ||
    var last := ingress[|ingress| - 1];
    (last.hostname.Some? && last.hostname.value != "") || last.service !in {"http_status:404", "http_status:503"}
  }

  function HostGaps(current: TunnelConfig, config: Config, hosts: seq<string>, port: nat): Option<seq<Gap>> {
    if hosts == [] then Some([])
    else match HostGap(current, config, hosts[0], port)
      case None => None
      case Some(gap) =>
        match HostGaps(current, config, hosts[1..], port)
        case None => None
        case Some(more) => Some((if gap then [NotExclusive(hosts[0])] else []) + more)
  }

  function TunnelGaps(current: TunnelConfig, config: Config, tunnel: Tunnel, port: nat): Option<seq<Gap>> {
    if current.origin.BadOptions? then None
    else match HostGaps(current, config, tunnel.hostnames, port)
      case None => None
      case Some(gaps) => Some(gaps + RestGaps(current.ingress, tunnel))
  }

  function RestGaps(ingress: seq<Rule>, tunnel: Tunnel): seq<Gap> {
    (if HasUncovered(ingress, tunnel.hostnames) then [Uncovered(tunnel.id)] else [])
    + (if UnsafeEnd(ingress) then [UnsafeFallback(tunnel.id)] else [])
  }

  /** The body of the loop over tunnels: the gaps of one, or a thrown error. */
  method VerifyTunnel(current: TunnelConfig, config: Config, tunnel: Tunnel, port: nat)
      returns (found: Option<seq<Gap>>)
    ensures found == TunnelGaps(current, config, tunnel, port)
  {
    if current.origin.BadOptions? {
      return None;
    }
    var gaps: seq<Gap> := [];
    var hosts := tunnel.hostnames;
    assert hosts[0..] == hosts;
    AfterNothing(HostGaps(current, config, hosts, port));
    for i := 0 to |hosts|
      invariant HostGaps(current, config, hosts, port) == After(gaps, HostGaps(current, config, hosts[i..], port))
    {
      hide HostGap;
      assert hosts[i..][1..] == hosts[i + 1..];
      var gap := HostGap(current, config, hosts[i], port);
      ghost var more := HostGaps(current, config, hosts[i + 1..], port);
      AfterTwice(gaps, [NotExclusive(hosts[i])], more);
      AfterTwice(gaps, [], more);
      assert gaps + [] == gaps;
      if gap.None? {
        return None;
      }
      if gap.value {
        gaps := gaps + [NotExclusive(hosts[i])];
      }
    }
    assert gaps + [] == gaps;
    ghost var hostGaps := gaps;
    if HasUncovered(current.ingress, tunnel.hostnames) {
      gaps := gaps + [Uncovered(tunnel.id)];
    }
    if UnsafeEnd(current.ingress) {
      gaps := gaps + [UnsafeFallback(tunnel.id)];
    }
    assert gaps == hostGaps + RestGaps(current.ingress, tunnel);
    found := Some(gaps);
  }

  function After(gaps: seq<Gap>, more: Option<seq<Gap>>): Option<seq<Gap>> {
    if more.None? then None else Some(gaps + more.value)
  }

  lemma AfterTwice(a: seq<Gap>, b: seq<Gap>, more: Option<seq<Gap>>)
    ensures After(a, After(b, more)) == After(a + b, more)
  {
    if more.Some? {
      assert a + (b + more.value) == a + b + more.value;
    }
  }

  lemma AfterNothing(more: Option<seq<Gap>>)
    ensures After([], more) == more
  {
    if more.Some? {
      assert [] + more.value == more.value;
    }
  }

  // ----- Finding a route -----

  /** Only the routes on a rule's own host can match it. */
  lemma {:induction false} FindAmongHosts(routes: seq<Route>, hosts: seq<string>, rule: Rule)
    ensures FindRoute(RoutesOn(routes, hosts), rule) ==
      if rule.hostname.Some? && Lower(rule.hostname.value) in hosts then FindRoute(routes, rule) else None
  {
    if routes != [] {
      FindAmongHosts(routes[1..], hosts, rule);
      var rest := RoutesOn(routes[1..], hosts);
      assert ([routes[0]] + rest)[1..] == rest && [] + rest == rest;
    }
  }

  lemma {:induction false} RoutesOnAreRoutes(routes: seq<Route>, hosts: seq<string>)
    ensures forall r :: r in RoutesOn(routes, hosts) <==> r in routes && r.hostname in hosts
  {
    if routes != [] {
      RoutesOnAreRoutes(routes[1..], hosts);
    }
  }

  lemma {:induction false} CountOnHost(ingress: seq<Rule>, route: Route)
    ensures MatchCount(RulesOn(ingress, route.hostname), route) == MatchCount(ingress, route)
  {
    if ingress != [] {
      CountOnHost(ingress[1..], route);
      var rest := RulesOn(ingress[1..], route.hostname);
      assert ([ingress[0]] + rest)[1..] == rest && [] + rest == rest;
    }
  }

  // ----- What the plan changes -----

  /** A rule after the plan: its selector and its other options never change; a rule no route matches is
      the same. */
  predicate PlannedAs(rule: Rule, after: Rule, routes: seq<Route>, port: nat) {
    match FindRoute(routes, rule)
    case None => after == rule
    case Some(route) =>
      && after.hostname == rule.hostname && after.path == rule.path && after.extra == rule.extra
      && after.service == Gateway(port) && !rule.origin.BadOptions?
      && after.origin == Options(Some(KeyOf(route)), if rule.origin.Options? then rule.origin.other else 0)
  }

  predicate AllPlannedAs(ingress: seq<Rule>, after: seq<Rule>, routes: seq<Route>, port: nat) {
    |after| == |ingress| && forall k :: 0 <= k < |ingress| ==> PlannedAs(ingress[k], after[k], routes, port)
  }

  lemma {:induction false} PlanRulesShape(ingress: seq<Rule>, routes: seq<Route>, inherited: Options, port: nat,
                                          sameOrigin: (string, string) -> bool)
    requires PlanRules(ingress, routes, inherited, port, sameOrigin).Planned?
    ensures AllPlannedAs(ingress, PlanRules(ingress, routes, inherited, port, sameOrigin).ingress, routes, port)
  {
    if ingress != [] {
      PlanRulesShape(ingress[1..], routes, inherited, port, sameOrigin);
      var rest := PlanRules(ingress[1..], routes, inherited, port, sameOrigin).ingress;
      var first := PlanRule(ingress[0], routes, inherited, port, sameOrigin).ingress;
      assert PlannedAs(ingress[0], first[0], routes, port);
      forall k | 0 <= k < |ingress| ensures PlannedAs(ingress[k], (first + rest)[k], routes, port) {
        if k > 0 {
          assert ingress[1..][k - 1] == ingress[k];
        }
      }
    }
  }

  /** The order and the selectors of all rules stay; only matched rules are repointed, to the gateway
      and under the key of their route. */
  lemma PlanRepointsMatchedRules(before: TunnelConfig, config: Config, tunnelId: string, port: nat,
                                 sameOrigin: (string, string) -> bool)
    requires PlanGatewayRoutes(before, config, tunnelId, port, sameOrigin).Planned?
    ensures FindTunnel(config.tunnels, tunnelId).Some?
    ensures var routes := RoutesOn(config.routes, FindTunnel(config.tunnels, tunnelId).value.hostnames);
      AllPlannedAs(before.ingress, PlanGatewayRoutes(before, config, tunnelId, port, sameOrigin).ingress, routes, port)
      && AllOnce(routes, before.ingress) && !before.origin.BadOptions?
  {
    var routes := RoutesOn(config.routes, FindTunnel(config.tunnels, tunnelId).value.hostnames);
    PlanRulesShape(before.ingress, routes, before.origin, port, sameOrigin);
  }

  lemma {:induction false} CountsStay(ingress: seq<Rule>, after: seq<Rule>, routes: seq<Route>, port: nat, route: Route)
    requires AllPlannedAs(ingress, after, routes, port)
    ensures MatchCount(after, route) == MatchCount(ingress, route)
  {
    if ingress != [] {
      assert PlannedAs(ingress[0], after[0], routes, port);
      TailPlanned(ingress, after, routes, port);
      CountsStay(ingress[1..], after[1..], routes, port, route);
    }
  }

  lemma TailPlanned(ingress: seq<Rule>, after: seq<Rule>, routes: seq<Route>, port: nat)
    requires AllPlannedAs(ingress, after, routes, port) && ingress != []
    ensures AllPlannedAs(ingress[1..], after[1..], routes, port)
  {
    forall k | 0 <= k < |ingress| - 1 ensures PlannedAs(ingress[1..][k], after[1..][k], routes, port) {
      assert PlannedAs(ingress[k + 1], after[k + 1], routes, port);
    }
  }

  // ----- The plan against its verifier -----

  lemma GatewayHasNoSlash(port: nat)
    ensures WithoutSlash(Gateway(port)) == Gateway(port)
  {
    var digits := Text.Digits(port, 10);
    assert digits[|digits| - 1] in digits && '/' !in Text.DIGITS;
  }

  /** A planned rule on a host of the tunnel bypasses the gateway exactly when no route matches it. */
  lemma {:induction false} PlannedBypasses(rule: Rule, after: Rule, routes: seq<Route>, hosts: seq<string>,
                                           host: string, inherited: Options, port: nat)
    requires PlannedAs(rule, after, RoutesOn(routes, hosts), port) && host in hosts && OnHost(rule, host)
    ensures OnHost(after, host)
    ensures Bypasses(after, RoutesOn(routes, [host]), inherited, host, port) == Some(FindRoute(routes, rule).None?)
  {
    hide Lower, Gateway, WithoutSlash, FindRoute, RoutesOn;
    FindAmongHosts(routes, hosts, rule);
    FindAmongHosts(routes, [host], after);
    SameSelector(routes, rule, after);
    GatewayHasNoSlash(port);
  }

  lemma {:induction false} SameSelector(routes: seq<Route>, rule: Rule, after: Rule)
    requires rule.hostname == after.hostname && rule.path == after.path
    ensures FindRoute(routes, rule) == FindRoute(routes, after)
  {
    if routes != [] {
      SameSelector(routes[1..], rule, after);
    }
  }

  predicate Unmatched(rule: Rule, routes: seq<Route>, host: string) {
    OnHost(rule, host) && FindRoute(routes, rule).None?
  }

  lemma {:induction false} AnyPlannedBypasses(ingress: seq<Rule>, after: seq<Rule>, routes: seq<Route>,
                                              hosts: seq<string>, host: string, inherited: Options, port: nat)
    requires AllPlannedAs(ingress, after, RoutesOn(routes, hosts), port) && host in hosts
    ensures AnyBypasses(RulesOn(after, host), RoutesOn(routes, [host]), inherited, host, port)
         == Some(exists k :: 0 <= k < |ingress| && Unmatched(ingress[k], routes, host))
  {
    if ingress != [] {
      hide FindRoute, RoutesOn, Bypasses, OnHost;
      assert PlannedAs(ingress[0], after[0], RoutesOn(routes, hosts), port);
      TailPlanned(ingress, after, RoutesOn(routes, hosts), port);
      AnyPlannedBypasses(ingress[1..], after[1..], routes, hosts, host, inherited, port);
      UnmatchedSplits(ingress, routes, host);
      var rest := RulesOn(after[1..], host);
      assert ([after[0]] + rest)[1..] == rest && [] + rest == rest;
      if OnHost(ingress[0], host) {
        PlannedBypasses(ingress[0], after[0], routes, hosts, host, inherited, port);
      } else {
        StaysOffHost(ingress[0], after[0], RoutesOn(routes, hosts), host, port);
      }
    }
  }

  lemma StaysOffHost(rule: Rule, after: Rule, routes: seq<Route>, host: string, port: nat)
    requires PlannedAs(rule, after, routes, port)
    ensures OnHost(after, host) == OnHost(rule, host)
  {
  }

  lemma UnmatchedSplits(ingress: seq<Rule>, routes: seq<Route>, host: string)
    requires ingress != []
    ensures (exists k :: 0 <= k < |ingress| && Unmatched(ingress[k], routes, host)) <==>
      Unmatched(ingress[0], routes, host)
        || exists k :: 0 <= k < |ingress| - 1 && Unmatched(ingress[1..][k], routes, host)
    ensures Unmatched(ingress[0], routes, host) ==> OnHost(ingress[0], host)
    ensures OnHost(ingress[0], host) ==> (Unmatched(ingress[0], routes, host) <==> FindRoute(routes, ingress[0]).None?)
  {
    if k :| 1 <= k < |ingress| && Unmatched(ingress[k], routes, host) {
      assert Unmatched(ingress[1..][k - 1], routes, host);
    }
  }

  /** After a successful plan a host of the tunnel is exclusive to the gateway if and only if every
      rule on it matched some route. */
  lemma PlannedHostIsExclusive(before: TunnelConfig, config: Config, tunnelId: string, port: nat,
                               sameOrigin: (string, string) -> bool, host: string)
    requires PlanGatewayRoutes(before, config, tunnelId, port, sameOrigin).Planned?
    requires FindTunnel(config.tunnels, tunnelId).Some? && host in FindTunnel(config.tunnels, tunnelId).value.hostnames
    ensures var after := before.(ingress := PlanGatewayRoutes(before, config, tunnelId, port, sameOrigin).ingress);
      HostGap(after, config, host, port)
      == Some(exists k :: 0 <= k < |before.ingress| && Unmatched(before.ingress[k], config.routes, host))
  {
    hide PlanGatewayRoutes, AllPlannedAs, MatchCount, RulesOn, RoutesOn, AnyBypasses, FindTunnel, Unmatched;
    PlanRepointsMatchedRules(before, config, tunnelId, port, sameOrigin);
    var hosts := FindTunnel(config.tunnels, tunnelId).value.hostnames;
    var after := PlanGatewayRoutes(before, config, tunnelId, port, sameOrigin).ingress;
    AnyPlannedBypasses(before.ingress, after, config.routes, hosts, host, before.origin, port);
    StillOnce(before.ingress, after, config.routes, hosts, host, port);
  }

  lemma StillOnce(ingress: seq<Rule>, after: seq<Rule>, routes: seq<Route>, hosts: seq<string>, host: string, port: nat)
    requires AllPlannedAs(ingress, after, RoutesOn(routes, hosts), port) && AllOnce(RoutesOn(routes, hosts), ingress)
    requires host in hosts
    ensures AllOnce(RoutesOn(routes, [host]), RulesOn(after, host))
  {
    hide AllPlannedAs, MatchCount, RulesOn, RoutesOn;
    RoutesOnAreRoutes(routes, hosts);
    RoutesOnAreRoutes(routes, [host]);
    var here := RoutesOn(routes, [host]);
    forall k | 0 <= k < |here| ensures MatchCount(RulesOn(after, host), here[k]) == 1 {
      assert here[k] in here;
      CountOnHost(after, here[k]);
      CountsStay(ingress, after, RoutesOn(routes, hosts), port, here[k]);
    }
  }

  /** The other two checks find after the plan what they found before it. */
  lemma PlanKeepsOtherGaps(before: TunnelConfig, config: Config, tunnelId: string, port: nat,
                           sameOrigin: (string, string) -> bool)
    requires PlanGatewayRoutes(before, config, tunnelId, port, sameOrigin).Planned?
    requires FindTunnel(config.tunnels, tunnelId).Some?
    requires forall k :: 0 <= k < |config.routes| ==> config.routes[k].hostname != ""
    ensures var tunnel := FindTunnel(config.tunnels, tunnelId).value;
      RestGaps(PlanGatewayRoutes(before, config, tunnelId, port, sameOrigin).ingress, tunnel)
        == RestGaps(before.ingress, tunnel)
  {
    hide PlanGatewayRoutes, FindTunnel, UncoveredRule, RoutesOn;
    PlanRepointsMatchedRules(before, config, tunnelId, port, sameOrigin);
    var tunnel := FindTunnel(config.tunnels, tunnelId).value;
    var routes := RoutesOn(config.routes, tunnel.hostnames);
    var after := PlanGatewayRoutes(before, config, tunnelId, port, sameOrigin).ingress;
    forall k | 0 <= k < |before.ingress|
      ensures UncoveredRule(after[k], tunnel.hostnames) == UncoveredRule(before.ingress[k], tunnel.hostnames)
      ensures Ends(after[k]) == Ends(before.ingress[k])
    {
      RuleKeepsGaps(before.ingress[k], after[k], config.routes, tunnel.hostnames, port);
    }
    var n := |before.ingress|;
    assert n > 0 ==> Ends(after[n - 1]) == Ends(before.ingress[n - 1]);
    assert UnsafeEnd(after) == UnsafeEnd(before.ingress);
  }

  predicate Ends(rule: Rule) {
    !(rule.hostname.Some? && rule.hostname.value != "") && rule.service in {"http_status:404", "http_status:503"}
  }

  lemma RuleKeepsGaps(rule: Rule, after: Rule, routes: seq<Route>, hosts: seq<string>, port: nat)
    requires PlannedAs(rule, after, RoutesOn(routes, hosts), port)
    requires forall k :: 0 <= k < |routes| ==> routes[k].hostname != ""
    ensures UncoveredRule(after, hosts) == UncoveredRule(rule, hosts) && Ends(after) == Ends(rule)
  {
    hide RoutesOn, Gateway, FindRoute, Lower;
    FindAmongHosts(routes, hosts, rule);
    if FindRoute(RoutesOn(routes, hosts), rule).Some? {
      FoundMatches(routes, rule);
      LowerLength(rule.hostname.value);
    }
  }

  lemma LowerLength(s: string)
    ensures |Lower(s)| == |s|
  {
  }

  lemma {:induction false} FoundMatches(routes: seq<Route>, rule: Rule)
    requires FindRoute(routes, rule).Some?
    ensures FindRoute(routes, rule).value in routes && Matches(rule, FindRoute(routes, rule).value)
  {
    if !Matches(rule, routes[0]) {
      FoundMatches(routes[1..], rule);
    }
  }

  // ----- When a plan succeeds -----

  /** Exactly one rule is on the route's host and has its path. */
  ghost predicate HasOneRule(ingress: seq<Rule>, route: Route) {
    exists k :: 0 <= k < |ingress| && IsOnlyRule(ingress, route, k)
  }

  predicate SelectedBy(rule: Rule, route: Route) {
    && rule.hostname.Some? && Lower(rule.hostname.value) == route.hostname
    && (if rule.path.Some? then rule.path.value else "") == (if route.path.Some? then route.path.value else "")
  }

  predicate IsOnlyRule(ingress: seq<Rule>, route: Route, k: nat)
    requires k < |ingress|
  {
    forall j :: 0 <= j < |ingress| ==> (SelectedBy(ingress[j], route) <==> j == k)
  }

  /** The rule still serves the origin of the inventory: the same URL, under the same Host header, its own
      before that of the tunnel before the host name. */
  predicate ServesOrigin(rule: Rule, route: Route, tunnel: Options, sameOrigin: (string, string) -> bool) {
    && !rule.origin.BadOptions? && sameOrigin(rule.service, route.origin)
    && var header := if rule.origin.Options? && rule.origin.host.Some? then rule.origin.host.value
                     else if tunnel.Options? && tunnel.host.Some? then tunnel.host.value
                     else route.hostname;
       header == if route.forwardHost.Some? then route.forwardHost.value else route.hostname
  }

  lemma {:induction false} CountsRules(ingress: seq<Rule>, route: Route)
    ensures MatchCount(ingress, route) == 0 <==> forall j :: 0 <= j < |ingress| ==> !SelectedBy(ingress[j], route)
    ensures MatchCount(ingress, route) == 1 <==> HasOneRule(ingress, route)
  {
    if ingress != [] {
      hide SelectedBy, Matches;
      SelectsAlike(ingress[0], route);
      CountsRules(ingress[1..], route);
      assert forall j :: 0 <= j < |ingress| - 1 ==> ingress[1..][j] == ingress[j + 1];
      assert forall j :: 0 < j < |ingress| ==> ingress[j] == ingress[1..][j - 1];
      if MatchCount(ingress, route) == 1 {
        OnlyRuleIs(ingress, route);
      }
      if k :| 0 <= k < |ingress| && IsOnlyRule(ingress, route, k) {
        if k > 0 {
          assert IsOnlyRule(ingress[1..], route, k - 1);
        }
      }
    }
  }

  lemma SelectsAlike(rule: Rule, route: Route)
    ensures SelectedBy(rule, route) <==> Matches(rule, route)
  {
    hide Lower;
  }

  lemma OnlyRuleIs(ingress: seq<Rule>, route: Route)
    requires ingress != [] && (SelectedBy(ingress[0], route) <==> Matches(ingress[0], route))
    requires MatchCount(ingress, route) == 1
    requires MatchCount(ingress[1..], route) == 0 ==>
      forall j :: 0 <= j < |ingress| - 1 ==> !SelectedBy(ingress[1..][j], route)
    requires MatchCount(ingress[1..], route) == 1 ==> HasOneRule(ingress[1..], route)
    ensures HasOneRule(ingress, route)
  {
    hide SelectedBy, Matches;
    assert forall j :: 0 < j < |ingress| ==> ingress[j] == ingress[1..][j - 1];
    if Matches(ingress[0], route) {
      assert IsOnlyRule(ingress, route, 0);
    } else {
      var k :| 0 <= k < |ingress[1..]| && IsOnlyRule(ingress[1..], route, k);
      assert IsOnlyRule(ingress, route, k + 1);
    }
  }

  lemma RuleIsPlannedIff(rule: Rule, routes: seq<Route>, inherited: Options, port: nat,
                         sameOrigin: (string, string) -> bool)
    ensures PlanRule(rule, routes, inherited, port, sameOrigin).Planned?
       <==> var found := FindRoute(routes, rule);
            found.Some? ==> ServesOrigin(rule, found.value, inherited, sameOrigin)
  {
    hide FindRoute, Gateway;
  }

  lemma {:induction false} RulesArePlannedIff(ingress: seq<Rule>, routes: seq<Route>, inherited: Options, port: nat,
                                              sameOrigin: (string, string) -> bool)
    ensures PlanRules(ingress, routes, inherited, port, sameOrigin).Planned?
       <==> forall k :: 0 <= k < |ingress| ==> StillServes(ingress[k], routes, inherited, sameOrigin)
  {
    if ingress != [] {
      hide PlanRule, StillServes;
      StillServesIff(ingress[0], routes, inherited, port, sameOrigin);
      RulesArePlannedIff(ingress[1..], routes, inherited, port, sameOrigin);
      assert forall j :: 0 <= j < |ingress| - 1 ==> ingress[1..][j] == ingress[j + 1];
      assert forall j :: 0 < j < |ingress| ==> ingress[j] == ingress[1..][j - 1];
    }
  }

  /** The first route that selects this rule, if one does, names the origin the rule serves. */
  predicate StillServes(rule: Rule, routes: seq<Route>, inherited: Options, sameOrigin: (string, string) -> bool) {
    var found := FindRoute(routes, rule);
    found.Some? ==> ServesOrigin(rule, found.value, inherited, sameOrigin)
  }

  lemma StillServesIff(rule: Rule, routes: seq<Route>, inherited: Options, port: nat,
                       sameOrigin: (string, string) -> bool)
    ensures PlanRule(rule, routes, inherited, port, sameOrigin).Planned?
       <==> StillServes(rule, routes, inherited, sameOrigin)
  {
    hide FindRoute, PlanRule;
    RuleIsPlannedIff(rule, routes, inherited, port, sameOrigin);
  }

  /** A route that is found selects the rule, and none before it does. */
  lemma {:induction false} FoundSelects(routes: seq<Route>, rule: Rule)
    ensures var found := FindRoute(routes, rule);
      && (found.Some? ==> found.value in routes && SelectedBy(rule, found.value))
      && (found.None? ==> forall r :: r in routes ==> !SelectedBy(rule, r))
  {
    if routes != [] {
      hide SelectedBy, Matches;
      SelectsAlike(rule, routes[0]);
      FoundSelects(routes[1..], rule);
    }
  }

  /** A plan succeeds if and only if the tunnel is known, the port is one, its options are readable, every
      route on its hosts has exactly one rule, and every rule a route selects still serves that route's
      origin. */
  lemma PlanSucceedsIff(before: TunnelConfig, config: Config, tunnelId: string, port: nat,
                        sameOrigin: (string, string) -> bool)
    ensures PlanGatewayRoutes(before, config, tunnelId, port, sameOrigin).Planned?
       <==> && FindTunnel(config.tunnels, tunnelId).Some?
            && 1 <= port <= 65535 && !before.origin.BadOptions?
            && var routes := RoutesOn(config.routes, FindTunnel(config.tunnels, tunnelId).value.hostnames);
               && (forall k :: 0 <= k < |routes| ==> HasOneRule(before.ingress, routes[k]))
               && (forall k :: 0 <= k < |before.ingress| ==>
                     StillServes(before.ingress[k], routes, before.origin, sameOrigin))
  {
    hide FindTunnel, RoutesOn, HasOneRule, StillServes, MatchCount, PlanRule;
    if FindTunnel(config.tunnels, tunnelId).Some? {
      var routes := RoutesOn(config.routes, FindTunnel(config.tunnels, tunnelId).value.hostnames);
      RulesArePlannedIff(before.ingress, routes, before.origin, port, sameOrigin);
      forall k | 0 <= k < |routes|
        ensures MatchCount(before.ingress, routes[k]) == 1 <==> HasOneRule(before.ingress, routes[k])
      {
        CountsRules(before.ingress, routes[k]);
      }
      assert AllOnce(routes, before.ingress)
        <==> forall k :: 0 <= k < |routes| ==> HasOneRule(before.ingress, routes[k]);
    }
  }

  // ----- When a tunnel has a gap -----

  /** The rule goes to the gateway under the key of its route. */
  predicate GoesToGateway(rule: Rule, route: Route, tunnel: Options, host: string, port: nat) {
    && (rule.service == "http://127.0.0.1:" + Text.Digits(port, 10)
        || rule.service == "http://127.0.0.1:" + Text.Digits(port, 10) + "/")
    && var header := if rule.origin.Options? && rule.origin.host.Some? then rule.origin.host.value
                     else if tunnel.Options? && tunnel.host.Some? then tunnel.host.value
                     else host;
       header == if route.routeKey.Some? then route.routeKey.value else route.hostname
  }

  lemma GatewayOrSlash(service: string, port: nat)
    ensures WithoutSlash(service) == Gateway(port)
       <==> service == "http://127.0.0.1:" + Text.Digits(port, 10)
            || service == "http://127.0.0.1:" + Text.Digits(port, 10) + "/"
  {
    GatewayHasNoSlash(port);
    var g := Gateway(port);
    if service == g + "/" {
      assert service[..|service| - 1] == g;
    }
    if WithoutSlash(service) == g && service != g {
      assert service == service[..|service| - 1] + "/";
    }
  }

  /** A rule on a host bypasses the gateway unless a route selects it and it goes there under its key. */
  lemma BypassesIff(rule: Rule, routes: seq<Route>, inherited: Options, host: string, port: nat)
    requires !rule.origin.BadOptions?
    ensures Bypasses(rule, routes, inherited, host, port)
         == Some(!(FindRoute(routes, rule).Some?
                   && GoesToGateway(rule, FindRoute(routes, rule).value, inherited, host, port)))
  {
    hide FindRoute, WithoutSlash, Gateway;
    GatewayOrSlash(rule.service, port);
  }

  /** The end of the rules is safe only if the last one has no host and answers 404 or 503. */
  predicate EndsSafely(ingress: seq<Rule>) {
    && ingress != []
    && var last := ingress[|ingress| - 1];
       && (last.hostname.None? || last.hostname.value == "")
       && (last.service == "http_status:404" || last.service == "http_status:503")
  }

  /** A rule whose host is not one of the tunnel's, in whatever case it is written, and that serves more
      than a status. */
  predicate ServesElsewhere(rule: Rule, hostnames: seq<string>) {
    && rule.hostname.Some? && rule.hostname.value != "" && Lower(rule.hostname.value) !in hostnames
    && !(|rule.service| >= 12 && rule.service[..12] == "http_status:")
  }

  /** Besides the gaps of hosts there are exactly these two. */
  lemma RestGapsIff(ingress: seq<Rule>, tunnel: Tunnel)
    ensures UnsafeFallback(tunnel.id) in RestGaps(ingress, tunnel) <==> !EndsSafely(ingress)
    ensures Uncovered(tunnel.id) in RestGaps(ingress, tunnel)
       <==> exists k :: 0 <= k < |ingress| && ServesElsewhere(ingress[k], tunnel.hostnames)
    ensures forall gap :: gap in RestGaps(ingress, tunnel) ==> !gap.NotExclusive?
  {
    assert |"http_status:"| == 12;
    forall k | 0 <= k < |ingress|
      ensures UncoveredRule(ingress[k], tunnel.hostnames) <==> ServesElsewhere(ingress[k], tunnel.hostnames)
    {
      hide Lower;
    }
    hide UncoveredRule, ServesElsewhere;
    assert HasUncovered(ingress, tunnel.hostnames)
      <==> exists k :: 0 <= k < |ingress| && ServesElsewhere(ingress[k], tunnel.hostnames);
  }

  /** Host names are compared in lower case. */
  lemma LowersLetters(s: string, i: nat)
    requires i < |s|
    ensures |Lower(s)| == |s|
    ensures 'A' <= s[i] <= 'Z' ==> 'a' <= Lower(s)[i] <= 'z' && Lower(s)[i] - 'a' == s[i] - 'A'
    ensures !('A' <= s[i] <= 'Z') ==> Lower(s)[i] == s[i]
  {
  }

  /** The first tunnel of that id, if there is one. */
  lemma {:induction false} TunnelIsFound(tunnels: seq<Tunnel>, id: string)
    ensures var found := FindTunnel(tunnels, id);
      && (found.Some? ==> found.value in tunnels && found.value.id == id)
      && (found.None? ==> forall t :: t in tunnels ==> t.id != id)
  {
    if tunnels != [] {
      TunnelIsFound(tunnels[1..], id);
    }
  }

  /** The rules on the host go to the gateway under the key of the route that selects them. */
  ghost predicate AllGoToGateway(current: TunnelConfig, routes: seq<Route>, host: string, port: nat) {
    forall k :: 0 <= k < |current.ingress| && OnHost(current.ingress[k], host) ==>
      GoesByRoute(current.ingress[k], routes, current.origin, host, port)
  }

  predicate GoesByRoute(rule: Rule, routes: seq<Route>, tunnel: Options, host: string, port: nat) {
    var found := FindRoute(routes, rule);
    found.Some? && GoesToGateway(rule, found.value, tunnel, host, port)
  }

  lemma {:induction false} AnyBypassesIff(ingress: seq<Rule>, routes: seq<Route>, inherited: Options, host: string,
                                          port: nat)
    requires forall k :: 0 <= k < |ingress| ==> !ingress[k].origin.BadOptions?
    ensures AnyBypasses(RulesOn(ingress, host), RoutesOn(routes, [host]), inherited, host, port)
         == Some(exists k :: 0 <= k < |ingress| && OnHost(ingress[k], host)
                             && !GoesByRoute(ingress[k], routes, inherited, host, port))
  {
    if ingress != [] {
      hide FindRoute, RoutesOn, Bypasses, OnHost, GoesByRoute;
      var rest := RulesOn(ingress[1..], host);
      assert ([ingress[0]] + rest)[1..] == rest && [] + rest == rest;
      assert forall j :: 0 <= j < |ingress| - 1 ==> ingress[1..][j] == ingress[j + 1];
      assert forall j :: 0 < j < |ingress| ==> ingress[j] == ingress[1..][j - 1];
      AnyBypassesIff(ingress[1..], routes, inherited, host, port);
      RuleBypassesIff(ingress[0], routes, inherited, host, port);
    }
  }

  lemma RuleBypassesIff(rule: Rule, routes: seq<Route>, inherited: Options, host: string, port: nat)
    requires !rule.origin.BadOptions?
    ensures OnHost(rule, host) ==> Bypasses(rule, RoutesOn(routes, [host]), inherited, host, port)
                                   == Some(!GoesByRoute(rule, routes, inherited, host, port))
  {
    hide FindRoute, RoutesOn, Bypasses, GoesToGateway;
    FindAmongHosts(routes, [host], rule);
    BypassesIff(rule, RoutesOn(routes, [host]), inherited, host, port);
  }

  /** A host has a gap if and only if some rule on it does not go to the gateway under its route's key, or
      some route on it does not have exactly one rule. */
  lemma HostGapIff(current: TunnelConfig, config: Config, host: string, port: nat)
    requires forall k :: 0 <= k < |current.ingress| ==> !current.ingress[k].origin.BadOptions?
    ensures HostGap(current, config, host, port)
         == Some(!(&& AllGoToGateway(current, config.routes, host, port)
                   && forall r :: r in config.routes && r.hostname == host ==> HasOneRule(current.ingress, r)))
  {
    hide AnyBypasses, RulesOn, RoutesOn, GoesByRoute, MatchCount, HasOneRule, OnHost;
    AnyBypassesIff(current.ingress, config.routes, current.origin, host, port);
    RoutesOnAreRoutes(config.routes, [host]);
    var here := RoutesOn(config.routes, [host]);
    forall r | r in config.routes && r.hostname == host
      ensures MatchCount(RulesOn(current.ingress, host), r) == 1 <==> HasOneRule(current.ingress, r)
    {
      CountOnHost(current.ingress, r);
      CountsRules(current.ingress, r);
    }
    assert AllOnce(here, RulesOn(current.ingress, host))
      <==> forall r :: r in config.routes && r.hostname == host ==> HasOneRule(current.ingress, r) by {
      OnceForEach(here, RulesOn(current.ingress, host));
    }
  }

  lemma OnceForEach(routes: seq<Route>, rules: seq<Rule>)
    ensures AllOnce(routes, rules) <==> forall r :: r in routes ==> MatchCount(rules, r) == 1
  {
    assert forall k :: 0 <= k < |routes| ==> routes[k] in routes;
    if AllOnce(routes, rules) {
      forall r | r in routes ensures MatchCount(rules, r) == 1 {
        var k :| 0 <= k < |routes| && routes[k] == r;
      }
    }
  }

  /** The gaps of a tunnel name exactly the hosts that have one. */
  lemma {:induction false} HostGapsIff(current: TunnelConfig, config: Config, hosts: seq<string>, port: nat)
    ensures var gaps := HostGaps(current, config, hosts, port);
      && (gaps.None? <==> exists h :: h in hosts && HostGap(current, config, h, port).None?)
      && (gaps.Some? ==> forall gap :: gap in gaps.value <==>
            gap.NotExclusive? && gap.host in hosts && HostGap(current, config, gap.host, port) == Some(true))
  {
    if hosts != [] {
      hide HostGap;
      HostGapsIff(current, config, hosts[1..], port);
      assert forall h :: h in hosts <==> h == hosts[0] || h in hosts[1..];
    }
  }
}
