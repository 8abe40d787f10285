// Compilation of a configuration into a selector: rules are split into tiers
// and joined with generated safety rules.
module Compilation {
  import opened Common
  import opened Packets
  import opened FlowKey
  import opened Selector
  import opened RuleConfigs
  import opened Decimal

  // ------------------------------------------------------------ safety rules

  type IpAddr = a: Addr | a.bits == 32 || a.bits == 128 witness Addr(32, 0)

  datatype PeerEndpoint = PeerEndpoint(addresses: seq<IpAddr>, port: nat)

  // Which traffic of the application itself must not be captured.
  datatype SafetySource = NoSafety | CaptureSafety(httpPort: nat, peer: Option<PeerEndpoint>)

  const HTTP_SOURCE := "__musical_packets_http_source"
  const HTTP_DESTINATION := "__musical_packets_http_destination"
  const PEER_SOURCE := "__musical_packets_peer_source_"
  const PEER_DESTINATION := "__musical_packets_peer_destination_"

  function Ids(rules: seq<Rule>): (ids: set<string>) {
    set r | r in rules :: r.id
  }

  const ANY := Match("", None, None, Some(Tcp), None, None, None, {})

  function SafetyRule(id: string, name: string, pattern: Match): (r: Rule) {
    Rule(id, name, true, pattern, Action(Ignore, 0, "", 0))
  }

  function HttpSafetyRules(port: nat, existing: seq<Rule>): (rules: seq<Rule>) {
    var ports := Some(PortRange(port, port));
    var sourceId := FreshName(HTTP_SOURCE, Ids(existing));
    var destinationId := FreshName(HTTP_DESTINATION, Ids(existing) + {sourceId});
    [SafetyRule(sourceId, "application HTTP source traffic", ANY.(sourcePorts := ports)),
     SafetyRule(destinationId, "application HTTP destination traffic", ANY.(destinationPorts := ports))]
  }

  function HostPrefix(address: IpAddr): (prefix: Prefix) {
    Prefix(address, if address.bits == 32 then 32 else 128)
  }

  // The two rules for the address at `index`, after `rules` were generated.
  function PeerPair(endpoint: PeerEndpoint, existing: seq<Rule>, rules: seq<Rule>, index: nat): (pair: seq<Rule>)
    requires index < |endpoint.addresses|
  {
    var prefix := Some(HostPrefix(endpoint.addresses[index]));
    var ports := Some(PortRange(endpoint.port, endpoint.port));
    var sourceId := FreshName(PEER_SOURCE + Itoa(index), Ids(existing + rules));
    var source := SafetyRule(sourceId, "peer transport source traffic",
                             ANY.(sourcePrefix := prefix, sourcePorts := ports));
    var destinationId := FreshName(PEER_DESTINATION + Itoa(index), Ids(existing + (rules + [source])));
    [source, SafetyRule(destinationId, "peer transport destination traffic",
                        ANY.(destinationPrefix := prefix, destinationPorts := ports))]
  }

  function PeerRulesFrom(endpoint: PeerEndpoint, existing: seq<Rule>, rules: seq<Rule>, index: nat): (all: seq<Rule>)
    requires index <= |endpoint.addresses|
    decreases |endpoint.addresses| - index
  {
    if index == |endpoint.addresses| then rules
    else PeerRulesFrom(endpoint, existing, rules + PeerPair(endpoint, existing, rules, index), index + 1)
  }

  function PeerSafetyRules(endpoint: PeerEndpoint, existing: seq<Rule>): (rules: seq<Rule>) {
    PeerRulesFrom(endpoint, existing, [], 0)
  }

  // The generation loop.
  method GeneratePeerRules(endpoint: PeerEndpoint, existing: seq<Rule>) returns (rules: seq<Rule>)
    ensures rules == PeerSafetyRules(endpoint, existing)
  {
    rules := [];
    for index := 0 to |endpoint.addresses|
      invariant PeerRulesFrom(endpoint, existing, rules, index) == PeerSafetyRules(endpoint, existing)
    {
      rules := rules + PeerPair(endpoint, existing, rules, index);
    }
  }

  function SafetyRules(source: SafetySource, existing: seq<Rule>): (rules: seq<Rule>) {
    match source
    case NoSafety => []
    case CaptureSafety(port, peer) =>
      var http := HttpSafetyRules(port, existing);
      if peer.None? then http else http + PeerSafetyRules(peer.value, existing + http)
  }

  // Rules that NewSelector accepts in the safety tier beside `existing`.
  ghost predicate Generated(rules: seq<Rule>, existing: seq<Rule>) {
    && DistinctIds(rules)
    && (forall r | r in rules :: ValidRule(r) && r.action.state == Ignore && r.enabled)
    && (forall r | r in rules :: r.id !in Ids(existing))
  }

  lemma DistinctConcat(a: seq<Rule>, b: seq<Rule>)
    requires DistinctIds(a) && DistinctIds(b)
    requires forall x, y | x in a && y in b :: x.id != y.id
    ensures DistinctIds(a + b)
  {
    var all := a + b;
    forall i, j | 0 <= i < j < |all|
      ensures all[i].id != all[j].id
    {
      if i < |a| && j >= |a| {
        assert all[i] in a && all[j] in b;
      }
    }
  }

  lemma IdsOfMembers(rules: seq<Rule>, r: Rule)
    requires r in rules
    ensures r.id in Ids(rules)
  {
  }

  lemma GeneratedConcat(a: seq<Rule>, b: seq<Rule>, existing: seq<Rule>)
    requires Generated(a, existing) && Generated(b, existing + a)
    ensures Generated(a + b, existing)
  {
    forall x | x in b
      ensures x.id !in Ids(existing) && x.id !in Ids(a)
    {
      assert forall r | r in existing :: r in existing + a;
      assert forall r | r in a :: r in existing + a;
    }
    forall x, y | x in a && y in b
      ensures x.id != y.id
    {
      IdsOfMembers(a, x);
    }
    DistinctConcat(a, b);
  }

  lemma HttpGenerated(port: nat, existing: seq<Rule>)
    ensures Generated(HttpSafetyRules(port, existing), existing)
  {
  }

  lemma PeerPairGenerated(endpoint: PeerEndpoint, existing: seq<Rule>, rules: seq<Rule>, index: nat)
    requires index < |endpoint.addresses|
    ensures Generated(PeerPair(endpoint, existing, rules, index), existing + rules)
  {
    var pair := PeerPair(endpoint, existing, rules, index);
    PairGenerated(pair[0], pair[1], existing, rules);
  }

  lemma PairGenerated(a: Rule, b: Rule, existing: seq<Rule>, rules: seq<Rule>)
    requires ValidRule(a) && ValidRule(b) && a.enabled && b.enabled
    requires a.action.state == b.action.state == Ignore
    requires a.id !in Ids(existing + rules) && b.id !in Ids(existing + (rules + [a]))
    ensures Generated([a, b], existing + rules)
  {
    var taken := existing + (rules + [a]);
    assert a in taken;
    assert forall r | r in existing + rules :: r in taken;
  }

  lemma {:induction false} PeerGenerated(endpoint: PeerEndpoint, existing: seq<Rule>, rules: seq<Rule>, index: nat)
    requires index <= |endpoint.addresses| && Generated(rules, existing)
    ensures Generated(PeerRulesFrom(endpoint, existing, rules, index), existing)
    decreases |endpoint.addresses| - index
  {
    if index < |endpoint.addresses| {
      PeerPairGenerated(endpoint, existing, rules, index);
      GeneratedConcat(rules, PeerPair(endpoint, existing, rules, index), existing);
      PeerGenerated(endpoint, existing, rules + PeerPair(endpoint, existing, rules, index), index + 1);
    }
  }

  // The generated safety rules are always acceptable beside the user's rules,
  // whatever identifiers the user chose.
  lemma SafetyGenerated(source: SafetySource, existing: seq<Rule>)
    ensures Generated(SafetyRules(source, existing), existing)
  {
    match source {
      case NoSafety =>
      case CaptureSafety(port, peer) =>
        var http := HttpSafetyRules(port, existing);
        HttpGenerated(port, existing);
        if peer.Some? {
          PeerGenerated(peer.value, existing + http, [], 0);
          GeneratedConcat(http, PeerSafetyRules(peer.value, existing + http), existing);
        }
    }
  }

  // ---------------------------------------------------------------- coverage

  lemma {:induction false} PeerRulesGrow(endpoint: PeerEndpoint, existing: seq<Rule>, rules: seq<Rule>, index: nat)
    requires index <= |endpoint.addresses|
    ensures rules <= PeerRulesFrom(endpoint, existing, rules, index)
    decreases |endpoint.addresses| - index
  {
    if index < |endpoint.addresses| {
      var grown := rules + PeerPair(endpoint, existing, rules, index);
      PeerRulesGrow(endpoint, existing, grown, index + 1);
    }
  }

  // Every address of the peer has its pair of rules.
  lemma {:induction false} PeerCovers(endpoint: PeerEndpoint, existing: seq<Rule>, rules: seq<Rule>, index: nat,
                                      k: nat, e: Event, flowId: FlowId) returns (rule: Rule)
    requires index <= k < |endpoint.addresses|
    requires e.protocol == Tcp
    requires (e.source.addr == endpoint.addresses[k] && e.source.port == endpoint.port)
          || (e.destination.addr == endpoint.addresses[k] && e.destination.port == endpoint.port)
    ensures rule in PeerRulesFrom(endpoint, existing, rules, index) && Applies(rule, e, flowId)
    decreases |endpoint.addresses| - index
  {
    var pair := PeerPair(endpoint, existing, rules, index);
    var grown := rules + pair;
    if index < k {
      rule := PeerCovers(endpoint, existing, grown, index + 1, k, e, flowId);
    } else {
      var fromPeer := e.source.addr == endpoint.addresses[k] && e.source.port == endpoint.port;
      rule := if fromPeer then pair[0] else pair[1];
      PeerRulesGrow(endpoint, existing, grown, index + 1);
      assert grown[if fromPeer then |rules| else |rules| + 1] == rule;
    }
  }

  // TCP to or from the resolved peer address and port.
  predicate PeerTraffic(endpoint: PeerEndpoint, e: Event) {
    && e.protocol == Tcp
    && (|| (e.source.addr in endpoint.addresses && e.source.port == endpoint.port)
        || (e.destination.addr in endpoint.addresses && e.destination.port == endpoint.port))
  }

  // The application's own traffic: TCP on its HTTP port, or its peer's.
  ghost predicate OwnTraffic(source: SafetySource, e: Event) {
    source.CaptureSafety? && e.protocol == Tcp &&
    (|| e.source.port == source.httpPort
     || e.destination.port == source.httpPort
     || (source.peer.Some? && PeerTraffic(source.peer.value, e)))
  }

  lemma OwnTrafficIsCovered(source: SafetySource, existing: seq<Rule>, e: Event, flowId: FlowId) returns (rule: Rule)
    requires OwnTraffic(source, e)
    ensures rule in SafetyRules(source, existing) && Applies(rule, e, flowId)
  {
    var http := HttpSafetyRules(source.httpPort, existing);
    if e.source.port == source.httpPort {
      rule := http[0];
    } else if e.destination.port == source.httpPort {
      rule := http[1];
    } else {
      var peer := source.peer.value;
      var k;
      if e.source.addr in peer.addresses && e.source.port == peer.port {
        k :| 0 <= k < |peer.addresses| && peer.addresses[k] == e.source.addr;
      } else {
        k :| 0 <= k < |peer.addresses| && peer.addresses[k] == e.destination.addr;
      }
      rule := PeerCovers(peer, existing + http, [], 0, k, e, flowId);
    }
  }

  lemma HostPrefixIsTheHost(address: IpAddr, a: Addr)
    ensures Contains(HostPrefix(address), a) <==> a == address
  {
    assert Pow2(0) == 1;
  }

  lemma PairCoversNoMore(endpoint: PeerEndpoint, existing: seq<Rule>, rules: seq<Rule>, index: nat, e: Event, flowId: FlowId, rule: Rule)
    requires index < |endpoint.addresses| && rule in PeerPair(endpoint, existing, rules, index) && Applies(rule, e, flowId)
    ensures PeerTraffic(endpoint, e)
  {
    HostPrefixIsTheHost(endpoint.addresses[index], e.source.addr);
    HostPrefixIsTheHost(endpoint.addresses[index], e.destination.addr);
  }

  lemma InNeither(rule: Rule, a: seq<Rule>, b: seq<Rule>)
    requires rule !in a && rule !in b
    ensures rule !in a + b
  {
  }

  // Every generated rule is one of the pair of some address.
  lemma {:induction false} RuleOfAPair(endpoint: PeerEndpoint, existing: seq<Rule>, rules: seq<Rule>, index: nat, rule: Rule)
    returns (earlier: seq<Rule>, i: nat)
    requires index <= |endpoint.addresses| && rule in PeerRulesFrom(endpoint, existing, rules, index) && rule !in rules
    ensures i < |endpoint.addresses| && rule in PeerPair(endpoint, existing, earlier, i)
    decreases |endpoint.addresses| - index
  {
    earlier, i := rules, index;
    if index < |endpoint.addresses| {
      var pair := PeerPair(endpoint, existing, rules, index);
      if rule !in pair {
        InNeither(rule, rules, pair);
        earlier, i := RuleOfAPair(endpoint, existing, rules + pair, index + 1, rule);
      }
    }
  }

  // The generated rules cover the application's own traffic and nothing else.
  lemma SafetyCoversExactlyOwnTraffic(source: SafetySource, existing: seq<Rule>, e: Event, flowId: FlowId)
    ensures FirstMatch(SafetyRules(source, existing), e, flowId).Some? <==> OwnTraffic(source, e)
  {
    var rules := SafetyRules(source, existing);
    FirstMatchIsFirst(rules, e, flowId);
    FoundIsMember(rules, e, flowId);
    if OwnTraffic(source, e) {
      var rule := OwnTrafficIsCovered(source, existing, e, flowId);
    }
    if FirstMatch(rules, e, flowId).Some? {
      var rule := FirstMatch(rules, e, flowId).value;
      var http := HttpSafetyRules(source.httpPort, existing);
      if rule !in http {
        var earlier, i := RuleOfAPair(source.peer.value, existing + http, [], 0, rule);
        PairCoversNoMore(source.peer.value, existing + http, earlier, i, e, flowId, rule);
      }
    }
  }

  // ------------------------------------------------------------- compilation

  // The rules of one tier, in configuration order.
  function Keep(rules: seq<Rule>, exact: bool): (kept: seq<Rule>) {
    if rules == [] then []
    else
      var last := rules[|rules| - 1];
      Keep(rules[..|rules| - 1], exact)
      + (if (last.pattern.exactFlowId != "") == exact then [last] else [])
  }

  method SplitTiers(rules: seq<Rule>) returns (pinned: seq<Rule>, user: seq<Rule>)
    ensures pinned == Keep(rules, true) && user == Keep(rules, false)
  {
    pinned, user := [], [];
    for i := 0 to |rules|
      invariant pinned == Keep(rules[..i], true) && user == Keep(rules[..i], false)
    {
      assert rules[..i + 1][..i] == rules[..i];
      if rules[i].pattern.exactFlowId != "" {
        pinned := pinned + [rules[i]];
      } else {
        user := user + [rules[i]];
      }
    }
    assert rules[..|rules|] == rules;
  }

  // The part of the configuration that decides routing.
  datatype Policy = Policy(seed: string, defaultState: FlowState, defaultChannel: nat, rules: seq<RuleConfig>)

  ghost predicate ValidPolicy(p: Policy) {
    p.seed != "" && !p.defaultState.UnknownState? && 1 <= p.defaultChannel <= 16 && AllSound(p.rules)
  }

  function Compile(p: Policy, source: SafetySource): (s: Selector) {
    var rules := ConvertAll(p.rules);
    Selector(p.seed, Action(p.defaultState, p.defaultChannel, "", 0),
             SafetyRules(source, rules), Keep(rules, true), Keep(rules, false))
  }

  lemma {:induction false} KeepMembers(rules: seq<Rule>, exact: bool)
    ensures forall r :: r in Keep(rules, exact) <==> r in rules && (r.pattern.exactFlowId != "") == exact
    ensures DistinctIds(rules) ==> DistinctIds(Keep(rules, exact))
    decreases |rules|
  {
    if rules != [] {
      var init, last := rules[..|rules| - 1], rules[|rules| - 1];
      KeepMembers(init, exact);
      assert rules == init + [last];
      if DistinctIds(rules) && (last.pattern.exactFlowId != "") == exact {
        forall x | x in Keep(init, exact)
          ensures x.id != last.id
        {
          var i :| 0 <= i < |init| && init[i] == x;
          assert rules[i].id != rules[|rules| - 1].id;
        }
        DistinctConcat(Keep(init, exact), [last]);
      }
    }
  }

  lemma TiersDistinct(rules: seq<Rule>)
    requires DistinctIds(rules)
    ensures DistinctIds(Keep(rules, true) + Keep(rules, false))
  {
    KeepMembers(rules, true);
    KeepMembers(rules, false);
    forall x, y | x in Keep(rules, true) && y in Keep(rules, false)
      ensures x.id != y.id
    {
      var i :| 0 <= i < |rules| && rules[i] == x;
      var j :| 0 <= j < |rules| && rules[j] == y;
      assert i != j;
    }
    DistinctConcat(Keep(rules, true), Keep(rules, false));
  }

  lemma ConvertedRules(rules: seq<RuleConfig>)
    requires AllSound(rules)
    ensures DistinctIds(ConvertAll(rules))
    ensures forall r | r in ConvertAll(rules) :: ValidRule(r)
  {
    var converted := ConvertAll(rules);
    forall r | r in converted
      ensures ValidRule(r)
    {
      var i :| 0 <= i < |converted| && converted[i] == r;
      assert rules[i] in rules;
      SoundIsValid(rules[i]);
    }
  }

  lemma SoundIsValid(rule: RuleConfig)
    requires Sound(rule)
    ensures ValidRule(Converted(rule))
  {
    assert rule.id != "";
  }

  // Every valid configuration compiles: the selector it describes is
  // acceptable together with the generated safety rules.
  lemma CompilationIsTotal(p: Policy, source: SafetySource)
    requires ValidPolicy(p)
    ensures Acceptable(Compile(p, source))
  {
    var s := Compile(p, source);
    var rules := ConvertAll(p.rules);
    ConvertedRules(p.rules);
    SafetyGenerated(source, rules);
    KeepMembers(rules, true);
    KeepMembers(rules, false);
    TiersDistinct(rules);
    forall x, y | x in s.safety && y in s.pinned + s.user
      ensures x.id != y.id
    {
      IdsOfMembers(rules, y);
    }
    DistinctConcat(s.safety, s.pinned + s.user);
    assert s.safety + (s.pinned + s.user) == s.safety + s.pinned + s.user;
  }

  // ----------------------------------------------------------------- meaning

  // The first configured rule of a tier that describes the packet.
  ghost function FirstDescribing(rules: seq<RuleConfig>, exact: bool, e: Event, flowId: FlowId): (i: Option<nat>)
    ensures i.Some? ==> i.value < |rules| && Describes(rules[i.value], e, flowId)
                        && (rules[i.value].exactFlowId != "") == exact
    ensures forall j | 0 <= j < (if i.Some? then i.value else |rules|) ::
              (rules[j].exactFlowId != "") == exact ==> !Describes(rules[j], e, flowId)
  {
    if rules == [] then None
    else
      var n := |rules| - 1;
      var earlier := FirstDescribing(rules[..n], exact, e, flowId);
      if earlier.Some? then earlier
      else if (rules[n].exactFlowId != "") == exact && Describes(rules[n], e, flowId) then Some(n)
      else None
  }

  lemma {:induction false} FirstMatchConcat(a: seq<Rule>, b: seq<Rule>, e: Event, flowId: FlowId)
    ensures FirstMatch(a + b, e, flowId) ==
            if FirstMatch(a, e, flowId).Some? then FirstMatch(a, e, flowId) else FirstMatch(b, e, flowId)
    decreases |a|
  {
    if a == [] {
      assert a + b == b;
    } else {
      FirstMatchConcat(a[1..], b, e, flowId);
      assert (a + b)[1..] == a[1..] + b;
    }
  }

  lemma {:induction false} TierMatch(rules: seq<RuleConfig>, exact: bool, e: Event, flowId: FlowId)
    ensures var found := FirstMatch(Keep(ConvertAll(rules), exact), e, flowId);
            var i := FirstDescribing(rules, exact, e, flowId);
            found == if i.Some? then Some(Converted(rules[i.value])) else None
    decreases |rules|
  {
    if rules != [] {
      var n := |rules| - 1;
      var init, last := rules[..n], Converted(rules[n]);
      var converted := ConvertAll(rules);
      TierMatch(init, exact, e, flowId);
      assert converted[..n] == ConvertAll(init) && converted[n] == last;
      ConversionKeepsMeaning(rules[n], e, flowId);
      FirstMatchConcat(Keep(ConvertAll(init), exact),
                       if (last.pattern.exactFlowId != "") == exact then [last] else [], e, flowId);
    }
  }

  // The decision of one configured rule, field by field; a rule without a
  // channel of its own uses the default channel.
  ghost function ByRule(p: Policy, rule: RuleConfig, flowId: FlowId, tier: Tier): (r: Selection) {
    Selection(flowId, rule.state, if rule.channel == 0 then p.defaultChannel else rule.channel, rule.mode,
              if rule.root.Some? then rule.root.value else 0, rule.id, tier)
  }

  // The decision where no rule speaks.
  ghost function Plainly(p: Policy, state: FlowState, flowId: FlowId, tier: Tier): (r: Selection) {
    Selection(flowId, state, p.defaultChannel, "", 0, "", tier)
  }

  // What the configuration and the overlay say about a packet: ignored if
  // muted, monitored if others are soloed, else the first enabled matching
  // exact-flow rule in configuration order, else the first enabled matching
  // other rule, else the default.
  ghost function Configured(p: Policy, identify: (string, Key) -> FlowId, e: Event, overlay: Overlay): (r: Selection) {
    var flowId := identify(p.seed, Canonicalize(e).0);
    var exact := FirstDescribing(p.rules, true, e, flowId);
    var other := FirstDescribing(p.rules, false, e, flowId);
    if flowId in overlay.muted then Plainly(p, Ignore, flowId, TemporaryMute)
    else if overlay.soloed != {} && flowId !in overlay.soloed then Plainly(p, Monitor, flowId, TemporarySolo)
    else if exact.Some? then ByRule(p, p.rules[exact.value], flowId, Pinned)
    else if other.Some? then ByRule(p, p.rules[other.value], flowId, User)
    else Plainly(p, p.defaultState, flowId, Default)
  }

  function RuleAt(rules: seq<RuleConfig>, i: Option<nat>): (rule: Option<RuleConfig>)
    requires i.Some? ==> i.value < |rules|
  {
    if i.Some? then Some(rules[i.value]) else None
  }

  function ConvertedRule(rule: Option<RuleConfig>): (r: Option<Rule>) {
    if rule.Some? then Some(Converted(rule.value)) else None
  }

  // How the tiers of a selector decide, in terms of the configured rules that
  // its first matches come from.
  lemma TiersDecide(s: Selector, p: Policy, identify: (string, Key) -> FlowId, e: Event, overlay: Overlay,
                    exact: Option<RuleConfig>, other: Option<RuleConfig>)
    requires ValidEvent(e) && s.seed == p.seed && s.defaultAction == Action(p.defaultState, p.defaultChannel, "", 0)
    requires p.defaultChannel != 0
    requires var flowId := identify(p.seed, Canonicalize(e).0);
             && FirstMatch(s.safety, e, flowId).None?
             && FirstMatch(s.pinned, e, flowId) == ConvertedRule(exact)
             && FirstMatch(s.user, e, flowId) == ConvertedRule(other)
    ensures var flowId := identify(p.seed, Canonicalize(e).0);
            Evaluate(s, identify, e, overlay) == Some(
              if flowId in overlay.muted then Plainly(p, Ignore, flowId, TemporaryMute)
              else if overlay.soloed != {} && flowId !in overlay.soloed then Plainly(p, Monitor, flowId, TemporarySolo)
              else if exact.Some? then ByRule(p, exact.value, flowId, Pinned)
              else if other.Some? then ByRule(p, other.value, flowId, User)
              else Plainly(p, p.defaultState, flowId, Default))
  {
  }

  // Compilation preserves meaning: every packet that is not the application's
  // own is routed as the configuration says, in every field of the decision.
  lemma CompilationPreservesMeaning(p: Policy, source: SafetySource, identify: (string, Key) -> FlowId,
                                    e: Event, overlay: Overlay)
    requires ValidPolicy(p) && ValidEvent(e) && !OwnTraffic(source, e)
    ensures Evaluate(Compile(p, source), identify, e, overlay) == Some(Configured(p, identify, e, overlay))
  {
    var flowId := identify(p.seed, Canonicalize(e).0);
    TierMatch(p.rules, true, e, flowId);
    TierMatch(p.rules, false, e, flowId);
    SafetyCoversExactlyOwnTraffic(source, ConvertAll(p.rules), e, flowId);
    TiersDecide(Compile(p, source), p, identify, e, overlay,
                RuleAt(p.rules, FirstDescribing(p.rules, true, e, flowId)),
                RuleAt(p.rules, FirstDescribing(p.rules, false, e, flowId)));
  }

  // A selector holding the generated safety rules ignores the application's
  // own traffic.
  lemma SafetyIgnores(s: Selector, source: SafetySource, existing: seq<Rule>, identify: (string, Key) -> FlowId,
                      e: Event, overlay: Overlay)
    requires Acceptable(s) && s.safety == SafetyRules(source, existing)
    requires ValidEvent(e) && OwnTraffic(source, e)
    ensures var r := Evaluate(s, identify, e, overlay);
            r.Some? && r.value.state == Ignore && r.value.tier == Safety
  {
    var rule := OwnTrafficIsCovered(source, existing, e, identify(s.seed, Canonicalize(e).0));
    SafetyRulesPrevail(s, identify, e, overlay, rule);
  }

  // The application's own traffic is ignored under every valid policy and
  // every overlay.
  lemma OwnTrafficIsIgnored(p: Policy, source: SafetySource, identify: (string, Key) -> FlowId,
                            e: Event, overlay: Overlay)
    requires ValidPolicy(p) && ValidEvent(e) && OwnTraffic(source, e)
    ensures var r := Evaluate(Compile(p, source), identify, e, overlay);
            r.Some? && r.value.state == Ignore && r.value.tier == Safety
  {
    CompilationIsTotal(p, source);
    SafetyIgnores(Compile(p, source), source, ConvertAll(p.rules), identify, e, overlay);
  }
}
