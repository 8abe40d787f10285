// Ordered traffic rules and the routing decision for one packet.
module Selector {
  import opened Common
  import opened Packets
  import opened FlowKey
  import opened Modes

  datatype FlowState = Ignore | Monitor | Play | UnknownState(name: string)

  datatype PortRange = PortRange(minimum: nat, maximum: nat)

  datatype SizeRange = SizeRange(minimum: int, maximum: int)

  datatype Prefix = Prefix(addr: Addr, length: nat)

  // Empty fields match everything; set fields are combined with "and".
  datatype Match = Match(
    exactFlowId: FlowId,
    sourcePrefix: Option<Prefix>,
    destinationPrefix: Option<Prefix>,
    protocol: Option<Protocol>,
    sourcePorts: Option<PortRange>,
    destinationPorts: Option<PortRange>,
    wireSize: Option<SizeRange>,
    requiredFlags: set<TcpFlag>)

  // Channel zero inherits the default channel; an empty mode keeps the
  // automatic musical identity.
  datatype Action = Action(state: FlowState, channel: nat, mode: string, root: nat)

  datatype Rule = Rule(id: string, name: string, enabled: bool, pattern: Match, action: Action)

  datatype Overlay = Overlay(muted: set<FlowId>, soloed: set<FlowId>)

  datatype Tier = Safety | TemporaryMute | TemporarySolo | Pinned | User | Default

  datatype Selection = Selection(
    flowId: FlowId, state: FlowState, channel: nat, mode: string, root: nat, ruleId: string, tier: Tier)

  datatype Selector = Selector(
    seed: string, defaultAction: Action, safety: seq<Rule>, pinned: seq<Rule>, user: seq<Rule>)

  // ----------------------------------------------------------------- matching

  predicate ValidPrefix(p: Prefix) {
    p.addr.bits != 0 && p.length <= p.addr.bits
  }

  // The leading bits of the address agree.
  predicate Contains(p: Prefix, a: Addr) {
    && ValidPrefix(p) && p.addr.bits == a.bits
    && a.value / Pow2(p.addr.bits - p.length) == p.addr.value / Pow2(p.addr.bits - p.length)
  }

  predicate InPorts(r: PortRange, port: nat) {
    r.minimum <= port <= r.maximum
  }

  predicate Matches(m: Match, e: Event, flowId: FlowId) {
    && (m.exactFlowId == "" || m.exactFlowId == flowId)
    && (m.sourcePrefix.None? || Contains(m.sourcePrefix.value, e.source.addr))
    && (m.destinationPrefix.None? || Contains(m.destinationPrefix.value, e.destination.addr))
    && (m.protocol.None? || m.protocol.value == e.protocol)
    && (m.sourcePorts.None? || InPorts(m.sourcePorts.value, e.source.port))
    && (m.destinationPorts.None? || InPorts(m.destinationPorts.value, e.destination.port))
    && (m.wireSize.None? || m.wireSize.value.minimum <= e.wireLength <= m.wireSize.value.maximum)
    && m.requiredFlags <= e.flags
  }

  predicate Applies(r: Rule, e: Event, flowId: FlowId) {
    r.enabled && Matches(r.pattern, e, flowId)
  }

  function FirstMatch(rules: seq<Rule>, e: Event, flowId: FlowId): (found: Option<Rule>) {
    if rules == [] then None
    else if Applies(rules[0], e, flowId) then Some(rules[0])
    else FirstMatch(rules[1..], e, flowId)
  }

  // FirstMatch is the first rule that applies, by position.
  lemma {:induction false} FirstMatchIsFirst(rules: seq<Rule>, e: Event, flowId: FlowId)
    ensures FirstMatch(rules, e, flowId).None? <==> forall r | r in rules :: !Applies(r, e, flowId)
    ensures FirstMatch(rules, e, flowId).Some? ==>
              exists i | 0 <= i < |rules| ::
                && rules[i] == FirstMatch(rules, e, flowId).value && Applies(rules[i], e, flowId)
                && forall j | 0 <= j < i :: !Applies(rules[j], e, flowId)
    decreases |rules|
  {
    if rules != [] && !Applies(rules[0], e, flowId) {
      FirstMatchIsFirst(rules[1..], e, flowId);
      if FirstMatch(rules, e, flowId).Some? {
        var i :| 0 <= i < |rules[1..]| && rules[1..][i] == FirstMatch(rules[1..], e, flowId).value
          && Applies(rules[1..][i], e, flowId)
          && forall j | 0 <= j < i :: !Applies(rules[1..][j], e, flowId);
        assert rules[i + 1] == rules[1..][i];
        assert forall j | 0 < j < i + 1 :: rules[j] == rules[1..][j - 1];
      }
    }
  }

  // --------------------------------------------------------------- evaluation

  function Select(s: Selector, flowId: FlowId, action: Action, ruleId: string, tier: Tier): (r: Selection) {
    var channel := if action.channel == 0 then s.defaultAction.channel else action.channel;
    Selection(flowId, action.state, channel, action.mode, action.root, ruleId, tier)
  }

  function SelectRule(s: Selector, flowId: FlowId, rule: Rule, tier: Tier): (r: Selection) {
    Select(s, flowId, rule.action, rule.id, tier)
  }

  // The documented precedence: safety, mute, solo, pinned, user, default.
  function Evaluate(s: Selector, identify: (string, Key) -> FlowId, e: Event, overlay: Overlay)
    : (r: Option<Selection>)
  {
    if !ValidEvent(e) then None
    else
      var flowId := identify(s.seed, Canonicalize(e).0);
      var safety := FirstMatch(s.safety, e, flowId);
      if safety.Some? then Some(SelectRule(s, flowId, safety.value, Safety))
      else if flowId in overlay.muted then
        Some(Select(s, flowId, Action(Ignore, 0, "", 0), "", TemporaryMute))
      else if overlay.soloed != {} && flowId !in overlay.soloed then
        Some(Select(s, flowId, Action(Monitor, 0, "", 0), "", TemporarySolo))
      else
        var pinned := FirstMatch(s.pinned, e, flowId);
        if pinned.Some? then Some(SelectRule(s, flowId, pinned.value, Pinned))
        else
          var user := FirstMatch(s.user, e, flowId);
          if user.Some? then Some(SelectRule(s, flowId, user.value, User))
          else Some(Select(s, flowId, s.defaultAction, "", Default))
  }

  // --------------------------------------------------------------- validation

  predicate ValidAction(a: Action) {
    && !a.state.UnknownState? && a.channel <= 16
    && (if a.mode == "" then a.root == 0
        else a.state == Play && a.mode in MODE_NAMES && a.root <= 11)
  }

  predicate ValidRule(r: Rule) {
    && r.id != "" && ValidAction(r.action)
    && (r.pattern.sourcePrefix.Some? ==> ValidPrefix(r.pattern.sourcePrefix.value))
    && (r.pattern.destinationPrefix.Some? ==> ValidPrefix(r.pattern.destinationPrefix.value))
    && (r.pattern.sourcePorts.Some? ==> r.pattern.sourcePorts.value.minimum <= r.pattern.sourcePorts.value.maximum)
    && (r.pattern.destinationPorts.Some? ==>
          r.pattern.destinationPorts.value.minimum <= r.pattern.destinationPorts.value.maximum)
    && (r.pattern.wireSize.Some? ==>
          0 <= r.pattern.wireSize.value.minimum <= r.pattern.wireSize.value.maximum)
    && (r.pattern.protocol.Some? ==> !r.pattern.protocol.value.Unsupported?)
  }

  ghost predicate DistinctIds(rules: seq<Rule>) {
    forall i, j | 0 <= i < j < |rules| :: rules[i].id != rules[j].id
  }

  // The configurations NewSelector accepts.
  ghost predicate Acceptable(s: Selector) {
    && s.seed != "" && ValidAction(s.defaultAction) && s.defaultAction.channel != 0
    && (forall r | r in s.safety + s.pinned + s.user :: ValidRule(r))
    && DistinctIds(s.safety + s.pinned + s.user)
    && (forall r | r in s.safety :: r.action.state == Ignore)
    && (forall r | r in s.pinned :: r.pattern.exactFlowId != "")
  }

  // Every rule is valid and no identifier repeats.
  method CheckRules(rules: seq<Rule>) returns (ok: bool)
    ensures ok <==> (forall r | r in rules :: ValidRule(r)) && DistinctIds(rules)
  {
    var seen: set<string> := {};
    for i := 0 to |rules|
      invariant forall id :: id in seen <==> exists j | 0 <= j < i :: rules[j].id == id
      invariant forall j | 0 <= j < i :: ValidRule(rules[j])
      invariant DistinctIds(rules[..i])
    {
      if !ValidRule(rules[i]) { return false; }
      if rules[i].id in seen { return false; }
      DistinctExtends(rules, i);
      seen := seen + {rules[i].id};
    }
    assert rules[..|rules|] == rules;
    ok := true;
  }

  lemma DistinctExtends(rules: seq<Rule>, i: nat)
    requires i < |rules| && DistinctIds(rules[..i]) && forall j | 0 <= j < i :: rules[j].id != rules[i].id
    ensures DistinctIds(rules[..i + 1])
  {
    assert rules[..i + 1] == rules[..i] + [rules[i]];
  }

  // Accepts a selector configuration exactly if it is acceptable.
  method NewSelector(s: Selector) returns (accepted: bool)
    ensures accepted <==> Acceptable(s)
  {
    if s.seed == "" || !ValidAction(s.defaultAction) || s.defaultAction.channel == 0 { return false; }
    accepted := CheckRules(s.safety + s.pinned + s.user);
    if !accepted { return; }
    for i := 0 to |s.safety|
      invariant forall j | 0 <= j < i :: s.safety[j].action.state == Ignore
    {
      if s.safety[i].action.state != Ignore { return false; }
    }
    for i := 0 to |s.pinned|
      invariant forall j | 0 <= j < i :: s.pinned[j].pattern.exactFlowId != ""
    {
      if s.pinned[i].pattern.exactFlowId == "" { return false; }
    }
  }

  lemma GroupsAreValid(s: Selector, rule: Rule)
    requires Acceptable(s)
    requires rule in s.safety || rule in s.pinned || rule in s.user
    ensures ValidRule(rule)
  {
    assert rule in s.safety + s.pinned + s.user;
  }

  // An accepted selector always routes to a real channel, in a known state,
  // with a musical identity only for played traffic.
  lemma SelectionsAreRoutable(s: Selector, identify: (string, Key) -> FlowId, e: Event, overlay: Overlay)
    requires Acceptable(s)
    ensures Evaluate(s, identify, e, overlay).Some? <==> ValidEvent(e)
    ensures var r := Evaluate(s, identify, e, overlay);
            r.Some? ==> && 1 <= r.value.channel <= 16 && !r.value.state.UnknownState?
                        && (r.value.mode != "" ==> r.value.state == Play && r.value.mode in MODE_NAMES && r.value.root <= 11)
  {
    if ValidEvent(e) {
      var flowId := identify(s.seed, Canonicalize(e).0);
      FoundIsValid(s, s.safety, e, flowId);
      FoundIsValid(s, s.pinned, e, flowId);
      FoundIsValid(s, s.user, e, flowId);
    }
  }

  lemma FoundIsValid(s: Selector, rules: seq<Rule>, e: Event, flowId: FlowId)
    requires Acceptable(s) && (rules == s.safety || rules == s.pinned || rules == s.user)
    ensures FirstMatch(rules, e, flowId).Some? ==> ValidAction(FirstMatch(rules, e, flowId).value.action)
  {
    FoundIsMember(rules, e, flowId);
    var found := FirstMatch(rules, e, flowId);
    if found.Some? { GroupsAreValid(s, found.value); }
  }

  lemma {:induction false} FoundIsMember(rules: seq<Rule>, e: Event, flowId: FlowId)
    ensures var found := FirstMatch(rules, e, flowId);
            found.Some? ==> found.value in rules && Applies(found.value, e, flowId)
    decreases |rules|
  {
    if rules != [] { FoundIsMember(rules[1..], e, flowId); }
  }

  // Traffic that a safety rule applies to is ignored, whatever the overlay
  // and the other rules say.
  lemma SafetyRulesPrevail(s: Selector, identify: (string, Key) -> FlowId, e: Event, overlay: Overlay, rule: Rule)
    requires Acceptable(s) && ValidEvent(e)
    requires rule in s.safety && Applies(rule, e, identify(s.seed, Canonicalize(e).0))
    ensures Evaluate(s, identify, e, overlay).Some?
    ensures Evaluate(s, identify, e, overlay).value.state == Ignore
    ensures Evaluate(s, identify, e, overlay).value.tier == Safety
  {
    var flowId := identify(s.seed, Canonicalize(e).0);
    FirstMatchIsFirst(s.safety, e, flowId);
    FoundIsMember(s.safety, e, flowId);
  }
}
