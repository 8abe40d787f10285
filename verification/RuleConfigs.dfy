// Persistent user rules: validation and conversion to selector rules, and
// what a configured rule means.
module RuleConfigs {
  import opened Common
  import opened Packets
  import opened Modes
  import opened Selector

  type ParsedPrefix = p: Prefix | ValidPrefix(p) witness Prefix(Addr(32, 0), 0)

  // A CIDR field by what its text parses to.
  datatype Cidr = NoCidr | BadCidr | ParsedCidr(prefix: ParsedPrefix)

  datatype FlagName = Named(flag: TcpFlag) | UnknownFlag(name: string)

  datatype RuleConfig = RuleConfig(
    id: string,
    name: string,
    enabled: bool,
    exactFlowId: FlowId,
    source: Cidr,
    destination: Cidr,
    protocol: Option<Protocol>,
    sourcePorts: Option<PortRange>,
    destinationPorts: Option<PortRange>,
    wireSize: Option<SizeRange>,
    flags: seq<FlagName>,
    state: FlowState,
    channel: nat,
    mode: string,
    root: Option<nat>)

  // 24 lowercase hexadecimal characters.
  predicate HexId(text: string) {
    |text| == 24 && forall c | c in text :: '0' <= c <= '9' || 'a' <= c <= 'f'
  }

  ghost predicate NoRepeats<T>(s: seq<T>) {
    forall i, j | 0 <= i < j < |s| :: s[i] != s[j]
  }

  // The rule has no problem to report.
  ghost predicate Sound(rule: RuleConfig) {
    && !Blank(rule.id)
    && !rule.state.UnknownState? && rule.channel <= 16
    && (rule.mode == "" <==> rule.root.None?)
    && (rule.mode != "" ==> rule.mode in MODE_NAMES && rule.root.value <= 11 && rule.state == Play)
    && (rule.exactFlowId != "" ==> HexId(rule.exactFlowId))
    && (rule.protocol.Some? ==> !rule.protocol.value.Unsupported?)
    && !rule.source.BadCidr? && !rule.destination.BadCidr?
    && (rule.sourcePorts.Some? ==> rule.sourcePorts.value.minimum <= rule.sourcePorts.value.maximum)
    && (rule.destinationPorts.Some? ==> rule.destinationPorts.value.minimum <= rule.destinationPorts.value.maximum)
    && (rule.wireSize.Some? ==> 0 <= rule.wireSize.value.minimum <= rule.wireSize.value.maximum)
    && (forall f | f in rule.flags :: f.Named?) && NoRepeats(rule.flags)
  }

  function PrefixOf(cidr: Cidr): (prefix: Option<Prefix>) {
    if cidr.ParsedCidr? then Some(cidr.prefix) else None
  }

  function FlagMask(flags: seq<FlagName>): (mask: set<TcpFlag>) {
    set f | f in flags && f.Named? :: f.flag
  }

  function Converted(rule: RuleConfig): (r: Rule) {
    Rule(rule.id, rule.name, rule.enabled,
         Match(rule.exactFlowId, PrefixOf(rule.source), PrefixOf(rule.destination), rule.protocol,
               rule.sourcePorts, rule.destinationPorts, rule.wireSize, FlagMask(rule.flags)),
         Action(rule.state, rule.channel, rule.mode, if rule.root.Some? then rule.root.value else 0))
  }

  // What a configured rule says about a packet, read off its fields.
  ghost predicate Describes(rule: RuleConfig, e: Event, flowId: FlowId) {
    && rule.enabled
    && (rule.exactFlowId != "" ==> rule.exactFlowId == flowId)
    && (rule.source.ParsedCidr? ==> Contains(rule.source.prefix, e.source.addr))
    && (rule.destination.ParsedCidr? ==> Contains(rule.destination.prefix, e.destination.addr))
    && (rule.protocol.Some? ==> e.protocol == rule.protocol.value)
    && (rule.sourcePorts.Some? ==> InPorts(rule.sourcePorts.value, e.source.port))
    && (rule.destinationPorts.Some? ==> InPorts(rule.destinationPorts.value, e.destination.port))
    && (rule.wireSize.Some? ==> rule.wireSize.value.minimum <= e.wireLength <= rule.wireSize.value.maximum)
    && (forall f | f in rule.flags && f.Named? :: f.flag in e.flags)
  }

  // Conversion preserves meaning and yields a valid rule.
  lemma ConversionKeepsMeaning(rule: RuleConfig, e: Event, flowId: FlowId)
    ensures Applies(Converted(rule), e, flowId) <==> Describes(rule, e, flowId)
    ensures Sound(rule) ==> ValidRule(Converted(rule))
  {
    assert FlagMask(rule.flags) <= e.flags <==> forall f | f in rule.flags && f.Named? :: f.flag in e.flags by {
      if FlagMask(rule.flags) <= e.flags {
        forall f | f in rule.flags && f.Named?
          ensures f.flag in e.flags
        {
          assert f.flag in FlagMask(rule.flags);
        }
      }
    }
    if Sound(rule) { assert rule.id != ""; }
  }

  // The flag loop: duplicates and unknown names are problems.
  method ConvertFlags(flags: seq<FlagName>) returns (mask: set<TcpFlag>, ok: bool)
    ensures ok <==> (forall f | f in flags :: f.Named?) && NoRepeats(flags)
    ensures ok ==> mask == FlagMask(flags)
  {
    var seen: set<FlagName> := {};
    mask, ok := {}, true;
    for i := 0 to |flags|
      invariant forall f :: f in seen <==> f in flags[..i]
      invariant ok <==> (forall f | f in flags[..i] :: f.Named?) && NoRepeats(flags[..i])
      invariant ok ==> mask == FlagMask(flags[..i])
    {
      assert flags[..i + 1] == flags[..i] + [flags[i]];
      if flags[i] in seen {
        RepeatFound(flags[..i], flags[i]);
        ok := false;
      } else {
        seen := seen + {flags[i]};
        match flags[i] {
          case Named(flag) =>
            AppendedFlag(flags[..i], flags[i]);
            mask := mask + {flag};
          case UnknownFlag(_) =>
            assert flags[i] in flags[..i + 1];
            ok := false;
        }
      }
    }
    assert flags[..|flags|] == flags;
  }

  lemma RepeatFound<T>(s: seq<T>, x: T)
    requires x in s
    ensures !NoRepeats(s + [x])
  {
    var i :| 0 <= i < |s| && s[i] == x;
    assert (s + [x])[i] == (s + [x])[|s|];
  }

  lemma AppendedFlag(flags: seq<FlagName>, f: FlagName)
    requires f.Named? && f !in flags
    ensures NoRepeats(flags + [f]) <==> NoRepeats(flags)
    ensures FlagMask(flags + [f]) == FlagMask(flags) + {f.flag}
    ensures (forall g | g in flags + [f] :: g.Named?) <==> (forall g | g in flags :: g.Named?)
  {
    assert forall g :: g in flags + [f] <==> g in flags || g == f;
    if NoRepeats(flags + [f]) {
      forall i, j | 0 <= i < j < |flags| ensures flags[i] != flags[j] {
        assert (flags + [f])[i] != (flags + [f])[j];
      }
    }
    forall flag | flag in FlagMask(flags) ensures flag in FlagMask(flags + [f]) {
      assert Named(flag) in flags + [f];
    }
    assert f in flags + [f];
  }

  // Validates and converts one rule.
  method ToFlowRule(rule: RuleConfig) returns (converted: Option<Rule>)
    ensures converted == if Sound(rule) then Some(Converted(rule)) else None
  {
    var problems := 0;
    if Blank(rule.id) { problems := problems + 1; }
    if rule.state.UnknownState? { problems := problems + 1; }
    if rule.channel > 16 { problems := problems + 1; }
    var mode, root := "", 0;
    if (rule.mode == "") != rule.root.None? {
      problems := problems + 1;
    } else if rule.mode != "" {
      ModeRoundTrip(0, rule.mode);
      var parsed := ParseMode(rule.mode);
      if parsed.None? { problems := problems + 1; } else { mode := ModeName(parsed.value); }
      if rule.root.value > 11 { problems := problems + 1; } else { root := rule.root.value; }
      if rule.state != Play { problems := problems + 1; }
    }
    if rule.exactFlowId != "" && !HexId(rule.exactFlowId) { problems := problems + 1; }
    if rule.protocol.Some? && rule.protocol.value.Unsupported? { problems := problems + 1; }
    if rule.source.BadCidr? { problems := problems + 1; }
    if rule.destination.BadCidr? { problems := problems + 1; }
    if rule.sourcePorts.Some? && rule.sourcePorts.value.minimum > rule.sourcePorts.value.maximum {
      problems := problems + 1;
    }
    if rule.destinationPorts.Some? && rule.destinationPorts.value.minimum > rule.destinationPorts.value.maximum {
      problems := problems + 1;
    }
    if rule.wireSize.Some?
      && (rule.wireSize.value.minimum < 0 || rule.wireSize.value.minimum > rule.wireSize.value.maximum) {
      problems := problems + 1;
    }
    var mask, flagsOk := ConvertFlags(rule.flags);
    if !flagsOk { problems := problems + 1; }
    if problems > 0 { return None; }
    converted := Some(Rule(rule.id, rule.name, rule.enabled,
      Match(rule.exactFlowId, PrefixOf(rule.source), PrefixOf(rule.destination), rule.protocol,
            rule.sourcePorts, rule.destinationPorts, rule.wireSize, mask),
      Action(rule.state, rule.channel, mode, root)));
  }

  // ------------------------------------------------------------- rule lists

  ghost predicate AllSound(rules: seq<RuleConfig>) {
    && (forall rule | rule in rules :: Sound(rule))
    && (forall i, j | 0 <= i < j < |rules| :: rules[i].id != rules[j].id)
  }

  function ConvertAll(rules: seq<RuleConfig>): (converted: seq<Rule>)
    ensures |converted| == |rules|
    ensures forall i | 0 <= i < |rules| :: converted[i] == Converted(rules[i])
  {
    if rules == [] then []
    else ConvertAll(rules[..|rules| - 1]) + [Converted(rules[|rules| - 1])]
  }

  // Converts the rules in order, or reports that some rule has a problem or
  // repeats an identifier.
  method ToFlowRules(rules: seq<RuleConfig>) returns (converted: Option<seq<Rule>>)
    ensures converted == if AllSound(rules) then Some(ConvertAll(rules)) else None
  {
    var result: seq<Rule> := [];
    var seenIds: set<string> := {};
    var problems := 0;
    for i := 0 to |rules|
      invariant problems >= 0
      invariant problems == 0 <==> AllSound(rules[..i])
      invariant problems == 0 ==> seenIds == set j | 0 <= j < i :: rules[j].id
      invariant problems == 0 ==> result == ConvertAll(rules[..i])
    {
      var rule := rules[i];
      ghost var done := rules[..i];
      assert rules[..i + 1] == done + [rule];
      AllSoundExtends(done, rule);
      assert problems == 0 ==> (rule.id in seenIds <==> exists j | 0 <= j < |done| :: done[j].id == rule.id);
      if !Blank(rule.id) {
        if rule.id in seenIds {
          problems := problems + 1;
        } else {
          seenIds := seenIds + {rule.id};
        }
      }
      var one := ToFlowRule(rule);
      if one.None? { problems := problems + 1; } else { result := result + [one.value]; }
    }
    assert rules[..|rules|] == rules;
    converted := if problems > 0 then None else Some(result);
  }

  lemma AllSoundExtends(done: seq<RuleConfig>, rule: RuleConfig)
    ensures AllSound(done + [rule]) <==>
            AllSound(done) && Sound(rule) && forall j | 0 <= j < |done| :: done[j].id != rule.id
  {
    var all := done + [rule];
    assert forall r :: r in all <==> r in done || r == rule;
    assert forall j | 0 <= j < |done| :: all[j] == done[j];
    assert all[|done|] == rule;
  }
}
