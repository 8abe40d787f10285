// The controller as an object over a file repository. Every method refines
// the request it is named after.
module ControllerRuntime {
  import opened Common
  import opened Selector
  import opened RuleConfigs
  import opened Compilation
  import opened Configuration
  import opened ConfigRepository
  import opened Controller

  // Converts, splits and joins the rules, and has the selector accept them.
  method CompileSelector(p: Policy, source: SafetySource) returns (selector: Option<Selector>)
    ensures selector == if AllSound(p.rules) && Acceptable(Compile(p, source)) then Some(Compile(p, source)) else None
  {
    var persistent := ToFlowRules(p.rules);
    if persistent.None? { return None; }
    var pinned, user := SplitTiers(persistent.value);
    var s := Selector(p.seed, Action(p.defaultState, p.defaultChannel, "", 0),
                      SafetyRules(source, persistent.value), pinned, user);
    var accepted := NewSelector(s);
    selector := if accepted then Some(s) else None;
  }

  // The validation of a candidate, and its selector.
  method Validate(k: Codec, c: Config, source: SafetySource) returns (selector: Option<Selector>)
    ensures selector == if ValidConfig(k, c) then Some(Compile(PolicyOf(c), source)) else None
  {
    var rules := ToFlowRules(c.rules);
    if rules.None? || c.seed == "" || c.defaultState.UnknownState? || c.defaultChannel < 1 || c.defaultChannel > 16
      || c.registryCapacity <= 0 || !k.soundSettings(c.settings) {
      return None;
    }
    CompilationIsTotal(PolicyOf(c), source);
    selector := CompileSelector(PolicyOf(c), source);
  }

  class PolicyController {
    const codec: Codec
    const repository: FileRepository?
    var safety: SafetySource
    var current: PolicySnapshot

    ghost predicate Valid()
      reads this, if repository == null then {} else {repository.disk}
    {
      && Lawful(codec)
      && (repository != null ==> repository.codec == codec && !repository.disk.locked)
      && (current.mode != Ready ==> repository != null)
    }

    ghost function View(): (s: State)
      reads this, if repository == null then {} else {repository.disk}
    {
      State(if repository == null then None else Some(repository.disk.entry),
            if repository == null then 0 else repository.provenance, safety, current)
    }

    constructor (codec: Codec, repository: FileRepository?, safety: SafetySource, current: PolicySnapshot)
      requires Lawful(codec) && current.mode == Ready
      requires repository != null ==> repository.codec == codec && !repository.disk.locked
      ensures Valid() && this.codec == codec && this.repository == repository
      ensures this.safety == safety && this.current == current
    {
      this.codec, this.repository, this.safety, this.current := codec, repository, safety, current;
    }

    // The repository call of a request, with what other programs write
    // before and after it.
    method Replace(expected: Revision, config: Config, f: Faults) returns (outcome: Outcome)
      requires Valid() && repository != null
      modifies repository.disk
      ensures Valid() && (View(), outcome) == Submit(codec, old(View()), expected, config, f)
    {
      if f.early.Some? { repository.disk.entry := f.early.value; }
      outcome := repository.ReplaceContext(expected, config, f.replace);
      if f.late.Some? { repository.disk.entry := f.late.value; }
    }

    // After a replacement of `expected` failed.
    method MarkFailure(expected: Revision, error: Error, readFails: bool)
      requires Valid() && repository != null
      modifies this`current
      ensures Valid() && View() == AfterFailure(codec, old(View()), expected, error, readFails)
    {
      match error {
        case Conflict(_, actual) =>
          if actual != expected { current := current.(mode := OutOfSync); }
        case Failure =>
          var durable := Durable(current);
          var found := if readFails then None else Look(codec, repository.disk.entry);
          if found.None? || found.value.revision != durable { current := current.(mode := OutOfSync); }
      }
    }

    method ApplyFailed(change: Change, fails: set<Operation>)
      requires Valid() && repository != null
      modifies this`current, if repository == null then {} else {repository.disk}
      ensures Valid() && View() == AfterApplyFailed(codec, old(View()), change, fails).0
    {
      if !Changed(change) {
        if change.after.revision != current.revision || change.after.config != current.config {
          current := current.(mode := OutOfSync);
        }
        return;
      }
      var outcome := repository.RollbackContext(change, fails);
      current := current.(mode := if outcome.Failed? then Degraded
                                  else if outcome.change.warning then DurabilityUncertain else Ready);
    }

    method PersistCandidate(expected: Revision, candidate: Config, selector: Selector, f: Faults) returns (reply: Reply)
      requires Valid() && repository != null && selector == Compile(PolicyOf(candidate), safety)
      modifies this`current, if repository == null then {} else {repository.disk}
      ensures Valid() && (View(), reply) == Persist(codec, old(View()), expected, candidate, f)
    {
      var outcome := Replace(expected, candidate, f);
      match outcome {
        case Failed(error) =>
          MarkFailure(current.revision, error, f.secondRead);
          reply := NotPersisted(error);
        case Done(change) =>
          if !Changed(change) && change.after.revision == current.revision && change.after.config == current.config
            && current.mode != OutOfSync {
            return Accepted;
          }
          if f.apply {
            ApplyFailed(change, f.rollback);
            return NotPublished;
          }
          current := PolicySnapshot(change.after.revision, change.after.config, "", None, selector, current.overlay,
                                    if change.warning then DurabilityUncertain else Ready);
          reply := Accepted;
      }
    }

    method ProposeCandidate(expected: Revision, candidate: Option<Config>, f: Faults) returns (reply: Reply)
      requires Valid()
      modifies this`current, if repository == null then {} else {repository.disk}
      ensures Valid() && (View(), reply) == Propose(codec, old(View()), expected, candidate, f)
    {
      if candidate.None? { return NotBuilt; }
      if f.cancelledBuilt { return Cancelled; }
      var selector := Validate(codec, candidate.value, safety);
      if selector.None? { return Invalid; }
      if !SameFrozen(current.config, candidate.value) { return NeedsRestart; }
      if repository == null {
        return if expected != current.revision then Conflicted(expected, current.revision) else ReadOnly;
      }
      if f.cancelledLast { return Cancelled; }
      reply := PersistCandidate(expected, candidate.value, selector.value, f);
    }

    // Update and Mutate.
    method TransactContext(expected: Revision, build: Config -> Option<Config>, f: Faults) returns (reply: Reply)
      requires Valid()
      modifies this`current, if repository == null then {} else {repository.disk}
      ensures Valid() && (View(), reply) == Transact(codec, old(View()), expected, build, f)
    {
      if f.cancelledFirst { return Cancelled; }
      if current.mode == Degraded { return IsDegraded; }
      if current.mode == RestartPending { return IsPending; }
      if current.mode != OutOfSync && expected != current.revision { return Conflicted(expected, current.revision); }
      var base := current.config;
      if current.mode == OutOfSync {
        var durable := if f.firstRead then None else Look(codec, repository.disk.entry);
        if durable.None? { return NotRead; }
        if durable.value.revision != expected { return Conflicted(expected, durable.value.revision); }
        base := durable.value.config;
      }
      reply := ProposeCandidate(expected, build(base), f);
    }

    method StageRestartContext(expected: Revision, candidate: Config, f: Faults) returns (reply: Reply)
      requires Valid()
      modifies this`current, if repository == null then {} else {repository.disk}
      ensures Valid() && (View(), reply) == Stage(codec, old(View()), expected, candidate, f)
    {
      if f.cancelledFirst { return Cancelled; }
      if current.mode == Degraded { return IsDegraded; }
      if current.mode != Ready && current.mode != RestartPending { return WrongMode; }
      var durable := if current.mode == RestartPending then current.pendingRevision else current.revision;
      if expected != durable { return Conflicted(expected, durable); }
      var selector := Validate(codec, candidate, safety);
      if selector.None? { return Invalid; }
      if SameFrozen(current.config, candidate) { return NeedsNoRestart; }
      if repository == null { return ReadOnly; }
      if f.cancelledLast { return Cancelled; }
      var outcome := Replace(durable, candidate, f);
      match outcome {
        case Failed(error) =>
          MarkFailure(durable, error, f.secondRead);
          reply := NotPersisted(error);
        case Done(change) =>
          current := current.(mode := RestartPending, pendingRevision := change.after.revision,
                              pendingConfig := Some(change.after.config));
          reply := Accepted;
      }
    }

    method CancelRestartContext(expected: Revision, f: Faults) returns (reply: Reply)
      requires Valid()
      modifies this`current, if repository == null then {} else {repository.disk}
      ensures Valid() && (View(), reply) == Cancel(codec, old(View()), expected, f)
    {
      if f.cancelledFirst { return Cancelled; }
      if current.mode != RestartPending || current.pendingRevision == "" { return NothingPending; }
      if expected != current.pendingRevision { return Conflicted(expected, current.pendingRevision); }
      var outcome := Replace(current.pendingRevision, current.config, f);
      match outcome {
        case Failed(error) =>
          MarkFailure(current.pendingRevision, error, f.secondRead);
          reply := NotPersisted(error);
        case Done(change) =>
          current := current.(mode := if change.warning then DurabilityUncertain else Ready,
                              revision := change.after.revision, pendingRevision := "", pendingConfig := None);
          reply := Accepted;
      }
    }

    method SetOverlay(mute: bool, flows: set<FlowId>, cancelled: bool) returns (reply: Reply)
      requires Valid()
      modifies this`current
      ensures Valid() && (View(), reply) == ReplaceOverlay(old(View()), mute, flows, cancelled)
    {
      if cancelled { return Cancelled; }
      if current.mode != Ready && current.mode != RestartPending { return WrongMode; }
      var limit := current.config.registryCapacity;
      if limit > MAXIMUM_OVERLAY { limit := MAXIMUM_OVERLAY; }
      if !ValidFlows(flows, limit) { return Invalid; }
      current := current.(overlay := if mute then current.overlay.(muted := flows)
                                     else current.overlay.(soloed := flows));
      reply := Accepted;
    }

    // A configuration that was published always compiles again.
    method ConfigureSafetyRules(source: SafetySource) returns (ok: bool)
      requires Valid()
      modifies this`current, this`safety
      ensures Valid()
      ensures ValidPolicy(PolicyOf(old(current).config)) ==> ok
      ensures View() == if ok then ConfigureSafety(old(View()), source) else old(View())
    {
      ghost var policy := PolicyOf(current.config);
      if ValidPolicy(policy) { CompilationIsTotal(policy, source); }
      var selector := CompileSelector(PolicyOf(current.config), source);
      if selector.None? { return false; }
      current := current.(selector := selector.value, pendingRevision := "", pendingConfig := None);
      safety := source;
      ok := true;
    }
  }

  // Loads the file when there is a repository; it then prevails over the
  // configuration given.
  method NewController(k: Codec, repository: FileRepository?, given: Config, safety: SafetySource)
    returns (controller: PolicyController?)
    requires Lawful(k)
    requires repository != null ==> repository.codec == k && !repository.disk.locked
    ensures var file := if repository == null then None else Some(repository.disk.entry);
            var provenance := if repository == null then 0 else repository.provenance;
            var loaded := Open(k, file, provenance, given, safety);
            && (controller == null <==> loaded.None?)
            && (controller != null ==>
                  controller.repository == repository && controller.Valid() && controller.View() == loaded.value)
  {
    var config, revision;
    if repository != null {
      var found := Look(k, repository.disk.entry);
      if found.None? { return null; }
      config, revision := found.value.config, found.value.revision;
    } else {
      var contents := k.encode(given);
      if contents.None? { return null; }
      config, revision := given, k.digest(contents.value);
    }
    var selector := Validate(k, config, safety);
    if selector.None? { return null; }
    controller := new PolicyController(k, repository, safety,
      PolicySnapshot(revision, config, "", None, selector.value, Overlay({}, {}), Ready));
  }
}
