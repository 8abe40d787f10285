// The runtime policy controller: validated configurations are persisted, then
// published together with their compiled selector and the temporary overlay.
module Controller {
  import opened Common
  import opened Selector
  import opened RuleConfigs
  import opened Compilation
  import opened Configuration
  import opened ConfigRepository

  datatype Mode = Ready | RestartPending | OutOfSync | DurabilityUncertain | Degraded

  // One published generation. An empty pending revision marks that no
  // generation waits for the next start.
  datatype PolicySnapshot = PolicySnapshot(
    revision: Revision,
    config: Config,
    pendingRevision: Revision,
    pendingConfig: Option<Config>,
    selector: Selector,
    overlay: Overlay,
    mode: Mode)

  // `file` is the configuration file, absent for a read-only controller.
  datatype State = State(file: Option<Entry>, provenance: nat, safety: SafetySource, current: PolicySnapshot)

  // What goes wrong during one request. Another program may write the file
  // just before the repository is called (`early`) or just after (`late`).
  datatype Faults = Faults(
    cancelledFirst: bool,
    cancelledBuilt: bool,
    cancelledLast: bool,
    firstRead: bool,
    replace: set<Operation>,
    secondRead: bool,
    apply: bool,
    rollback: set<Operation>,
    early: Option<Entry>,
    late: Option<Entry>)

  datatype Reply =
    | Accepted
    | Cancelled
    | IsDegraded
    | IsPending
    | WrongMode
    | Conflicted(expected: Revision, actual: Revision)
    | NotRead
    | NotBuilt
    | Invalid
    | NeedsRestart
    | NeedsNoRestart
    | NothingPending
    | ReadOnly
    | NotPersisted(error: Error)
    | NotPublished

  const MAXIMUM_OVERLAY: int := 10000

  // ------------------------------------------------------------ classification

  function SettingOf(c: Config, path: string): (value: Option<string>) {
    if path in c.settings then Some(c.settings[path]) else None
  }

  // The changed settings that need a restart, of those in the classifier's
  // list; an unlisted change counts as one too.
  function RestartFields(listed: set<string>, a: Config, b: Config): (fields: set<string>) {
    var known :=
      (if a.seed != b.seed then {"mapping.seed"} else {})
      + (if a.registryCapacity != b.registryCapacity then {"performance.flow_registry_capacity"} else {})
      + (set path | path in listed && SettingOf(a, path) != SettingOf(b, path));
    if known == {} && b.(defaultState := a.defaultState, defaultChannel := a.defaultChannel, rules := a.rules) != a
    then {"unclassified"} else known
  }

  // Whatever settings are listed, a candidate needs no restart exactly if it
  // differs in the default state, the default channel and the rules only.
  lemma RestartFieldsAreComplete(listed: set<string>, a: Config, b: Config)
    ensures RestartFields(listed, a, b) == {} <==> SameFrozen(a, b)
  {
    var fields := RestartFields(listed, a, b);
    if SameFrozen(a, b) {
      assert forall path :: SettingOf(a, path) == SettingOf(b, path);
      assert b.(defaultState := a.defaultState, defaultChannel := a.defaultChannel, rules := a.rules) == a;
    }
    if a.seed != b.seed { assert "mapping.seed" in fields; }
    if a.registryCapacity != b.registryCapacity { assert "performance.flow_registry_capacity" in fields; }
  }

  // ---------------------------------------------------------------- requests

  function ReadFile(k: Codec, s: State, fails: bool): (found: Option<Snapshot>) {
    if fails || s.file.None? then None else Look(k, s.file.value)
  }

  function WithMode(s: State, mode: Mode): (after: State) {
    s.(current := s.current.(mode := mode))
  }

  // The revision the file should have.
  function Durable(c: PolicySnapshot): (revision: Revision) {
    if c.mode == RestartPending && c.pendingRevision != "" then c.pendingRevision else c.revision
  }

  // A write of another program.
  function Foreign(s: State, entry: Option<Entry>): (after: State)
    ensures after.file.Some? <==> s.file.Some?
  {
    if s.file.Some? && entry.Some? then s.(file := entry) else s
  }

  // The repository call of a request: the state afterwards and the outcome.
  function Submit(k: Codec, s: State, expected: Revision, config: Config, f: Faults): (r: (State, Outcome))
    requires s.file.Some?
    ensures r.0.file.Some? && r.0 == s.(file := r.0.file)
  {
    var met := Foreign(s, f.early);
    var (file, outcome) := Perform(k, s.provenance, Replacement(expected, config), met.file.value, f.replace);
    (Foreign(met.(file := Some(file)), f.late), outcome)
  }

  // After a replacement of `durable` failed: a foreign revision, or a file
  // that cannot be verified, puts the controller out of sync.
  function AfterFailure(k: Codec, s: State, durable: Revision, error: Error, readFails: bool): (after: State) {
    match error
    case Conflict(_, actual) => if actual != durable then WithMode(s, OutOfSync) else s
    case Failure =>
      var found := ReadFile(k, s, readFails);
      if found.Some? && found.value.revision == Durable(s.current) then s else WithMode(s, OutOfSync)
  }

  function AfterApplyFailed(k: Codec, s: State, change: Change, fails: set<Operation>): (r: (State, Reply))
    requires s.file.Some?
  {
    if !Changed(change) then
      (if change.after.revision != s.current.revision || change.after.config != s.current.config
       then WithMode(s, OutOfSync) else s, NotPublished)
    else
      var (file, outcome) := Perform(k, s.provenance, Restoration(change), s.file.value, fails);
      var restored := s.(file := Some(file));
      (WithMode(restored,
                if outcome.Failed? then Degraded
                else if outcome.change.warning then DurabilityUncertain else Ready), NotPublished)
  }

  function Publish(k: Codec, s: State, candidate: Config, change: Change, f: Faults): (r: (State, Reply))
    requires s.file.Some?
  {
    var c := s.current;
    if !Changed(change) && change.after.revision == c.revision && change.after.config == c.config
       && c.mode != OutOfSync then (s, Accepted)
    else if f.apply then AfterApplyFailed(k, s, change, f.rollback)
    else
      var next := PolicySnapshot(change.after.revision, change.after.config, "", None,
                                 Compile(PolicyOf(candidate), s.safety), c.overlay,
                                 if change.warning then DurabilityUncertain else Ready);
      (s.(current := next), Accepted)
  }

  function Persist(k: Codec, s: State, expected: Revision, candidate: Config, f: Faults): (r: (State, Reply))
    requires s.file.Some?
  {
    var (t, outcome) := Submit(k, s, expected, candidate, f);
    match outcome
    case Failed(error) => (AfterFailure(k, t, s.current.revision, error, f.secondRead), NotPersisted(error))
    case Done(change) => Publish(k, t, candidate, change, f)
  }

  ghost function Propose(k: Codec, s: State, expected: Revision, candidate: Option<Config>, f: Faults): (r: (State, Reply)) {
    var c := s.current;
    if candidate.None? then (s, NotBuilt)
    else if f.cancelledBuilt then (s, Cancelled)
    else if !ValidConfig(k, candidate.value) then (s, Invalid)
    else if !SameFrozen(c.config, candidate.value) then (s, NeedsRestart)
    else if s.file.None? then (s, if expected != c.revision then Conflicted(expected, c.revision) else ReadOnly)
    else if f.cancelledLast then (s, Cancelled)
    else Persist(k, s, expected, candidate.value, f)
  }

  // Update and Mutate: a new configuration built from the active one, or from
  // the file when the controller is out of sync.
  ghost function Transact(k: Codec, s: State, expected: Revision, build: Config -> Option<Config>, f: Faults): (r: (State, Reply)) {
    var c := s.current;
    if f.cancelledFirst then (s, Cancelled)
    else if c.mode == Degraded then (s, IsDegraded)
    else if c.mode == RestartPending then (s, IsPending)
    else if c.mode == OutOfSync then
      var durable := ReadFile(k, s, f.firstRead);
      if durable.None? then (s, NotRead)
      else if durable.value.revision != expected then (s, Conflicted(expected, durable.value.revision))
      else Propose(k, s, expected, build(durable.value.config), f)
    else if expected != c.revision then (s, Conflicted(expected, c.revision))
    else Propose(k, s, expected, build(c.config), f)
  }

  // Stores a generation for the next start without publishing it.
  ghost function Stage(k: Codec, s: State, expected: Revision, candidate: Config, f: Faults): (r: (State, Reply)) {
    var c := s.current;
    if f.cancelledFirst then (s, Cancelled)
    else if c.mode == Degraded then (s, IsDegraded)
    else if c.mode != Ready && c.mode != RestartPending then (s, WrongMode)
    else
      var durable := if c.mode == RestartPending then c.pendingRevision else c.revision;
      if expected != durable then (s, Conflicted(expected, durable))
      else if !ValidConfig(k, candidate) then (s, Invalid)
      else if SameFrozen(c.config, candidate) then (s, NeedsNoRestart)
      else if s.file.None? then (s, ReadOnly)
      else if f.cancelledLast then (s, Cancelled)
      else
        var (t, outcome) := Submit(k, s, durable, candidate, f);
        match outcome
        case Failed(error) => (AfterFailure(k, t, durable, error, f.secondRead), NotPersisted(error))
        case Done(change) =>
          (t.(current := c.(mode := RestartPending, pendingRevision := change.after.revision,
                            pendingConfig := Some(change.after.config))), Accepted)
  }

  // Makes the active generation the one for the next start again.
  function Cancel(k: Codec, s: State, expected: Revision, f: Faults): (r: (State, Reply)) {
    var c := s.current;
    if f.cancelledFirst then (s, Cancelled)
    else if c.mode != RestartPending || c.pendingRevision == "" || s.file.None? then (s, NothingPending)
    else if expected != c.pendingRevision then (s, Conflicted(expected, c.pendingRevision))
    else
      var (t, outcome) := Submit(k, s, c.pendingRevision, c.config, f);
      match outcome
      case Failed(error) => (AfterFailure(k, t, c.pendingRevision, error, f.secondRead), NotPersisted(error))
      case Done(change) =>
        (t.(current := c.(mode := if change.warning then DurabilityUncertain else Ready,
                          revision := change.after.revision, pendingRevision := "", pendingConfig := None)), Accepted)
  }

  function OverlayLimit(c: Config): (limit: int) {
    if c.registryCapacity > MAXIMUM_OVERLAY then MAXIMUM_OVERLAY else c.registryCapacity
  }

  predicate ValidFlows(flows: set<FlowId>, limit: int) {
    |flows| <= limit && forall id | id in flows :: HexId(id)
  }

  // Replaces the muted or the soloed flows.
  function ReplaceOverlay(s: State, mute: bool, flows: set<FlowId>, cancelled: bool): (r: (State, Reply)) {
    var c := s.current;
    if cancelled then (s, Cancelled)
    else if c.mode != Ready && c.mode != RestartPending then (s, WrongMode)
    else if !ValidFlows(flows, OverlayLimit(c.config)) then (s, Invalid)
    else
      var overlay := if mute then c.overlay.(muted := flows) else c.overlay.(soloed := flows);
      (s.(current := c.(overlay := overlay)), Accepted)
  }

  // Publishes the active configuration with other safety rules. The new
  // generation carries no pending one.
  function ConfigureSafety(s: State, source: SafetySource): (after: State) {
    var c := s.current;
    s.(safety := source,
       current := c.(selector := Compile(PolicyOf(c.config), source), pendingRevision := "", pendingConfig := None))
  }

  // A controller over the file, or over `given` when there is none.
  ghost function Open(k: Codec, file: Option<Entry>, provenance: nat, given: Config, safety: SafetySource): (s: Option<State>) {
    var found := if file.Some? then Look(k, file.value) else None;
    if file.Some? && found.None? then None
    else if file.None? && k.encode(given).None? then None
    else
      var config := if file.Some? then found.value.config else given;
      var revision := if file.Some? then found.value.revision else k.digest(k.encode(given).value);
      if !ValidConfig(k, config) then None
      else
        Some(State(file, provenance, safety,
                   PolicySnapshot(revision, config, "", None, Compile(PolicyOf(config), safety), Overlay({}, {}), Ready)))
  }

  // ---------------------------------------------------------------------- runs

  datatype Input =
    | Transaction(expected: Revision, build: Config -> Option<Config>, faults: Faults)
    | Staging(expected: Revision, candidate: Config, faults: Faults)
    | Cancelling(expected: Revision, faults: Faults)
    | OverlayChange(mute: bool, flows: set<FlowId>, cancelled: bool)
    | SafetyChange(source: SafetySource)
    | Outside(entry: Entry)

  ghost function Step(k: Codec, s: State, e: Input): (after: State) {
    match e
    case Transaction(expected, build, faults) => Transact(k, s, expected, build, faults).0
    case Staging(expected, candidate, faults) => Stage(k, s, expected, candidate, faults).0
    case Cancelling(expected, faults) => Cancel(k, s, expected, faults).0
    case OverlayChange(mute, flows, cancelled) => ReplaceOverlay(s, mute, flows, cancelled).0
    case SafetyChange(source) => ConfigureSafety(s, source)
    case Outside(entry) => Foreign(s, Some(entry))
  }

  ghost function Run(k: Codec, s: State, events: seq<Input>): (after: State) {
    if |events| == 0 then s else Step(k, Run(k, s, events[..|events| - 1]), events[|events| - 1])
  }
}
