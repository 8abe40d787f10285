// What each request of the policy controller does, stated on what is known
// before it: the file it meets, the faults and the candidate. From this
// follows how a controller notices a foreign file and recovers from it.
module ControllerOutcomes {
  import opened Common
  import opened Packets
  import opened FlowKey
  import opened Selector
  import opened RuleConfigs
  import opened Compilation
  import opened Configuration
  import opened ConfigRepository
  import opened Controller
  import opened ControllerSafety

  // ------------------------------------------------------ the repository call

  // The lock is taken and the file can be read.
  predicate Readable(k: Codec, entry: Entry, fails: set<Operation>) {
    fails * LOCKING == {} && FirstRead !in fails && Look(k, entry).Some?
  }

  predicate Storable(k: Codec, config: Config) {
    k.encode(config).Some? && |k.encode(config).value| <= MAXIMUM_BYTES
  }

  // The configuration can be stored over the file: nothing fails, and the
  // file is owner-only unless it holds the configuration already.
  predicate Stores(k: Codec, entry: Entry, expected: Revision, config: Config, fails: set<Operation>) {
    && Readable(k, entry, fails) && Look(k, entry).value.revision == expected
    && Storable(k, config) && k.encode(Look(k, entry).value.config).Some?
    && if Look(k, entry).value.config == config then ReleaseLock !in fails
       else OwnerOnly(Look(k, entry).value.mode) && fails * COMMITTING == {}
  }

  // The revision the file has once it holds `config`.
  function NextRevision(k: Codec, entry: Entry, config: Config): (revision: Revision)
    requires Look(k, entry).Some? && k.encode(config).Some?
  {
    if Look(k, entry).value.config == config then Look(k, entry).value.revision
    else k.digest(k.encode(config).value)
  }

  // The store is done but may not survive a power loss.
  predicate Doubtful(k: Codec, entry: Entry, config: Config, fails: set<Operation>)
    requires Look(k, entry).Some?
  {
    Look(k, entry).value.config != config && (SyncDirectory in fails || ReleaseLock in fails)
  }

  // A replacement call in full: when it succeeds, conflicts or fails, and what
  // a success reports.
  lemma CallIsExact(k: Codec, provenance: nat, expected: Revision, config: Config, entry: Entry, fails: set<Operation>)
    requires Lawful(k)
    ensures var (file, outcome) := Perform(k, provenance, Replacement(expected, config), entry, fails);
            && (outcome.Done? <==> Stores(k, entry, expected, config, fails))
            && (outcome.Failed? && outcome.error.Conflict? <==>
                  Readable(k, entry, fails) && Look(k, entry).value.revision != expected)
            && (outcome.Failed? && outcome.error.Conflict? ==>
                  outcome.error == Conflict(expected, Look(k, entry).value.revision))
            && (outcome.Failed? ==> file == entry)
            && (outcome.Done? ==>
                  && outcome.change.after.config == config
                  && outcome.change.after.revision == NextRevision(k, entry, config)
                  && (Changed(outcome.change) <==> Look(k, entry).value.config != config)
                  && (outcome.change.warning <==> Doubtful(k, entry, config, fails))
                  && outcome.change.provenance == provenance
                  && Look(k, entry) == Some(outcome.change.before) && Look(k, file) == Some(outcome.change.after)
                  && outcome.change.after.mode == outcome.change.before.mode)
  {
    ResultTellsTheFile(k, provenance, Replacement(expected, config), entry, fails);
    ReplaceInstallsTheConfig(k, provenance, expected, config, entry, fails);
    ConflictMeansOtherRevision(k, provenance, expected, config, entry, fails);
    WarningsAreExact(k, provenance, Replacement(expected, config), entry, fails);
    if Readable(k, entry, fails) && k.encode(config).Some? {
      var found := Look(k, entry).value;
      assert k.decode(k.encode(config).value) == Some(config);
      if k.encode(config) == k.encode(found.config) { EncodingsDiffer(k, config, found.config); }
    }
  }

  // ------------------------------------------------------------- the requests

  // The file that the request's repository call meets, and the one found
  // afterwards if the call leaves it alone.
  function Met(s: State, f: Faults): (entry: Entry)
    requires s.file.Some?
  {
    if f.early.Some? then f.early.value else s.file.value
  }

  function Left(s: State, f: Faults): (entry: Entry)
    requires s.file.Some?
  {
    if f.late.Some? then f.late.value else Met(s, f)
  }

  // The revision the controller relies on the file to have: that of the pending
  // generation while there is one, else the active one's.
  function Relied(c: PolicySnapshot): (revision: Revision) {
    if c.mode == RestartPending && c.pendingRevision != "" then c.pendingRevision else c.revision
  }

  predicate FileRequest(e: Input) {
    e.Transaction? || e.Staging? || e.Cancelling?
  }

  // The request gets as far as the repository.
  ghost predicate Arrives(k: Codec, s: State, e: Input)
    requires FileRequest(e)
  {
    var c := s.current;
    match e
    case Transaction(expected, build, faults) => Submits(k, s, expected, build, faults)
    case Staging(expected, candidate, faults) =>
      && s.file.Some? && !faults.cancelledFirst && !faults.cancelledLast
      && (c.mode == Ready || c.mode == RestartPending)
      && expected == (if c.mode == RestartPending then c.pendingRevision else c.revision)
      && ValidConfig(k, candidate) && !SameFrozen(c.config, candidate)
    case Cancelling(expected, faults) =>
      && s.file.Some? && !faults.cancelledFirst
      && c.mode == RestartPending && c.pendingRevision != "" && expected == c.pendingRevision
  }

  // The configuration it asks the repository to store.
  ghost function Wanted(k: Codec, s: State, e: Input): (config: Config)
    requires FileRequest(e) && Arrives(k, s, e)
  {
    match e
    case Transaction(_, build, faults) => Candidate(k, s, build, faults).value
    case Staging(_, candidate, _) => candidate
    case Cancelling(_, _) => s.current.config
  }

  ghost function Answer(k: Codec, s: State, e: Input): (reply: Reply)
    requires FileRequest(e)
  {
    match e
    case Transaction(expected, build, faults) => Transact(k, s, expected, build, faults).1
    case Staging(expected, candidate, faults) => Stage(k, s, expected, candidate, faults).1
    case Cancelling(expected, faults) => Cancel(k, s, expected, faults).1
  }

  // A request that stops before the repository changes nothing and is refused.
  lemma StoppedShort(k: Codec, s: State, e: Input)
    requires FileRequest(e) && !Arrives(k, s, e)
    ensures Step(k, s, e) == s
    ensures var r := Answer(k, s, e); !r.Accepted? && !r.NotPersisted? && !r.NotPublished?
  {
  }

  lemma SubmitIsExact(k: Codec, s: State, expected: Revision, config: Config, f: Faults)
    requires Lawful(k) && s.file.Some?
    ensures var (t, outcome) := Submit(k, s, expected, config, f);
            && t == s.(file := t.file)
            && outcome == Perform(k, s.provenance, Replacement(expected, config), Met(s, f), f.replace).1
            && (outcome.Failed? ==> t.file == Some(Left(s, f)))
            && (outcome.Done? && f.late.None? ==> t.file.Some? && Look(k, t.file.value) == Some(outcome.change.after))
  {
    CallIsExact(k, s.provenance, expected, config, Met(s, f), f.replace);
  }

  // A controller that meets a file of another revision than it named goes out
  // of sync, whatever the request, and changes nothing else.
  lemma ForeignRevisionIsNoticed(k: Codec, s: State, e: Input)
    requires Lawful(k) && FileRequest(e) && Arrives(k, s, e)
    requires Readable(k, Met(s, e.faults), e.faults.replace)
    requires Look(k, Met(s, e.faults)).value.revision != e.expected
    ensures Step(k, s, e) == s.(file := Some(Left(s, e.faults)), current := s.current.(mode := OutOfSync))
    ensures Answer(k, s, e) == NotPersisted(Conflict(e.expected, Look(k, Met(s, e.faults)).value.revision))
  {
    var config := Wanted(k, s, e);
    CallIsExact(k, s.provenance, e.expected, config, Met(s, e.faults), e.faults.replace);
    SubmitIsExact(k, s, e.expected, config, e.faults);
    if e.Transaction? { TransactPersists(k, s, e.expected, e.build, e.faults); }
  }

  // The file still is what the controller relies on, as far as it can tell.
  predicate Verified(k: Codec, s: State, f: Faults)
    requires s.file.Some?
  {
    !f.secondRead && Look(k, Left(s, f)).Some? && Look(k, Left(s, f)).value.revision == Relied(s.current)
  }

  // The store fails, but not for the revision of the file.
  ghost predicate FailsToStore(k: Codec, s: State, e: Input)
    requires FileRequest(e) && Arrives(k, s, e)
  {
    var met, fails := Met(s, e.faults), e.faults.replace;
    !Stores(k, met, e.expected, Wanted(k, s, e), fails)
    && !(Readable(k, met, fails) && Look(k, met).value.revision != e.expected)
  }

  lemma FailedSubmission(k: Codec, s: State, e: Input)
    requires Lawful(k) && FileRequest(e) && Arrives(k, s, e) && FailsToStore(k, s, e)
    ensures Submit(k, s, e.expected, Wanted(k, s, e), e.faults) == (s.(file := Some(Left(s, e.faults))), Failed(Failure))
  {
    CallIsExact(k, s.provenance, e.expected, Wanted(k, s, e), Met(s, e.faults), e.faults.replace);
    SubmitIsExact(k, s, e.expected, Wanted(k, s, e), e.faults);
  }

  // A store that fails otherwise keeps the mode exactly if the file can be
  // read again and is the one relied on; else the controller is out of sync.
  lemma FailureIsVerified(k: Codec, s: State, e: Input)
    requires Lawful(k) && FileRequest(e) && Arrives(k, s, e) && FailsToStore(k, s, e)
    ensures Step(k, s, e) == s.(file := Some(Left(s, e.faults)),
                                current := s.current.(mode := if Verified(k, s, e.faults) then s.current.mode else OutOfSync))
    ensures Answer(k, s, e) == NotPersisted(Failure)
  {
    FailedSubmission(k, s, e);
    if e.Transaction? { TransactPersists(k, s, e.expected, e.build, e.faults); }
  }

  // The store changes nothing and the active generation is the stored one.
  ghost predicate Settled(k: Codec, s: State, e: Input)
    requires FileRequest(e) && Arrives(k, s, e)
  {
    var found, c := Look(k, Met(s, e.faults)), s.current;
    && c.mode != OutOfSync && found.Some?
    && found.value.config == Wanted(k, s, e) == c.config && found.value.revision == c.revision
  }

  // A stored transaction publishes the candidate with its compiled selector
  // under the revision of the file and keeps the overlay; the mode says
  // whether the store may be lost. One that changes nothing keeps everything.
  lemma TransactionPublishes(k: Codec, s: State, e: Input)
    requires Lawful(k) && e.Transaction? && Arrives(k, s, e) && !e.faults.apply
    requires Stores(k, Met(s, e.faults), e.expected, Wanted(k, s, e), e.faults.replace)
    ensures Answer(k, s, e) == Accepted
    ensures var after, config, met := Step(k, s, e), Wanted(k, s, e), Met(s, e.faults);
            if Settled(k, s, e) then after.current == s.current
            else
              && after.current.config == config && after.current.revision == NextRevision(k, met, config)
              && after.current.selector == Compile(PolicyOf(config), s.safety)
              && after.current.overlay == s.current.overlay
              && after.current.pendingRevision == "" && after.current.pendingConfig == None
              && after.current.mode == if Doubtful(k, met, config, e.faults.replace) then DurabilityUncertain else Ready
  {
    var config := Wanted(k, s, e);
    CallIsExact(k, s.provenance, e.expected, config, Met(s, e.faults), e.faults.replace);
    SubmitIsExact(k, s, e.expected, config, e.faults);
    TransactPersists(k, s, e.expected, e.build, e.faults);
  }

  // A stored staging keeps the active generation and makes the candidate the
  // pending one.
  lemma StagingAwaitsRestart(k: Codec, s: State, e: Input)
    requires Lawful(k) && e.Staging? && Arrives(k, s, e)
    requires Stores(k, Met(s, e.faults), e.expected, e.candidate, e.faults.replace)
    ensures Answer(k, s, e) == Accepted
    ensures var after, c := Step(k, s, e).current, s.current;
            && after.mode == RestartPending
            && after.pendingRevision == NextRevision(k, Met(s, e.faults), e.candidate)
            && after.pendingConfig == Some(e.candidate)
            && (after.revision, after.config, after.selector, after.overlay) == (c.revision, c.config, c.selector, c.overlay)
  {
    CallIsExact(k, s.provenance, e.expected, e.candidate, Met(s, e.faults), e.faults.replace);
    SubmitIsExact(k, s, e.expected, e.candidate, e.faults);
  }

  // A stored cancellation makes the active generation the one for the next
  // start, with nothing pending.
  lemma CancellationRestoresTheActive(k: Codec, s: State, e: Input)
    requires Lawful(k) && e.Cancelling? && Arrives(k, s, e)
    requires Stores(k, Met(s, e.faults), e.expected, s.current.config, e.faults.replace)
    ensures Answer(k, s, e) == Accepted
    ensures var after, c, met := Step(k, s, e).current, s.current, Met(s, e.faults);
            && after.mode == (if Doubtful(k, met, c.config, e.faults.replace) then DurabilityUncertain else Ready)
            && after.revision == NextRevision(k, met, c.config)
            && after.pendingRevision == "" && after.pendingConfig == None
            && (after.config, after.selector, after.overlay) == (c.config, c.selector, c.overlay)
  {
    CallIsExact(k, s.provenance, e.expected, s.current.config, Met(s, e.faults), e.faults.replace);
    SubmitIsExact(k, s, e.expected, s.current.config, e.faults);
  }

  // A stored transaction that cannot be applied keeps the active generation.
  // A file that was changed is put back, and the controller is degraded
  // exactly if that fails.
  lemma FailedApplyRollsBack(k: Codec, s: State, e: Input)
    requires Lawful(k) && e.Transaction? && Arrives(k, s, e) && e.faults.apply && Calm(e.faults)
    requires Stores(k, s.file.value, e.expected, Wanted(k, s, e), e.faults.replace) && !Settled(k, s, e)
    ensures Answer(k, s, e) == NotPublished
    ensures var after := Step(k, s, e);
            var found := Look(k, s.file.value).value;
            && after.current == s.current.(mode := after.current.mode)
            && if found.config == Wanted(k, s, e) then
                 after.current.mode == if found.revision != s.current.revision || found.config != s.current.config
                                       then OutOfSync else s.current.mode
               else if !(e.faults.rollback !! FATAL) then after.current.mode == Degraded
               else
                 && after.file.Some? && Look(k, after.file.value) == Some(found)
                 && after.current.mode == if SyncDirectory in e.faults.rollback || ReleaseLock in e.faults.rollback
                                          then DurabilityUncertain else Ready
  {
    var config := Wanted(k, s, e);
    CallIsExact(k, s.provenance, e.expected, config, s.file.value, e.faults.replace);
    SubmitIsExact(k, s, e.expected, config, e.faults);
    TransactPersists(k, s, e.expected, e.build, e.faults);
    var (t, outcome) := Submit(k, s, e.expected, config, e.faults);
    if Changed(outcome.change) {
      ResultTellsTheFile(k, s.provenance, Replacement(e.expected, config), s.file.value, e.faults.replace);
      assert t.file == Some(FileOf(outcome.change.after));
      RollbackRestores(k, s.provenance, outcome.change, e.faults.rollback);
      WarningsAreExact(k, s.provenance, Restoration(outcome.change), t.file.value, e.faults.rollback);
      ResultTellsTheFile(k, s.provenance, Restoration(outcome.change), t.file.value, e.faults.rollback);
    }
  }

  // ----------------------------------------------------------------- recovery

  // A transaction without faults that names the revision of the file is
  // accepted by a controller out of sync exactly if it may store its
  // candidate, and then the state tells the truth about the file again.
  lemma ReconciliationRecovers(k: Codec, s: State, expected: Revision, build: Config -> Option<Config>)
    requires Lawful(k) && s.current.mode == OutOfSync && s.file.Some?
    requires Look(k, s.file.value).Some? && Look(k, s.file.value).value.revision == expected
    ensures var (after, reply) := Transact(k, s, expected, build, NO_FAULTS);
            && (reply == Accepted <==> Reconcilable(k, s, build))
            && (reply == Accepted ==>
                  && after.current.mode == Ready && Agreement(k, after)
                  && Some(after.current.config) == build(Look(k, s.file.value).value.config)
                  && Holds(k, after.file, after.current.revision, after.current.config))
  {
    var e := Transaction(expected, build, NO_FAULTS);
    assert ReadFile(k, s, false) == Look(k, s.file.value);
    if Submits(k, s, expected, build, NO_FAULTS) {
      var config := Wanted(k, s, e);
      if Stores(k, s.file.value, expected, config, {}) {
        TransactionPublishes(k, s, e);
        CallIsExact(k, s.provenance, expected, config, s.file.value, {});
        SubmitIsExact(k, s, expected, config, NO_FAULTS);
        HeldIsAnchored(k, Submit(k, s, expected, config, NO_FAULTS).0.file, NextRevision(k, s.file.value, config), config);
        TransactPersists(k, s, expected, build, NO_FAULTS);
      } else {
        FailureIsVerified(k, s, e);
      }
    } else {
      StoppedShort(k, s, e);
    }
  }

  // What a reconciliation needs: a valid candidate that needs no restart and
  // can be encoded, over a file that can be, and is owner-only unless nothing
  // changes.
  ghost predicate Reconcilable(k: Codec, s: State, build: Config -> Option<Config>)
    requires s.file.Some? && Look(k, s.file.value).Some?
  {
    var found := Look(k, s.file.value).value;
    var candidate := build(found.config);
    && candidate.Some? && ValidConfig(k, candidate.value) && SameFrozen(s.current.config, candidate.value)
    && Storable(k, candidate.value) && k.encode(found.config).Some?
    && (found.config == candidate.value || OwnerOnly(found.mode))
  }

  // Any readable file that another program leaves is noticed by the next
  // request that reaches the repository.
  lemma ForeignWriteIsNoticed(k: Codec, s: State, entry: Entry, e: Input)
    requires Lawful(k) && s.file.Some?
    requires FileRequest(e) && Arrives(k, Foreign(s, Some(entry)), e) && Calm(e.faults)
    requires Look(k, entry).Some? && Look(k, entry).value.revision != e.expected
    requires e.faults.replace * LOCKING == {} && FirstRead !in e.faults.replace
    ensures Run(k, s, [Outside(entry), e]) == s.(file := Some(entry), current := s.current.(mode := OutOfSync))
  {
    ForeignRevisionIsNoticed(k, Foreign(s, Some(entry)), e);
    RunTwo(k, s, Outside(entry), e);
  }

  // And one transaction that names its revision recovers from it: the
  // controller is Ready and truthful again.
  lemma ForeignWriteIsReconciled(k: Codec, s: State, entry: Entry, e: Input, build: Config -> Option<Config>)
    requires Lawful(k) && s.file.Some?
    requires FileRequest(e) && Arrives(k, Foreign(s, Some(entry)), e) && Calm(e.faults)
    requires Look(k, entry).Some? && Look(k, entry).value.revision != e.expected
    requires e.faults.replace * LOCKING == {} && FirstRead !in e.faults.replace
    ensures var noticed := Run(k, s, [Outside(entry), e]);
            && noticed.file == Some(entry) && noticed.current == s.current.(mode := OutOfSync)
            && (Reconcilable(k, noticed, build) ==>
                  var after := Step(k, noticed, Transaction(Look(k, entry).value.revision, build, NO_FAULTS));
                  after.current.mode == Ready && Agreement(k, after)
                  && Some(after.current.config) == build(Look(k, entry).value.config))
  {
    ForeignWriteIsNoticed(k, s, entry, e);
    ReconciliationRecovers(k, s.(file := Some(entry), current := s.current.(mode := OutOfSync)),
                           Look(k, entry).value.revision, build);
  }

  lemma RunTwo(k: Codec, s: State, a: Input, b: Input)
    ensures Run(k, s, [a, b]) == Step(k, Step(k, s, a), b)
  {
    assert [a, b][..1] == [a] && [a][..0] == [];
    assert Run(k, s, [a]) == Step(k, Run(k, s, []), a);
  }

  // --------------------------------------------------------------- the others

  // An overlay request is accepted exactly in a working mode for at most
  // min(capacity, 10000) well-formed flows. It replaces the muted flows and
  // keeps the soloed ones, or the reverse, and nothing else changes.
  lemma OverlayIsReplaced(s: State, mute: bool, flows: set<FlowId>, cancelled: bool)
    ensures var (after, reply) := ReplaceOverlay(s, mute, flows, cancelled);
            var o := s.current.overlay;
            && (reply == Accepted <==>
                  && !cancelled && (s.current.mode == Ready || s.current.mode == RestartPending)
                  && |flows| <= s.current.config.registryCapacity && |flows| <= 10000
                  && forall id | id in flows :: HexId(id))
            && after == s.(current := s.current.(overlay := after.current.overlay))
            && after.current.overlay == if reply != Accepted then o
                                        else if mute then Overlay(flows, o.soloed)
                                        else Overlay(o.muted, flows)
  {
  }

  // What an accepted overlay means for traffic that is not the application's
  // own: the decision is the configured one under the flows muted and soloed
  // now.
  lemma OverlayDecides(k: Codec, first: Config, s: State, mute: bool, flows: set<FlowId>,
                       identify: (string, Key) -> FlowId, packet: Packets.Event)
    requires Published(k, first, s) && ReplaceOverlay(s, mute, flows, false).1 == Accepted
    requires ValidEvent(packet) && !OwnTraffic(s.safety, packet)
    ensures var c := ReplaceOverlay(s, mute, flows, false).0.current;
            var overlay := if mute then Overlay(flows, s.current.overlay.soloed) else Overlay(s.current.overlay.muted, flows);
            Evaluate(c.selector, identify, packet, c.overlay) ==
            Some(Configured(PolicyOf(s.current.config), identify, packet, overlay))
  {
    OverlayIsReplaced(s, mute, flows, false);
    var c := ReplaceOverlay(s, mute, flows, false).0.current;
    CompilationPreservesMeaning(PolicyOf(c.config), s.safety, identify, packet, c.overlay);
  }

  // Configuring safety keeps the generation, the overlay, the mode and the
  // file.
  lemma SafetyKeepsTheRest(k: Codec, first: Config, s: State, source: SafetySource)
    requires Published(k, first, s)
    ensures var after := ConfigureSafety(s, source);
            && after.file == s.file && after.safety == source
            && after.current.selector == Compile(PolicyOf(s.current.config), source)
            && after.current == s.current.(selector := after.current.selector,
                                           pendingRevision := "", pendingConfig := None)
  {
    SafetyPublishes(k, first, s, source);
  }

  // A controller opens exactly over a readable valid file, or without a file
  // over a valid configuration that can be encoded; it starts Ready, with the
  // file's generation, nothing pending and an empty overlay.
  lemma OpensReady(k: Codec, file: Option<Entry>, provenance: nat, given: Config, safety: SafetySource)
    ensures var s := Open(k, file, provenance, given, safety);
            && (s.Some? <==> if file.Some? then Look(k, file.value).Some? && ValidConfig(k, Look(k, file.value).value.config)
                             else k.encode(given).Some? && ValidConfig(k, given))
            && (s.Some? ==>
                  && s.value.file == file && s.value.safety == safety
                  && (file.Some? ==> Holds(k, file, s.value.current.revision, s.value.current.config))
                  && (file.None? ==> s.value.current.config == given)
                  && s.value.current.mode == Ready && s.value.current.overlay == Overlay({}, {})
                  && s.value.current.pendingRevision == "" && s.value.current.pendingConfig == None)
  {
  }
}
