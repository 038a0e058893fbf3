/**
  The durable state of the keybinding transaction: three live files (presets, settings and
  generated bindings), the transaction journal, the old and new sidecars and the publication
  temporaries.  A snapshot of the disk is judged by `Consistent`, which every durable step of
  every process has to keep, because a power cut may follow any of them.
 */
module BindingModel {
  import opened Wrappers

  newtype byte = x: int | 0 <= x < 256
  type Bytes = seq<byte>

  /** SHA-256 is taken to be injective: a digest determines its preimage. */
  datatype Digest = Digest(preimage: Bytes)

  function Hash(bytes: Bytes): Digest {
    Digest(bytes)
  }

  datatype Kind = Preset | Settings | Bindings
  datatype Side = Old | New
  datatype RecoveryTarget = Candidate | Previous
  datatype Phase =
    | Prepared | PresetCommitted | SettingsCommitted | BindingsCommitted | ReloadPending | ReloadConfirmed

  function Rank(phase: Phase): nat {
    match phase
    case Prepared => 0
    case PresetCommitted => 1
    case SettingsCommitted => 2
    case BindingsCommitted => 3
    case ReloadPending => 4
    case ReloadConfirmed => 5
  }

  /** A transaction id is a canonical UUID; only its identity matters. */
  type TransactionId = nat

  /** `.<name>.<transaction>.old` and `.<name>.<transaction>.new` beside the live file. */
  datatype SidecarName = SidecarName(kind: Kind, side: Side, transaction: TransactionId)

  const NO_CONTENTS: map<Kind, Bytes> := map k: Kind | k.Preset? || k.Settings? || k.Bindings? :: []

  /** Live files by kind; an absent file is a kind outside the domain. */
  type Files = map<Kind, Bytes>
  type AllFiles = files: Files | forall k: Kind :: k in files
    witness NO_CONTENTS

  datatype JournalArtifact = JournalArtifact(
    kind: Kind, destination: Kind, oldArtifact: SidecarName, newArtifact: SidecarName,
    oldExisted: bool, oldHash: Digest, newHash: Digest)

  datatype TransactionJournal = TransactionJournal(
    schemaVersion: nat, transactionId: TransactionId, phase: Phase, recoveryTarget: RecoveryTarget,
    sidecarsComplete: bool, activePresetId: string, previousActivePresetId: Option<string>,
    artifacts: seq<JournalArtifact>)

  /** Everything the three directories hold that the protocol names. */
  datatype Disk = Disk(
    live: Files, journal: Option<TransactionJournal>, journalTemps: set<TransactionId>,
    sidecars: map<SidecarName, Bytes>, sidecarTemps: set<SidecarName>)

  /** What one transaction is about: the contents it started from and the contents it wants. */
  datatype Plan = Plan(
    transaction: TransactionId, original: Files, candidate: AllFiles,
    activePresetId: string, previousActivePresetId: Option<string>)

  /** What a caller asks for: to replace the three files by a candidate. */
  datatype Request = Request(transaction: TransactionId, activePresetId: string, candidate: AllFiles)

  /** Answer to a reload request. */
  datatype Reload = RequestFailed | Loaded(failed: bool) | NoEvent

  predicate Confirms(reload: Reload) {
    reload == Loaded(false)
  }

  /** Which contents some process has seen the compositor reload successfully. */
  datatype Seen = Seen(candidateLoaded: bool, originalLoaded: bool)

  datatype Snapshot = Snapshot(disk: Disk, plan: Plan, seen: Seen)

  /** Why the state moved: a durable write, the start of a requested transaction, or a reload answer. */
  datatype Cause = Write | Started(request: Request) | Asked(answer: Reload)

  // ---------------------------------------------------------------- contents of a plan

  function OldBytes(plan: Plan, kind: Kind): Bytes {
    if kind in plan.original then plan.original[kind] else []
  }

  function SideBytes(plan: Plan, kind: Kind, side: Side): Bytes {
    if side == Old then OldBytes(plan, kind) else plan.candidate[kind]
  }

  function TargetFiles(plan: Plan, target: RecoveryTarget): Files {
    if target == Candidate then plan.candidate else plan.original
  }

  function Sidecar(plan: Plan, kind: Kind, side: Side): SidecarName {
    SidecarName(kind, side, plan.transaction)
  }

  function Artifact(plan: Plan, kind: Kind): JournalArtifact {
    JournalArtifact(kind, kind, Sidecar(plan, kind, Old), Sidecar(plan, kind, New),
                    kind in plan.original, Hash(OldBytes(plan, kind)), Hash(plan.candidate[kind]))
  }

  /** The order in which the protocol visits the artifacts. */
  const KINDS := [Preset, Settings, Bindings]

  function Index(kind: Kind): (i: nat)
    ensures i < 3 && KINDS[i] == kind
  {
    match kind
    case Preset => 0
    case Settings => 1
    case Bindings => 2
  }

  /** The journal document of a plan at a given point of the protocol. */
  function JournalOf(plan: Plan, phase: Phase, target: RecoveryTarget, complete: bool): TransactionJournal {
    TransactionJournal(1, plan.transaction, phase, target, complete, plan.activePresetId,
                       plan.previousActivePresetId,
                       [Artifact(plan, Preset), Artifact(plan, Settings), Artifact(plan, Bindings)])
  }

  function PresetIdFor(plan: Plan, target: RecoveryTarget): string {
    if target == Candidate then plan.activePresetId
    else if plan.previousActivePresetId.Some? then plan.previousActivePresetId.value
    else "unknown"
  }

  /** Artifacts whose two hashes agree are verified in place and never written. */
  predicate Noop(plan: Plan, kind: Kind) {
    OldBytes(plan, kind) == plan.candidate[kind]
  }

  /** An absent original and an empty candidate hash alike, yet the in-place check wants a file. */
  predicate Phantom(plan: Plan, kind: Kind) {
    kind !in plan.original && plan.candidate[kind] == []
  }

  ghost predicate Installable(plan: Plan) {
    forall k: Kind :: !Phantom(plan, k)
  }

  predicate Blank(s: string) {
    forall c :: c in s ==> c == ' ' || c == '\t' || c == '\n' || c == '\r'
  }

  // ---------------------------------------------------------------- the invariant

  predicate SameAt(a: Files, b: Files, kind: Kind) {
    (kind in a <==> kind in b) && (kind in a && kind in b ==> a[kind] == b[kind])
  }

  /** Each file is the original one or the candidate one; in-place files keep the original. */
  ghost predicate Mixed(live: Files, plan: Plan) {
    forall k: Kind ::
      SameAt(live, plan.original, k) || (!Noop(plan, k) && SameAt(live, plan.candidate, k))
  }

  ghost predicate GoodSidecars(disk: Disk, plan: Plan) {
    forall k, side ::
      Sidecar(plan, k, side) in disk.sidecars ==>
        disk.sidecars[Sidecar(plan, k, side)] == SideBytes(plan, k, side)
  }

  ghost predicate AllSidecars(disk: Disk, plan: Plan) {
    forall k, side :: Sidecar(plan, k, side) in disk.sidecars
  }

  ghost predicate OnlyOwnSidecars(disk: Disk, plan: Plan) {
    && (forall n :: n in disk.sidecars ==> n.transaction == plan.transaction)
    && (forall n :: n in disk.sidecarTemps ==> n.transaction == plan.transaction)
  }

  ghost predicate AtRest(disk: Disk, plan: Plan) {
    && (disk.live == plan.original || disk.live == plan.candidate)
    && disk.sidecars == map[] && disk.sidecarTemps == {}
  }

  ghost predicate Preparing(disk: Disk, plan: Plan) {
    && disk.live == plan.original
    && OnlyOwnSidecars(disk, plan)
  }

  ghost predicate Switching(disk: Disk, plan: Plan, phase: Phase, target: RecoveryTarget) {
    && Mixed(disk.live, plan)
    && (Rank(phase) >= Rank(BindingsCommitted) && target == Candidate ==> disk.live == plan.candidate)
    && AllSidecars(disk, plan) && GoodSidecars(disk, plan)
    && OnlyOwnSidecars(disk, plan) && disk.sidecarTemps == {}
  }

  ghost predicate Settled(disk: Disk, plan: Plan, seen: Seen, target: RecoveryTarget) {
    && Installable(plan)
    && disk.live == TargetFiles(plan, target)
    && (if target == Candidate then seen.candidateLoaded else seen.originalLoaded)
    && GoodSidecars(disk, plan)
    && OnlyOwnSidecars(disk, plan) && disk.sidecarTemps == {}
  }

  ghost predicate Consistent(s: Snapshot) {
    if s.disk.journal.None? then AtRest(s.disk, s.plan)
    else
      var j := s.disk.journal.value;
      && j == JournalOf(s.plan, j.phase, j.recoveryTarget, j.sidecarsComplete)
      && (if !j.sidecarsComplete then
            j.phase == Prepared && j.recoveryTarget == Candidate && Preparing(s.disk, s.plan)
          else if j.phase != ReloadConfirmed then Switching(s.disk, s.plan, j.phase, j.recoveryTarget)
          else Settled(s.disk, s.plan, s.seen, j.recoveryTarget))
  }

  /** The plan is what the request asks for, starting from the contents found. */
  predicate PlanOf(plan: Plan, request: Request, found: Files) {
    && plan.transaction == request.transaction && plan.activePresetId == request.activePresetId
    && plan.candidate == request.candidate && plan.original == found
  }

  /** A durable write: when it may change live files, the journal or remove it. */
  ghost predicate WriteAllowed(a: Disk, b: Disk) {
    // live files change only while a complete, unconfirmed journal is on disk
    && (a.live != b.live ==>
          && a.journal.Some? && a.journal.value.sidecarsComplete
          && a.journal.value.phase != ReloadConfirmed && a.journal == b.journal)
    // the journal advances, and its recovery target never returns to the candidate
    && (a.journal.Some? && b.journal.Some? ==>
          && Rank(a.journal.value.phase) <= Rank(b.journal.value.phase)
          && (a.journal.value.recoveryTarget == Previous ==> b.journal.value.recoveryTarget == Previous)
          && (a.journal.value.sidecarsComplete ==> b.journal.value.sidecarsComplete))
    // the journal disappears only when nothing was installed or the reload was confirmed
    && (a.journal.Some? && b.journal.None? ==>
          !a.journal.value.sidecarsComplete || a.journal.value.phase == ReloadConfirmed)
    // only a request brings a journal
    && (a.journal.None? ==> b.journal.None?)
  }

  /** What is known to be loaded after an answer: a confirmation is evidence about the live files. */
  function SeenAfter(a: Snapshot, answer: Reload): Seen {
    if Confirms(answer) then
      Seen(a.seen.candidateLoaded || a.disk.live == a.plan.candidate,
           a.seen.originalLoaded || a.disk.live == a.plan.original)
    else a.seen
  }

  /** What may happen between two consecutive states of a run. */
  ghost predicate StepAllowed(a: Snapshot, cause: Cause, b: Snapshot) {
    match cause
    case Write => b.plan == a.plan && b.seen == a.seen && WriteAllowed(a.disk, b.disk)
    case Started(request) =>
      // a transaction starts at rest, records the contents it finds and writes no file yet
      && a.disk.journal.None? && b.disk.journal.Some? && b.disk.live == a.disk.live
      && PlanOf(b.plan, request, a.disk.live) && b.seen == Seen(false, false)
    case Asked(answer) => b == a.(seen := SeenAfter(a, answer))
  }

  /** The states of a run, each with the reason for which it was reached. */
  datatype History = Start(now: Snapshot) | Then(before: History, cause: Cause, now: Snapshot)

  /** Each state is consistent and follows from the one before. */
  ghost predicate Recorded(history: History) {
    && Consistent(history.now)
    && (history.Start? ==> history.now.seen == Seen(false, false))
    && (history.Then? ==>
          StepAllowed(history.before.now, history.cause, history.now) && Recorded(history.before))
  }

  /** `earlier` is a prefix of the run `later`. */
  ghost predicate Continues(later: History, earlier: History) {
    later == earlier || (later.Then? && Continues(later.before, earlier))
  }

  /** The requests whose transactions were started, in order. */
  ghost function Requests(history: History): seq<Request> {
    if history.Start? then []
    else Requests(history.before) + if history.cause.Started? then [history.cause.request] else []
  }

  /** The answers of the compositor, in order. */
  ghost function Answers(history: History): seq<Reload> {
    if history.Start? then []
    else Answers(history.before) + if history.cause.Asked? then [history.cause.answer] else []
  }

  lemma {:induction false} PrefixesContinue(later: History, middle: History, earlier: History)
    requires Continues(later, middle) && Continues(middle, earlier)
    ensures Continues(later, earlier)
  {
    if later != middle {
      PrefixesContinue(later.before, middle, earlier);
    }
  }

  /**
    All or nothing: when no journal remains, the three files are together what the run found or
    together the candidate of the one request it started, absent files included, and no sidecar is
    left; while a journal remains it still knows what the run found and what was requested.
   */
  lemma {:induction false} AllOrNothing(later: History, earlier: History)
    requires Recorded(later) && Continues(later, earlier) && earlier.now.disk.journal.None?
    requires |Requests(later)| <= |Requests(earlier)| + 1
    ensures Requests(earlier) <= Requests(later)
    ensures var s, started := later.now, |Requests(later)| > |Requests(earlier)|;
            && (s.disk.journal.None? ==>
                  && (|| s.disk.live == earlier.now.disk.live
                      || (started && s.disk.live == Requests(later)[|Requests(earlier)|].candidate))
                  && s.disk.sidecars == map[] && s.disk.sidecarTemps == {})
            && (s.disk.journal.Some? ==> started)
            && (started ==> PlanOf(s.plan, Requests(later)[|Requests(earlier)|], earlier.now.disk.live))
            && (!started ==> s.disk.live == earlier.now.disk.live)
  {
    if later != earlier {
      assert Requests(later.before) <= Requests(later);
      RequestsOnlyGrow(later.before, earlier);
      AllOrNothing(later.before, earlier);
    }
  }

  lemma {:induction false} RequestsOnlyGrow(later: History, earlier: History)
    requires Continues(later, earlier)
    ensures Requests(earlier) <= Requests(later)
  {
    if later != earlier {
      RequestsOnlyGrow(later.before, earlier);
    }
  }

  /** The files are those a run started from, or the candidate of a request. */
  predicate Known(files: Files, start: Files, requests: seq<Request>) {
    files == start || exists i :: 0 <= i < |requests| && files == requests[i].candidate
  }

  lemma KnownLonger(files: Files, start: Files, requests: seq<Request>, request: Request)
    requires Known(files, start, requests)
    ensures Known(files, start, requests + [request])
  {
    if files != start {
      var i :| 0 <= i < |requests| && files == requests[i].candidate;
      assert (requests + [request])[i].candidate == files;
    }
  }

  /** Where the files come from: at rest they are known, and a journal belongs to the latest request. */
  ghost predicate Anchored(s: Snapshot, start: Files, requests: seq<Request>) {
    && (s.disk.journal.None? ==> Known(s.disk.live, start, requests))
    && (if requests == [] then s.disk.journal.None? && s.disk.live == start
        else Known(s.plan.original, start, requests) && PlanOf(s.plan, requests[|requests| - 1], s.plan.original))
  }

  lemma WritesKeepAnchored(a: Snapshot, b: Snapshot, start: Files, requests: seq<Request>)
    requires Anchored(a, start, requests) && Consistent(b) && StepAllowed(a, Write, b)
    ensures Anchored(b, start, requests)
  {
    if b.disk.journal.None? && a.disk.journal.Some? {
      assert AtRest(b.disk, a.plan);
      assert requests[|requests| - 1].candidate == a.plan.candidate;
    }
  }

  lemma StartsKeepAnchored(a: Snapshot, request: Request, b: Snapshot, start: Files, requests: seq<Request>)
    requires Anchored(a, start, requests) && StepAllowed(a, Started(request), b)
    ensures Anchored(b, start, requests + [request])
  {
    KnownLonger(a.disk.live, start, requests, request);
  }

  /**
    Over any number of transactions: at rest the three files are together what the run started from or
    together some requested candidate, and a journal always belongs to the latest request.
   */
  lemma {:induction false} RestIsKnown(history: History, origin: History)
    requires Recorded(history) && Continues(history, origin)
    requires origin.Start? && origin.now.disk.journal.None?
    ensures Anchored(history.now, origin.now.disk.live, Requests(history))
  {
    if history != origin {
      RestIsKnown(history.before, origin);
      var a, b, start, requests := history.before.now, history.now, origin.now.disk.live, Requests(history.before);
      assert !history.cause.Started? ==> Requests(history) == requests;
      match history.cause
      case Write =>
        WritesKeepAnchored(a, b, start, requests);
      case Started(request) =>
        StartsKeepAnchored(a, request, b, start, requests);
      case Asked(answer) =>
        assert b.disk == a.disk && b.plan == a.plan;
    }
  }

  /** Since the latest transaction started, a reload was confirmed while these were the live files. */
  ghost predicate SawReload(history: History, files: Files) {
    && history.Then?
    && (|| (history.cause.Asked? && Confirms(history.cause.answer) && history.now.disk.live == files)
        || (!history.cause.Started? && SawReload(history.before, files)))
  }

  /** What counts as loaded was confirmed by an answer while all three files were on that side. */
  lemma {:induction false} LoadedWasConfirmed(history: History)
    requires Recorded(history)
    ensures history.now.seen.candidateLoaded <==> SawReload(history, history.now.plan.candidate)
    ensures history.now.seen.originalLoaded <==> SawReload(history, history.now.plan.original)
  {
    if history.Then? {
      LoadedWasConfirmed(history.before);
    }
  }

  /** A sidecar or a publication temporary exists only while a journal on disk names it. */
  lemma SidecarsAreNamed(s: Snapshot, name: SidecarName)
    requires Consistent(s) && (name in s.disk.sidecars || name in s.disk.sidecarTemps)
    ensures s.disk.journal.Some?
    ensures exists i :: 0 <= i < |s.disk.journal.value.artifacts|
                        && (s.disk.journal.value.artifacts[i].oldArtifact == name
                            || s.disk.journal.value.artifacts[i].newArtifact == name)
  {
    SidesAreTwo(s.plan, name);
    assert s.disk.journal.value.artifacts[Index(name.kind)] == Artifact(s.plan, name.kind);
  }

  /** Candidates without an empty file can always be installed, whatever was there before. */
  lemma FullCandidatesAreInstallable(plan: Plan)
    requires forall k: Kind :: plan.candidate[k] != []
    ensures Installable(plan)
  {
  }

  /** Between two points of one transaction, its recovery target can only turn to the previous state. */
  lemma {:induction false} RecoveryTargetOnlyTurnsBack(later: History, earlier: History)
    requires Recorded(later) && Continues(later, earlier)
    requires Requests(later) == Requests(earlier)
    requires earlier.now.disk.journal.Some? && later.now.disk.journal.Some?
    ensures earlier.now.disk.journal.value.recoveryTarget == Previous ==>
              later.now.disk.journal.value.recoveryTarget == Previous
    ensures Rank(earlier.now.disk.journal.value.phase) <= Rank(later.now.disk.journal.value.phase)
    ensures later.now.plan == earlier.now.plan
  {
    if later != earlier {
      RequestsOnlyGrow(later.before, earlier);
      RecoveryTargetOnlyTurnsBack(later.before, earlier);
    }
  }

  /**
    A complete journal of a plan that cannot be installed stays for good: whatever happens, it is
    neither finished nor undone, and each file stays the original or the candidate one.
   */
  lemma {:induction false} StuckForGood(later: History, earlier: History)
    requires Recorded(later) && Continues(later, earlier)
    requires earlier.now.disk.journal.Some? && earlier.now.disk.journal.value.sidecarsComplete
    requires !Installable(earlier.now.plan)
    ensures later.now.disk.journal.Some? && later.now.disk.journal.value.sidecarsComplete
    ensures later.now.plan == earlier.now.plan && Requests(later) == Requests(earlier)
    ensures later.now.disk.journal.value.phase != ReloadConfirmed && Mixed(later.now.disk.live, later.now.plan)
  {
    if later != earlier {
      StuckForGood(later.before, earlier);
    }
  }

  // ---------------------------------------------------------------- validation on load

  function ArtifactsOfKind(artifacts: seq<JournalArtifact>, kind: Kind): seq<JournalArtifact> {
    if artifacts == [] then []
    else (if artifacts[0].kind == kind then [artifacts[0]] else []) + ArtifactsOfKind(artifacts[1..], kind)
  }

  predicate SidecarAccepted(disk: Disk, journal: TransactionJournal, name: SidecarName, expected: Digest) {
    if name !in disk.sidecars then journal.phase == ReloadConfirmed
    else Hash(disk.sidecars[name]) == expected
  }

  predicate ArtifactAccepted(disk: Disk, journal: TransactionJournal, kind: Kind) {
    var matches := ArtifactsOfKind(journal.artifacts, kind);
    && |matches| == 1
    && matches[0].destination == kind
    && matches[0].oldArtifact == SidecarName(kind, Old, journal.transactionId)
    && matches[0].newArtifact == SidecarName(kind, New, journal.transactionId)
    && (journal.sidecarsComplete ==>
          && SidecarAccepted(disk, journal, matches[0].oldArtifact, matches[0].oldHash)
          && SidecarAccepted(disk, journal, matches[0].newArtifact, matches[0].newHash))
  }

  /** The checks a journal has to pass before reconciliation acts on it. */
  predicate JournalAccepted(disk: Disk, journal: TransactionJournal) {
    && journal.schemaVersion == 1
    && !Blank(journal.activePresetId)
    && |journal.artifacts| == 3
    && ArtifactAccepted(disk, journal, Preset)
    && ArtifactAccepted(disk, journal, Settings)
    && ArtifactAccepted(disk, journal, Bindings)
  }

  lemma ArtifactsOfJournal(plan: Plan, phase: Phase, target: RecoveryTarget, complete: bool, kind: Kind)
    ensures ArtifactsOfKind(JournalOf(plan, phase, target, complete).artifacts, kind) == [Artifact(plan, kind)]
  {
    var a := JournalOf(plan, phase, target, complete).artifacts;
    assert a[1..] == [Artifact(plan, Settings), Artifact(plan, Bindings)];
    assert a[1..][1..] == [Artifact(plan, Bindings)];
    assert a[1..][1..][1..] == [];
    assert ArtifactsOfKind(a[1..][1..], kind) == if kind == Bindings then [Artifact(plan, kind)] else [];
    assert ArtifactsOfKind(a[1..], kind) == if kind == Preset then [] else [Artifact(plan, kind)];
  }

  /**
    Every journal that a cut can leave behind passes validation, exactly when the transaction was
    given a preset id that is not blank.
   */
  lemma ReachableJournalsLoad(s: Snapshot)
    requires Consistent(s) && s.disk.journal.Some?
    ensures JournalAccepted(s.disk, s.disk.journal.value) <==> !Blank(s.plan.activePresetId)
  {
    var j := s.disk.journal.value;
    forall k: Kind ensures ArtifactAccepted(s.disk, j, k) {
      ArtifactsOfJournal(s.plan, j.phase, j.recoveryTarget, j.sidecarsComplete, k);
      var a := Artifact(s.plan, k);
      assert a.oldArtifact == Sidecar(s.plan, k, Old) && a.newArtifact == Sidecar(s.plan, k, New);
    }
  }

  // ---------------------------------------------------------------- single steps keep the invariant

  /** Publishing the journal turns the contents at rest into the original of a new transaction. */
  lemma PublicationStarts(s: Snapshot, request: Request, plan: Plan, temps: set<TransactionId>)
    requires Consistent(s) && s.disk.journal.None?
    requires PlanOf(plan, request, s.disk.live)
    ensures var journal := JournalOf(plan, Prepared, Candidate, false);
            var b := Snapshot(s.disk.(journalTemps := temps, journal := Some(journal)), plan, Seen(false, false));
            Consistent(b) && StepAllowed(s, Started(request), b)
  {
  }

  /** Once all six sidecars are in place the journal may promise them. */
  lemma CompletionKeepsConsistent(s: Snapshot)
    requires Consistent(s) && s.disk.journal == Some(JournalOf(s.plan, Prepared, Candidate, false))
    requires AllSidecars(s.disk, s.plan) && GoodSidecars(s.disk, s.plan) && s.disk.sidecarTemps == {}
    ensures var b := s.(disk := s.disk.(journal := Some(JournalOf(s.plan, Prepared, Candidate, true))));
            Consistent(b) && StepAllowed(s, Write, b)
  {
    assert forall k: Kind :: SameAt(s.disk.live, s.plan.original, k);
  }

  /** What has to be true of the live files before the journal may claim a phase. */
  ghost predicate MayClaim(s: Snapshot, phase: Phase, target: RecoveryTarget) {
    match phase
    case ReloadConfirmed =>
      Installable(s.plan) && s.disk.live == TargetFiles(s.plan, target)
      && (if target == Candidate then s.seen.candidateLoaded else s.seen.originalLoaded)
    case BindingsCommitted => target == Candidate ==> s.disk.live == s.plan.candidate
    case ReloadPending => target == Candidate ==> s.disk.live == s.plan.candidate
    case _ => true
  }

  lemma PhaseKeepsConsistent(s: Snapshot, phase: Phase)
    requires Consistent(s) && s.disk.journal.Some?
    requires var j := s.disk.journal.value;
             j.sidecarsComplete && j.phase != ReloadConfirmed && Rank(j.phase) <= Rank(phase)
             && MayClaim(s, phase, j.recoveryTarget)
    ensures var b := s.(disk := s.disk.(journal := Some(s.disk.journal.value.(phase := phase))));
            Consistent(b) && StepAllowed(s, Write, b)
  {
  }

  lemma SidesAreTwo(plan: Plan, name: SidecarName)
    requires name.transaction == plan.transaction
    ensures name == Sidecar(plan, name.kind, Old) || name == Sidecar(plan, name.kind, New)
  {
    assert name.side == Old || name.side == New;
  }

  /** The sidecars of the first `count` kinds, and no others, are published with their contents. */
  ghost predicate PublishedUpTo(disk: Disk, plan: Plan, count: nat) {
    && (forall n :: n in disk.sidecars ==> n.transaction == plan.transaction && Index(n.kind) < count)
    && (forall k, side :: Index(k) < count ==> Sidecar(plan, k, side) in disk.sidecars)
    && GoodSidecars(disk, plan)
  }

  lemma PublishingAdvances(before: Disk, after: Disk, plan: Plan, kind: Kind)
    requires PublishedUpTo(before, plan, Index(kind))
    requires after.sidecars == before.sidecars[Sidecar(plan, kind, Old) := SideBytes(plan, kind, Old)]
                                              [Sidecar(plan, kind, New) := SideBytes(plan, kind, New)]
    ensures PublishedUpTo(after, plan, Index(kind) + 1)
  {
    forall k, side | Index(k) < Index(kind) + 1 ensures Sidecar(plan, k, side) in after.sidecars {
      SidesAreTwo(plan, Sidecar(plan, k, side));
      assert k == KINDS[Index(k)];
    }
  }

  /** An untouched artifact passes the in-place check exactly when it is not a phantom. */
  lemma NoopContents(live: Files, plan: Plan, kind: Kind)
    requires Mixed(live, plan)
    ensures Noop(plan, kind) ==>
              && SameAt(live, plan.original, kind)
              && (Phantom(plan, kind) <==> !(kind in live && live[kind] == OldBytes(plan, kind)))
              && (!Phantom(plan, kind) ==> SameAt(live, plan.candidate, kind))
    ensures Phantom(plan, kind) ==> Noop(plan, kind)
  {
    assert SameAt(live, plan.original, kind) || (!Noop(plan, kind) && SameAt(live, plan.candidate, kind));
  }

  /** Replacing one live file by the target's contents, as one atomic rename or removal. */
  function WithFile(live: Files, plan: Plan, target: RecoveryTarget, kind: Kind): Files {
    if kind in TargetFiles(plan, target) then live[kind := TargetFiles(plan, target)[kind]]
    else map k | k in live && k != kind :: live[k]
  }

  lemma InstallKeepsConsistent(s: Snapshot, target: RecoveryTarget, kind: Kind)
    requires Consistent(s) && s.disk.journal.Some?
    requires s.disk.journal.value.sidecarsComplete && s.disk.journal.value.phase != ReloadConfirmed
    requires target == Candidate || Rank(s.disk.journal.value.phase) < Rank(BindingsCommitted)
             || s.disk.journal.value.recoveryTarget == Previous
    requires !Noop(s.plan, kind)
    ensures var b := s.(disk := s.disk.(live := WithFile(s.disk.live, s.plan, target, kind)));
            Consistent(b) && StepAllowed(s, Write, b)
  {
    var live := WithFile(s.disk.live, s.plan, target, kind);
    assert Mixed(live, s.plan) by {
      forall k: Kind
        ensures SameAt(live, s.plan.original, k) || (!Noop(s.plan, k) && SameAt(live, s.plan.candidate, k))
      {
        assert SameAt(live, if k == kind then TargetFiles(s.plan, target) else s.disk.live, k);
        assert SameAt(s.disk.live, s.plan.original, k)
               || (!Noop(s.plan, k) && SameAt(s.disk.live, s.plan.candidate, k));
      }
    }
    var j := s.disk.journal.value;
    if Rank(j.phase) >= Rank(BindingsCommitted) && j.recoveryTarget == Candidate {
      assert live == s.plan.candidate;
    }
  }

  /** Losing sidecars or temporaries is harmless before installation and after confirmation. */
  lemma RemovalKeepsConsistent(s: Snapshot, sidecars: map<SidecarName, Bytes>, temps: set<SidecarName>)
    requires Consistent(s) && s.disk.journal.Some?
    requires !s.disk.journal.value.sidecarsComplete || s.disk.journal.value.phase == ReloadConfirmed
    requires forall n :: n in sidecars ==> n in s.disk.sidecars && sidecars[n] == s.disk.sidecars[n]
    requires temps <= s.disk.sidecarTemps
    ensures var b := s.(disk := s.disk.(sidecars := sidecars, sidecarTemps := temps));
            Consistent(b) && StepAllowed(s, Write, b)
  {
  }

  lemma FilesEqual(a: Files, b: Files)
    requires forall k: Kind :: SameAt(a, b, k)
    ensures a == b
  {
    forall k: Kind ensures (k in a <==> k in b) && (k in a ==> a[k] == b[k]) {
      assert SameAt(a, b, k);
    }
    assert a.Keys == b.Keys;
  }

  lemma ThreeFilesEqual(a: Files, b: Files)
    requires SameAt(a, b, Preset) && SameAt(a, b, Settings) && SameAt(a, b, Bindings)
    ensures a == b
  {
    forall k: Kind ensures SameAt(a, b, k) {
      assert k == Preset || k == Settings || k == Bindings;
    }
    FilesEqual(a, b);
  }
}
