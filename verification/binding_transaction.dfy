/**
  The processes that run the keybinding transaction.  `budget` is the number of durable steps the
  machine still performs before it is cut; a process that finds it exhausted stops where it is.
  A storage error has the same effect, because every error is returned without further writes.
  The reloader and its event streams answer arbitrarily.
 */
module BindingTransaction {
  import opened Wrappers
  import opened BindingModel

  datatype ErrorCode =
    | TransactionInProgress | InvalidJournal | ConcurrentStateChange | Conflict | ReloadFailed | NiriUnavailable

  /** How a part of the protocol ended: completely, at the cut, or with an error. */
  datatype Step = Done | Cut | Refused(code: ErrorCode)

  datatype Status = ReloadIsPending | Committed | RolledBackConfirmed | CommitStateUnknown

  datatype Outcome =
    | Interrupted
    | Failed(code: ErrorCode)
    | NothingToReconcile
    | Report(status: Status, activePresetId: string)

  /** Answer to a subscription: an error, no running compositor, or a stream and its first snapshot. */
  datatype Subscription = Unavailable | Offline | Attached(initialSnapshot: bool)

  datatype Environment = Environment(
    first: Subscription, firstReload: Reload, second: Subscription, secondReload: Reload)

  datatype Command =
    | ApplyCandidate(transaction: TransactionId, activePresetId: string, candidate: AllFiles)
    | ReconcileBindings(onlineRequired: bool)

  /** One process: what it is asked, how far it gets and what the compositor answers. */
  datatype Process = Process(command: Command, budget: nat, environment: Environment)

  function StatusFor(target: RecoveryTarget): Status {
    if target == Candidate then Committed else RolledBackConfirmed
  }

  /** Only an attached stream whose first snapshot arrived can confirm a rollback. */
  predicate Usable(subscription: Subscription) {
    subscription == Attached(true)
  }

  /** How an installed candidate ends, given the compositor's answers. */
  function Settlement(env: Environment): Status {
    if env.first == Offline then ReloadIsPending
    else if Confirms(env.firstReload) then Committed
    else if Usable(env.second) && Confirms(env.secondReload) then RolledBackConfirmed
    else CommitStateUnknown
  }

  /** What each report says about the durable state and about what the compositor has loaded. */
  ghost predicate Reported(h: History, out: Outcome)
    requires out.Report?
  {
    var disk, plan := h.now.disk, h.now.plan;
    match out.status
    case Committed =>
      disk.journal.None? && disk.live == plan.candidate && SawReload(h, plan.candidate)
      && out.activePresetId == PresetIdFor(plan, Candidate)
    case RolledBackConfirmed =>
      disk.journal.None? && disk.live == plan.original && SawReload(h, plan.original)
      && out.activePresetId == PresetIdFor(plan, Previous)
    case CommitStateUnknown =>
      disk.journal == Some(JournalOf(plan, ReloadPending, Previous, true)) && disk.live == plan.original
      && out.activePresetId == PresetIdFor(plan, Previous)
    case ReloadIsPending =>
      && disk.journal.Some? && var target := disk.journal.value.recoveryTarget;
         && disk.journal == Some(JournalOf(plan, ReloadPending, target, true))
         && disk.live == TargetFiles(plan, target)
         && out.activePresetId == PresetIdFor(plan, target)
  }

  /** The candidate files are live and their preset is reported. */
  predicate CandidateStands(plan: Plan, disk: Disk, out: Outcome)
    requires out.Report?
  {
    disk.live == plan.candidate && out.activePresetId == plan.activePresetId
  }

  /** The files found are live again and the preset they named is reported, if they named one. */
  predicate PreviousStands(plan: Plan, disk: Disk, out: Outcome)
    requires out.Report?
  {
    && disk.live == plan.original
    && (plan.previousActivePresetId.Some? ==> out.activePresetId == plan.previousActivePresetId.value)
    && (plan.previousActivePresetId.None? ==> out.activePresetId == "unknown")
  }

  /** An installed candidate is settled: kept unless its reload fails and the files found are put back. */
  predicate CandidateSettled(plan: Plan, env: Environment, disk: Disk, out: Outcome)
    requires out.Report?
  {
    && out.status == Settlement(env)
    && (if out.status in {Committed, ReloadIsPending} then CandidateStands(plan, disk, out)
        else PreviousStands(plan, disk, out))
  }

  /** The files found are put back, whatever the compositor makes of them. */
  predicate PreviousSettled(plan: Plan, env: Environment, disk: Disk, out: Outcome)
    requires out.Report?
  {
    && out.status == (if env.first == Offline then ReloadIsPending
                      else if Confirms(env.firstReload) then RolledBackConfirmed
                      else CommitStateUnknown)
    && PreviousStands(plan, disk, out)
  }

  /** Where reconciling a complete journal ends, read off the journal as it was found. */
  ghost predicate Concluded(found: TransactionJournal, plan: Plan, env: Environment, disk: Disk, out: Outcome)
    requires out.Report?
  {
    // a confirmation that was already recorded is reported for its own side
    if found.phase == ReloadConfirmed then
      if found.recoveryTarget == Candidate
      then out.status == Committed && CandidateStands(plan, disk, out)
      else out.status == RolledBackConfirmed && PreviousStands(plan, disk, out)
    // an installed candidate that was not turned back is settled like a fresh one
    else if found.phase in {BindingsCommitted, ReloadPending} && found.recoveryTarget == Candidate
    then CandidateSettled(plan, env, disk, out)
    // anything else goes back to the files found
    else PreviousSettled(plan, env, disk, out)
  }

  /** The compositor is not there in the way a reconcile needs it. */
  predicate OutOfReach(onlineRequired: bool, subscription: Subscription) {
    !Usable(subscription) && (onlineRequired || subscription != Offline)
  }

  /** A process hears at most its first answer and then its second one. */
  predicate Heard(before: seq<Reload>, after: seq<Reload>, env: Environment) {
    || after == before
    || after == before + [env.firstReload]
    || after == before + [env.firstReload, env.secondReload]
  }

  /** No empty file is asked for where there was none. */
  predicate NothingMissing(found: Files, candidate: AllFiles) {
    forall k: Kind :: k in found || candidate[k] != []
  }

  lemma InstallableIsNothingMissing(plan: Plan)
    ensures Installable(plan) <==> NothingMissing(plan.original, plan.candidate)
  {
    assert forall k: Kind :: Phantom(plan, k) <==> !(k in plan.original || plan.candidate[k] != []);
  }

  /** No sidecar or temporary of a kind is left. */
  ghost predicate NoneOf(disk: Disk, kind: Kind) {
    forall n :: n in disk.sidecars || n in disk.sidecarTemps ==> n.kind != kind
  }

  /** None of the first `count` kinds is left. */
  ghost predicate NoneBelow(disk: Disk, count: nat) {
    forall n :: n in disk.sidecars || n in disk.sidecarTemps ==> Index(n.kind) >= count
  }

  lemma OnlyOwnAreGone(disk: Disk, plan: Plan, kind: Kind, ok: bool)
    requires OnlyOwnSidecars(disk, plan)
    requires ok ==> Sidecar(plan, kind, Old) !in disk.sidecars && Sidecar(plan, kind, New) !in disk.sidecars
    requires ok ==> Sidecar(plan, kind, Old) !in disk.sidecarTemps && Sidecar(plan, kind, New) !in disk.sidecarTemps
    ensures ok ==> NoneOf(disk, kind)
  {
    forall n | ok && (n in disk.sidecars || n in disk.sidecarTemps) ensures n.kind != kind {
      SidesAreTwo(plan, n);
    }
  }

  lemma OneKindLess(before: Disk, after: Disk, kind: Kind)
    requires NoneBelow(before, Index(kind)) && NoneOf(after, kind)
    requires after.sidecars.Keys <= before.sidecars.Keys && after.sidecarTemps <= before.sidecarTemps
    ensures NoneBelow(after, Index(kind) + 1)
  {
    forall n | n in after.sidecars || n in after.sidecarTemps ensures Index(n.kind) >= Index(kind) + 1 {
      assert n in before.sidecars || n in before.sidecarTemps;
      assert n.kind == KINDS[Index(n.kind)] && kind == KINDS[Index(kind)];
    }
  }

  /** The first `count` kinds of live files are on the target side. */
  ghost predicate InstalledUpTo(live: Files, plan: Plan, target: RecoveryTarget, count: nat) {
    forall k: Kind :: Index(k) < count ==> SameAt(live, TargetFiles(plan, target), k)
  }

  lemma OneMoreInstalled(before: Files, after: Files, plan: Plan, target: RecoveryTarget, kind: Kind)
    requires InstalledUpTo(before, plan, target, Index(kind))
    requires SameAt(after, TargetFiles(plan, target), kind)
    requires forall k: Kind :: k != kind ==> SameAt(after, before, k)
    ensures InstalledUpTo(after, plan, target, Index(kind) + 1)
  {
    forall k: Kind | Index(k) < Index(kind) + 1 ensures SameAt(after, TargetFiles(plan, target), k) {
      assert k == KINDS[Index(k)];
      assert k != kind ==> SameAt(after, before, k);
    }
  }

  lemma AllInstalled(live: Files, plan: Plan, target: RecoveryTarget)
    requires InstalledUpTo(live, plan, target, 3)
    ensures live == TargetFiles(plan, target)
  {
    forall k: Kind ensures SameAt(live, TargetFiles(plan, target), k) {
      assert Index(k) < 3;
    }
    FilesEqual(live, TargetFiles(plan, target));
  }

  lemma HeardBoth(before: seq<Reload>, env: Environment)
    ensures before + [env.firstReload] + [env.secondReload] == before + [env.firstReload, env.secondReload]
  {
  }

  class BindingStore {
    const presetIdOf: Bytes -> Option<string>

    var disk: Disk
    var budget: nat
    /** The process's own copy of the journal. */
    var journal: TransactionJournal

    ghost var plan: Plan
    ghost var seen: Seen
    /** Every state so far, the requests that were started and the answers that were heard. */
    ghost var history: History
    ghost var requested: seq<Request>
    ghost var asked: seq<Reload>
    /** A point the run has passed, by which it can be seen that the history only grows. */
    ghost var origin: History

    ghost function Now(): Snapshot
      reads this
    {
      Snapshot(disk, plan, seen)
    }

    ghost predicate Valid()
      reads this
    {
      && Recorded(history) && history.now == Now() && Continues(history, origin)
      && requested == Requests(history) && asked == Answers(history)
    }

    /** The plan is the requested one, and remembers which preset the settings found named. */
    ghost predicate Planned(request: Request, found: Files)
      reads this
    {
      && PlanOf(plan, request, found)
      && (Settings in found ==> plan.previousActivePresetId == presetIdOf(found[Settings]))
      && (Settings !in found ==> plan.previousActivePresetId == None)
    }

    /** The process's journal is the one on disk, at the given point of the protocol. */
    ghost predicate Holds(phase: Phase, target: RecoveryTarget, complete: bool)
      reads this
    {
      disk.journal == Some(journal) && journal == JournalOf(plan, phase, target, complete)
    }

    /** A complete journal whose reload is still unconfirmed. */
    ghost predicate Open(phase: Phase, target: RecoveryTarget)
      reads this
    {
      Valid() && Holds(phase, target, true) && phase != ReloadConfirmed
    }

    constructor (live: Files, journalTemps: set<TransactionId>, presetIdOf: Bytes -> Option<string>)
      ensures Valid()
      ensures disk == Disk(live, None, journalTemps, map[], {})
      ensures history == origin && requested == [] && asked == []
    {
      this.presetIdOf := presetIdOf;
      disk := Disk(live, None, journalTemps, map[], {});
      budget := 0;
      var start := Plan(0, live, NO_CONTENTS, "", None);
      journal := JournalOf(start, Prepared, Candidate, false);
      plan := start;
      seen := Seen(false, false);
      requested, asked := [], [];
      origin := Start(Snapshot(Disk(live, None, journalTemps, map[], {}), start, Seen(false, false)));
      history := Start(Snapshot(Disk(live, None, journalTemps, map[], {}), start, Seen(false, false)));
    }

    // -------------------------------------------------------------- durable steps

    /** One atomic replacement, rename or removal, unless the machine is cut first. */
    method Durable(next: Disk) returns (ok: bool)
      requires Valid()
      requires Consistent(Now().(disk := next)) && StepAllowed(Now(), Write, Now().(disk := next))
      modifies this`disk, this`budget, this`history
      ensures Valid()
      ensures ok ==> disk == next && budget == old(budget) - 1 && history == Then(old(history), Write, Now())
      ensures !ok ==> disk == old(disk) && history == old(history) && budget == 0 == old(budget)
    {
      if budget == 0 {
        return false;
      }
      budget := budget - 1;
      disk := next;
      history := Then(history, Write, Now());
      return true;
    }

    /** Renames the journal of a new transaction into place, as one durable step. */
    method Begin(next: Disk, ghost request: Request, ghost newPlan: Plan) returns (ok: bool)
      requires Valid()
      requires var b := Snapshot(next, newPlan, Seen(false, false));
               Consistent(b) && StepAllowed(Now(), Started(request), b)
      modifies this`disk, this`budget, this`history, this`plan, this`seen, this`requested
      ensures Valid()
      ensures ok ==> disk == next && plan == newPlan && requested == old(requested) + [request]
      ensures !ok ==> disk == old(disk) && plan == old(plan) && requested == old(requested) && budget == 0
      ensures budget + 1 >= old(budget)
    {
      if budget == 0 {
        return false;
      }
      budget := budget - 1;
      disk, plan, seen := next, newPlan, Seen(false, false);
      history := Then(history, Started(request), Now());
      requested := requested + [request];
      return true;
    }

    method Persist(next: TransactionJournal) returns (step: Step)
      requires Valid()
      requires var b := Now().(disk := disk.(journal := Some(next)));
               Consistent(b) && StepAllowed(Now(), Write, b)
      modifies this`disk, this`budget, this`history, this`journal
      ensures Valid()
      ensures step == Done || step == Cut
      ensures step == Done ==> disk == old(disk).(journal := Some(next)) && journal == next
      ensures step == Cut ==> disk == old(disk) && budget == 0
      ensures budget + 1 >= old(budget)
    {
      journal := next;
      var ok := Durable(disk.(journal := Some(next)));
      return if ok then Done else Cut;
    }

    /** Writes a temporary and renames it to a sidecar name that must still be free. */
    method PublishSidecar(name: SidecarName, bytes: Bytes) returns (step: Step)
      requires Valid() && Holds(Prepared, Candidate, false)
      requires name.transaction == plan.transaction
      modifies this`disk, this`budget, this`history
      ensures Valid()
      ensures name !in old(disk).sidecars && name !in old(disk).sidecarTemps ==> !step.Refused?
      ensures step == Done ==> disk == old(disk).(sidecars := old(disk).sidecars[name := bytes])
      ensures step == Cut ==> budget == 0
      ensures budget + 2 >= old(budget)
    {
      if name in disk.sidecars || name in disk.sidecarTemps {
        return Refused(Conflict);
      }
      var ok := Durable(disk.(sidecarTemps := disk.sidecarTemps + {name}));
      if !ok {
        return Cut;
      }
      ok := Durable(disk.(sidecarTemps := disk.sidecarTemps - {name}, sidecars := disk.sidecars[name := bytes]));
      assert old(disk).sidecarTemps + {name} - {name} == old(disk).sidecarTemps;
      return if ok then Done else Cut;
    }

    // -------------------------------------------------------------- journal

    /** Reads the live files and describes the transaction that would replace them. */
    method DescribeTransaction(transaction: TransactionId, activePresetId: string, candidate: AllFiles)
      returns (initial: TransactionJournal, ghost p: Plan)
      ensures p.transaction == transaction && p.original == disk.live && p.candidate == candidate
      ensures p.activePresetId == activePresetId
      ensures p.previousActivePresetId ==
              if Settings in disk.live then presetIdOf(disk.live[Settings]) else None
      ensures initial == JournalOf(p, Prepared, Candidate, false)
    {
      var live := disk.live;
      var previous := None;
      var artifacts: seq<JournalArtifact> := [];
      for i := 0 to 3
        invariant previous == if i > 1 && Settings in live then presetIdOf(live[Settings]) else None
        invariant |artifacts| == i
        invariant forall n :: 0 <= n < i ==>
                    artifacts[n] == Artifact(Plan(transaction, live, candidate, activePresetId, None), KINDS[n])
      {
        var kind := KINDS[i];
        var contents := if kind in live then live[kind] else [];
        if kind == Settings && kind in live {
          previous := presetIdOf(contents);
        }
        artifacts := artifacts + [JournalArtifact(
                                    kind, kind,
                                    SidecarName(kind, Old, transaction), SidecarName(kind, New, transaction),
                                    kind in live, Hash(contents), Hash(candidate[kind]))];
      }
      p := Plan(transaction, live, candidate, activePresetId, previous);
      initial := TransactionJournal(1, transaction, Prepared, Candidate, false, activePresetId, previous, artifacts);
    }

    /** Publishes the journal, then the six sidecars, then marks them complete. */
    method Prepare(transaction: TransactionId, activePresetId: string, candidate: AllFiles) returns (step: Step)
      requires Valid() && disk.journal.None?
      modifies this`disk, this`budget, this`history, this`journal, this`plan, this`seen, this`requested
      ensures Valid()
      ensures || (requested == old(requested) && plan == old(plan)
                  && disk == old(disk).(journalTemps := disk.journalTemps))
              || (requested == old(requested) + [Request(transaction, activePresetId, candidate)]
                  && Planned(Request(transaction, activePresetId, candidate), old(disk).live))
      ensures step == Done ==> requested != old(requested) && Open(Prepared, Candidate) && disk.live == old(disk).live
      ensures step.Refused? <==> transaction in old(disk).journalTemps
      ensures step.Refused? ==> step.code == Conflict && disk == old(disk)
      ensures step == Cut ==> budget == 0
      ensures budget + 15 >= old(budget)
    {
      var live := disk.live;
      step := PublishJournal(transaction, activePresetId, candidate);
      if step != Done {
        return;
      }
      step := PublishSidecars(live, candidate);
      if step != Done {
        return;
      }
      CompletionKeepsConsistent(Now());
      step := Persist(journal.(sidecarsComplete := true));
    }

    /** Describes the transaction and publishes its journal: a temporary, renamed to the journal's name. */
    method PublishJournal(transaction: TransactionId, activePresetId: string, candidate: AllFiles)
      returns (step: Step)
      requires Valid() && disk.journal.None?
      modifies this`disk, this`budget, this`history, this`journal, this`plan, this`seen, this`requested
      ensures Valid() && disk == old(disk).(journalTemps := disk.journalTemps, journal := disk.journal)
      ensures step != Done ==> requested == old(requested) && plan == old(plan) && disk.journal.None?
      ensures step == Done ==>
                && Holds(Prepared, Candidate, false)
                && requested == old(requested) + [Request(transaction, activePresetId, candidate)]
                && Planned(Request(transaction, activePresetId, candidate), disk.live)
      ensures step.Refused? <==> transaction in old(disk).journalTemps
      ensures step.Refused? ==> step.code == Conflict && disk == old(disk)
      ensures step == Cut ==> budget == 0
      ensures budget + 2 >= old(budget)
    {
      var initial, p := DescribeTransaction(transaction, activePresetId, candidate);
      if transaction in disk.journalTemps {
        return Refused(Conflict);
      }
      var ok := Durable(disk.(journalTemps := disk.journalTemps + {transaction}));
      if !ok {
        return Cut;
      }
      journal := initial;
      ghost var request := Request(transaction, activePresetId, candidate);
      PublicationStarts(Now(), request, p, disk.journalTemps - {transaction});
      ok := Begin(disk.(journalTemps := disk.journalTemps - {transaction}, journal := Some(journal)), request, p);
      return if ok then Done else Cut;
    }

    /** Publishes the old and the new sidecar of one artifact. */
    method PublishArtifact(i: nat, live: Files, candidate: AllFiles) returns (step: Step)
      requires i < 3 && Valid() && Holds(Prepared, Candidate, false)
      requires plan.original == live && plan.candidate == candidate
      requires PublishedUpTo(disk, plan, i) && disk.sidecarTemps == {}
      modifies this`disk, this`budget, this`history
      ensures Valid()
      ensures step == Done || step == Cut
      ensures step == Done ==> disk == old(disk).(sidecars := disk.sidecars) && PublishedUpTo(disk, plan, i + 1)
      ensures step == Cut ==> budget == 0
      ensures budget + 4 >= old(budget)
    {
      var a := journal.artifacts[i];
      assert a == Artifact(plan, KINDS[i]) && Index(a.kind) == i;
      ghost var before := disk;
      step := PublishSidecar(a.oldArtifact, if a.kind in live then live[a.kind] else []);
      if step == Done {
        step := PublishSidecar(a.newArtifact, candidate[a.kind]);
      }
      if step == Done {
        PublishingAdvances(before, disk, plan, a.kind);
      }
    }

    /** Publishes all six sidecars with the contents of their sides. */
    method PublishSidecars(live: Files, candidate: AllFiles) returns (step: Step)
      requires Valid() && Holds(Prepared, Candidate, false)
      requires plan.original == live && plan.candidate == candidate
      requires disk.sidecars == map[] && disk.sidecarTemps == {}
      modifies this`disk, this`budget, this`history
      ensures Valid()
      ensures step == Done || step == Cut
      ensures step == Done ==>
                && disk == old(disk).(sidecars := disk.sidecars)
                && AllSidecars(disk, plan) && GoodSidecars(disk, plan) && OnlyOwnSidecars(disk, plan)
      ensures step == Cut ==> budget == 0
      ensures budget + 12 >= old(budget)
    {
      step := Done;
      for i := 0 to 3
        invariant Valid() && step == Done
        invariant disk == old(disk).(sidecars := disk.sidecars)
        invariant PublishedUpTo(disk, plan, i)
        invariant budget + 4 * i >= old(budget)
      {
        step := PublishArtifact(i, live, candidate);
        if step != Done {
          return;
        }
      }
    }

    method RemoveSidecar(name: SidecarName) returns (ok: bool)
      requires Valid() && disk.journal == Some(journal)
      requires !journal.sidecarsComplete || journal.phase == ReloadConfirmed
      modifies this`disk, this`budget, this`history
      ensures Valid()
      ensures ok ==> disk == old(disk).(sidecars := old(disk).sidecars - {name})
      ensures !ok ==> disk == old(disk) && budget == 0
      ensures budget + 1 >= old(budget)
    {
      RemovalKeepsConsistent(Now(), disk.sidecars - {name}, disk.sidecarTemps);
      ok := Durable(disk.(sidecars := disk.sidecars - {name}));
    }

    method RemoveSidecarTemp(name: SidecarName) returns (ok: bool)
      requires Valid() && disk.journal == Some(journal)
      requires !journal.sidecarsComplete || journal.phase == ReloadConfirmed
      modifies this`disk, this`budget, this`history
      ensures Valid()
      ensures ok ==> disk == old(disk).(sidecarTemps := old(disk).sidecarTemps - {name})
      ensures !ok ==> disk == old(disk) && budget == 0
      ensures budget + 1 >= old(budget)
    {
      RemovalKeepsConsistent(Now(), disk.sidecars, disk.sidecarTemps - {name});
      ok := Durable(disk.(sidecarTemps := disk.sidecarTemps - {name}));
    }

    /** Removes both sidecars and both temporaries of one artifact, present or not. */
    method RemoveArtifact(a: JournalArtifact) returns (ok: bool)
      requires Valid() && disk.journal == Some(journal) && a == Artifact(plan, a.kind)
      requires !journal.sidecarsComplete || journal.phase == ReloadConfirmed
      modifies this`disk, this`budget, this`history
      ensures Valid()
      ensures disk == old(disk).(sidecars := disk.sidecars, sidecarTemps := disk.sidecarTemps)
      ensures disk.sidecars.Keys <= old(disk).sidecars.Keys && disk.sidecarTemps <= old(disk).sidecarTemps
      ensures ok ==> NoneOf(disk, a.kind)
      ensures !ok ==> budget == 0
      ensures budget + 4 >= old(budget)
    {
      ok := RemoveBoth(a);
      if ok {
        ok := RemoveBothTemps(a);
      }
      OnlyOwnAreGone(disk, plan, a.kind, ok);
    }

    method RemoveBoth(a: JournalArtifact) returns (ok: bool)
      requires Valid() && disk.journal == Some(journal) && a == Artifact(plan, a.kind)
      requires !journal.sidecarsComplete || journal.phase == ReloadConfirmed
      modifies this`disk, this`budget, this`history
      ensures Valid()
      ensures disk == old(disk).(sidecars := disk.sidecars) && disk.sidecars.Keys <= old(disk).sidecars.Keys
      ensures ok ==> a.oldArtifact !in disk.sidecars && a.newArtifact !in disk.sidecars
      ensures !ok ==> budget == 0
      ensures budget + 2 >= old(budget)
    {
      ok := RemoveSidecar(a.oldArtifact);
      if ok {
        ok := RemoveSidecar(a.newArtifact);
      }
    }

    method RemoveBothTemps(a: JournalArtifact) returns (ok: bool)
      requires Valid() && disk.journal == Some(journal) && a == Artifact(plan, a.kind)
      requires !journal.sidecarsComplete || journal.phase == ReloadConfirmed
      modifies this`disk, this`budget, this`history
      ensures Valid()
      ensures disk == old(disk).(sidecarTemps := disk.sidecarTemps) && disk.sidecarTemps <= old(disk).sidecarTemps
      ensures ok ==> a.oldArtifact !in disk.sidecarTemps && a.newArtifact !in disk.sidecarTemps
      ensures !ok ==> budget == 0
      ensures budget + 2 >= old(budget)
    {
      ok := RemoveSidecarTemp(a.oldArtifact);
      if ok {
        ok := RemoveSidecarTemp(a.newArtifact);
      }
    }

    method RemoveSidecars() returns (ok: bool)
      requires Valid() && disk.journal == Some(journal)
      requires !journal.sidecarsComplete || journal.phase == ReloadConfirmed
      modifies this`disk, this`budget, this`history
      ensures Valid()
      ensures disk == old(disk).(sidecars := disk.sidecars, sidecarTemps := disk.sidecarTemps)
      ensures ok ==> disk.sidecars == map[] && disk.sidecarTemps == {}
      ensures !ok ==> budget == 0
      ensures budget + 12 >= old(budget)
    {
      ok := true;
      for i := 0 to 3
        invariant Valid()
        invariant disk == old(disk).(sidecars := disk.sidecars, sidecarTemps := disk.sidecarTemps)
        invariant NoneBelow(disk, i)
        invariant budget + 4 * i >= old(budget)
      {
        var a := journal.artifacts[i];
        assert a == Artifact(plan, KINDS[i]) && Index(a.kind) == i;
        ghost var before := disk;
        ok := RemoveArtifact(a);
        if !ok {
          return;
        }
        OneKindLess(before, disk, a.kind);
      }
      assert disk.sidecars == map[] && disk.sidecarTemps == {};
    }

    /** Removes sidecars and temporaries kind by kind, and the journal last. */
    method Cleanup() returns (step: Step)
      requires Valid() && disk.journal == Some(journal)
      requires !journal.sidecarsComplete || journal.phase == ReloadConfirmed
      modifies this`disk, this`budget, this`history
      ensures Valid()
      ensures disk.live == old(disk).live
      ensures step == Done || step == Cut
      ensures step == Done ==>
                disk == old(disk).(journal := None, sidecars := map[], sidecarTemps := {})
      ensures step == Cut ==> budget == 0
      ensures budget + 13 >= old(budget)
    {
      var ok := RemoveSidecars();
      if ok {
        ok := Durable(disk.(journal := None));
      }
      step := if ok then Done else Cut;
    }

    method SetPhase(phase: Phase) returns (step: Step)
      requires Open(journal.phase, journal.recoveryTarget)
      requires Rank(journal.phase) <= Rank(phase) && MayClaim(Now(), phase, journal.recoveryTarget)
      modifies this`disk, this`budget, this`history, this`journal
      ensures Valid()
      ensures step == Done || step == Cut
      ensures step == Done ==>
                disk == old(disk).(journal := Some(journal)) && journal == old(journal).(phase := phase)
      ensures step == Cut ==> disk == old(disk) && budget == 0
      ensures budget + 1 >= old(budget)
    {
      PhaseKeepsConsistent(Now(), phase);
      step := Persist(journal.(phase := phase));
    }

    method SetRecoveryTarget(target: RecoveryTarget) returns (step: Step)
      requires Valid() && disk.journal == Some(journal)
      requires journal.sidecarsComplete && journal.phase != ReloadConfirmed
      requires journal.recoveryTarget == Candidate || target == Previous
      requires target == Candidate ==> journal.recoveryTarget == Candidate
      modifies this`disk, this`budget, this`history, this`journal
      ensures Valid()
      ensures step == Done || step == Cut
      ensures step == Done ==>
                disk == old(disk).(journal := Some(journal)) && journal == old(journal).(recoveryTarget := target)
      ensures step == Cut ==> budget == 0
      ensures budget + 1 >= old(budget)
    {
      step := Persist(journal.(recoveryTarget := target));
    }

    // -------------------------------------------------------------- installation

    /** The live file must exist with the recorded old contents. */
    method VerifyLiveNoop(a: JournalArtifact) returns (ok: bool)
      ensures ok == (a.kind in disk.live && Hash(disk.live[a.kind]) == a.oldHash)
    {
      ok := a.kind in disk.live && Hash(disk.live[a.kind]) == a.oldHash;
    }

    /** Succeeds exactly when no artifact has an absent original and an empty candidate. */
    method VerifyNoopArtifacts() returns (ok: bool)
      requires disk.journal == Some(journal) && journal == JournalOf(plan, journal.phase, journal.recoveryTarget, true)
      requires Mixed(disk.live, plan)
      ensures ok <==> Installable(plan)
    {
      for i := 0 to 3
        invariant forall k: Kind :: Index(k) < i ==> !Phantom(plan, k)
      {
        var a := journal.artifacts[i];
        assert a == Artifact(plan, KINDS[i]) && Index(a.kind) == i;
        NoopContents(disk.live, plan, a.kind);
        if a.oldHash == a.newHash {
          ok := VerifyLiveNoop(a);
          if !ok {
            return;
          }
        }
      }
      assert Installable(plan) by {
        forall k: Kind ensures !Phantom(plan, k) { assert Index(k) < 3; }
      }
      ok := true;
    }

    /** Puts one live file into the state the target asks for, as one durable step at most. */
    method Install(a: JournalArtifact, target: RecoveryTarget) returns (step: Step)
      requires Open(journal.phase, journal.recoveryTarget)
      requires a == Artifact(plan, a.kind)
      requires || target == Candidate || journal.recoveryTarget == Previous
               || Rank(journal.phase) < Rank(BindingsCommitted)
      modifies this`disk, this`budget, this`history
      ensures Valid()
      ensures step.Refused? <==> Phantom(plan, a.kind)
      ensures step == Done ==>
                && disk == old(disk).(live := disk.live)
                && SameAt(disk.live, TargetFiles(plan, target), a.kind)
                && (forall k: Kind :: k != a.kind ==> SameAt(disk.live, old(disk).live, k))
      ensures step != Done ==> disk == old(disk)
      ensures step.Refused? ==> step.code == ConcurrentStateChange
      ensures step == Cut ==> budget == 0
      ensures budget + 1 >= old(budget)
    {
      NoopContents(disk.live, plan, a.kind);
      if a.oldHash == a.newHash {
        var unchanged_ := VerifyLiveNoop(a);
        return if unchanged_ then Done else Refused(ConcurrentStateChange);
      }
      var live := Installed(a, target);
      InstallKeepsConsistent(Now(), target, a.kind);
      var ok := Durable(disk.(live := live));
      step := if ok then Done else Cut;
    }

    /** The live files once one of them is removed or replaced by its sidecar, whose hash always matches. */
    method Installed(a: JournalArtifact, target: RecoveryTarget) returns (live: Files)
      requires Open(journal.phase, journal.recoveryTarget)
      requires a == Artifact(plan, a.kind)
      ensures live == WithFile(disk.live, plan, target, a.kind)
    {
      if target == Previous && !a.oldExisted {
        return map k | k in disk.live && k != a.kind :: disk.live[k];
      }
      var source := if target == Candidate then a.newArtifact else a.oldArtifact;
      assert source == Sidecar(plan, a.kind, if target == Candidate then New else Old);
      var bytes := disk.sidecars[source];
      assert Hash(bytes) == if target == Candidate then a.newHash else a.oldHash;
      live := disk.live[a.kind := bytes];
    }

    /** Installs one artifact; before the bindings, checks the files that both sides share. */
    method InstallNext(i: nat, target: RecoveryTarget) returns (step: Step)
      requires i < 3 && Open(journal.phase, journal.recoveryTarget)
      requires || target == Candidate || journal.recoveryTarget == Previous
               || Rank(journal.phase) < Rank(BindingsCommitted)
      requires InstalledUpTo(disk.live, plan, target, i)
      modifies this`disk, this`budget, this`history
      ensures Valid()
      ensures disk == old(disk).(live := disk.live)
      ensures step == Done ==> InstalledUpTo(disk.live, plan, target, i + 1) && (i == 2 ==> Installable(plan))
      ensures step.Refused? ==> step.code == ConcurrentStateChange && !Installable(plan)
      ensures step == Cut ==> budget == 0
      ensures budget + 1 >= old(budget)
    {
      var a := journal.artifacts[i];
      assert a == Artifact(plan, KINDS[i]) && Index(a.kind) == i;
      var ok := true;
      if a.kind == Bindings {
        ok := VerifyNoopArtifacts();
      }
      step := Refused(ConcurrentStateChange);
      if ok {
        ghost var before := disk.live;
        step := Install(a, target);
        if step == Done {
          OneMoreInstalled(before, disk.live, plan, target, a.kind);
        }
      }
    }

    /** Installs all three artifacts in order. */
    method InstallTarget(target: RecoveryTarget) returns (step: Step)
      requires Open(journal.phase, journal.recoveryTarget)
      requires || target == Candidate || journal.recoveryTarget == Previous
               || Rank(journal.phase) < Rank(BindingsCommitted)
      modifies this`disk, this`budget, this`history
      ensures Valid()
      ensures step == Done ==> disk == old(disk).(live := TargetFiles(plan, target)) && Installable(plan)
      ensures step.Refused? ==> step.code == ConcurrentStateChange && !Installable(plan)
      ensures disk == old(disk).(live := disk.live)
      ensures step == Cut ==> budget == 0
      ensures budget + 3 >= old(budget)
    {
      step := Done;
      for i := 0 to 3
        invariant step == Done && Open(journal.phase, journal.recoveryTarget)
        invariant disk == old(disk).(live := disk.live)
        invariant InstalledUpTo(disk.live, plan, target, i) && (i == 3 ==> Installable(plan))
        invariant budget + i >= old(budget)
      {
        step := InstallNext(i, target);
        if step != Done {
          return;
        }
      }
      AllInstalled(disk.live, plan, target);
    }

    /** Installs one candidate artifact. */
    method InstallNew(kind: Kind) returns (step: Step)
      requires Open(journal.phase, Candidate) && Rank(journal.phase) < Rank(BindingsCommitted)
      modifies this`disk, this`budget, this`history
      ensures Valid()
      ensures step == Done ==>
                && disk == old(disk).(live := disk.live)
                && SameAt(disk.live, plan.candidate, kind)
                && (forall k: Kind :: k != kind ==> SameAt(disk.live, old(disk).live, k))
      ensures step == Done && kind == Bindings ==> Installable(plan)
      ensures step.Refused? ==> step.code == ConcurrentStateChange && !Installable(plan)
      ensures step != Done ==> disk == old(disk)
      ensures step == Cut ==> budget == 0
      ensures budget + 1 >= old(budget)
    {
      if kind == Bindings {
        var ok := VerifyNoopArtifacts();
        if !ok {
          return Refused(ConcurrentStateChange);
        }
      }
      assert journal.artifacts[Index(kind)] == Artifact(plan, kind);
      step := Install(journal.artifacts[Index(kind)], Candidate);
    }

    // -------------------------------------------------------------- reload

    /** Asks the compositor to reload and records its answer. */
    method ReloadIsConfirmed(answer: Reload) returns (confirmed: bool)
      requires Valid()
      modifies this`seen, this`history, this`asked
      ensures Valid() && confirmed == Confirms(answer)
      ensures asked == old(asked) + [answer] && seen == SeenAfter(old(Now()), answer)
    {
      confirmed := answer.Loaded? && !answer.failed;
      seen := SeenAfter(Now(), answer);
      history := Then(history, Asked(answer), Now());
      asked := asked + [answer];
    }

    /** After a confirmed reload: re-check the untouched files, record the confirmation, clean up. */
    method Confirm(ghost target: RecoveryTarget) returns (step: Step)
      requires Open(ReloadPending, target) && Installable(plan)
      requires disk.live == TargetFiles(plan, target)
      requires if target == Candidate then seen.candidateLoaded else seen.originalLoaded
      modifies this`disk, this`budget, this`history, this`journal
      ensures Valid() && disk.live == old(disk).live
      ensures step == Done || step == Cut
      ensures step == Done ==> disk.journal.None?
      ensures step == Cut ==> budget == 0
      ensures budget + 14 >= old(budget)
    {
      var ok := VerifyNoopArtifacts();
      if !ok {
        assert false;
        return Refused(ConcurrentStateChange);
      }
      step := SetPhase(ReloadConfirmed);
      if step != Done {
        return;
      }
      step := Cleanup();
    }

    /** The confirmed side is settled: clean up and report it. */
    method ReportLoaded(target: RecoveryTarget) returns (out: Outcome)
      requires Open(ReloadPending, target) && Installable(plan)
      requires disk.live == TargetFiles(plan, target)
      requires if target == Candidate then seen.candidateLoaded else seen.originalLoaded
      modifies this`disk, this`budget, this`history, this`journal
      ensures Valid()
      ensures || out.Interrupted?
              || (out == Report(StatusFor(target), PresetIdFor(plan, target)) && Reported(history, out))
      ensures out.Interrupted? ==> budget == 0
      ensures budget + 14 >= old(budget)
    {
      var id := ActivePresetIdFor(target);
      var step := Confirm(target);
      if step != Done {
        return Interrupted;
      }
      LoadedWasConfirmed(history);
      return Report(StatusFor(target), id);
    }

    /** Makes the previous files the target and installs them. */
    method TurnBack() returns (step: Step)
      requires Open(ReloadPending, Candidate) && Installable(plan)
      modifies this`disk, this`budget, this`history, this`journal
      ensures Valid()
      ensures step == Done || step == Cut
      ensures step == Done ==> Open(ReloadPending, Previous) && disk.live == plan.original
      ensures step == Cut ==> budget == 0
      ensures budget + 5 >= old(budget)
    {
      step := SetRecoveryTarget(Previous);
      if step != Done { return; }
      step := InstallTarget(Previous);
      if step != Done { return; }
      step := SetPhase(ReloadPending);
    }

    /** Turns back to the previous files and waits for the compositor to load them. */
    method RollBack(subscription: Subscription, answer: Reload) returns (out: Outcome)
      requires Open(ReloadPending, Candidate) && Installable(plan)
      modifies this`disk, this`budget, this`history, this`journal, this`seen, this`asked
      ensures Valid()
      ensures asked == old(asked) || asked == old(asked) + [answer]
      ensures var status :=
                if Usable(subscription) && Confirms(answer) then RolledBackConfirmed else CommitStateUnknown;
              || out.Interrupted?
              || (out == Report(status, PresetIdFor(plan, Previous)) && Reported(history, out))
      ensures out.Interrupted? ==> budget == 0
      ensures budget + 19 >= old(budget)
    {
      var step := TurnBack();
      if step != Done {
        return Interrupted;
      }
      var id := ActivePresetIdFor(Previous);
      var ok := VerifyNoopArtifacts();
      var confirmed := false;
      if Usable(subscription) {
        confirmed := ReloadIsConfirmed(answer);
      }
      if confirmed {
        out := ReportLoaded(Previous);
      } else {
        out := Report(CommitStateUnknown, id);
      }
    }

    method ActivePresetIdFor(target: RecoveryTarget) returns (id: string)
      ensures id == if target == Candidate then journal.activePresetId
                    else if journal.previousActivePresetId.Some? then journal.previousActivePresetId.value
                    else "unknown"
    {
      if target == Candidate {
        id := journal.activePresetId;
      } else {
        match journal.previousActivePresetId
        case Some(previous) => id := previous;
        case None => id := "unknown";
      }
    }

    /** The installed target is pending: ask for a reload, and turn back if the candidate fails it. */
    method SettleReload(target: RecoveryTarget, env: Environment) returns (out: Outcome)
      requires Open(ReloadPending, target) && Installable(plan)
      requires disk.live == TargetFiles(plan, target)
      modifies this`disk, this`budget, this`history, this`journal, this`seen, this`asked
      ensures Valid() && |asked| > |old(asked)| && Heard(old(asked), asked, env)
      ensures out.Interrupted? || (out.Report? && Reported(history, out) && out.status != ReloadIsPending)
      ensures out.Report? && Confirms(env.firstReload) ==> out.status == StatusFor(target)
      ensures out.Report? && !Confirms(env.firstReload) ==>
                out.status == if target == Candidate && Usable(env.second) && Confirms(env.secondReload)
                              then RolledBackConfirmed else CommitStateUnknown
      ensures out.Interrupted? ==> budget == 0
      ensures budget + 19 >= old(budget)
    {
      var ok := VerifyNoopArtifacts();
      HeardBoth(asked, env);
      var confirmed := ReloadIsConfirmed(env.firstReload);
      if confirmed {
        out := ReportLoaded(target);
      } else {
        out := SettleFailure(target, env);
      }
    }

    /** The target's reload was not confirmed: nothing more to do for the previous files, else roll back. */
    method SettleFailure(target: RecoveryTarget, env: Environment) returns (out: Outcome)
      requires Open(ReloadPending, target) && Installable(plan) && disk.live == TargetFiles(plan, target)
      modifies this`disk, this`budget, this`history, this`journal, this`seen, this`asked
      ensures Valid()
      ensures asked == old(asked) || asked == old(asked) + [env.secondReload]
      ensures out.Interrupted? || (out.Report? && Reported(history, out))
      ensures out.Report? ==>
                out.status == if target == Candidate && Usable(env.second) && Confirms(env.secondReload)
                              then RolledBackConfirmed else CommitStateUnknown
      ensures out.Interrupted? ==> budget == 0
      ensures budget + 19 >= old(budget)
    {
      if target == Previous {
        var id := ActivePresetIdFor(target);
        out := Report(CommitStateUnknown, id);
      } else {
        out := RollBack(env.second, env.secondReload);
      }
    }

    // -------------------------------------------------------------- apply

    method InstallAndMark(kind: Kind, phase: Phase) returns (step: Step)
      requires Open(journal.phase, Candidate)
      requires Rank(journal.phase) <= Rank(phase) < Rank(BindingsCommitted)
      modifies this`disk, this`budget, this`history, this`journal
      ensures Valid()
      ensures step == Done ==>
                && Open(phase, Candidate)
                && SameAt(disk.live, plan.candidate, kind)
                && (forall k: Kind :: k != kind ==> SameAt(disk.live, old(disk).live, k))
      ensures step.Refused? ==> step.code == ConcurrentStateChange && !Installable(plan)
      ensures disk.journal.Some? && disk.journal.value.sidecarsComplete
      ensures step == Cut ==> budget == 0
      ensures budget + 2 >= old(budget)
    {
      step := InstallNew(kind);
      if step != Done { return; }
      step := SetPhase(phase);
    }

    method InstallDocuments() returns (step: Step)
      requires Open(Prepared, Candidate)
      modifies this`disk, this`budget, this`history, this`journal
      ensures Valid()
      ensures step == Done ==>
                Open(SettingsCommitted, Candidate)
                && SameAt(disk.live, plan.candidate, Preset) && SameAt(disk.live, plan.candidate, Settings)
      ensures step.Refused? ==> step.code == ConcurrentStateChange && !Installable(plan)
      ensures disk.journal.Some? && disk.journal.value.sidecarsComplete
      ensures step == Cut ==> budget == 0
      ensures budget + 4 >= old(budget)
    {
      step := InstallAndMark(Preset, PresetCommitted);
      if step != Done { return; }
      ghost var one := disk.live;
      step := InstallAndMark(Settings, SettingsCommitted);
      assert step == Done ==> SameAt(disk.live, one, Preset);
    }

    /** Installs the candidate file by file, moving the phase after each, up to the pending reload. */
    method InstallCandidate() returns (step: Step)
      requires Open(Prepared, Candidate)
      modifies this`disk, this`budget, this`history, this`journal
      ensures Valid()
      ensures step == Done ==>
                Open(ReloadPending, Candidate) && disk.live == plan.candidate && Installable(plan)
      ensures step.Refused? ==> step.code == ConcurrentStateChange && !Installable(plan)
      ensures disk.journal.Some? && disk.journal.value.sidecarsComplete
      ensures step == Cut ==> budget == 0
      ensures budget + 7 >= old(budget)
    {
      step := InstallDocuments();
      if step == Done {
        step := InstallBindings();
      }
      if step == Done {
        step := MarkInstalled();
      }
    }

    method InstallBindings() returns (step: Step)
      requires Open(SettingsCommitted, Candidate)
      requires SameAt(disk.live, plan.candidate, Preset) && SameAt(disk.live, plan.candidate, Settings)
      modifies this`disk, this`budget, this`history
      ensures Valid() && Holds(SettingsCommitted, Candidate, true)
      ensures step == Done ==> disk.live == plan.candidate && Installable(plan)
      ensures step.Refused? ==> step.code == ConcurrentStateChange && !Installable(plan)
      ensures step == Cut ==> budget == 0
      ensures budget + 1 >= old(budget)
    {
      ghost var two := disk.live;
      step := InstallNew(Bindings);
      if step == Done {
        assert SameAt(disk.live, two, Preset) && SameAt(disk.live, two, Settings);
        ThreeFilesEqual(disk.live, plan.candidate);
      }
    }

    method MarkInstalled() returns (step: Step)
      requires Open(SettingsCommitted, Candidate) && disk.live == plan.candidate
      modifies this`disk, this`budget, this`history, this`journal
      ensures Valid() && disk.live == plan.candidate
      ensures step == Done || step == Cut
      ensures step == Done ==> Open(ReloadPending, Candidate)
      ensures disk.journal.Some? && disk.journal.value.sidecarsComplete
      ensures step == Cut ==> budget == 0
      ensures budget + 2 >= old(budget)
    {
      step := SetPhase(BindingsCommitted);
      if step != Done { return; }
      step := SetPhase(ReloadPending);
    }

    /** Replaces the three files by a candidate, unless a transaction is already in progress. */
    method Apply(transaction: TransactionId, activePresetId: string, candidate: AllFiles, env: Environment)
      returns (out: Outcome)
      requires Valid()
      modifies this`disk, this`budget, this`history, this`journal, this`plan, this`seen, this`requested, this`asked
      ensures Valid() && Heard(old(asked), asked, env)
      // whatever the outcome, the only transaction it can have started is the requested one
      ensures || (requested == old(requested) && plan == old(plan)
                  && disk == old(disk).(journalTemps := disk.journalTemps))
              || (requested == old(requested) + [Request(transaction, activePresetId, candidate)]
                  && Planned(Request(transaction, activePresetId, candidate), old(disk).live))
      ensures out == Failed(TransactionInProgress) <==> old(disk).journal.Some?
      ensures out == Failed(ReloadFailed) <==>
              old(disk).journal.None? && (env.first == Unavailable || env.first == Attached(false))
      ensures old(disk).journal.Some? || out == Failed(ReloadFailed) ==> disk == old(disk)
      ensures out == Failed(Conflict) ==> transaction in old(disk).journalTemps && disk == old(disk)
      ensures out == Failed(ConcurrentStateChange) ==>
                && !NothingMissing(old(disk).live, candidate)
                && disk.journal.Some? && disk.journal.value.sidecarsComplete && requested != old(requested)
      ensures out.Report? ==> requested != old(requested) && Reported(history, out)
      ensures out.Report? ==> CandidateSettled(plan, env, disk, out)
      ensures out.Interrupted? ==> budget == 0
      ensures budget + 41 >= old(budget)
      // with power and a confirming compositor the candidate is committed, if it can be installed
      ensures old(disk).journal.None? && transaction !in old(disk).journalTemps
              && old(budget) > 41 && Usable(env.first) && Confirms(env.firstReload)
              ==> if NothingMissing(old(disk).live, candidate)
                  then out == Report(Committed, activePresetId) && disk.journal.None? && disk.live == candidate
                  else out == Failed(ConcurrentStateChange)
    {
      if disk.journal.Some? {
        return Failed(TransactionInProgress);
      }
      if env.first == Unavailable || env.first == Attached(false) {
        return Failed(ReloadFailed);
      }
      ghost var found := disk.live;
      out := ApplyRequest(Request(transaction, activePresetId, candidate), env);
      if PlanOf(plan, Request(transaction, activePresetId, candidate), found) {
        InstallableIsNothingMissing(plan);
      }
    }

    /** Prepares the requested transaction and takes it live. */
    method ApplyRequest(request: Request, env: Environment) returns (out: Outcome)
      requires Valid() && disk.journal.None?
      modifies this`disk, this`budget, this`history, this`journal, this`plan, this`seen, this`requested, this`asked
      ensures Valid() && Heard(old(asked), asked, env)
      ensures || (requested == old(requested) && plan == old(plan)
                  && disk == old(disk).(journalTemps := disk.journalTemps))
              || (requested == old(requested) + [request] && Planned(request, old(disk).live))
      ensures out.Failed? ==> out.code == Conflict || out.code == ConcurrentStateChange
      ensures out == Failed(Conflict) <==> request.transaction in old(disk).journalTemps
      ensures out == Failed(Conflict) ==> disk == old(disk)
      ensures out == Failed(ConcurrentStateChange) ==>
                && !Installable(plan) && requested != old(requested)
                && disk.journal.Some? && disk.journal.value.sidecarsComplete
      ensures out.Report? ==>
                && requested != old(requested) && Reported(history, out)
                && Installable(plan) && CandidateSettled(plan, env, disk, out)
      ensures out.Interrupted? || out.Failed? || out.Report?
      ensures out.Interrupted? ==> budget == 0
      ensures budget + 41 >= old(budget)
    {
      var step := Prepare(request.transaction, request.activePresetId, request.candidate);
      if step != Done {
        return if step == Cut then Interrupted else Failed(step.code);
      }
      out := InstallAndSettle(env);
    }

    /** The prepared candidate goes live; with a compositor its reload is settled, without one it is pending. */
    method InstallAndSettle(env: Environment) returns (out: Outcome)
      requires Open(Prepared, Candidate)
      modifies this`disk, this`budget, this`history, this`journal, this`seen, this`asked
      ensures Valid() && Heard(old(asked), asked, env)
      ensures out.Interrupted? || out == Failed(ConcurrentStateChange) || (out.Report? && Reported(history, out))
      ensures out.Failed? ==> !Installable(plan) && disk.journal.Some? && disk.journal.value.sidecarsComplete
      ensures out.Report? ==> Installable(plan) && CandidateSettled(plan, env, disk, out)
      ensures out.Interrupted? ==> budget == 0
      ensures budget + 26 >= old(budget)
    {
      var step := InstallCandidate();
      if step != Done {
        return if step == Cut then Interrupted else Failed(step.code);
      }
      if env.first == Offline {
        var id := ActivePresetIdFor(Candidate);
        return Report(ReloadIsPending, id);
      }
      out := SettleReload(Candidate, env);
    }

    // -------------------------------------------------------------- reconcile

    /** Without a journal, drops journal temporaries; otherwise accepts only a valid journal. */
    method Load() returns (step: Step)
      requires Valid()
      modifies this`disk, this`budget, this`history, this`journal
      ensures Valid()
      ensures disk == old(disk).(journalTemps := disk.journalTemps)
      ensures old(disk).journal.None? && step == Done ==> disk.journalTemps == {}
      ensures old(disk).journal.Some? ==>
                && disk == old(disk) && budget == old(budget)
                && step == (if Blank(plan.activePresetId) then Refused(InvalidJournal) else Done)
                && (step == Done ==> disk.journal == Some(journal))
      ensures old(disk).journal.None? ==> step == Done || step == Cut
      ensures step == Cut ==> budget == 0
    {
      if disk.journal.Some? {
        ReachableJournalsLoad(Now());
        if !JournalAccepted(disk, disk.journal.value) {
          return Refused(InvalidJournal);
        }
        journal := disk.journal.value;
        return Done;
      }
      while disk.journalTemps != {}
        invariant Valid()
        invariant disk == old(disk).(journalTemps := disk.journalTemps)
        decreases disk.journalTemps
      {
        var orphan :| orphan in disk.journalTemps;
        var ok := Durable(disk.(journalTemps := disk.journalTemps - {orphan}));
        if !ok {
          return Cut;
        }
      }
      step := Done;
    }

    /** Reinstalls the side the journal calls for and leaves the reload pending. */
    method Reinstall(target: RecoveryTarget) returns (step: Step)
      requires Open(journal.phase, journal.recoveryTarget)
      requires target == if Rank(journal.phase) < Rank(BindingsCommitted) then Previous else journal.recoveryTarget
      modifies this`disk, this`budget, this`history, this`journal
      ensures Valid()
      ensures step == Done ==>
                Open(ReloadPending, target) && disk.live == TargetFiles(plan, target) && Installable(plan)
      ensures step.Refused? ==> !Installable(plan) && step.code == ConcurrentStateChange && disk.journal.Some?
      ensures step == Cut ==> budget == 0
      ensures budget + 5 >= old(budget)
    {
      step := Done;
      if target == Previous {
        step := SetRecoveryTarget(target);
      }
      if step == Done {
        step := InstallTarget(target);
      }
      if step == Done && target == Candidate {
        step := SetRecoveryTarget(target);
      }
      if step == Done {
        step := SetPhase(ReloadPending);
      }
    }

    /** Finishes or undoes whatever an earlier process left behind; may itself be cut and repeated. */
    method Reconcile(onlineRequired: bool, env: Environment) returns (out: Outcome)
      requires Valid()
      modifies this`disk, this`budget, this`history, this`journal, this`seen, this`asked
      ensures Valid() && Heard(old(asked), asked, env)
      ensures old(disk).journal.None? ==>
                && (out == NothingToReconcile || out == Interrupted)
                && disk == old(disk).(journalTemps := disk.journalTemps)
      ensures old(disk).journal.Some? ==>
                (out == Failed(InvalidJournal) <==> Blank(plan.activePresetId))
      ensures old(disk).journal.Some? && out == NothingToReconcile ==>
                disk.journal.None? && disk.live == plan.original && !old(disk).journal.value.sidecarsComplete
      ensures out == Failed(ConcurrentStateChange) ==> !Installable(plan)
      ensures out.Report? ==> old(disk).journal.Some? && Reported(history, out)
      // which side it ends on, and when it ends there
      ensures out.Report? ==> Concluded(old(disk).journal.value, plan, env, disk, out)
      ensures old(disk).journal.Some? && old(disk).journal.value.sidecarsComplete
              && !Blank(plan.activePresetId) && Installable(plan) && old(budget) > 24 ==>
                (out.Report? <==>
                 old(disk).journal.value.phase == ReloadConfirmed || !OutOfReach(onlineRequired, env.first))
      ensures out.Failed? && out.code in {NiriUnavailable, ReloadFailed} ==>
                && OutOfReach(onlineRequired, env.first) && disk == old(disk)
                && (out.code == NiriUnavailable <==> onlineRequired)
      // a confirmed outcome was confirmed to this process or, before it, to the one that recorded it
      ensures out.Report? && out.status in {Committed, RolledBackConfirmed} ==>
                || old(disk).journal.value.phase == ReloadConfirmed
                || (|asked| > |old(asked)| && (Confirms(env.firstReload) || Confirms(env.secondReload)))
      ensures out.Interrupted? ==> budget == 0
      ensures old(disk).journal.Some? ==> budget + 24 >= old(budget)
      // with power and a confirming compositor the journal goes away, except for these two plans
      ensures old(disk).journal.Some? && old(budget) > 24 && Usable(env.first) && Confirms(env.firstReload) ==>
                (disk.journal.None? <==>
                 !Blank(plan.activePresetId) && (!old(disk).journal.value.sidecarsComplete || Installable(plan)))
    {
      var step := Load();
      if step != Done {
        return if step == Cut then Interrupted else Failed(step.code);
      }
      if disk.journal.None? {
        return NothingToReconcile;
      }
      if !journal.sidecarsComplete {
        step := Cleanup();
        return if step == Done then NothingToReconcile else Interrupted;
      }
      if journal.phase == ReloadConfirmed {
        out := FinishConfirmed(env);
      } else {
        out := Resume(onlineRequired, env);
      }
    }

    /** The reload was confirmed to an earlier process; what is left is the cleanup. */
    method FinishConfirmed(ghost env: Environment) returns (out: Outcome)
      requires Valid() && disk.journal == Some(journal) && journal.sidecarsComplete && journal.phase == ReloadConfirmed
      modifies this`disk, this`budget, this`history
      ensures Valid()
      ensures out.Interrupted? || (out.Report? && Reported(history, out) && disk.journal.None?)
      ensures out.Report? ==> Concluded(old(journal), plan, env, disk, out)
      ensures out.Interrupted? ==> budget == 0
      ensures budget + 13 >= old(budget)
    {
      var target := journal.recoveryTarget;
      var id := ActivePresetIdFor(target);
      var step := Cleanup();
      if step != Done {
        return Interrupted;
      }
      LoadedWasConfirmed(history);
      return Report(StatusFor(target), id);
    }

    /** Reinstalls the side the journal calls for and settles its reload. */
    method Resume(onlineRequired: bool, env: Environment) returns (out: Outcome)
      requires Open(journal.phase, journal.recoveryTarget)
      modifies this`disk, this`budget, this`history, this`journal, this`seen, this`asked
      ensures Valid() && Heard(old(asked), asked, env)
      ensures out.Interrupted? || out.Report? || (out.Failed? && disk.journal.Some?)
      ensures out.Failed? ==> out.code != InvalidJournal
      ensures out == Failed(ConcurrentStateChange) ==> !Installable(plan)
      ensures out.Report? ==> Concluded(old(journal), plan, env, disk, out)
      ensures Installable(plan) ==> (out.Failed? <==> OutOfReach(onlineRequired, env.first))
      ensures out.Failed? && out.code in {NiriUnavailable, ReloadFailed} ==>
                && OutOfReach(onlineRequired, env.first) && disk == old(disk)
                && (out.code == NiriUnavailable <==> onlineRequired)
      ensures out.Report? ==>
                && Reported(history, out) && Installable(plan)
                && (out.status in {Committed, RolledBackConfirmed} ==>
                      |asked| > |old(asked)| && (Confirms(env.firstReload) || Confirms(env.secondReload)))
      ensures out.Interrupted? ==> budget == 0
      ensures budget + 24 >= old(budget)
      ensures Usable(env.first) && Confirms(env.firstReload) ==>
                out.Interrupted? || (if Installable(plan) then out.Report? && disk.journal.None? else out.Failed?)
    {
      var target := if Rank(journal.phase) < Rank(BindingsCommitted) then Previous else journal.recoveryTarget;
      if env.first == Unavailable || env.first == Attached(false) || (onlineRequired && env.first == Offline) {
        return Failed(if onlineRequired then NiriUnavailable else ReloadFailed);
      }
      out := ResumeWith(target, env);
    }

    /** Installs the target again and, with a compositor, settles its reload. */
    method ResumeWith(target: RecoveryTarget, env: Environment) returns (out: Outcome)
      requires Open(journal.phase, journal.recoveryTarget) && (env.first == Offline || Usable(env.first))
      requires target == if Rank(journal.phase) < Rank(BindingsCommitted) then Previous else journal.recoveryTarget
      modifies this`disk, this`budget, this`history, this`journal, this`seen, this`asked
      ensures Valid() && Heard(old(asked), asked, env)
      ensures out.Interrupted? || (out == Failed(ConcurrentStateChange) && !Installable(plan) && disk.journal.Some?)
              || (out.Report? && Installable(plan) && Reported(history, out))
      ensures out.Report? && target == Candidate ==> CandidateSettled(plan, env, disk, out)
      ensures out.Report? && target == Previous ==> PreviousSettled(plan, env, disk, out)
      ensures out.Report? && env.first != Offline ==> |asked| > |old(asked)|
      ensures out.Interrupted? ==> budget == 0
      ensures budget + 24 >= old(budget)
    {
      var step := Reinstall(target);
      if step != Done {
        return if step == Cut then Interrupted else Failed(step.code);
      }
      if env.first == Offline {
        var id := ActivePresetIdFor(target);
        return Report(ReloadIsPending, id);
      }
      out := SettleReload(target, env);
    }

    // -------------------------------------------------------------- runs

    method Perform(process: Process) returns (out: Outcome)
      requires Valid()
      modifies this`disk, this`budget, this`history, this`journal, this`plan, this`seen, this`requested, this`asked
      ensures Valid() && Heard(old(asked), asked, process.environment)
      ensures || (requested == old(requested) && (old(disk).journal.None? ==> disk.journal.None?))
              || (process.command.ApplyCandidate? && requested == old(requested) + [RequestOf(process.command)])
      ensures out.Report? ==> Reported(history, out)
      ensures out.Report? && process.command.ApplyCandidate? ==>
                CandidateSettled(plan, process.environment, disk, out)
      ensures process.command.ReconcileBindings? && old(disk).journal.Some? ==>
                && (out.Report? ==> Concluded(old(disk).journal.value, plan, process.environment, disk, out))
                && (out == Failed(NiriUnavailable) ==> process.command.onlineRequired)
                && (out == Failed(ReloadFailed) ==> !process.command.onlineRequired)
    {
      budget := process.budget;
      match process.command
      case ApplyCandidate(transaction, activePresetId, candidate) =>
        out := Apply(transaction, activePresetId, candidate, process.environment);
      case ReconcileBindings(onlineRequired) =>
        out := Reconcile(onlineRequired, process.environment);
    }
  }

  function RequestOf(command: Command): Request
    requires command.ApplyCandidate?
  {
    Request(command.transaction, command.activePresetId, command.candidate)
  }

  /** Some process was asked for this. */
  predicate Commanded(processes: seq<Process>, request: Request) {
    exists i :: 0 <= i < |processes| && processes[i].command.ApplyCandidate?
                && RequestOf(processes[i].command) == request
  }

  /** Some process was given this answer by the compositor. */
  predicate Answered(processes: seq<Process>, answer: Reload) {
    exists i :: 0 <= i < |processes|
                && answer in {processes[i].environment.firstReload, processes[i].environment.secondReload}
  }

  /** Every request and every answer in the run comes from outside. */
  ghost predicate FromOutside(processes: seq<Process>, requested: seq<Request>, asked: seq<Reload>) {
    && (forall r :: r in requested ==> Commanded(processes, r))
    && (forall a :: a in asked ==> Answered(processes, a))
  }

  lemma OneProcessMore(processes: seq<Process>, n: nat, requested: seq<Request>, asked: seq<Reload>,
                       moreRequested: seq<Request>, moreAsked: seq<Reload>)
    requires n < |processes| && FromOutside(processes[..n], requested, asked)
    requires Heard(asked, moreAsked, processes[n].environment)
    requires || moreRequested == requested
             || (processes[n].command.ApplyCandidate? && moreRequested == requested + [RequestOf(processes[n].command)])
    ensures FromOutside(processes[..n + 1], moreRequested, moreAsked)
  {
    var before, after := processes[..n], processes[..n + 1];
    assert after[n] == processes[n];
    forall r | r in moreRequested ensures Commanded(after, r) {
      if r in requested {
        var i :| 0 <= i < |before| && before[i].command.ApplyCandidate? && RequestOf(before[i].command) == r;
        assert after[i] == before[i];
      }
    }
    forall a | a in moreAsked ensures Answered(after, a) {
      if a in asked {
        var i :| 0 <= i < |before| && a in {before[i].environment.firstReload, before[i].environment.secondReload};
        assert after[i] == before[i];
      }
    }
  }

  /** A process that is not cut, reaches the compositor and hears a confirmation. */
  predicate Undisturbed(process: Process) {
    process.budget > 24 && Usable(process.environment.first) && Confirms(process.environment.firstReload)
  }

  /** What callers do: every file of a candidate has contents and the active preset has a name. */
  predicate Sensible(request: Request) {
    (forall k: Kind :: request.candidate[k] != []) && !Blank(request.activePresetId)
  }

  /**
    Any number of processes, each cut anywhere.  At rest the three files are together what the run
    found or together the candidate of some command.  Every report holds at its moment of the run, and
    a confirmed one had a confirming answer while all three files were the reported ones.
   */
  method Run(store: BindingStore, processes: seq<Process>)
    returns (outcomes: seq<Outcome>, ghost moments: seq<History>)
    requires store.Valid() && store.history.Start? && store.disk.journal.None?
    modifies store
    ensures store.Valid() && |outcomes| == |moments| == |processes|
    ensures Continues(store.history, old(store.history))
    ensures FromOutside(processes, store.requested, store.asked)
    ensures store.disk.journal.None? ==>
              store.disk.live == old(store.disk).live || Wanted(processes, store.disk.live)
    ensures forall i :: 0 <= i < |outcomes| ==> Continues(store.history, moments[i])
    ensures forall i :: 0 <= i < |outcomes| && outcomes[i].Report? ==> Reported(moments[i], outcomes[i])
  {
    ghost var start := store.history;
    outcomes, moments := [], [];
    for n := 0 to |processes|
      invariant store.Valid() && |outcomes| == |moments| == n
      invariant Continues(store.history, start)
      invariant FromOutside(processes[..n], store.requested, store.asked)
      invariant forall i :: 0 <= i < n ==> Continues(store.history, moments[i])
      invariant forall i :: 0 <= i < n && outcomes[i].Report? ==> Reported(moments[i], outcomes[i])
    {
      ghost var before, requested, asked := store.history, store.requested, store.asked;
      store.origin := before;
      var out := store.Perform(processes[n]);
      OneProcessMore(processes, n, requested, asked, store.requested, store.asked);
      AllContinue(store.history, before, moments);
      PrefixesContinue(store.history, before, start);
      outcomes, moments := outcomes + [out], moments + [store.history];
    }
    assert processes[..|processes|] == processes;
    RestIsKnown(store.history, start);
    CommandsAreWanted(processes, store.requested, store.asked);
  }

  lemma AllContinue(later: History, before: History, moments: seq<History>)
    requires Continues(later, before) && forall i :: 0 <= i < |moments| ==> Continues(before, moments[i])
    ensures forall i :: 0 <= i < |moments| ==> Continues(later, moments[i])
  {
    forall i | 0 <= i < |moments| ensures Continues(later, moments[i]) {
      PrefixesContinue(later, before, moments[i]);
    }
  }

  /** Some process was asked to install exactly these files. */
  predicate Wanted(processes: seq<Process>, files: Files) {
    exists i :: 0 <= i < |processes| && processes[i].command.ApplyCandidate? && processes[i].command.candidate == files
  }

  lemma CommandsAreWanted(processes: seq<Process>, requested: seq<Request>, asked: seq<Reload>)
    requires FromOutside(processes, requested, asked)
    ensures forall k :: 0 <= k < |requested| ==> Wanted(processes, requested[k].candidate)
  {
    forall k | 0 <= k < |requested| ensures Wanted(processes, requested[k].candidate) {
      assert requested[k] in requested;
      var i :| 0 <= i < |processes| && processes[i].command.ApplyCandidate?
               && RequestOf(processes[i].command) == requested[k];
      assert processes[i].command.candidate == requested[k].candidate;
    }
  }

  /**
    Progress: when callers only ask for sensible candidates, a reconcile that is not cut and whose
    reload is confirmed leaves no journal, whatever happened before.
   */
  method Recover(store: BindingStore, processes: seq<Process>, last: Process) returns (out: Outcome)
    requires store.Valid() && store.history.Start? && store.disk.journal.None?
    requires forall i :: 0 <= i < |processes| && processes[i].command.ApplyCandidate? ==>
                           Sensible(RequestOf(processes[i].command))
    requires last.command.ReconcileBindings? && Undisturbed(last)
    modifies store
    ensures store.Valid() && store.disk.journal.None?
    ensures store.disk.live == old(store.disk).live || Wanted(processes, store.disk.live)
  {
    ghost var start := store.history;
    var outcomes;
    ghost var moments;
    outcomes, moments := Run(store, processes);
    LatestIsSensible(store.history, start, processes, store.asked);
    out := ReconcileLast(store, last, start);
    CommandsAreWanted(processes, store.requested, []);
  }

  lemma LatestIsSensible(history: History, start: History, processes: seq<Process>, asked: seq<Reload>)
    requires Recorded(history) && Continues(history, start) && start.Start? && start.now.disk.journal.None?
    requires FromOutside(processes, Requests(history), asked)
    requires forall i :: 0 <= i < |processes| && processes[i].command.ApplyCandidate? ==>
                           Sensible(RequestOf(processes[i].command))
    ensures history.now.disk.journal.Some? ==> Installable(history.now.plan) && !Blank(history.now.plan.activePresetId)
  {
    RestIsKnown(history, start);
    if history.now.disk.journal.Some? {
      var requests := Requests(history);
      assert requests[|requests| - 1] in requests;
      FullCandidatesAreInstallable(history.now.plan);
    }
  }

  method ReconcileLast(store: BindingStore, last: Process, ghost start: History) returns (out: Outcome)
    requires store.Valid() && Continues(store.history, start) && start.Start? && start.now.disk.journal.None?
    requires last.command.ReconcileBindings? && Undisturbed(last)
    requires store.disk.journal.Some? ==> Installable(store.plan) && !Blank(store.plan.activePresetId)
    modifies store
    ensures store.Valid() && store.disk.journal.None? && store.requested == old(store.requested)
    ensures Known(store.disk.live, start.now.disk.live, store.requested)
  {
    ghost var before := store.history;
    store.origin, store.budget := before, last.budget;
    out := store.Reconcile(last.command.onlineRequired, last.environment);
    PrefixesContinue(store.history, before, start);
    RestIsKnown(store.history, start);
  }

  /**
    An empty candidate file where no file was: the transaction stops with a complete journal, and no
    later apply or reconcile, however powered and answered, finishes or undoes it; each live file stays
    the original or the requested one.  Callers never ask for it.
   */
  method EmptyCandidateIsStuck(store: BindingStore, request: Request, kind: Kind, environment: Environment,
                               later: seq<Process>)
    returns (out: Outcome)
    requires store.Valid() && store.disk.journal.None? && request.transaction !in store.disk.journalTemps
    requires kind !in store.disk.live && request.candidate[kind] == []
    requires Usable(environment.first) && Confirms(environment.firstReload)
    modifies store
    ensures store.Valid() && out == Failed(ConcurrentStateChange)
    ensures store.disk.journal.Some? && store.disk.journal.value.sidecarsComplete
    ensures PlanOf(store.plan, request, old(store.disk).live) && Mixed(store.disk.live, store.plan)
  {
    ghost var live := store.disk.live;
    store.budget := 42;
    out := store.Apply(request.transaction, request.activePresetId, request.candidate, environment);
    assert PlanOf(store.plan, request, live) && Phantom(store.plan, kind);
    PerformStuck(store, later);
  }

  method PerformStuck(store: BindingStore, processes: seq<Process>)
    requires store.Valid() && store.disk.journal.Some? && store.disk.journal.value.sidecarsComplete
    requires !Installable(store.plan)
    modifies store
    ensures store.Valid() && store.disk.journal.Some? && store.disk.journal.value.sidecarsComplete
    ensures store.plan == old(store.plan) && Mixed(store.disk.live, store.plan)
  {
    ghost var stuck := store.history;
    StuckForGood(stuck, stuck);
    for i := 0 to |processes|
      invariant store.Valid() && Continues(store.history, stuck)
    {
      ghost var before := store.history;
      store.origin := before;
      var out := store.Perform(processes[i]);
      PrefixesContinue(store.history, before, stuck);
    }
    StuckForGood(store.history, stuck);
  }
}
