/**
  Applying a theme touches three places that must agree: what the desktop acknowledged, what was
  published as the current generation, and the current-theme file.  An undo journal records the
  previous theme until they do.  Every outside operation may succeed, fail with or without having
  taken effect, or be the last thing the process does.
 */
module ThemeTransaction {
  import opened Wrappers

  type Theme = string

  datatype ApplyJournal = ApplyJournal(requestId: string, previous: Theme, candidate: Theme)

  /** The journal, the three places that must agree, and the published generation. */
  datatype Places = Places(
    journal: Option<ApplyJournal>, current: Theme, acknowledged: Theme, published: Theme, generation: nat)

  predicate Agreed(p: Places, theme: Theme) {
    p.acknowledged == theme && p.published == theme && p.current == theme
  }

  /** A journal still guards the transaction, or the places agree on one of its two themes. */
  predicate Settled(p: Places, j: ApplyJournal) {
    p.journal == Some(j) || (p.journal == None && (Agreed(p, j.previous) || Agreed(p, j.candidate)))
  }

  /** Without a journal and without agreement. */
  predicate Torn(p: Places) {
    p.journal == None && !Agreed(p, p.current)
  }

  // ---------------------------------------------------------------- outside operations

  datatype Operation =
    | WriteJournal(document: ApplyJournal)
    | RemoveJournal
    | WriteCurrent(theme: Theme)
    | Sync
    | Acknowledge(theme: Theme)
    | Publish(theme: Theme)
    | Checkpoint                     // an observer, a deadline or a cancellation

  /** What happens to one outside operation; `effect` says whether it happened all the same. */
  datatype Fate = Fine | Fails(effect: bool) | Dies(effect: bool)

  /** The fates of a process's operations in order; with reliable storage, storage does not fail. */
  datatype Fates = Fates(list: seq<Fate>, reliable: bool)

  datatype Step = Done | Failed | Dead

  predicate OnStorage(op: Operation) {
    op.WriteJournal? || op.RemoveJournal? || op.WriteCurrent? || op.Sync?
  }

  function At(fates: Fates, i: nat): Fate {
    if i < |fates.list| then fates.list[i] else Fine
  }

  function FateOf(fates: Fates, i: nat, op: Operation): Fate {
    if fates.reliable && OnStorage(op) && At(fates, i).Fails? then Fine else At(fates, i)
  }

  function Effect(p: Places, op: Operation): Places {
    match op
    case WriteJournal(document) => p.(journal := Some(document))
    case RemoveJournal => p.(journal := None)
    case WriteCurrent(theme) => p.(current := theme)
    case Acknowledge(theme) => p.(acknowledged := theme)
    case Publish(theme) => p.(published := theme, generation := p.generation + 1)
    case Sync => p
    case Checkpoint => p
  }

  /** How far a process has come: what it left behind, how many operations it tried, how the last ended. */
  datatype Progress = Progress(places: Places, at: nat, step: Step)

  /** The next operation, unless an earlier one already ended this part. */
  function Then(fates: Fates, r: Progress, op: Operation): Progress {
    if r.step != Done then r
    else
      var fate := FateOf(fates, r.at, op);
      Progress(if fate.Fine? || fate.effect then Effect(r.places, op) else r.places,
               r.at + 1,
               if fate.Fine? then Done else if fate.Fails? then Failed else Dead)
  }

  // ---------------------------------------------------------------- the transaction on values

  /** Acknowledge, publish, then write the current file; the journal stays. */
  function Continued(fates: Fates, r: Progress, candidate: Theme): Progress {
    var a := Then(fates, Then(fates, r, Checkpoint), Acknowledge(candidate));
    var b := Then(fates, Then(fates, a, Checkpoint), Checkpoint);
    var c := Then(fates, Then(fates, b, Publish(candidate)), Checkpoint);
    Then(fates, Then(fates, c, WriteCurrent(candidate)), Checkpoint)
  }

  function CleanedUp(fates: Fates, r: Progress): Progress {
    var a := Then(fates, Then(fates, r, Checkpoint), RemoveJournal);
    var b := Then(fates, Then(fates, a, Checkpoint), Sync);
    Then(fates, b, Checkpoint)
  }

  /** Acknowledge the previous theme, write it, publish it. */
  function Undone(fates: Fates, r: Progress, previous: Theme): Progress {
    var a := Then(fates, Then(fates, r, Acknowledge(previous)), Checkpoint);
    var b := Then(fates, Then(fates, a, Checkpoint), WriteCurrent(previous));
    Then(fates, Then(fates, b, Checkpoint), Publish(previous))
  }

  /** Undoes, then removes the journal unobserved; when that fails the journal is written back. */
  function RolledBack(fates: Fates, r: Progress, j: ApplyJournal): Progress {
    var undone := Undone(fates, r, j.previous);
    var removed := Then(fates, Then(fates, undone, RemoveJournal), Sync);
    if undone.step == Done && removed.step == Failed then
      var restored := Then(fates, removed.(step := Done), WriteJournal(j));
      restored.(step := if restored.step == Dead then Dead else Failed)
    else removed
  }

  /** After a failed cleanup: write the journal back if possible, and roll back in any case. */
  function Recovered(fates: Fates, r: Progress, j: ApplyJournal): Progress {
    var written := Then(fates, r, WriteJournal(j));
    match written.step
    case Dead => written
    case Failed => RolledBack(fates, written.(step := Done), j)
    case Done =>
      var observed := Then(fates, written, Checkpoint);
      if observed.step != Done then observed else RolledBack(fates, observed, j)
  }

  function Transacted(fates: Fates, r: Progress, j: ApplyJournal): Progress {
    var written := Then(fates, r, WriteJournal(j));
    if written.step != Done then written else Journalled(fates, written, j)
  }

  /** The transaction once its journal is written. */
  function Journalled(fates: Fates, r: Progress, j: ApplyJournal): Progress {
    var continued := Continued(fates, r, j.candidate);
    match continued.step
    case Dead => continued
    case Failed => Failing(RolledBack(fates, continued.(step := Done), j))
    case Done =>
      var cleaned := CleanedUp(fates, continued);
      if cleaned.step == Failed then Failing(Recovered(fates, cleaned.(step := Done), j)) else cleaned
  }

  /** A finished undo still fails the apply. */
  function Failing(r: Progress): Progress {
    r.(step := if r.step == Dead then Dead else Failed)
  }

  // ---------------------------------------------------------------- when agreement is lost

  predicate FineFrom(fates: Fates, from: nat, n: nat) {
    forall i :: from <= i < from + n ==> At(fates, i).Fine?
  }

  /**
    The cleanup that starts at operation 9 fails at operation `c` after the journal is gone, and the
    next operation, writing it back, fails without effect.
   */
  predicate LosesJournal(fates: Fates, c: nat) {
    && 10 <= c <= 13 && FineFrom(fates, 0, c)
    && At(fates, c).Fails? && (c == 10 ==> At(fates, c).effect)
    && At(fates, c + 1) == Fails(false)
  }

  /** The six operations of an undo stop after the first of them took effect and before the last one did. */
  predicate StopsHalfway(fates: Fates, from: nat) {
    exists s :: from <= s <= from + 5 && StopsAt(fates, from, s)
  }

  predicate StopsAt(fates: Fates, from: nat, s: nat) {
    && from <= s <= from + 5 && FineFrom(fates, from, s - from) && !At(fates, s).Fine?
    && (s == from ==> At(fates, s).effect) && (s == from + 5 ==> !At(fates, s).effect)
  }

  /** The failures that leave the places torn apart without a journal. */
  predicate Tears(fates: Fates) {
    !fates.reliable && exists c :: 10 <= c <= 13 && LosesJournal(fates, c) && StopsHalfway(fates, c + 2)
  }

  lemma ContinueEnds(fates: Fates, r: Progress, candidate: Theme)
    requires r.step == Done
    ensures var e := Continued(fates, r, candidate);
            && e.places.journal == r.places.journal
            && (e.step == Done ==> e.at == r.at + 8 && Agreed(e.places, candidate))
            && (!fates.reliable ==> (e.step == Done <==> FineFrom(fates, r.at, 8)))
            && (FineFrom(fates, r.at, 8) ==> e.step == Done)
  {
    assert FineFrom(fates, r.at, 8) <==>
           At(fates, r.at).Fine? && At(fates, r.at + 1).Fine? && At(fates, r.at + 2).Fine? && At(fates, r.at + 3).Fine?
           && At(fates, r.at + 4).Fine? && At(fates, r.at + 5).Fine? && At(fates, r.at + 6).Fine?
           && At(fates, r.at + 7).Fine?;
  }

  /** An undo under a journal keeps it until all three places are back. */
  lemma ProtectedRollback(fates: Fates, r: Progress, j: ApplyJournal)
    requires r.step == Done && r.places.journal == Some(j)
    ensures var e := RolledBack(fates, r, j);
            && (e.places.journal == Some(j) || (e.places.journal == None && Agreed(e.places, j.previous)))
            && (e.step == Done ==> e.places.journal == None)
  {
    UndoEnds(fates, r, j.previous);
  }

  lemma UndoEnds(fates: Fates, r: Progress, previous: Theme)
    requires r.step == Done
    ensures var e := Undone(fates, r, previous);
            && e.places.journal == r.places.journal
            && (e.step == Done ==> Agreed(e.places, previous))
            && (fates.list == [] ==> e.step == Done)
  {
  }

  /** Where an undo without journal leaves the places that all showed the candidate. */
  lemma UndoHalfway(fates: Fates, r: Progress, candidate: Theme, previous: Theme)
    requires r.step == Done && !fates.reliable && Agreed(r.places, candidate) && candidate != previous
    ensures var e := Undone(fates, r, previous);
            && (StopsHalfway(fates, r.at) <==> !Agreed(e.places, candidate) && !Agreed(e.places, previous))
            && (e.step == Done ==> !StopsHalfway(fates, r.at))
  {
    var e := Undone(fates, r, previous);
    var s: nat := FirstNotFine(fates, r.at, 6);
    if s < r.at + 6 {
      assert StopsHalfway(fates, r.at) <==> StopsAt(fates, r.at, s) by {
        OnlyOneStop(fates, r.at, s);
      }
      assert s == r.at || s == r.at + 1 || s == r.at + 2 || s == r.at + 3 || s == r.at + 4 || s == r.at + 5;
    } else {
      assert At(fates, r.at).Fine? && At(fates, r.at + 1).Fine? && At(fates, r.at + 2).Fine?;
      assert At(fates, r.at + 3).Fine? && At(fates, r.at + 4).Fine? && At(fates, r.at + 5).Fine?;
    }
  }

  /** The first of `n` operations that is not fine, or the end. */
  function FirstNotFine(fates: Fates, from: nat, n: nat): (s: nat)
    ensures from <= s <= from + n && FineFrom(fates, from, s - from)
    ensures s < from + n ==> !At(fates, s).Fine?
    decreases n
  {
    if n == 0 || !At(fates, from).Fine? then from
    else
      var s := FirstNotFine(fates, from + 1, n - 1);
      assert forall i :: from <= i < s ==> i == from || At(fates, i).Fine?;
      s
  }

  lemma OnlyOneStop(fates: Fates, from: nat, s: nat)
    requires from <= s && FineFrom(fates, from, s - from) && !At(fates, s).Fine?
    ensures forall other: nat :: StopsAt(fates, from, other) ==> other == s
  {
    forall other: nat | StopsAt(fates, from, other) ensures other == s {
      var there, here := At(fates, other), At(fates, s);
    }
  }

  /** An undo without a journal tears the places apart exactly when it stops halfway. */
  lemma UnprotectedRollback(fates: Fates, r: Progress, j: ApplyJournal)
    requires r.step == Done && !fates.reliable && r.places.journal == None
    requires Agreed(r.places, j.candidate) && j.candidate != j.previous
    ensures var e := RolledBack(fates, r, j);
            if StopsHalfway(fates, r.at) then Torn(e.places) else Settled(e.places, j)
  {
    UndoHalfway(fates, r, j.candidate, j.previous);
    UndoEnds(fates, r, j.previous);
  }

  /** The cleanup changes nothing but the journal, which is gone once the removal took effect. */
  lemma CleanupEnds(fates: Fates, r: Progress)
    requires r.step == Done && r.places.journal.Some?
    ensures var e := CleanedUp(fates, r);
            && e.places == r.places.(journal := e.places.journal)
            && (e.places.journal == None || e.places.journal == r.places.journal)
            && (e.step == Done ==> e.places.journal == None)
            && (fates.list == [] ==> e.step == Done)
            && (e.step != Done ==> r.at < e.at <= r.at + 5)
            && (!fates.reliable && e.step != Done ==>
                  && FineFrom(fates, r.at, e.at - 1 - r.at) && !At(fates, e.at - 1).Fine?
                  && (e.step == Failed <==> At(fates, e.at - 1).Fails?)
                  && (e.places.journal == None <==>
                      r.at + 2 < e.at || (e.at == r.at + 2 && At(fates, e.at - 1).effect)))
            && (!fates.reliable && e.step == Done ==> FineFrom(fates, r.at, 5))
  {
    assert At(fates, r.at).Fine? ==> FineFrom(fates, r.at, 1);
    assert At(fates, r.at).Fine? && At(fates, r.at + 1).Fine? ==> FineFrom(fates, r.at, 2);
    assert At(fates, r.at).Fine? && At(fates, r.at + 1).Fine? && At(fates, r.at + 2).Fine? ==> FineFrom(fates, r.at, 3);
  }

  /** Applying the theme that is already there cannot tear anything apart. */
  lemma SameThemeStays(fates: Fates, r: Progress, j: ApplyJournal)
    requires r.step == Done && Agreed(r.places, j.previous) && j.candidate == j.previous && r.places.journal == Some(j)
    ensures var e := Journalled(fates, r, j);
            && Agreed(e.places, j.previous) && (e.places.journal == None || e.places.journal == Some(j))
            && (e.step == Done ==> e.places.journal == None)
            && (fates.list == [] ==> e.step == Done)
  {
    var theme := j.previous;
    var continued := Continued(fates, r, theme);
    var cleaned := CleanedUp(fates, continued);
    ContinueKeepsTheme(fates, r, theme);
    ContinueEnds(fates, r, theme);
    if continued.step == Done {
      CleanupEnds(fates, continued);
    }
    RollbackKeepsTheme(fates, continued.(step := Done), j);
    CleanupKeepsTheme(fates, continued, theme);
    RecoveryKeepsTheme(fates, cleaned.(step := Done), j);
  }

  /** All three places show the previous theme, and a journal is this one. */
  predicate AtPrevious(p: Places, j: ApplyJournal) {
    Agreed(p, j.previous) && (p.journal == None || p.journal == Some(j))
  }

  lemma RollbackKeepsTheme(fates: Fates, r: Progress, j: ApplyJournal)
    requires AtPrevious(r.places, j)
    ensures AtPrevious(RolledBack(fates, r, j).places, j)
  {
    UndoKeepsTheme(fates, r, j.previous);
  }

  lemma RecoveryKeepsTheme(fates: Fates, r: Progress, j: ApplyJournal)
    requires AtPrevious(r.places, j)
    ensures AtPrevious(Recovered(fates, r, j).places, j)
  {
    var written := Then(fates, r, WriteJournal(j));
    RollbackKeepsTheme(fates, written.(step := Done), j);
    RollbackKeepsTheme(fates, Then(fates, written, Checkpoint), j);
  }

  lemma UndoKeepsTheme(fates: Fates, r: Progress, theme: Theme)
    requires Agreed(r.places, theme)
    ensures Agreed(Undone(fates, r, theme).places, theme) && Undone(fates, r, theme).places.journal == r.places.journal
  {
  }

  lemma ContinueKeepsTheme(fates: Fates, r: Progress, theme: Theme)
    requires Agreed(r.places, theme)
    ensures var e := Continued(fates, r, theme).places; Agreed(e, theme) && e.journal == r.places.journal
  {
  }

  lemma CleanupKeepsTheme(fates: Fates, r: Progress, theme: Theme)
    requires Agreed(r.places, theme)
    ensures Agreed(CleanedUp(fates, r).places, theme)
    ensures CleanedUp(fates, r).places.journal == None || CleanedUp(fates, r).places.journal == r.places.journal
  {
  }

  /** Recovering from a failed cleanup: torn exactly when the write is lost and the undo stops halfway. */
  lemma RecoveryEnds(fates: Fates, r: Progress, j: ApplyJournal)
    requires r.step == Done && Agreed(r.places, j.candidate) && j.candidate != j.previous
    requires r.places.journal == None || r.places.journal == Some(j)
    ensures var e := Recovered(fates, r, j);
            if r.places.journal == None && !fates.reliable
               && At(fates, r.at) == Fails(false) && StopsHalfway(fates, r.at + 1)
            then Torn(e.places) else Settled(e.places, j)
  {
    var written := Then(fates, r, WriteJournal(j));
    if written.step == Failed {
      var q := written.(step := Done);
      if q.places.journal == None {
        UnprotectedRollback(fates, q, j);
      } else {
        ProtectedRollback(fates, q, j);
      }
    } else if written.step == Done {
      var observed := Then(fates, written, Checkpoint);
      if observed.step == Done {
        ProtectedRollback(fates, observed, j);
      }
    }
  }

  /** After a finished installation: torn exactly when the cleanup loses the journal and the undo stops halfway. */
  lemma CleanupTearsExactly(fates: Fates, r: Progress, j: ApplyJournal)
    requires r.step == Done && r.at == 9 && (fates.reliable || FineFrom(fates, 0, 9))
    requires r.places.journal == Some(j) && Agreed(r.places, j.candidate) && j.candidate != j.previous
    ensures var cleaned := CleanedUp(fates, r);
            var e := if cleaned.step == Failed then Recovered(fates, cleaned.(step := Done), j) else cleaned;
            && (if Tears(fates) then Torn(e.places) else Settled(e.places, j))
            && (cleaned.step == Done ==> e.places.journal == None && Agreed(e.places, j.candidate))
  {
    var cleaned := CleanedUp(fates, r);
    CleanupEnds(fates, r);
    if cleaned.step == Failed {
      RecoveryEnds(fates, cleaned.(step := Done), j);
    }
    if !fates.reliable {
      if cleaned.step == Done {
        FineNeverTears(fates);
      } else {
        assert FineFrom(fates, 0, cleaned.at - 1);
        OnlyOneLoss(fates, cleaned.at - 1);
      }
    }
  }

  lemma FineNeverTears(fates: Fates)
    requires FineFrom(fates, 0, 14)
    ensures !Tears(fates)
  {
    forall c | 10 <= c <= 13 ensures !LosesJournal(fates, c) {
      assert At(fates, c).Fine?;
    }
  }

  /** Only the first failure can be the one that loses the journal. */
  lemma OnlyOneLoss(fates: Fates, c: nat)
    requires FineFrom(fates, 0, c) && !At(fates, c).Fine? && !fates.reliable
    ensures Tears(fates) <==> 10 <= c <= 13 && LosesJournal(fates, c) && StopsHalfway(fates, c + 2)
  {
    forall other: nat | LosesJournal(fates, other) ensures other == c {
      var there, here := At(fates, other), At(fates, c);
    }
  }

  /**
    Agreement, over all fates: an apply that starts in agreement ends in disagreement without a journal
    exactly when storage is unreliable, the themes differ and the failures fall as `Tears` says.
   */
  lemma ApplyTearsExactly(fates: Fates, r: Progress, j: ApplyJournal)
    requires r.step == Done && r.at == 0 && r.places.journal == None && Agreed(r.places, j.previous)
    ensures var e := Transacted(fates, r, j);
            && (if Tears(fates) && j.candidate != j.previous then Torn(e.places) else Settled(e.places, j))
            && (e.step == Done ==> e.places.journal == None && Agreed(e.places, j.candidate))
            && (fates.list == [] ==> e.step == Done)
  {
    var written := Then(fates, r, WriteJournal(j));
    if written.step != Done {
      if !fates.reliable {
        NotFineNeverTears(fates, 0);
      }
    } else if j.candidate == j.previous {
      SameThemeStays(fates, written, j);
    } else {
      JournalledTearsExactly(fates, written, j);
    }
  }

  lemma JournalledTearsExactly(fates: Fates, r: Progress, j: ApplyJournal)
    requires r.step == Done && r.at == 1 && r.places.journal == Some(j) && j.candidate != j.previous
    requires fates.reliable || At(fates, 0).Fine?
    ensures var e := Journalled(fates, r, j);
            && (if Tears(fates) then Torn(e.places) else Settled(e.places, j))
            && (e.step == Done ==> e.places.journal == None && Agreed(e.places, j.candidate))
            && (fates.list == [] ==> e.step == Done)
  {
    var continued := Continued(fates, r, j.candidate);
    ContinueEnds(fates, r, j.candidate);
    if continued.step == Done {
      CleanupTearsExactly(fates, continued, j);
    } else {
      if continued.step == Failed {
        ProtectedRollback(fates, continued.(step := Done), j);
      }
      if !fates.reliable {
        NotFineNeverTears(fates, FirstNotFine(fates, 1, 8));
      }
    }
  }

  lemma DoneIsAgreed(fates: Fates, r: Progress, j: ApplyJournal)
    requires r.step == Done && Transacted(fates, r, j).step == Done
    ensures var p := Transacted(fates, r, j).places;
            p.journal == None && Agreed(p, j.candidate) && p.generation == r.places.generation + 1
  {
    var written := Then(fates, r, WriteJournal(j));
    ContinueEnds(fates, written, j.candidate);
    CleanupEnds(fates, Continued(fates, written, j.candidate));
  }

  lemma NotFineNeverTears(fates: Fates, i: nat)
    requires i < 10 && !At(fates, i).Fine?
    ensures !Tears(fates)
  {
    forall c | 10 <= c <= 13 ensures !LosesJournal(fates, c) {
      assert FineFrom(fates, 0, c) ==> At(fates, i).Fine?;
    }
  }

  // ---------------------------------------------------------------- where an apply ends

  /** The operation at a position of an apply goes well; reliable storage hides failures of the storage ones. */
  predicate Passes(fates: Fates, i: nat) {
    At(fates, i).Fine? || (fates.reliable && At(fates, i).Fails? && i in {0, 7, 10, 12})
  }

  predicate PassFrom(fates: Fates, from: nat, to: nat) {
    forall i :: from <= i < to ==> Passes(fates, i)
  }

  /** One of the fourteen operations of an apply is the first that goes wrong, and then nothing does for a while. */
  predicate OneAccident(fates: Fates, i: nat) {
    i < 14 && PassFrom(fates, 0, i) && !Passes(fates, i) && FineFrom(fates, i + 1, 10)
  }

  /**
    Where a single accident leaves an apply.  After a failure the previous theme is back everywhere and
    no journal is left, unless the failure was an already effective write of the journal.  A death
    leaves the journal, from its write up to its removal; before and after, the places agree.
   */
  predicate AccidentEnds(fates: Fates, i: nat, j: ApplyJournal, p: Places) {
    match At(fates, i)
    case Fine => false
    case Fails(effect) =>
      Agreed(p, j.previous) && p.journal == if i == 0 && effect then Some(j) else None
    case Dies(effect) =>
      && (p.journal == None <==> (i == 0 && !effect) || i > 10 || (i == 10 && effect))
      && (p.journal.Some? ==> p.journal == Some(j))
      && (i == 0 ==> Agreed(p, j.previous))
      && (i >= 9 ==> Agreed(p, j.candidate))
      // the desktop acknowledges first, then the theme is published, then it becomes the current one
      && var done := if effect then i + 1 else i;
         && p.acknowledged == (if done > 2 then j.candidate else j.previous)
         && p.published == (if done > 5 then j.candidate else j.previous)
         && p.current == (if done > 7 then j.candidate else j.previous)
  }

  function StepOf(fate: Fate): Step {
    match fate
    case Fine => Done
    case Fails(_) => Failed
    case Dies(_) => Dead
  }

  lemma InstallationFinishes(fates: Fates, r: Progress, candidate: Theme)
    requires r.step == Done && r.at == 1 && PassFrom(fates, 1, 9)
    ensures var e := Continued(fates, r, candidate);
            e.step == Done && e.at == 9 && Agreed(e.places, candidate) && e.places.journal == r.places.journal
  {
    assert Passes(fates, 1) && Passes(fates, 2) && Passes(fates, 3) && Passes(fates, 4);
    assert Passes(fates, 5) && Passes(fates, 6) && Passes(fates, 7) && Passes(fates, 8);
  }

  /** The places when the operations below position `n` of an apply have taken effect. */
  function InstalledBefore(p: Places, candidate: Theme, n: nat): Places {
    p.(acknowledged := if n > 2 then candidate else p.acknowledged,
       published := if n > 5 then candidate else p.published,
       generation := if n > 5 then p.generation + 1 else p.generation,
       current := if n > 7 then candidate else p.current)
  }

  lemma InstallationStops(fates: Fates, r: Progress, candidate: Theme, i: nat)
    requires r.step == Done && r.at == 1 && 1 <= i < 9 && PassFrom(fates, 1, i) && !Passes(fates, i)
    ensures var e := Continued(fates, r, candidate);
            && e.step == StepOf(At(fates, i)) && e.at == i + 1
            && e.places == InstalledBefore(r.places, candidate, if At(fates, i).effect then i + 1 else i)
  {
    assert (i > 1 ==> Passes(fates, 1)) && (i > 2 ==> Passes(fates, 2)) && (i > 3 ==> Passes(fates, 3));
    assert (i > 4 ==> Passes(fates, 4)) && (i > 5 ==> Passes(fates, 5)) && (i > 6 ==> Passes(fates, 6));
    assert i > 7 ==> Passes(fates, 7);
    assert i == 1 || i == 2 || i == 3 || i == 4 || i == 5 || i == 6 || i == 7 || i == 8;
  }

  lemma CleanupFinishes(fates: Fates, r: Progress)
    requires r.step == Done && r.at == 9 && PassFrom(fates, 9, 14)
    ensures CleanedUp(fates, r) == Progress(r.places.(journal := None), 14, Done)
  {
    assert Passes(fates, 9) && Passes(fates, 10) && Passes(fates, 11) && Passes(fates, 12) && Passes(fates, 13);
  }

  lemma CleanupStops(fates: Fates, r: Progress, i: nat)
    requires r.step == Done && r.at == 9 && 9 <= i < 14 && PassFrom(fates, 9, i) && !Passes(fates, i)
    ensures var removed := i > 10 || (i == 10 && At(fates, 10).effect);
            CleanedUp(fates, r)
            == Progress(if removed then r.places.(journal := None) else r.places, i + 1, StepOf(At(fates, i)))
  {
    assert (i > 9 ==> Passes(fates, 9)) && (i > 10 ==> Passes(fates, 10));
    assert (i > 11 ==> Passes(fates, 11)) && (i > 12 ==> Passes(fates, 12));
    assert i == 9 || i == 10 || i == 11 || i == 12 || i == 13;
  }

  lemma RollbackFinishes(fates: Fates, r: Progress, j: ApplyJournal)
    requires r.step == Done && FineFrom(fates, r.at, 8)
    ensures var e := RolledBack(fates, r, j);
            e.step == Done && Agreed(e.places, j.previous) && e.places.journal == None
  {
    assert At(fates, r.at).Fine? && At(fates, r.at + 1).Fine? && At(fates, r.at + 2).Fine?;
    assert At(fates, r.at + 3).Fine? && At(fates, r.at + 4).Fine? && At(fates, r.at + 5).Fine?;
    assert At(fates, r.at + 6).Fine? && At(fates, r.at + 7).Fine?;
  }

  /** A rollback that cannot finish its cleanup writes the journal back, so that it can be repeated. */
  lemma RollbackRestoresJournal(fates: Fates, r: Progress, j: ApplyJournal, i: nat)
    requires r.step == Done && !fates.reliable && (i == r.at + 6 || i == r.at + 7)
    requires FineFrom(fates, r.at, i - r.at) && At(fates, i).Fails? && At(fates, i + 1).Fine?
    ensures var e := RolledBack(fates, r, j);
            e.step == Failed && Agreed(e.places, j.previous) && e.places.journal == Some(j)
  {
    assert At(fates, r.at).Fine? && At(fates, r.at + 1).Fine? && At(fates, r.at + 2).Fine?;
    assert At(fates, r.at + 3).Fine? && At(fates, r.at + 4).Fine? && At(fates, r.at + 5).Fine?;
    assert i == r.at + 7 ==> At(fates, r.at + 6).Fine?;
  }

  lemma RecoveryFinishes(fates: Fates, r: Progress, j: ApplyJournal)
    requires r.step == Done && FineFrom(fates, r.at, 10)
    ensures var e := Recovered(fates, r, j);
            e.step == Done && Agreed(e.places, j.previous) && e.places.journal == None
  {
    assert At(fates, r.at).Fine? && At(fates, r.at + 1).Fine?;
    var observed := Then(fates, Then(fates, r, WriteJournal(j)), Checkpoint);
    assert forall i :: r.at + 2 <= i < r.at + 10 ==> At(fates, i).Fine?;
    RollbackFinishes(fates, observed, j);
  }

  /** An apply goes through exactly when its fourteen operations do. */
  lemma AppliedExactly(fates: Fates, r: Progress, j: ApplyJournal)
    requires r.step == Done && r.at == 0
    ensures Transacted(fates, r, j).step == Done <==> PassFrom(fates, 0, 14)
  {
    var written := Then(fates, r, WriteJournal(j));
    var i := FirstObstacle(fates, 0, 14);
    if 1 <= i < 9 {
      InstallationStops(fates, written, j.candidate, i);
    } else if i >= 9 {
      InstallationFinishes(fates, written, j.candidate);
      var continued := Continued(fates, written, j.candidate);
      if i < 14 {
        CleanupStops(fates, continued, i);
      } else {
        CleanupFinishes(fates, continued);
      }
    }
  }

  /** The first of `n` operations that does not go well, or the end. */
  function FirstObstacle(fates: Fates, from: nat, n: nat): (i: nat)
    ensures from <= i <= from + n && PassFrom(fates, from, i)
    ensures i < from + n ==> !Passes(fates, i)
    decreases n
  {
    if n == 0 || !Passes(fates, from) then from
    else
      var i := FirstObstacle(fates, from + 1, n - 1);
      assert forall k :: from <= k < i ==> k == from || Passes(fates, k);
      i
  }

  /** Over all positions and kinds of a single accident. */
  lemma AccidentEndsAsStated(fates: Fates, r: Progress, j: ApplyJournal, i: nat)
    requires r.step == Done && r.at == 0 && r.places.journal == None && Agreed(r.places, j.previous)
    requires OneAccident(fates, i)
    ensures var e := Transacted(fates, r, j); e.step == StepOf(At(fates, i)) && AccidentEnds(fates, i, j, e.places)
  {
    if i > 0 {
      assert Passes(fates, 0);
      var written := Then(fates, r, WriteJournal(j));
      if i < 9 {
        InstallationStops(fates, written, j.candidate, i);
        if At(fates, i).Fails? {
          RollbackFinishes(fates, Continued(fates, written, j.candidate).(step := Done), j);
        }
      } else {
        InstallationFinishes(fates, written, j.candidate);
        var continued := Continued(fates, written, j.candidate);
        CleanupStops(fates, continued, i);
        if At(fates, i).Fails? {
          RecoveryFinishes(fates, CleanedUp(fates, continued).(step := Done), j);
        }
      }
    }
  }

  /** The journal is lost and the undo that follows fails before it has any effect. */
  predicate KeepsCandidate(fates: Fates) {
    !fates.reliable && exists c :: 10 <= c <= 13 && LosesJournal(fates, c) && At(fates, c + 2) == Fails(false)
  }

  /** Where an undo without a journal ends that fails without tearing the places apart. */
  lemma UnprotectedSide(fates: Fates, r: Progress, j: ApplyJournal)
    requires r.step == Done && !fates.reliable && r.places.journal == None
    requires Agreed(r.places, j.candidate) && j.candidate != j.previous && !StopsHalfway(fates, r.at)
    ensures var e := RolledBack(fates, r, j);
            && (At(fates, r.at) == Fails(false) ==> Agreed(e.places, j.candidate))
            && (At(fates, r.at) != Fails(false) && e.step != Dead ==> Agreed(e.places, j.previous))
  {
    UndoHalfway(fates, r, j.candidate, j.previous);
    UndoEnds(fates, r, j.previous);
    var e := Undone(fates, r, j.previous);
    if e.step == Failed && At(fates, r.at) != Fails(false) {
      assert At(fates, r.at).Fine? || At(fates, r.at).effect;
    }
  }

  lemma RecoverySide(fates: Fates, r: Progress, j: ApplyJournal)
    requires r.step == Done && Agreed(r.places, j.candidate) && j.candidate != j.previous
    requires r.places.journal == None || r.places.journal == Some(j)
    requires !(r.places.journal == None && !fates.reliable
               && At(fates, r.at) == Fails(false) && StopsHalfway(fates, r.at + 1))
    ensures var e := Recovered(fates, r, j);
            e.step != Dead && e.places.journal == None ==>
              Agreed(e.places, if r.places.journal == None && !fates.reliable
                                  && At(fates, r.at) == Fails(false) && At(fates, r.at + 1) == Fails(false)
                               then j.candidate else j.previous)
  {
    var written := Then(fates, r, WriteJournal(j));
    if written.step == Failed {
      var q := written.(step := Done);
      if q.places.journal == None {
        UnprotectedSide(fates, q, j);
      } else {
        ProtectedRollback(fates, q, j);
      }
    } else if written.step == Done {
      var observed := Then(fates, written, Checkpoint);
      if observed.step == Done {
        ProtectedRollback(fates, observed, j);
      }
    }
  }

  lemma OnlyOneKeeping(fates: Fates, c: nat)
    requires FineFrom(fates, 0, c) && !At(fates, c).Fine? && !fates.reliable
    ensures KeepsCandidate(fates) <==> 10 <= c <= 13 && LosesJournal(fates, c) && At(fates, c + 2) == Fails(false)
  {
    forall other: nat | LosesJournal(fates, other) ensures other == c {
      var there, here := At(fates, other), At(fates, c);
    }
  }

  /**
    Over all fates: an apply that fails and leaves no journal has the previous theme back everywhere,
    except that it leaves the candidate everywhere when `KeepsCandidate`, and tears when `Tears`.
   */
  lemma FailedApplySide(fates: Fates, r: Progress, j: ApplyJournal)
    requires r.step == Done && r.at == 0 && r.places.journal == None && Agreed(r.places, j.previous)
    requires j.candidate != j.previous && !Tears(fates)
    ensures var e := Transacted(fates, r, j);
            e.step == Failed && e.places.journal == None ==>
              Agreed(e.places, if KeepsCandidate(fates) then j.candidate else j.previous)
  {
    var written := Then(fates, r, WriteJournal(j));
    if written.step != Done {
      if !fates.reliable {
        OnlyOneKeeping(fates, 0);
      }
    } else {
      InstalledSide(fates, written, j);
    }
  }

  /** It does fail then, and leaves the candidate everywhere. */
  lemma FailedApplyKeepsCandidate(fates: Fates, r: Progress, j: ApplyJournal)
    requires r.step == Done && r.at == 0 && KeepsCandidate(fates)
    ensures var e := Transacted(fates, r, j);
            e.step == Failed && e.places.journal == None && Agreed(e.places, j.candidate)
  {
    var c :| 10 <= c <= 13 && LosesJournal(fates, c) && At(fates, c + 2) == Fails(false);
    assert At(fates, 0).Fine?;
    var written := Then(fates, r, WriteJournal(j));
    InstallationFinishes(fates, written, j.candidate);
    var continued := Continued(fates, written, j.candidate);
    CleanupStops(fates, continued, c);
    var cleaned := CleanedUp(fates, continued);
    UndoFailsAtOnce(fates, cleaned.(step := Done), j);
  }

  lemma UndoFailsAtOnce(fates: Fates, r: Progress, j: ApplyJournal)
    requires r.step == Done && !fates.reliable && At(fates, r.at) == At(fates, r.at + 1) == Fails(false)
    ensures var e := Recovered(fates, r, j); e.step == Failed && e.places == r.places
  {
  }

  /** What is known of an apply that does not go through. */
  lemma FailedApply(fates: Fates, r: Progress, j: ApplyJournal)
    requires r.step == Done && r.at == 0 && r.places.journal == None && Agreed(r.places, j.previous)
    ensures var e := Transacted(fates, r, j);
            && (forall i :: OneAccident(fates, i) ==>
                  e.step == StepOf(At(fates, i)) && AccidentEnds(fates, i, j, e.places))
            && (j.candidate != j.previous && !Tears(fates) && e.step == Failed && e.places.journal == None ==>
                  Agreed(e.places, if KeepsCandidate(fates) then j.candidate else j.previous))
  {
    forall i | OneAccident(fates, i)
      ensures var e := Transacted(fates, r, j);
              e.step == StepOf(At(fates, i)) && AccidentEnds(fates, i, j, e.places)
    {
      AccidentEndsAsStated(fates, r, j, i);
    }
    if j.candidate != j.previous && !Tears(fates) {
      FailedApplySide(fates, r, j);
    }
  }

  lemma InstalledSide(fates: Fates, r: Progress, j: ApplyJournal)
    requires r.step == Done && r.at == 1 && r.places.journal == Some(j) && j.candidate != j.previous
    requires (fates.reliable || At(fates, 0).Fine?) && !Tears(fates)
    ensures var e := Journalled(fates, r, j);
            e.step == Failed && e.places.journal == None ==>
              Agreed(e.places, if KeepsCandidate(fates) then j.candidate else j.previous)
  {
    var continued := Continued(fates, r, j.candidate);
    ContinueEnds(fates, r, j.candidate);
    if continued.step == Done {
      CleanedSide(fates, continued, j);
    } else {
      if continued.step == Failed {
        ProtectedRollback(fates, continued.(step := Done), j);
      }
      if !fates.reliable {
        OnlyOneKeeping(fates, FirstNotFine(fates, 0, 9));
      }
    }
  }

  lemma CleanedSide(fates: Fates, r: Progress, j: ApplyJournal)
    requires r.step == Done && r.at == 9 && (fates.reliable || FineFrom(fates, 0, 9)) && !Tears(fates)
    requires r.places.journal == Some(j) && Agreed(r.places, j.candidate) && j.candidate != j.previous
    ensures var cleaned := CleanedUp(fates, r);
            cleaned.step == Failed ==>
              var e := Recovered(fates, cleaned.(step := Done), j);
              e.step != Dead && e.places.journal == None ==>
                Agreed(e.places, if KeepsCandidate(fates) then j.candidate else j.previous)
  {
    var cleaned := CleanedUp(fates, r);
    CleanupEnds(fates, r);
    if cleaned.step == Failed {
      if !fates.reliable {
        assert FineFrom(fates, 0, cleaned.at - 1);
        OnlyOneLoss(fates, cleaned.at - 1);
        OnlyOneKeeping(fates, cleaned.at - 1);
      }
      RecoverySide(fates, cleaned.(step := Done), j);
    }
  }

  // ---------------------------------------------------------------- the processes

  datatype Outcome = Applied | NotApplied | Rejected | Reconciled | NothingToReconcile | Killed

  class ThemeWorld {
    // durable and outside
    var journal: Option<ApplyJournal>
    var current: Theme
    var acknowledged: Theme
    var published: Theme
    var generation: nat
    // the process
    var preview: Option<Theme>
    var fates: Fates
    var cursor: nat

    function Now(): Places
      reads this
    {
      Places(journal, current, acknowledged, published, generation)
    }

    function Here(step: Step): Progress
      reads this
    {
      Progress(Now(), cursor, step)
    }

    constructor (theme: Theme, generation: nat)
      ensures Now() == Places(None, theme, theme, theme, generation) && preview == None
      ensures fates == Fates([], true) && cursor == 0
    {
      journal, current, acknowledged, published := None, theme, theme, theme;
      this.generation := generation;
      preview, fates, cursor := None, Fates([], true), 0;
    }

    /** A process starts with fates of its own and without a preview. */
    method Begin(fates: Fates)
      modifies this`fates, this`cursor, this`preview
      ensures this.fates == fates && cursor == 0
    {
      this.fates, cursor, preview := fates, 0, None;
    }

    /** Tries one outside operation. */
    method Attempt(op: Operation) returns (step: Step)
      modifies this`journal, this`current, this`acknowledged, this`published, this`generation, this`cursor
      ensures Here(step) == Then(fates, old(Here(Done)), op)
    {
      var fate := FateOf(fates, cursor, op);
      cursor := cursor + 1;
      if fate.Fine? || fate.effect {
        match op {
          case WriteJournal(document) => journal := Some(document);
          case RemoveJournal => journal := None;
          case WriteCurrent(theme) => current := theme;
          case Acknowledge(theme) => acknowledged := theme;
          case Publish(theme) => published, generation := theme, generation + 1;
          case Sync =>
          case Checkpoint =>
        }
      }
      step := if fate.Fine? then Done else if fate.Fails? then Failed else Dead;
    }

    method ContinueApply(candidate: Theme) returns (step: Step)
      modifies this`journal, this`current, this`acknowledged, this`published, this`generation, this`cursor
      ensures Here(step) == Continued(fates, old(Here(Done)), candidate)
    {
      step := Attempt(Checkpoint);
      if step != Done { return; }
      step := Attempt(Acknowledge(candidate));
      if step != Done { return; }
      step := Attempt(Checkpoint);
      if step != Done { return; }
      step := Attempt(Checkpoint);
      if step != Done { return; }
      step := Attempt(Publish(candidate));
      if step != Done { return; }
      step := Attempt(Checkpoint);
      if step != Done { return; }
      step := Attempt(WriteCurrent(candidate));
      if step != Done { return; }
      step := Attempt(Checkpoint);
    }

    /** Removes the journal; an error may come before or after the removal. */
    method CleanupJournal() returns (step: Step)
      modifies this`journal, this`current, this`acknowledged, this`published, this`generation, this`cursor
      ensures Here(step) == CleanedUp(fates, old(Here(Done)))
    {
      step := Attempt(Checkpoint);
      if step != Done { return; }
      step := Attempt(RemoveJournal);
      if step != Done { return; }
      step := Attempt(Checkpoint);
      if step != Done { return; }
      step := Attempt(Sync);
      if step != Done { return; }
      step := Attempt(Checkpoint);
    }

    method Undo(previous: Theme) returns (step: Step)
      modifies this`journal, this`current, this`acknowledged, this`published, this`generation, this`cursor
      ensures Here(step) == Undone(fates, old(Here(Done)), previous)
    {
      step := Attempt(Acknowledge(previous));
      if step != Done { return; }
      step := Attempt(Checkpoint);
      if step != Done { return; }
      step := Attempt(Checkpoint);
      if step != Done { return; }
      step := Attempt(WriteCurrent(previous));
      if step != Done { return; }
      step := Attempt(Checkpoint);
      if step != Done { return; }
      step := Attempt(Publish(previous));
    }

    /** Returns all three places to the previous theme, then removes the journal or writes it back. */
    method Rollback(j: ApplyJournal) returns (step: Step)
      modifies this`journal, this`current, this`acknowledged, this`published, this`generation, this`cursor
      ensures Here(step) == RolledBack(fates, old(Here(Done)), j)
    {
      step := Undo(j.previous);
      if step != Done { return; }
      step := Attempt(RemoveJournal);
      if step == Done {
        step := Attempt(Sync);
      }
      if step == Failed {
        var restored := Attempt(WriteJournal(j));
        step := if restored == Dead then Dead else Failed;
      }
    }

    method RecoverCleanup(j: ApplyJournal) returns (step: Step)
      modifies this`journal, this`current, this`acknowledged, this`published, this`generation, this`cursor
      ensures Here(step) == Recovered(fates, old(Here(Done)), j)
    {
      step := Attempt(WriteJournal(j));
      if step == Done {
        step := Attempt(Checkpoint);
        if step != Done { return; }
      }
      if step != Dead {
        step := Rollback(j);
      }
    }

    /**
      Applies a theme.  The apply starts over with the fates of its process; over all of them, it ends
      torn apart exactly when the themes differ and the failures fall as `Tears` says.
     */
    method Apply(candidate: Theme, requestId: string, expectedGeneration: nat) returns (out: Outcome)
      requires cursor == 0
      modifies this`journal, this`current, this`acknowledged, this`published, this`generation, this`cursor, this`preview
      ensures out == Rejected <==> old(journal).Some? || old(generation) != expectedGeneration
      ensures out == Rejected ==> Now() == old(Now())
      ensures out != Rejected && !old(Torn(Now())) ==>
                var j := ApplyJournal(requestId, old(current), candidate);
                if Tears(fates) && candidate != old(current) then Torn(Now()) else Settled(Now(), j)
      ensures out == Applied ==> journal == None && Agreed(Now(), candidate) && preview == None
      ensures out == Applied ==> generation == old(generation) + 1
      ensures out != Applied ==> preview == old(preview)
      ensures out != Rejected ==> (out == Applied <==> PassFrom(fates, 0, 14))
      // a single accident
      ensures out != Rejected && !old(Torn(Now())) ==>
                forall i :: OneAccident(fates, i) ==>
                  && out == (if At(fates, i).Fails? then NotApplied else Killed)
                  && AccidentEnds(fates, i, ApplyJournal(requestId, old(current), candidate), Now())
      // any number of them
      ensures out == NotApplied && journal == None && candidate != old(current)
              && !old(Torn(Now())) && !Tears(fates) ==>
                Agreed(Now(), if KeepsCandidate(fates) then candidate else old(current))
      ensures out in {Rejected, Applied, NotApplied, Killed}
    {
      if journal.Some? || generation != expectedGeneration {
        return Rejected;
      }
      var j := ApplyJournal(requestId, current, candidate);
      ghost var start := Here(Done);
      var step := Transact(j);
      AppliedExactly(fates, start, j);
      if !Torn(start.places) {
        ApplyTearsExactly(fates, start, j);
        FailedApply(fates, start, j);
      }
      if step == Done {
        DoneIsAgreed(fates, start, j);
        preview := None;
        return Applied;
      }
      return if step == Dead then Killed else NotApplied;
    }

    method Transact(j: ApplyJournal) returns (step: Step)
      modifies this`journal, this`current, this`acknowledged, this`published, this`generation, this`cursor
      ensures Here(step) == Transacted(fates, old(Here(Done)), j)
    {
      step := Attempt(WriteJournal(j));
      if step != Done { return; }
      step := ContinueApply(j.candidate);
      if step == Failed {
        step := Rollback(j);
        return if step == Dead then Dead else Failed;
      }
      if step == Dead { return; }
      step := CleanupJournal();
      if step == Failed {
        step := RecoverCleanup(j);
        return if step == Dead then Dead else Failed;
      }
    }

    /** Undoes whatever an interrupted apply left behind. */
    method Reconcile() returns (out: Outcome)
      modifies this`journal, this`current, this`acknowledged, this`published, this`generation, this`cursor, this`preview
      ensures old(journal).None? ==> out == NothingToReconcile && Now() == old(Now())
      ensures old(journal).Some? ==>
                && (journal == old(journal) || (journal == None && Agreed(Now(), old(journal).value.previous)))
                && (out == Reconciled ==> journal == None && preview == None)
                && (FineFrom(fates, old(cursor), 8) ==> out == Reconciled)
                && out in {Reconciled, NotApplied, Killed}
    {
      if journal.None? {
        return NothingToReconcile;
      }
      ProtectedRollback(fates, Here(Done), journal.value);
      if FineFrom(fates, cursor, 8) {
        RollbackFinishes(fates, Here(Done), journal.value);
      }
      var step := Rollback(journal.value);
      if step != Done {
        return if step == Dead then Killed else NotApplied;
      }
      preview := None;
      return Reconciled;
    }
  }

  datatype Command =
    | ApplyTheme(candidate: Theme, requestId: string, expectedGeneration: nat)
    | ReconcileTheme

  datatype Process = Process(command: Command, fates: Fates)

  /**
    Runs of processes with arbitrary accidents.  With reliable storage, and without it unless the
    failures of some apply fall as `Tears` says, whenever no journal is left the acknowledged, published
    and current themes agree.
   */
  method Run(world: ThemeWorld, processes: seq<Process>) returns (outcomes: seq<Outcome>)
    requires !Torn(world.Now())
    modifies world
    ensures |outcomes| == |processes|
    ensures (forall i :: 0 <= i < |processes| && processes[i].command.ApplyTheme? ==> !Tears(processes[i].fates)) ==>
              !Torn(world.Now())
  {
    outcomes := [];
    for i := 0 to |processes|
      invariant |outcomes| == i
      invariant (forall k :: 0 <= k < i && processes[k].command.ApplyTheme? ==> !Tears(processes[k].fates)) ==>
                  !Torn(world.Now())
    {
      world.Begin(processes[i].fates);
      var out;
      match processes[i].command {
        case ApplyTheme(candidate, requestId, expectedGeneration) =>
          out := world.Apply(candidate, requestId, expectedGeneration);
        case ReconcileTheme =>
          out := world.Reconcile();
      }
      outcomes := outcomes + [out];
    }
  }

  lemma ReliableNeverTears(fates: Fates)
    requires fates.reliable
    ensures !Tears(fates)
  {
  }

  /** The removal takes effect but fails, writing the journal back fails, and the undo fails at once. */
  const UNDO_FAILS := Fates([Fine, Fine, Fine, Fine, Fine, Fine, Fine, Fine, Fine, Fine,
                             Fails(true), Fails(false), Fails(false)], false)

  lemma SomeUndoFails()
    ensures KeepsCandidate(UNDO_FAILS) && !Tears(UNDO_FAILS)
  {
    assert LosesJournal(UNDO_FAILS, 10);
    OnlyOneLoss(UNDO_FAILS, 10);
    assert forall s :: StopsAt(UNDO_FAILS, 12, s) ==> s == 12;
  }

  /** Such failures exist: the removal is reported late, the journal cannot be written back, the undo is cut short. */
  method LostJournalTearsApart(previous: Theme, candidate: Theme, requestId: string) returns (world: ThemeWorld)
    requires previous != candidate
    ensures Torn(world.Now())
  {
    var fates := Fates([Fine, Fine, Fine, Fine, Fine, Fine, Fine, Fine, Fine, Fine,
                        Fails(true), Fails(false), Fine, Fails(false)], false);
    assert LosesJournal(fates, 10);
    assert StopsAt(fates, 12, 13);
    world := new ThemeWorld(previous, 0);
    world.Begin(fates);
    var out := world.Apply(candidate, requestId, 0);
  }
}
