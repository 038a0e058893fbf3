/**
  The notification store: three files and a redo journal.  A commit performs up to six steps and may
  fail or be killed after any number of them; the process may also go on after a failure.
 */
module NotificationStorage {
  import opened Wrappers
  import opened NotificationDocuments

  /** The four files of the state directory; an absent file reads as its default. */
  datatype Disk = Disk(
    active: Option<seq<Notification>>, archive: Option<seq<Notification>>,
    preferences: Option<Preferences>, journal: Option<Documents>)

  const DEFAULT_PREFERENCES := Preferences(false, 1)

  function Stored(d: Disk): Documents {
    Documents(if d.active.Some? then d.active.value else [],
              if d.archive.Some? then d.archive.value else [],
              if d.preferences.Some? then d.preferences.value else DEFAULT_PREFERENCES)
  }

  /** What a process that opens the directory now would read. */
  function Recovered(d: Disk): Documents {
    if d.journal.Some? then d.journal.value else Stored(d)
  }

  /** The directory after the first `steps` steps of a commit. */
  function Committing(d: Disk, c: Documents, steps: nat): Disk {
    if steps == 0 then d
    else if steps == 1 then d.(journal := Some(c))
    else if steps == 2 then d.(journal := Some(c), active := Some(c.active))
    else if steps == 3 then d.(journal := Some(c), active := Some(c.active), archive := Some(c.archive))
    else if steps == 4 then Disk(Some(c.active), Some(c.archive), Some(c.preferences), Some(c))
    else Disk(Some(c.active), Some(c.archive), Some(c.preferences), None)
  }

  /** The directory after the first `steps` steps of redoing the journal. */
  function Redoing(d: Disk, steps: nat): Disk {
    if d.journal.None? then d
    else
      var c := d.journal.value;
      if steps == 0 then d
      else if steps == 1 then d.(active := Some(c.active))
      else if steps == 2 then d.(active := Some(c.active), archive := Some(c.archive))
      else if steps == 3 then
        d.(active := Some(c.active), archive := Some(c.archive), preferences := Some(c.preferences))
      else Disk(Some(c.active), Some(c.archive), Some(c.preferences), None)
  }

  datatype Attempt = CommitAttempt(candidate: Documents, steps: nat) | RedoAttempt(steps: nat)

  function Attempted(d: Disk, attempts: seq<Attempt>): Disk {
    if attempts == [] then d
    else
      var before := Attempted(d, attempts[..|attempts| - 1]);
      match attempts[|attempts| - 1]
      case CommitAttempt(c, steps) => Committing(before, c, steps)
      case RedoAttempt(steps) => Redoing(before, steps)
  }

  /** The candidate of the last commit that got as far as its journal, or what was there before. */
  function LastJournalled(start: Documents, attempts: seq<Attempt>): Documents {
    if attempts == [] then start
    else
      var last := attempts[|attempts| - 1];
      if last.CommitAttempt? && last.steps > 0 then last.candidate
      else LastJournalled(start, attempts[..|attempts| - 1])
  }

  /**
    Crash consistency: after any commits and recoveries, each cut after any step, what is recovered is
    one whole candidate - the last one whose journal was written - and redoing the journal any number
    of times, even partly, does not change that.
   */
  lemma {:induction false} RecoversOneWholeCandidate(d: Disk, attempts: seq<Attempt>)
    ensures Recovered(Attempted(d, attempts)) == LastJournalled(Recovered(d), attempts)
  {
    if attempts != [] {
      RecoversOneWholeCandidate(d, attempts[..|attempts| - 1]);
    }
  }

  /** A complete redo leaves no journal, and the three files hold what it held. */
  lemma RedoFinishes(d: Disk, steps: nat)
    requires steps >= 4
    ensures Redoing(d, steps).journal.None? && Stored(Redoing(d, steps)) == Recovered(d)
    ensures Redoing(Redoing(d, steps), steps) == Redoing(d, steps)
  {
  }

  /** A commit either leaves what would be recovered or makes it the candidate. */
  lemma CommitRecovers(d: Disk, c: Documents, steps: nat)
    ensures Recovered(Committing(d, c, steps)) == if steps == 0 then Recovered(d) else c
  {
  }

  /** The validator accepts every document. */
  predicate Readable(accepts: Notification -> bool, d: Documents) {
    forall n :: n in d.active + d.archive ==> accepts(n)
  }

  class Directory {
    var disk: Disk

    constructor (disk: Disk)
      ensures this.disk == disk
    {
      this.disk := disk;
    }

    /** Redoes an interrupted commit it can read; `steps` of the five steps succeed. */
    method Reconcile(accepts: Notification -> bool, steps: nat) returns (ok: bool)
      modifies this
      ensures disk == if Readable(accepts, Recovered(old(disk))) then Redoing(old(disk), steps) else old(disk)
      ensures ok == (old(disk).journal.None? || (steps >= 5 && Readable(accepts, Recovered(old(disk)))))
      ensures ok ==> disk.journal.None? && Stored(disk) == Recovered(old(disk))
      ensures Recovered(disk) == Recovered(old(disk))
    {
      if disk.journal.None? { return true; }
      var transaction := disk.journal.value;
      if !Readable(accepts, transaction) || steps == 0 { return false; }
      disk := disk.(active := Some(transaction.active));
      if steps == 1 { return false; }
      disk := disk.(archive := Some(transaction.archive));
      if steps == 2 { return false; }
      disk := disk.(preferences := Some(transaction.preferences));
      if steps == 3 { return false; }
      disk := disk.(journal := None);
      return steps >= 5;
    }
  }

  /** Opening raises the next identifier above everything stored. */
  function Opened(d: Documents): Documents {
    var greatest := GreatestId(d.active);
    var archived := GreatestId(d.archive);
    var floor := 1 + if archived > greatest then archived else greatest;
    if d.preferences.nextId < floor then d.(preferences := d.preferences.(nextId := floor)) else d
  }

  ghost predicate NextIsFree(d: Documents) {
    forall n :: n in d.active + d.archive ==> n.id < d.preferences.nextId
  }

  lemma OpeningFreesNext(d: Documents)
    ensures NextIsFree(Opened(d)) && Opened(d).preferences.nextId >= d.preferences.nextId
  {
    var greatest, archived := GreatestId(d.active), GreatestId(d.archive);
    forall n | n in d.active + d.archive ensures n.id <= greatest || n.id <= archived {
      if n in d.active {
        var i :| 0 <= i < |d.active| && d.active[i] == n;
      } else {
        var i :| 0 <= i < |d.archive| && d.archive[i] == n;
      }
    }
  }

  /** No higher than that takes, and nothing else changes. */
  lemma OpeningRaisesNoFurther(d: Documents)
    ensures var next := Opened(d).preferences.nextId;
            && (next == d.preferences.nextId || next == 1 || next - 1 in AllIds(d))
            && Opened(d) == d.(preferences := d.preferences.(nextId := next))
  {
    var greatest, archived := GreatestId(d.active), GreatestId(d.archive);
  }

  class NotificationStore {
    const directory: Directory
    const capacity: nat
    const aggregateLimit: nat
    /** Serialized size and the SDK's document validator. */
    const size: Documents -> nat
    const accepts: Notification -> bool

    var active: seq<Notification>
    var archive: seq<Notification>
    var preferences: Preferences

    function Docs(): Documents
      reads this
    {
      Documents(active, archive, preferences)
    }

    ghost predicate Valid()
      reads this
    {
      capacity > 0 && UniqueIds(Docs()) && NextIsFree(Docs())
    }

    constructor (directory: Directory, documents: Documents, capacity: nat, aggregateLimit: nat,
                 size: Documents -> nat, accepts: Notification -> bool)
      requires capacity > 0 && UniqueIds(documents) && NextIsFree(documents)
      ensures Valid() && Docs() == documents && this.directory == directory && this.capacity == capacity
      ensures this.aggregateLimit == aggregateLimit && this.size == size && this.accepts == accepts
    {
      this.directory, this.capacity, this.aggregateLimit := directory, capacity, aggregateLimit;
      this.size, this.accepts := size, accepts;
      active, archive, preferences := documents.active, documents.archive, documents.preferences;
    }

    /** The candidate passes the checks that precede a commit. */
    predicate Storable(candidate: Documents)
      reads this
    {
      UniqueIds(candidate) && size(candidate) <= aggregateLimit
    }

    /** Journal, active, archive, preferences, removal of the journal, directory sync; then memory. */
    method CommitCandidate(candidate: Documents, steps: nat) returns (ok: bool)
      requires Valid() && (UniqueIds(candidate) ==> NextIsFree(candidate))
      modifies this, directory
      ensures Valid()
      ensures ok == (steps >= 6 && old(Storable(candidate)))
      ensures Docs() == if ok then candidate else old(Docs())
      ensures directory.disk ==
              if old(Storable(candidate)) then Committing(old(directory.disk), candidate, steps)
              else old(directory.disk)
    {
      if !UniqueIds(candidate) || size(candidate) > aggregateLimit || steps == 0 { return false; }
      directory.disk := directory.disk.(journal := Some(candidate));
      if steps == 1 { return false; }
      directory.disk := directory.disk.(active := Some(candidate.active));
      if steps == 2 { return false; }
      directory.disk := directory.disk.(archive := Some(candidate.archive));
      if steps == 3 { return false; }
      directory.disk := directory.disk.(preferences := Some(candidate.preferences));
      if steps == 4 { return false; }
      directory.disk := directory.disk.(journal := None);
      if steps == 5 { return false; }
      active, archive, preferences := candidate.active, candidate.archive, candidate.preferences;
      return true;
    }

    /** Replaces or appends the notification and moves the overflow to the archive. */
    method BuildCandidate(stored: Notification, nextId: nat) returns (candidate: Documents, archivedIds: seq<nat>)
      ensures candidate == Pushed(Docs(), stored, nextId, capacity)
      ensures archivedIds == ArchivedIds(Docs(), stored, capacity)
    {
      var kept := active;
      var at := PositionOf(active, stored.id);
      if at < |active| {
        kept := active[..at] + active[at + 1..];
      }
      kept := kept + [stored];
      assert kept == Extended(Docs(), stored);
      var archiveNow := archive;
      archivedIds := [];
      if |kept| > capacity {
        var overflow := |kept| - capacity;
        archivedIds := seq(overflow, i requires 0 <= i < overflow => kept[i].id);
        archiveNow := archiveNow + Archived(kept[..overflow]);
        kept := kept[overflow..];
      } else {
        assert kept[0..] == kept && archive + Archived(kept[..0]) == archive;
      }
      candidate := Documents(kept, archiveNow, preferences.(nextId := nextId));
    }

    /** What a push commits: the notification must be valid and its identifier neither exhausted nor archived. */
    function PushCandidate(n: Notification): (r: Option<Documents>)
      reads this
      ensures r.Some? <==>
              && (n.id == 0 ==> preferences.nextId <= U32_MAX)
              && var id := if n.id == 0 then preferences.nextId else n.id;
                 id !in Ids(archive) && accepts(n.(id := id))
    {
      var identified := Assigned(preferences, n);
      if identified.None? then None
      else
        var (stored, nextId) := identified.value;
        if !accepts(n.(id := stored.id)) || stored.id in Ids(archive) then None
        else Some(Pushed(Docs(), stored, nextId, capacity))
    }

    /** Stores a notification under its own or the next free identifier. */
    method Push(n: Notification, steps: nat) returns (id: nat, archivedIds: seq<nat>, ok: bool)
      requires Valid()
      modifies this, directory
      ensures Valid()
      ensures var candidate := old(PushCandidate(n));
              && (ok <==> candidate.Some? && old(Storable(candidate.value)) && steps >= 6)
              && Docs() == (if ok then candidate.value else old(Docs()))
              && (candidate.None? ==> directory.disk == old(directory.disk))
              && (candidate.Some? ==>
                    Recovered(directory.disk) ==
                    if steps > 0 && old(Storable(candidate.value)) then candidate.value
                    else Recovered(old(directory.disk)))
      ensures ok ==>
                && id == (if n.id == 0 then old(preferences).nextId else n.id) && id !in Ids(old(archive))
                && StoredLast(old(Docs()), Docs(), n.(id := id, archived := false), archivedIds, capacity)
                && preferences.dnd == old(preferences).dnd
                && preferences.nextId == (if id >= old(preferences).nextId then id + 1 else old(preferences).nextId)
      ensures ok ==>
                var (stored, nextId) := Assigned(old(preferences), n).value;
                id == stored.id && archivedIds == ArchivedIds(old(Docs()), stored, capacity)
      ensures Recovered(directory.disk) == old(Recovered(directory.disk))
              || Recovered(directory.disk).preferences.nextId >= old(preferences).nextId
    {
      id, archivedIds := 0, [];
      var accepted := Accept(n);
      if accepted.None? {
        return 0, [], false;
      }
      var (stored, nextId) := accepted.value;
      id := stored.id;
      var candidate: Documents;
      candidate, archivedIds := BuildCandidate(stored, nextId);
      if UniqueIds(candidate) {
        PushKeepsNextFree(Docs(), stored, nextId, capacity);
      }
      PushStoresLast(Docs(), stored, nextId, capacity);
      CommitRecovers(directory.disk, candidate, steps);
      ok := CommitCandidate(candidate, steps);
    }

    /** Gives a new notification its id; refuses one that is invalid or whose id is archived. */
    method Accept(n: Notification) returns (r: Option<(Notification, nat)>)
      ensures r == if PushCandidate(n).Some? then Assigned(preferences, n) else None
    {
      if n.id == 0 && preferences.nextId > U32_MAX {
        return None;
      }
      var stored := if n.id == 0 then n.(id := preferences.nextId) else n;
      var nextId := if stored.id >= preferences.nextId then stored.id + 1 else preferences.nextId;
      if !accepts(stored) || PositionOf(archive, stored.id) < |archive| {
        return None;
      }
      stored := stored.(archived := false);
      return Some((stored, nextId));
    }

    /** Commits documents whose identifiers are in order; succeeds exactly when they fit and every step succeeds. */
    method CommitDocuments(candidate: Documents, steps: nat) returns (ok: bool)
      requires Valid() && UniqueIds(candidate) && NextIsFree(candidate)
      requires candidate.preferences.nextId == preferences.nextId
      modifies this, directory
      ensures Valid()
      ensures ok <==> size(candidate) <= aggregateLimit && steps >= 6
      ensures Docs() == if ok then candidate else old(Docs())
      ensures Recovered(directory.disk) ==
              if steps > 0 && size(candidate) <= aggregateLimit then candidate else Recovered(old(directory.disk))
    {
      CommitRecovers(directory.disk, candidate, steps);
      ok := CommitCandidate(candidate, steps);
    }

    method Dismiss(id: nat, steps: nat) returns (ok: bool)
      requires Valid()
      modifies this, directory
      ensures Valid()
      ensures ok <==> id in Ids(old(active)) && size(Dismissed(old(Docs()), id)) <= aggregateLimit && steps >= 6
      ensures Docs() == if ok then Dismissed(old(Docs()), id) else old(Docs())
      ensures Recovered(directory.disk) == old(Recovered(directory.disk))
              || (id in Ids(old(active)) && Recovered(directory.disk) == Dismissed(old(Docs()), id))
    {
      var at := PositionOf(active, id);
      if at == |active| {
        return false;
      }
      var candidate := Documents(active[..at] + active[at + 1..],
                                 archive + [active[at].(archived := true)], preferences);
      DismissMovesOne(Docs(), id);
      assert NextIsFree(candidate) by {
        forall n | n in candidate.active + candidate.archive ensures n.id < preferences.nextId {
          assert active[at] in active + archive;
        }
      }
      ok := CommitDocuments(candidate, steps);
    }

    /** Commits documents with the same items, for instance with read marks or expired actions. */
    method CommitSameItems(candidate: Documents, steps: nat) returns (ok: bool)
      requires Valid() && SameItems(active, candidate.active) && SameItems(archive, candidate.archive)
      requires candidate.preferences.nextId == preferences.nextId
      modifies this, directory
      ensures Valid()
      ensures ok <==> size(candidate) <= aggregateLimit && steps >= 6
      ensures Docs() == if ok then candidate else old(Docs())
      ensures Recovered(directory.disk) ==
              if steps > 0 && size(candidate) <= aggregateLimit then candidate else Recovered(old(directory.disk))
    {
      SameDocumentsKeepUnique(Docs(), candidate);
      SameItemsKeepNextFree(Docs(), candidate);
      ok := CommitDocuments(candidate, steps);
    }

    method MarkRead(id: nat, steps: nat) returns (ok: bool)
      requires Valid()
      modifies this, directory
      ensures Valid()
      ensures ok <==> id in Ids(old(active)) && size(MarkedRead(old(Docs()), id)) <= aggregateLimit && steps >= 6
      ensures Docs() == if ok then MarkedRead(old(Docs()), id) else old(Docs())
      ensures Recovered(directory.disk) == old(Recovered(directory.disk))
              || (id in Ids(old(active)) && Recovered(directory.disk) == MarkedRead(old(Docs()), id))
    {
      var at := PositionOf(active, id);
      if at == |active| {
        return false;
      }
      ok := CommitSameItems(Documents(active[at := active[at].(read := true)], archive, preferences), steps);
    }

    method SetDnd(enabled: bool, steps: nat) returns (ok: bool)
      requires Valid()
      modifies this, directory
      ensures Valid()
      ensures var candidate := old(Docs()).(preferences := old(preferences).(dnd := enabled));
              && (ok <==> size(candidate) <= aggregateLimit && steps >= 6)
              && Docs() == (if ok then candidate else old(Docs()))
              && (Recovered(directory.disk) == candidate || Recovered(directory.disk) == old(Recovered(directory.disk)))
    {
      ok := CommitSameItems(Documents(active, archive, preferences.(dnd := enabled)), steps);
    }

    /** Fails as not found exactly when some id is neither active nor archived. */
    method ExpireActions(ids: set<nat>, steps: nat) returns (ok: bool, found: bool)
      requires Valid()
      modifies this, directory
      ensures Valid()
      ensures found <==> ids <= AllIds(old(Docs()))
      ensures var candidate := ActionsExpired(old(Docs()), ids);
              && (ok <==> ids == {} || (found && size(candidate) <= aggregateLimit && steps >= 6))
              && Docs() == (if ok && ids != {} then candidate else old(Docs()))
              && (Recovered(directory.disk) == candidate || Recovered(directory.disk) == old(Recovered(directory.disk)))
      ensures !found ==> directory.disk == old(directory.disk)
    {
      if ids == {} {
        return true, true;
      }
      found := ids <= Ids(active) + Ids(archive);
      if !found {
        return false, false;
      }
      ok := CommitSameItems(ActionsExpired(Docs(), ids), steps);
    }

    /** Commits only if some action was still available. */
    method ExpireAllActions(steps: nat) returns (ok: bool)
      requires Valid()
      modifies this, directory
      ensures Valid()
      ensures var expired := AllExpired(old(Docs()));
              && (ok <==> expired == old(Docs()) || (size(expired) <= aggregateLimit && steps >= 6))
              && Docs() == (if ok then expired else old(Docs()))
              && (Recovered(directory.disk) == expired || Recovered(directory.disk) == old(Recovered(directory.disk)))
      ensures ok ==> OfferingIds(active) + OfferingIds(archive) == {}
    {
      ExpiringChangesOffers(Docs());
      ExpiringEverythingLeavesNoOffer(Docs());
      if OfferingIds(active) + OfferingIds(archive) == {} {
        return true;
      }
      ok := CommitSameItems(AllExpired(Docs()), steps);
    }

    method PurgeArchive(steps: nat) returns (ok: bool)
      requires Valid()
      modifies this, directory
      ensures Valid()
      ensures var candidate := old(Docs()).(archive := []);
              && (ok <==> size(candidate) <= aggregateLimit && steps >= 6)
              && Docs() == (if ok then candidate else old(Docs()))
              && (Recovered(directory.disk) == candidate || Recovered(directory.disk) == old(Recovered(directory.disk)))
    {
      assert forall n :: n in active + [] ==> n in active + archive;
      ok := CommitDocuments(Documents(active, [], preferences), steps);
    }
  }

  /** Every action of every stored notification expired. */
  function AllExpired(d: Documents): Documents {
    ActionsExpired(d, AllIds(d))
  }

  /** Expiring everything changes something exactly when some action was available. */
  lemma ExpiringChangesOffers(d: Documents)
    ensures AllExpired(d) == d <==> OfferingIds(d.active) + OfferingIds(d.archive) == {}
  {
    ExpiringListChangesOffers(d.active, AllIds(d));
    ExpiringListChangesOffers(d.archive, AllIds(d));
  }

  lemma ExpiringListChangesOffers(items: seq<Notification>, ids: set<nat>)
    requires Ids(items) <= ids
    ensures WithExpired(items, ids) == items <==> OfferingIds(items) == {}
  {
    var r := WithExpired(items, ids);
    forall i | 0 <= i < |items| ensures r[i] == items[i] <==> !Offers(items[i]) {
      assert items[i].id in Ids(items);
      var actions := items[i].actions;
      if !Offers(items[i]) {
        assert forall k :: 0 <= k < |actions| ==> actions[k].state == Expired;
        assert ExpiredActions(actions) == actions;
      } else {
        var k :| 0 <= k < |actions| && actions[k].state == Available;
        assert ExpiredActions(actions)[k] != actions[k];
      }
    }
    forall i | 0 <= i < |items| ensures Offers(items[i]) ==> items[i].id in OfferingIds(items) {
    }
    if OfferingIds(items) != {} {
      var id :| id in OfferingIds(items);
      var i :| 0 <= i < |items| && Offers(items[i]) && items[i].id == id;
      assert r[i] != items[i];
    }
  }

  lemma PushKeepsNextFree(d: Documents, n: Notification, nextId: nat, capacity: nat)
    requires UniqueIds(d) && NextIsFree(d) && n.id < nextId && d.preferences.nextId <= nextId
    ensures NextIsFree(Pushed(d, n, nextId, capacity))
  {
    var active := Extended(d, n);
    var overflow := Overflow(|active|, capacity);
    ExtendedIds(d, n);
    var r := Pushed(d, n, nextId, capacity);
    forall m | m in r.active + r.archive ensures m.id < nextId {
      if m in Archived(active[..overflow]) {
        var i :| 0 <= i < overflow && Archived(active[..overflow])[i] == m;
        assert active[i] in active;
        assert active[i] == n || active[i] in d.active + d.archive;
      } else {
        assert m == n || m in d.active + d.archive;
      }
    }
  }

  lemma SameItemsKeepNextFree(d: Documents, r: Documents)
    requires NextIsFree(d) && SameItems(d.active, r.active) && SameItems(d.archive, r.archive)
    requires r.preferences.nextId == d.preferences.nextId
    ensures NextIsFree(r)
  {
    forall n | n in r.active + r.archive ensures n.id < r.preferences.nextId {
      if n in r.active {
        var i :| 0 <= i < |r.active| && r.active[i] == n;
        assert d.active[i] in d.active + d.archive;
      } else {
        var i :| 0 <= i < |r.archive| && r.archive[i] == n;
        assert d.archive[i] in d.active + d.archive;
      }
    }
  }

  lemma ExpiringEverythingLeavesNoOffer(d: Documents)
    ensures var r := AllExpired(d); OfferingIds(r.active) + OfferingIds(r.archive) == {}
  {
    var r := ActionsExpired(d, AllIds(d));
    forall i | 0 <= i < |r.active| ensures !Offers(r.active[i]) {
      assert d.active[i].id in Ids(d.active);
    }
    forall i | 0 <= i < |r.archive| ensures !Offers(r.archive[i]) {
      assert d.archive[i].id in Ids(d.archive);
    }
  }
}
