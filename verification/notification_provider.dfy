/**
  The notification provider keeps two maps in memory beside the store: which D-Bus client owns each
  notification, and which popups are showing until when.
 */
module NotificationProvider {
  import opened Wrappers
  import opened NotificationDocuments
  import opened NotificationStorage

  type Instant = nat

  predicate Blank(s: string) {
    forall c :: c in s ==> c == ' ' || c == '\t' || c == '\n' || c == '\r'
  }

  /** The maps agree with the documents. */
  ghost predicate InStep(d: Documents, origins: map<nat, string>, popups: map<nat, Option<Instant>>) {
    // a popup shows an active notification, and only critical ones while notifications are muted
    && popups.Keys <= Ids(d.active)
    && (d.preferences.dnd ==> popups.Keys <= CriticalIds(d.active))
    // an owner is known only for stored notifications, and for each that still offers an action
    && origins.Keys <= AllIds(d)
    && OfferingIds(d.active) + OfferingIds(d.archive) <= origins.Keys
  }

  datatype Command =
    | MarkRead(id: nat) | Dismiss(id: nat) | SetDnd(enabled: bool) | PurgeArchive

  datatype Outcome = Refused | Failed | Notified(id: nat, popup: bool, archivedIds: seq<nat>)

  // ---------------------------------------------------------------- steps of the maps

  function WithoutKeys<T>(m: map<nat, T>, ids: set<nat>): map<nat, T> {
    m - ids
  }

  function OwnedBy(origins: map<nat, string>, origin: string): set<nat> {
    set id | id in origins && origins[id] == origin
  }

  /** The set facts behind a push, free of the documents. */
  lemma PushedSets(active: set<nat>, archive: set<nat>, moved: set<nat>, id: nat,
                   critical: set<nat>, nowCritical: set<nat>, offering: set<nat>, nowOffering: set<nat>,
                   origins: set<nat>, popups: set<nat>, muted: bool, isCritical: bool)
    requires popups <= active && (muted ==> popups <= critical)
    requires origins <= active + archive && offering <= origins
    requires critical - {id} - moved <= nowCritical && (isCritical ==> id in nowCritical)
    requires nowOffering <= offering + {id}
    requires id !in moved
    ensures var shown := popups - moved - {id} + (if !muted || isCritical then {id} else {});
            && shown <= active + {id} - moved
            && (muted ==> shown <= nowCritical)
    ensures origins + {id} <= (active + {id} - moved) + (archive + moved)
    ensures nowOffering <= origins + {id}
  {
  }

  lemma PushStaysInStep(d: Documents, n: Notification, nextId: nat, capacity: nat,
                        origins: map<nat, string>, popups: map<nat, Option<Instant>>,
                        owners: map<nat, string>, shown: map<nat, Option<Instant>>)
    requires UniqueIds(d) && capacity > 0 && n.id !in Ids(d.archive) && 0 < n.id <= U32_MAX
    requires InStep(d, origins, popups)
    requires owners.Keys == origins.Keys + {n.id}
    requires shown.Keys == popups.Keys - SetOf(ArchivedIds(d, n, capacity)) - {n.id}
                           + (if !d.preferences.dnd || IsCritical(n) then {n.id} else {})
    ensures InStep(Pushed(d, n, nextId, capacity), owners, shown)
  {
    var r := Pushed(d, n, nextId, capacity);
    PushMovesIds(d, n, nextId, capacity);
    OffersIgnoresArchiving(Extended(d, n));
    PushSelects(d, n, nextId, capacity, Offers);
    PushKeepsActive(d, n, nextId, capacity, IsCritical);
    PushedSets(Ids(d.active), Ids(d.archive), SetOf(ArchivedIds(d, n, capacity)), n.id,
               CriticalIds(d.active), CriticalIds(r.active),
               OfferingIds(d.active) + OfferingIds(d.archive), OfferingIds(r.active) + OfferingIds(r.archive),
               origins.Keys, popups.Keys, d.preferences.dnd, IsCritical(n));
  }

  lemma DismissStaysInStep(d: Documents, id: nat, origins: map<nat, string>, popups: map<nat, Option<Instant>>)
    requires UniqueIds(d) && id in Ids(d.active) && InStep(d, origins, popups)
    ensures InStep(Dismissed(d, id), origins, WithoutKeys(popups, {id}))
  {
    DismissMovesOne(d, id);
    SelectWithout(d.active, id, IsCritical);
    SelectWithout(d.active, id, Offers);
    var i := PositionOf(d.active, id);
    var item := d.active[i];
    SelectConcat(d.archive, [item.(archived := true)], Offers);
    SelectOne(item.(archived := true), Offers);
    OffersIgnoresArchiving(d.active);
    assert Offers(item) ==> id in OfferingIds(d.active);
  }

  lemma MarkReadStaysInStep(d: Documents, id: nat, origins: map<nat, string>, popups: map<nat, Option<Instant>>)
    requires id in Ids(d.active) && InStep(d, origins, popups)
    ensures InStep(MarkedRead(d, id), origins, popups)
    ensures AllIds(MarkedRead(d, id)) == AllIds(d)
  {
    var r := MarkedRead(d, id);
    SameItemsSameIds(d.active, r.active);
    SelectSame(d.active, r.active, IsCritical);
    forall i | 0 <= i < |d.active| ensures Offers(d.active[i]) == Offers(r.active[i]) {
      assert d.active[i].actions == r.active[i].actions;
    }
    SelectSame(d.active, r.active, Offers);
  }

  /** After expiring all actions of a client's notifications, its ownership can be forgotten. */
  lemma ForgettingStaysInStep(d: Documents, ids: set<nat>, origins: map<nat, string>, popups: map<nat, Option<Instant>>)
    requires InStep(d, origins, popups)
    ensures InStep(ActionsExpired(d, ids), WithoutKeys(origins, ids), popups)
    ensures AllIds(ActionsExpired(d, ids)) == AllIds(d)
  {
    var r := ActionsExpired(d, ids);
    SameItemsSameIds(d.active, r.active);
    SameItemsSameIds(d.archive, r.archive);
    SelectSame(d.active, r.active, IsCritical);
    ExpiringStopsOffers(d.active, ids);
    ExpiringStopsOffers(d.archive, ids);
  }

  lemma ExpiringStopsOffers(items: seq<Notification>, ids: set<nat>)
    ensures OfferingIds(WithExpired(items, ids)) == OfferingIds(items) - ids
  {
    var r := WithExpired(items, ids);
    forall i | 0 <= i < |items| ensures Offers(r[i]) <==> Offers(items[i]) && items[i].id !in ids {
      if items[i].id in ids {
        assert forall k :: 0 <= k < |r[i].actions| ==> r[i].actions[k].state == Expired;
      }
    }
  }

  lemma PurgingStaysInStep(d: Documents, origins: map<nat, string>, popups: map<nat, Option<Instant>>)
    requires UniqueIds(d) && InStep(d, origins, popups)
    ensures InStep(d.(archive := []), WithoutKeys(origins, Ids(d.archive)), WithoutKeys(popups, Ids(d.archive)))
    ensures AllIds(d.(archive := [])) == AllIds(d) - Ids(d.archive)
  {
    SelectIsPart(d.active, Offers);
    assert OfferingIds([]) == {} && Ids([]) == {};
  }

  // ---------------------------------------------------------------- what the operations make of the maps

  function Deadline(n: Notification, now: Instant): Option<Instant> {
    if n.timeoutMs.Some? && n.timeoutMs.value > 0 then Some(now + n.timeoutMs.value) else None
  }

  /** The popups once a notification is stored: archived ones go, and it is shown or hidden. */
  function Showing(popups: map<nat, Option<Instant>>, id: nat, popup: bool, deadline: Option<Instant>,
                   archivedIds: seq<nat>)
    : map<nat, Option<Instant>>
  {
    var left := WithoutKeys(popups, SetOf(archivedIds));
    if popup then left[id := deadline] else WithoutKeys(left, {id})
  }

  /** An outcome with the documents, owners and popups it leaves. */
  datatype Result = Result(
    out: Outcome, documents: Documents, origins: map<nat, string>, popups: map<nat, Option<Instant>>)

  /** What storing a notification makes of everything. */
  function Showed(d: Documents, origins: map<nat, string>, popups: map<nat, Option<Instant>>,
                  origin: string, n: Notification, now: Instant, capacity: nat): Result
    requires Assigned(d.preferences, n).Some?
  {
    var (stored, nextId) := Assigned(d.preferences, n).value;
    var popup := !d.preferences.dnd || n.urgency == Critical;
    var archivedIds := ArchivedIds(d, stored, capacity);
    Result(Notified(stored.id, popup, archivedIds), Pushed(d, stored, nextId, capacity),
           origins[stored.id := origin], Showing(popups, stored.id, popup, Deadline(n, now), archivedIds))
  }

  /** The documents a command asks for, unless it names a notification that is not active. */
  function Executed(d: Documents, command: Command): Option<Documents> {
    match command
    case MarkRead(id) => if id in Ids(d.active) then Some(MarkedRead(d, id)) else None
    case Dismiss(id) => if id in Ids(d.active) then Some(Dismissed(d, id)) else None
    case SetDnd(enabled) => Some(d.(preferences := d.preferences.(dnd := enabled)))
    case PurgeArchive => Some(d.(archive := []))
  }

  function OriginsAfter(origins: map<nat, string>, d: Documents, command: Command): map<nat, string> {
    if command.PurgeArchive? then WithoutKeys(origins, Ids(d.archive)) else origins
  }

  function PopupsAfter(popups: map<nat, Option<Instant>>, d: Documents, command: Command): map<nat, Option<Instant>> {
    match command
    case MarkRead(_) => popups
    case Dismiss(id) => WithoutKeys(popups, {id})
    case SetDnd(enabled) => if enabled then WithoutKeys(popups, popups.Keys - CriticalIds(d.active)) else popups
    case PurgeArchive => WithoutKeys(popups, Ids(d.archive))
  }

  lemma ShowingKeys(popups: map<nat, Option<Instant>>, id: nat, popup: bool, deadline: Option<Instant>,
                    archivedIds: seq<nat>)
    ensures Showing(popups, id, popup, deadline, archivedIds).Keys
         == popups.Keys - SetOf(archivedIds) - {id} + (if popup then {id} else {})
  {
  }

  /**
    Every command keeps the maps in step with the documents.  Dismissing hides one popup, muting those
    that are not critical; purging forgets the owners of archived notifications; no more is lost.
   */
  lemma CommandStaysInStep(d: Documents, command: Command, origins: map<nat, string>, popups: map<nat, Option<Instant>>)
    requires UniqueIds(d) && InStep(d, origins, popups) && Executed(d, command).Some?
    ensures InStep(Executed(d, command).value, OriginsAfter(origins, d, command), PopupsAfter(popups, d, command))
    ensures forall x :: x in PopupsAfter(popups, d, command) <==>
              && x in popups && command != Dismiss(x)
              && (command == SetDnd(true) ==> x in CriticalIds(d.active))
    ensures forall x :: x in OriginsAfter(origins, d, command) <==>
              x in origins && (command == PurgeArchive ==> x in Ids(d.active))
    ensures PopupsAfter(popups, d, command).Items <= popups.Items
    ensures OriginsAfter(origins, d, command).Items <= origins.Items
  {
    match command
    case MarkRead(id) =>
      MarkReadStaysInStep(d, id, origins, popups);
    case Dismiss(id) =>
      DismissStaysInStep(d, id, origins, popups);
    case SetDnd(_) =>
    case PurgeArchive =>
      PurgingStaysInStep(d, origins, popups);
  }

  /** Only purging loses identifiers, exactly the archived ones. */
  lemma OnlyPurgingForgets(d: Documents, command: Command)
    requires UniqueIds(d) && Executed(d, command).Some?
    ensures AllIds(Executed(d, command).value) ==
            if command.PurgeArchive? then AllIds(d) - Ids(d.archive) else AllIds(d)
  {
    match command
    case MarkRead(id) =>
      SameItemsSameIds(d.active, MarkedRead(d, id).active);
    case Dismiss(id) =>
      DismissMovesOne(d, id);
    case SetDnd(_) =>
    case PurgeArchive =>
      assert Ids([]) == {};
  }

  // ---------------------------------------------------------------- the provider

  class FreedesktopNotificationProvider {
    const store: NotificationStore
    var origins: map<nat, string>
    var popups: map<nat, Option<Instant>>

    ghost predicate Valid()
      reads this, store
    {
      store.Valid() && InStep(store.Docs(), origins, popups)
    }

    /** A new process knows no owners; the caller has expired every stored action. */
    constructor (store: NotificationStore)
      requires store.Valid() && OfferingIds(store.active) + OfferingIds(store.archive) == {}
      ensures Valid() && this.store == store && fresh(this) && origins == map[] && popups == map[]
    {
      this.store := store;
      origins, popups := map[], map[];
    }

    /** The request is badly addressed, or replaces something its sender does not own. */
    predicate Foreign(origin: string, n: Notification)
      reads this, store
    {
      || Blank(origin) || |origin| > 255
      || (n.id != 0 && (n.id !in Ids(store.active) || n.id !in origins || origins[n.id] != origin))
    }

    /**
      Shows or replaces a notification; only its owner may replace an active one.  It fails exactly
      when the store has no candidate for it, the candidate does not fit or a step of the commit fails.
     */
    method Notify(origin: string, n: Notification, now: Instant, steps: nat) returns (out: Outcome)
      requires Valid()
      modifies this, store, store.directory
      ensures Valid()
      ensures out == Refused <==> old(Foreign(origin, n))
      ensures out.Notified? <==>
              && !old(Foreign(origin, n)) && steps >= 6
              && old(store.PushCandidate(n)).Some? && old(store.Storable(store.PushCandidate(n).value))
      ensures !out.Notified? ==> store.Docs() == old(store.Docs()) && origins == old(origins) && popups == old(popups)
      ensures out.Notified? ==>
                Result(out, store.Docs(), origins, popups)
                == Showed(old(store.Docs()), old(origins), old(popups), origin, n, now, store.capacity)
      ensures out.Notified? ==>
                && Accepted(old(store.Docs()), store.Docs(), n, out.id, out.archivedIds, store.capacity)
                && Shown(old(popups), popups, n, out.id, out.archivedIds, now, !old(store.preferences.dnd))
                && out.popup == (n.urgency == Critical || !old(store.preferences.dnd))
                && origins == old(origins)[out.id := origin]
                && Recovered(store.directory.disk) == store.Docs()
      ensures Recovered(store.directory.disk) == old(Recovered(store.directory.disk))
              || Recovered(store.directory.disk).preferences.nextId >= old(store.preferences.nextId)
    {
      if Blank(origin) || |origin| > 255 {
        return Refused;
      }
      var active := PositionOf(store.active, n.id) < |store.active|;
      if n.id != 0 && (!active || n.id !in origins || origins[n.id] != origin) {
        return Refused;
      }
      ghost var before := store.Docs();
      out := Store(origin, n, now, steps);
      if out.Notified? {
        NotifiedIsAccepted(before, old(origins), old(popups), origin, n, now, store.capacity);
      }
    }

    /** Stores a notification that its sender may show. */
    method Store(origin: string, n: Notification, now: Instant, steps: nat) returns (out: Outcome)
      requires Valid() && !Foreign(origin, n)
      modifies this, store, store.directory
      ensures Valid() && out != Refused
      ensures out.Notified? <==>
              steps >= 6 && old(store.PushCandidate(n)).Some? && old(store.Storable(store.PushCandidate(n).value))
      ensures !out.Notified? ==> store.Docs() == old(store.Docs()) && origins == old(origins) && popups == old(popups)
      ensures out.Notified? ==>
                Result(out, store.Docs(), origins, popups)
                == Showed(old(store.Docs()), old(origins), old(popups), origin, n, now, store.capacity)
      ensures out.Notified? ==> Recovered(store.directory.disk) == store.Docs()
      ensures Recovered(store.directory.disk) == old(Recovered(store.directory.disk))
              || Recovered(store.directory.disk).preferences.nextId >= old(store.preferences.nextId)
    {
      var popup := !store.preferences.dnd || n.urgency == Critical;
      ghost var before := store.Docs();
      var id, archivedIds, ok := store.Push(n, steps);
      if !ok {
        return Failed;
      }
      ghost var stored := Assigned(before.preferences, n).value.0;
      ghost var nextId := Assigned(before.preferences, n).value.1;
      AssignedIsFree(before, n);
      Show(id, origin, popup, Deadline(n, now), archivedIds, before, stored, nextId);
      return Notified(id, popup, archivedIds);
    }

    /** Records the owner and the popup of a notification that was just stored. */
    method Show(id: nat, origin: string, popup: bool, deadline: Option<Instant>, archivedIds: seq<nat>,
                ghost before: Documents, ghost stored: Notification, ghost nextId: nat)
      requires store.Valid() && store.Docs() == Pushed(before, stored, nextId, store.capacity)
      requires UniqueIds(before) && stored.id !in Ids(before.archive) && 0 < stored.id <= U32_MAX
      requires id == stored.id && archivedIds == ArchivedIds(before, stored, store.capacity)
      requires popup == (!before.preferences.dnd || IsCritical(stored))
      requires InStep(before, origins, popups)
      modifies this
      ensures Valid() && origins == old(origins)[id := origin]
      ensures popups == Showing(old(popups), id, popup, deadline, archivedIds)
    {
      var gone := SetOf(archivedIds);
      ShowingKeys(popups, id, popup, deadline, archivedIds);
      PushStaysInStep(before, stored, nextId, store.capacity, origins, popups,
                      origins[id := origin], Showing(popups, id, popup, deadline, archivedIds));
      popups := WithoutKeys(popups, gone);
      origins := origins[id := origin];
      if popup {
        popups := popups[id := deadline];
      } else {
        popups := WithoutKeys(popups, {id});
      }
    }

    /** Succeeds exactly when the command names something active, its result fits and every step succeeds. */
    method Execute(command: Command, steps: nat) returns (ok: bool)
      requires Valid()
      modifies this, store, store.directory
      ensures Valid()
      ensures var candidate := Executed(old(store.Docs()), command);
              && (ok <==> candidate.Some? && store.size(candidate.value) <= store.aggregateLimit && steps >= 6)
              && store.Docs() == (if ok then candidate.value else old(store.Docs()))
              && origins == (if ok then OriginsAfter(old(origins), old(store.Docs()), command) else old(origins))
              && popups == (if ok then PopupsAfter(old(popups), old(store.Docs()), command) else old(popups))
              && (|| Recovered(store.directory.disk) == old(Recovered(store.directory.disk))
                  || (candidate.Some? && Recovered(store.directory.disk) == candidate.value))
      ensures store.preferences.nextId == old(store.preferences.nextId)
    {
      if Executed(store.Docs(), command).Some? {
        CommandStaysInStep(store.Docs(), command, origins, popups);
      }
      var purged := Ids(store.archive);
      ok := CommitCommand(command, steps);
      if ok {
        match command
        case MarkRead(_) =>
        case Dismiss(id) =>
          popups := WithoutKeys(popups, {id});
        case SetDnd(enabled) =>
          if enabled {
            popups := WithoutKeys(popups, popups.Keys - CriticalIds(store.active));
          }
        case PurgeArchive =>
          origins := WithoutKeys(origins, purged);
          popups := WithoutKeys(popups, purged);
      }
    }

    /** What a command makes of the store. */
    method CommitCommand(command: Command, steps: nat) returns (ok: bool)
      requires store.Valid()
      modifies store, store.directory
      ensures store.Valid()
      ensures var candidate := Executed(old(store.Docs()), command);
              && (ok <==> candidate.Some? && store.size(candidate.value) <= store.aggregateLimit && steps >= 6)
              && store.Docs() == (if ok then candidate.value else old(store.Docs()))
              && (|| Recovered(store.directory.disk) == old(Recovered(store.directory.disk))
                  || (candidate.Some? && Recovered(store.directory.disk) == candidate.value))
    {
      match command
      case MarkRead(id) =>
        ok := store.MarkRead(id, steps);
      case Dismiss(id) =>
        ok := store.Dismiss(id, steps);
      case SetDnd(enabled) =>
        ok := store.SetDnd(enabled, steps);
      case PurgeArchive =>
        ok := store.PurgeArchive(steps);
    }

    /** Hides the popups whose deadline has passed. */
    method AdvancePopupTime(now: Instant) returns (expired: set<nat>)
      requires Valid()
      modifies this
      ensures Valid() && origins == old(origins)
      ensures expired == set id | id in old(popups) && old(popups)[id].Some? && now >= old(popups)[id].value
      ensures popups == WithoutKeys(old(popups), expired)
    {
      expired := set id | id in popups && popups[id].Some? && now >= popups[id].value;
      popups := WithoutKeys(popups, expired);
    }

    /** A client left the bus: its actions expire.  The store always knows all of its notifications. */
    method OriginLost(origin: string, steps: nat) returns (ok: bool, found: bool)
      requires Valid()
      modifies this, store, store.directory
      ensures Valid() && found && popups == old(popups)
      ensures var ids := OwnedBy(old(origins), origin);
              var candidate := ActionsExpired(old(store.Docs()), ids);
              && (ok <==> ids == {} || (store.size(candidate) <= store.aggregateLimit && steps >= 6))
              && store.Docs() == (if ok && ids != {} then candidate else old(store.Docs()))
              && origins == (if ok then WithoutKeys(old(origins), ids) else old(origins))
              && (|| Recovered(store.directory.disk) == old(Recovered(store.directory.disk))
                  || Recovered(store.directory.disk) == candidate)
      ensures AllIds(store.Docs()) == AllIds(old(store.Docs()))
    {
      var ids := OwnedBy(origins, origin);
      ghost var before := store.Docs();
      ok, found := store.ExpireActions(ids, steps);
      ForgettingStaysInStep(before, ids, origins, popups);
      if ok {
        assert ids == {} ==> WithoutKeys(origins, ids) == origins;
        origins := WithoutKeys(origins, ids);
      }
    }
  }

  /** A notification that is not muted, or critical, shows until its timeout; the others stay or were archived. */
  ghost predicate Shown(before: map<nat, Option<Instant>>, after: map<nat, Option<Instant>>, n: Notification,
                        id: nat, archivedIds: seq<nat>, now: Instant, audible: bool)
  {
    && (id in after <==> audible || n.urgency == Critical)
    && (id in after ==>
          if n.timeoutMs.None? || n.timeoutMs.value == 0 then after[id] == None
          else after[id] == Some(now + n.timeoutMs.value))
    && (forall x :: x != id ==> (x in after <==> x in before && x !in archivedIds))
    && (forall x :: x != id && x in after && x in before ==> after[x] == before[x])
  }

  /**
    One new identifier, or none when replacing; nothing lost; the notification is stored last, as it
    came but for its identifier and archive mark, and room is kept.
   */
  ghost predicate Accepted(before: Documents, after: Documents, n: Notification, id: nat, archivedIds: seq<nat>,
                           capacity: nat)
  {
    && StoredLast(before, after, n.(id := id, archived := false), archivedIds, capacity)
    && id == (if n.id == 0 then before.preferences.nextId else n.id)
    && AllIds(after) == AllIds(before) + {id}
    && (n.id == 0 <==> id !in AllIds(before))
    && 0 < |after.active| <= capacity && after.active[|after.active| - 1].id == id
    && after.preferences.nextId == (if n.id == 0 then id + 1 else before.preferences.nextId)
    && after.preferences.dnd == before.preferences.dnd
  }

  lemma PushIsAccepted(before: Documents, n: Notification, capacity: nat)
    requires UniqueIds(before) && NextIsFree(before) && before.preferences.nextId > 0 && capacity > 0
    requires Assigned(before.preferences, n).Some? && (n.id == 0 || n.id in Ids(before.active))
    requires Assigned(before.preferences, n).value.0.id !in Ids(before.archive)
    ensures var (stored, nextId) := Assigned(before.preferences, n).value;
            && 0 < stored.id <= U32_MAX && stored.urgency == n.urgency
            && Accepted(before, Pushed(before, stored, nextId, capacity), n, stored.id,
                        ArchivedIds(before, stored, capacity), capacity)
  {
    AssignedIsFree(before, n);
    var (stored, nextId) := Assigned(before.preferences, n).value;
    PushFacts(before, stored, nextId, capacity);
    PushStoresLast(before, stored, nextId, capacity);
  }

  /** What the sender and the user see of a notification that was stored. */
  lemma NotifiedIsAccepted(before: Documents, origins: map<nat, string>, popups: map<nat, Option<Instant>>,
                           origin: string, n: Notification, now: Instant, capacity: nat)
    requires UniqueIds(before) && NextIsFree(before) && before.preferences.nextId > 0 && capacity > 0
    requires Assigned(before.preferences, n).Some? && (n.id == 0 || n.id in Ids(before.active))
    requires Assigned(before.preferences, n).value.0.id !in Ids(before.archive)
    ensures var r := Showed(before, origins, popups, origin, n, now, capacity);
            && Accepted(before, r.documents, n, r.out.id, r.out.archivedIds, capacity)
            && Shown(popups, r.popups, n, r.out.id, r.out.archivedIds, now, !before.preferences.dnd)
            && r.out.popup == (n.urgency == Critical || !before.preferences.dnd)
            && r.origins == origins[r.out.id := origin]
  {
    PushIsAccepted(before, n, capacity);
    var stored := Assigned(before.preferences, n).value.0;
    ShowingShows(popups, n, stored.id, ArchivedIds(before, stored, capacity), now, !before.preferences.dnd);
  }

  lemma ShowingShows(popups: map<nat, Option<Instant>>, n: Notification, id: nat, archivedIds: seq<nat>, now: Instant,
                     audible: bool)
    ensures Shown(popups, Showing(popups, id, audible || n.urgency == Critical, Deadline(n, now), archivedIds),
                  n, id, archivedIds, now, audible)
  {
  }

  /** The identifier a push stores under is new exactly when the caller asked for a new one. */
  lemma AssignedIsFree(d: Documents, n: Notification)
    requires UniqueIds(d) && NextIsFree(d) && Assigned(d.preferences, n).Some?
    requires n.id == 0 || n.id in Ids(d.active)
    requires d.preferences.nextId > 0
    ensures var (stored, nextId) := Assigned(d.preferences, n).value;
            && 0 < stored.id <= U32_MAX
            && (n.id == 0 <==> stored.id !in AllIds(d))
            && nextId == if n.id == 0 then d.preferences.nextId + 1 else d.preferences.nextId
  {
    forall x | x in AllIds(d) ensures 0 < x < d.preferences.nextId && x <= U32_MAX {
      if x in Ids(d.active) {
        var i :| 0 <= i < |d.active| && d.active[i].id == x;
        assert d.active[i] in d.active + d.archive;
      } else {
        var i :| 0 <= i < |d.archive| && d.archive[i].id == x;
        assert d.archive[i] in d.active + d.archive;
      }
    }
  }

  lemma PushFacts(d: Documents, n: Notification, nextId: nat, capacity: nat)
    requires UniqueIds(d) && capacity > 0 && n.id !in Ids(d.archive) && 0 < n.id <= U32_MAX
    ensures var r := Pushed(d, n, nextId, capacity);
            && AllIds(r) == AllIds(d) + {n.id}
            && 0 < |r.active| <= capacity && r.active[|r.active| - 1].id == n.id
  {
    PushConserves(d, n, nextId, capacity);
  }

  // ---------------------------------------------------------------- lives of the provider

  /** What a process is configured with. */
  datatype Settings = Settings(
    capacity: nat, aggregateLimit: nat, size: Documents -> nat, accepts: Notification -> bool)

  const MAX_DURABLE_FILE_BYTES: nat := 64 * 1024 * 1024

  /** What a process that opens the directory starts from. */
  function Reopened(recovered: Documents): Documents {
    AllExpired(Opened(recovered))
  }

  /** The settings are in range, and what would be recovered is readable, sound and small enough. */
  predicate Openable(settings: Settings, recovered: Documents) {
    && settings.capacity > 0 && 0 < settings.aggregateLimit < MAX_DURABLE_FILE_BYTES
    && Readable(settings.accepts, recovered)
    && UniqueIds(Opened(recovered)) && settings.size(Opened(recovered)) <= settings.aggregateLimit
  }

  /**
    Starts a process: redo the journal, read the files, raise the next identifier, expire every action.
    The process holds exactly what was to be recovered, up to that.
   */
  method Open(directory: Directory, settings: Settings, redoSteps: nat, expireSteps: nat)
    returns (provider: FreedesktopNotificationProvider?)
    modifies directory
    ensures var recovered := Recovered(old(directory.disk));
            provider != null <==>
            && Openable(settings, recovered)
            && (old(directory.disk).journal.None? || redoSteps >= 5)
            && (|| Reopened(recovered) == Opened(recovered)
                || (settings.size(Reopened(recovered)) <= settings.aggregateLimit && expireSteps >= 6))
    ensures provider != null ==>
              && fresh(provider) && fresh(provider.store) && provider.store.directory == directory && provider.Valid()
              && provider.store.Docs() == Reopened(Recovered(old(directory.disk)))
              && provider.origins == map[] && provider.popups == map[]
    ensures || Recovered(directory.disk) == Recovered(old(directory.disk))
            || Recovered(directory.disk) == Reopened(Recovered(old(directory.disk)))
  {
    if settings.capacity == 0 || settings.aggregateLimit == 0 || settings.aggregateLimit >= MAX_DURABLE_FILE_BYTES {
      return null;
    }
    var ok := directory.Reconcile(settings.accepts, redoSteps);
    if !ok || !Readable(settings.accepts, Stored(directory.disk)) {
      return null;
    }
    var documents := Opened(Stored(directory.disk));
    OpeningFreesNext(Stored(directory.disk));
    if !UniqueIds(documents) || settings.size(documents) > settings.aggregateLimit {
      return null;
    }
    var store := new NotificationStore(directory, documents, settings.capacity, settings.aggregateLimit,
                                       settings.size, settings.accepts);
    ok := store.ExpireAllActions(expireSteps);
    if !ok {
      return null;
    }
    provider := new FreedesktopNotificationProvider(store);
  }

  /** Reopening keeps every notification, in order, with its next identifier no lower. */
  lemma ReopeningKeepsItems(recovered: Documents)
    ensures var d := Reopened(recovered);
            && SameItems(recovered.active, d.active) && SameItems(recovered.archive, d.archive)
            && d.preferences.dnd == recovered.preferences.dnd
            && d.preferences.nextId >= recovered.preferences.nextId && NextIsFree(d)
            && OfferingIds(d.active) + OfferingIds(d.archive) == {}
  {
    OpeningFreesNext(recovered);
    ExpiringEverythingLeavesNoOffer(Opened(recovered));
    SameItemsKeepNextFree(Opened(recovered), Reopened(recovered));
  }

  /**
    Crash consistency end to end: after any commits and recoveries, each cut after any step, a process
    that opens the directory holds the last candidate whose journal was written, whole, with its next
    identifier raised and its actions expired.
   */
  method ReopenAfter(directory: Directory, ghost start: Disk, ghost attempts: seq<Attempt>,
                     settings: Settings, redoSteps: nat, expireSteps: nat)
    returns (provider: FreedesktopNotificationProvider?)
    requires directory.disk == Attempted(start, attempts)
    modifies directory
    ensures var candidate := LastJournalled(Recovered(start), attempts);
            && (provider != null ==> provider.store.Docs() == Reopened(candidate))
            && ((&& Openable(settings, candidate) && settings.size(Reopened(candidate)) <= settings.aggregateLimit
                 && redoSteps >= 5 && expireSteps >= 6)
                ==> provider != null)
  {
    RecoversOneWholeCandidate(start, attempts);
    provider := Open(directory, settings, redoSteps, expireSteps);
  }

  datatype Turn =
    | Incoming(origin: string, notification: Notification, now: Instant, steps: nat)
    | Commanded(command: Command, steps: nat)
    | Ticked(now: Instant)
    | ClientLeft(origin: string, steps: nat)
    | Restarted(settings: Settings, redoSteps: nat, expireSteps: nat)

  /** The identifiers returned so far are below every next identifier in memory and on disk. */
  ghost predicate Spent(returned: seq<nat>, directory: Directory, provider: FreedesktopNotificationProvider?)
    reads directory, provider, if provider != null then {provider.store} else {}
  {
    && (forall i, j :: 0 <= i < j < |returned| ==> returned[i] < returned[j])
    && (forall i :: 0 <= i < |returned| ==> returned[i] < Recovered(directory.disk).preferences.nextId)
    && (provider != null ==> forall i :: 0 <= i < |returned| ==> returned[i] < provider.store.preferences.nextId)
  }

  /** One request, command, timeout or lost client; returns the identifier of a new notification. */
  method Turned(provider: FreedesktopNotificationProvider, turn: Turn) returns (issued: Option<nat>)
    requires provider.Valid() && !turn.Restarted?
    modifies provider, provider.store, provider.store.directory
    ensures provider.Valid()
    ensures provider.store.preferences.nextId >= old(provider.store.preferences.nextId)
    ensures || Recovered(provider.store.directory.disk) == Recovered(old(provider.store.directory.disk))
            || Recovered(provider.store.directory.disk).preferences.nextId >= old(provider.store.preferences.nextId)
    ensures issued.Some? ==>
              && issued.value == old(provider.store.preferences.nextId) < provider.store.preferences.nextId
              && Recovered(provider.store.directory.disk).preferences.nextId == provider.store.preferences.nextId
  {
    issued := None;
    match turn
    case Incoming(origin, n, now, steps) =>
      var out := provider.Notify(origin, n, now, steps);
      if out.Notified? && n.id == 0 {
        issued := Some(out.id);
      }
    case Commanded(command, steps) =>
      var ok := provider.Execute(command, steps);
    case Ticked(now) =>
      var expired := provider.AdvancePopupTime(now);
    case ClientLeft(origin, steps) =>
      var ok, found := provider.OriginLost(origin, steps);
  }

  /**
    Whole lives of the provider: requests, commands, timeouts, lost clients, failed commits, kills and
    restarts in any order.  The identifiers returned for new notifications strictly increase, so none is
    ever returned twice, and the maps stay in step with the documents throughout.
   */
  method Live(directory: Directory, turns: seq<Turn>) returns (returned: seq<nat>)
    modifies directory
    ensures forall i, j :: 0 <= i < j < |returned| ==> returned[i] < returned[j]
    ensures forall i :: 0 <= i < |returned| ==> returned[i] < Recovered(directory.disk).preferences.nextId
  {
    var provider: FreedesktopNotificationProvider? := null;
    returned := [];
    for t := 0 to |turns|
      invariant provider != null ==>
                  fresh(provider) && fresh(provider.store) && provider.store.directory == directory && provider.Valid()
      invariant Spent(returned, directory, provider)
    {
      if turns[t].Restarted? {
        ReopeningKeepsItems(Recovered(directory.disk));
        provider := Open(directory, turns[t].settings, turns[t].redoSteps, turns[t].expireSteps);
      } else if provider != null {
        var id := Turned(provider, turns[t]);
        if id.Some? {
          returned := returned + [id.value];
        }
      }
    }
  }
}
