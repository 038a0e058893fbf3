/**
  The notification documents (active list, archive and preferences) and what each operation makes of
  them, before anything is written.
 */
module NotificationDocuments {
  import opened Wrappers

  const U32_MAX: nat := 0xFFFF_FFFF

  datatype Urgency = Low | Normal | Critical
  datatype ActionState = Available | Expired
  datatype Action = Action(id: string, state: ActionState)

  datatype Notification = Notification(
    id: nat, applicationId: string, summary: string, urgency: Urgency, actions: seq<Action>,
    timeoutMs: Option<nat>, read: bool, archived: bool)

  datatype Preferences = Preferences(dnd: bool, nextId: nat)

  datatype Documents = Documents(active: seq<Notification>, archive: seq<Notification>, preferences: Preferences)

  // ---------------------------------------------------------------- identifiers

  function Ids(items: seq<Notification>): set<nat> {
    set i | 0 <= i < |items| :: items[i].id
  }

  function AllIds(d: Documents): set<nat> {
    Ids(d.active) + Ids(d.archive)
  }

  predicate UniqueIn(items: seq<Notification>) {
    forall i, j :: 0 <= i < j < |items| ==> items[i].id != items[j].id
  }

  /** Nonzero 32-bit identifiers, unique across both lists. */
  predicate UniqueIds(d: Documents) {
    && UniqueIn(d.active) && UniqueIn(d.archive) && Ids(d.active) !! Ids(d.archive)
    && (forall n :: n in d.active + d.archive ==> 0 < n.id <= U32_MAX)
  }

  function GreatestId(items: seq<Notification>): (g: nat)
    ensures forall i :: 0 <= i < |items| ==> items[i].id <= g
    ensures g == 0 || g in Ids(items)
  {
    if items == [] then 0
    else
      var rest := GreatestId(items[..|items| - 1]);
      var last := items[|items| - 1].id;
      assert forall i :: 0 <= i < |items| - 1 ==> items[i] == items[..|items| - 1][i];
      assert last in Ids(items);
      if last > rest then last else rest
  }

  /** Position of a notification, or the length when it is absent. */
  function PositionOf(items: seq<Notification>, id: nat): (i: nat)
    ensures i <= |items|
    ensures i < |items| ==> items[i].id == id
    ensures forall j :: 0 <= j < i ==> items[j].id != id
    ensures i < |items| <==> id in Ids(items)
  {
    if items == [] || items[0].id == id then 0
    else
      var rest := PositionOf(items[1..], id);
      assert forall j :: 1 <= j < |items| ==> items[j] == items[1..][j - 1];
      1 + rest
  }

  function WithoutId(items: seq<Notification>, id: nat): seq<Notification> {
    var i := PositionOf(items, id);
    if i < |items| then items[..i] + items[i + 1..] else items
  }

  /** The items with other identifiers, in order. */
  function Others(items: seq<Notification>, id: nat): seq<Notification> {
    if items == [] then []
    else (if items[0].id == id then [] else [items[0]]) + Others(items[1..], id)
  }

  lemma {:induction false} OthersOfAbsent(items: seq<Notification>, id: nat)
    requires forall i :: 0 <= i < |items| ==> items[i].id != id
    ensures Others(items, id) == items
  {
    if items != [] {
      OthersOfAbsent(items[1..], id);
      assert items == [items[0]] + items[1..];
    }
  }

  /** Removing by position leaves exactly the others when no identifier is there twice. */
  lemma {:induction false} WithoutIdIsOthers(items: seq<Notification>, id: nat)
    requires UniqueIn(items)
    ensures WithoutId(items, id) == Others(items, id)
  {
    if items != [] {
      var rest := items[1..];
      if items[0].id == id {
        OthersOfAbsent(rest, id);
        assert WithoutId(items, id) == rest;
      } else {
        WithoutIdIsOthers(rest, id);
        WithoutIdOfRest(items, id);
      }
    }
  }

  lemma WithoutIdOfRest(items: seq<Notification>, id: nat)
    requires items != [] && items[0].id != id
    ensures WithoutId(items, id) == [items[0]] + WithoutId(items[1..], id)
  {
    var rest := items[1..];
    var i := PositionOf(rest, id);
    if i < |rest| {
      CutBehindHead(items, i);
    } else {
      assert items == [items[0]] + rest;
    }
  }

  lemma CutBehindHead(items: seq<Notification>, i: nat)
    requires i + 1 < |items|
    ensures items[..i + 1] + items[i + 2..] == [items[0]] + (items[1..][..i] + items[1..][i + 1..])
  {
  }

  lemma InIds(items: seq<Notification>, n: Notification)
    requires n in items
    ensures n.id in Ids(items)
  {
    var i :| 0 <= i < |items| && items[i] == n;
  }

  lemma AppendIds(items: seq<Notification>, n: Notification)
    ensures Ids(items + [n]) == Ids(items) + {n.id}
  {
    var all := items + [n];
    assert all[|items|] == n;
    assert forall i :: 0 <= i < |items| ==> all[i] == items[i];
  }

  lemma ConcatIds(a: seq<Notification>, b: seq<Notification>)
    ensures Ids(a + b) == Ids(a) + Ids(b)
    ensures UniqueIn(a) && UniqueIn(b) && Ids(a) !! Ids(b) ==> UniqueIn(a + b)
  {
    assert forall i :: 0 <= i < |a| ==> (a + b)[i] == a[i];
    assert forall i :: 0 <= i < |b| ==> (a + b)[|a| + i] == b[i];
    if UniqueIn(a) && UniqueIn(b) && Ids(a) !! Ids(b) {
      forall i, j | 0 <= i < j < |a + b| ensures (a + b)[i].id != (a + b)[j].id {
        if i < |a| && |a| <= j {
          assert a[i].id in Ids(a) && b[j - |a|].id in Ids(b);
        }
      }
    }
  }

  lemma SplitIds(items: seq<Notification>, i: nat)
    requires i <= |items|
    ensures Ids(items) == Ids(items[..i]) + Ids(items[i..])
    ensures UniqueIn(items) ==> UniqueIn(items[..i]) && UniqueIn(items[i..]) && Ids(items[..i]) !! Ids(items[i..])
  {
    assert items == items[..i] + items[i..];
    ConcatIds(items[..i], items[i..]);
  }

  /** The identifiers around a position, which are different ones in a list without duplicates. */
  lemma AroundIds(items: seq<Notification>, i: nat)
    requires i < |items|
    ensures Ids(items) == Ids(items[..i]) + ({items[i].id} + Ids(items[i + 1..]))
    ensures UniqueIn(items) ==>
              && items[i].id !in Ids(items[..i]) && items[i].id !in Ids(items[i + 1..])
              && Ids(items[..i]) !! Ids(items[i + 1..])
              && UniqueIn(items[..i]) && UniqueIn(items[i + 1..])
  {
    SplitIds(items, i);
    SplitIds(items[i..], 1);
    assert items[i..][..1] == [items[i]] && items[i..][1..] == items[i + 1..];
    SingleId(items[i]);
  }

  lemma SingleId(n: Notification)
    ensures Ids([n]) == {n.id}
  {
    assert [n][0].id == n.id;
  }

  lemma WithoutIdIds(items: seq<Notification>, id: nat)
    requires UniqueIn(items) && PositionOf(items, id) < |items|
    ensures var i := PositionOf(items, id);
            && Ids(items) == Ids(items[..i]) + Ids(items[i + 1..]) + {id}
            && id !in Ids(items[..i]) && id !in Ids(items[i + 1..])
            && UniqueIn(WithoutId(items, id)) && Ids(WithoutId(items, id)) == Ids(items) - {id}
  {
    var i := PositionOf(items, id);
    AroundIds(items, i);
    ConcatIds(items[..i], items[i + 1..]);
  }

  lemma WithoutIdRemovesOne(items: seq<Notification>, id: nat)
    requires UniqueIn(items)
    ensures UniqueIn(WithoutId(items, id))
    ensures Ids(WithoutId(items, id)) == Ids(items) - {id}
    ensures forall n :: n in WithoutId(items, id) <==> n in items && n.id != id
  {
    if PositionOf(items, id) < |items| {
      WithoutIdIds(items, id);
    }
    forall n ensures n in WithoutId(items, id) <==> n in items && n.id != id {
      WithoutIdMember(items, id, n);
    }
  }

  lemma WithoutIdMember(items: seq<Notification>, id: nat, n: Notification)
    requires UniqueIn(items)
    ensures n in WithoutId(items, id) <==> n in items && n.id != id
  {
    var i := PositionOf(items, id);
    if i < |items| {
      WithoutIdIds(items, id);
      MemberAround(items, i, n);
      if n in items[..i] { InIds(items[..i], n); }
      if n in items[i + 1..] { InIds(items[i + 1..], n); }
    } else if n in items {
      InIds(items, n);
    }
  }

  lemma MemberAround(items: seq<Notification>, i: nat, n: Notification)
    requires i < |items|
    ensures n in items <==> n in items[..i] || n == items[i] || n in items[i + 1..]
  {
    assert items == items[..i] + [items[i]] + items[i + 1..];
  }

  // ---------------------------------------------------------------- pushing

  function Archived(items: seq<Notification>): (r: seq<Notification>)
    ensures |r| == |items|
    ensures forall i :: 0 <= i < |items| ==> r[i] == items[i].(archived := true)
  {
    seq(|items|, i requires 0 <= i < |items| => items[i].(archived := true))
  }

  /** The notification with the identifier it will be stored under, and the next free identifier. */
  function Assigned(p: Preferences, n: Notification): Option<(Notification, nat)> {
    if n.id == 0 then
      if p.nextId > U32_MAX then None else Some((n.(id := p.nextId, archived := false), p.nextId + 1))
    else Some((n.(archived := false), if n.id >= p.nextId then n.id + 1 else p.nextId))
  }

  function Overflow(count: nat, capacity: nat): nat {
    if count > capacity then count - capacity else 0
  }

  /** Replaces or appends; what exceeds the capacity moves from the front of the active list to the archive. */
  function Pushed(d: Documents, n: Notification, nextId: nat, capacity: nat): Documents {
    var active := Extended(d, n);
    var overflow := Overflow(|active|, capacity);
    Documents(active[overflow..], d.archive + Archived(active[..overflow]), d.preferences.(nextId := nextId))
  }

  function ArchivedIds(d: Documents, n: Notification, capacity: nat): seq<nat> {
    var active := Extended(d, n);
    seq(Overflow(|active|, capacity), i requires 0 <= i < Overflow(|active|, capacity) => active[i].id)
  }

  /** The active list before the overflow is cut off. */
  function Extended(d: Documents, n: Notification): seq<Notification> {
    WithoutId(d.active, n.id) + [n]
  }

  lemma ExtendedIds(d: Documents, n: Notification)
    requires UniqueIn(d.active)
    ensures UniqueIn(Extended(d, n)) && Ids(Extended(d, n)) == Ids(d.active) + {n.id}
    ensures forall m :: m in Extended(d, n) <==> m == n || (m in d.active && m.id != n.id)
  {
    WithoutIdRemovesOne(d.active, n.id);
    AppendIds(WithoutId(d.active, n.id), n);
    assert Ids([n]) == {n.id} by { assert [n][0].id == n.id; }
    ConcatIds(WithoutId(d.active, n.id), [n]);
  }

  lemma ReportedArchived(d: Documents, n: Notification, capacity: nat)
    ensures var overflow := Overflow(|Extended(d, n)|, capacity);
            forall x :: x in ArchivedIds(d, n, capacity) <==> x in Ids(Extended(d, n)[..overflow])
  {
    var overflow := Overflow(|Extended(d, n)|, capacity);
    var cut := Extended(d, n)[..overflow];
    assert |ArchivedIds(d, n, capacity)| == overflow;
    assert forall i :: 0 <= i < overflow ==> ArchivedIds(d, n, capacity)[i] == cut[i].id;
  }

  /**
    What storing a notification means: the others stay in order, it comes last, and what exceeds the
    capacity moves in order from the front to the end of the archive, marked as archived and reported.
   */
  ghost predicate StoredLast(before: Documents, after: Documents, stored: Notification, archivedIds: seq<nat>,
                             capacity: nat)
  {
    var kept := Others(before.active, stored.id) + [stored];
    var k, old_ := |archivedIds|, |before.archive|;
    && k == (if |kept| > capacity then |kept| - capacity else 0)
    && after.active == kept[k..]
    && |after.archive| == old_ + k && after.archive[..old_] == before.archive
    && (forall i :: 0 <= i < k ==> after.archive[old_ + i] == kept[i].(archived := true))
    && (forall i :: 0 <= i < k ==> archivedIds[i] == kept[i].id)
  }

  lemma PushStoresLast(d: Documents, n: Notification, nextId: nat, capacity: nat)
    requires UniqueIn(d.active)
    ensures StoredLast(d, Pushed(d, n, nextId, capacity), n, ArchivedIds(d, n, capacity), capacity)
  {
    WithoutIdIsOthers(d.active, n.id);
    var archived := Archived(Extended(d, n)[..Overflow(|Extended(d, n)|, capacity)]);
    assert (d.archive + archived)[..|d.archive|] == d.archive;
  }

  /**
    Conservation: a push adds its own identifier and no other, loses none, keeps the pushed item as
    the last active one, leaves at most `capacity` active, and archives exactly the reported items.
   */
  lemma PushConserves(d: Documents, n: Notification, nextId: nat, capacity: nat)
    requires UniqueIds(d) && capacity > 0 && n.id !in Ids(d.archive) && 0 < n.id <= U32_MAX
    ensures var r := Pushed(d, n, nextId, capacity);
            && UniqueIds(r)
            && AllIds(r) == AllIds(d) + {n.id}
            && 0 < |r.active| <= capacity && r.active[|r.active| - 1] == n
            && (forall x :: x in ArchivedIds(d, n, capacity) <==> x in Ids(r.archive) && x !in Ids(d.archive))
            && d.archive <= r.archive
            && (forall m :: m in r.active ==> m == n || (m in d.active && m.id != n.id))
            && (forall m :: m in d.active && m.id != n.id ==> m in r.active || m.(archived := true) in r.archive)
  {
    var active := Extended(d, n);
    var overflow := Overflow(|active|, capacity);
    var cut := active[..overflow];
    ExtendedIds(d, n);
    SplitIds(active, overflow);
    ArchivingKeepsIds(cut);
    ConcatIds(d.archive, Archived(cut));
    ReportedArchived(d, n, capacity);
    PushKeepsItems(d, n, nextId, capacity);
    PushKeepsRange(d, n, nextId, capacity);
  }

  lemma PushKeepsRange(d: Documents, n: Notification, nextId: nat, capacity: nat)
    requires UniqueIds(d) && 0 < n.id <= U32_MAX
    ensures var r := Pushed(d, n, nextId, capacity);
            forall m :: m in r.active + r.archive ==> 0 < m.id <= U32_MAX
  {
    var active := Extended(d, n);
    var overflow := Overflow(|active|, capacity);
    ExtendedIds(d, n);
    forall m | m in active ensures 0 < m.id <= U32_MAX {
      assert m == n || m in d.active + d.archive;
    }
    forall m | m in active[overflow..] ensures 0 < m.id <= U32_MAX {
      TailIsPart(active, overflow, m);
    }
    forall m | m in d.archive ensures 0 < m.id <= U32_MAX {
      assert m in d.active + d.archive;
    }
    ArchivedRange(active, overflow);
  }

  lemma ArchivedRange(items: seq<Notification>, k: nat)
    requires k <= |items| && forall m :: m in items ==> 0 < m.id <= U32_MAX
    ensures forall m :: m in Archived(items[..k]) ==> 0 < m.id <= U32_MAX
  {
    forall m | m in Archived(items[..k]) ensures 0 < m.id <= U32_MAX {
      var i :| 0 <= i < k && Archived(items[..k])[i] == m;
      assert items[i] in items;
    }
  }

  lemma PushKeepsItems(d: Documents, n: Notification, nextId: nat, capacity: nat)
    requires UniqueIn(d.active)
    ensures var r := Pushed(d, n, nextId, capacity);
            && (forall m :: m in r.active ==> m == n || (m in d.active && m.id != n.id))
            && (forall m :: m in d.active && m.id != n.id ==> m in r.active || m.(archived := true) in r.archive)
  {
    ExtendedIds(d, n);
    var active := Extended(d, n);
    var overflow := Overflow(|active|, capacity);
    forall m | m in active[overflow..] ensures m in active {
      TailIsPart(active, overflow, m);
    }
    var archive := d.archive + Archived(active[..overflow]);
    forall m | m in active ensures m in active[overflow..] || m.(archived := true) in archive {
      CutOrKept(active, overflow, d.archive, m);
    }
  }

  lemma TailIsPart(items: seq<Notification>, k: nat, m: Notification)
    requires k <= |items| && m in items[k..]
    ensures m in items
  {
    var i :| 0 <= i < |items| - k && items[k..][i] == m;
    assert items[k + i] == m;
  }

  lemma CutOrKept(items: seq<Notification>, k: nat, archive: seq<Notification>, m: Notification)
    requires k <= |items| && m in items
    ensures m in items[k..] || m.(archived := true) in archive + Archived(items[..k])
  {
    var i :| 0 <= i < |items| && items[i] == m;
    if i < k {
      assert Archived(items[..k])[i] == m.(archived := true);
    } else {
      assert items[k..][i - k] == m;
    }
  }

  lemma ArchivingKeepsIds(items: seq<Notification>)
    ensures Ids(Archived(items)) == Ids(items)
    ensures UniqueIn(items) ==> UniqueIn(Archived(items))
  {
    assert forall i :: 0 <= i < |items| ==> Archived(items)[i].id == items[i].id;
  }

  // ---------------------------------------------------------------- the other operations

  function Dismissed(d: Documents, id: nat): Documents
    requires id in Ids(d.active)
  {
    var i := PositionOf(d.active, id);
    d.(active := WithoutId(d.active, id), archive := d.archive + [d.active[i].(archived := true)])
  }

  lemma DismissMovesOne(d: Documents, id: nat)
    requires UniqueIds(d) && id in Ids(d.active)
    ensures var r := Dismissed(d, id);
            && UniqueIds(r) && AllIds(r) == AllIds(d)
            && Ids(r.active) == Ids(d.active) - {id} && Ids(r.archive) == Ids(d.archive) + {id}
            && (forall n :: n in r.active <==> n in d.active && n.id != id)
            && r.active == Others(d.active, id) && r.preferences == d.preferences
            && exists n :: n in d.active && n.id == id && r.archive == d.archive + [n.(archived := true)]
  {
    WithoutIdRemovesOne(d.active, id);
    WithoutIdIsOthers(d.active, id);
    var item := d.active[PositionOf(d.active, id)].(archived := true);
    AppendIds(d.archive, item);
    assert Ids([item]) == {id} by { assert [item][0].id == id; }
    ConcatIds(d.archive, [item]);
    assert d.active[PositionOf(d.active, id)] in d.active + d.archive;
  }

  function MarkedRead(d: Documents, id: nat): Documents
    requires id in Ids(d.active)
  {
    var i := PositionOf(d.active, id);
    d.(active := d.active[i := d.active[i].(read := true)])
  }

  /** The read mark of one item is set, and nothing else changes. */
  lemma MarkReadMarksOne(d: Documents, id: nat)
    requires UniqueIn(d.active) && id in Ids(d.active)
    ensures var r := MarkedRead(d, id);
            && r.archive == d.archive && r.preferences == d.preferences && |r.active| == |d.active|
            && (forall i :: 0 <= i < |d.active| ==>
                  r.active[i] == if d.active[i].id == id then d.active[i].(read := true) else d.active[i])
  {
    var at := PositionOf(d.active, id);
    assert forall i :: 0 <= i < |d.active| && i != at ==> d.active[i].id != d.active[at].id;
  }

  function ExpiredActions(actions: seq<Action>): (r: seq<Action>)
    ensures |r| == |actions| && forall i :: 0 <= i < |r| ==> r[i] == actions[i].(state := Expired)
  {
    seq(|actions|, i requires 0 <= i < |actions| => actions[i].(state := Expired))
  }

  /** Expires every action of the notifications in `ids`. */
  function WithExpired(items: seq<Notification>, ids: set<nat>): (r: seq<Notification>)
    ensures |r| == |items|
    ensures forall i :: 0 <= i < |items| ==>
              r[i] == if items[i].id in ids then items[i].(actions := ExpiredActions(items[i].actions)) else items[i]
  {
    seq(|items|, i requires 0 <= i < |items| =>
      if items[i].id in ids then items[i].(actions := ExpiredActions(items[i].actions)) else items[i])
  }

  function ActionsExpired(d: Documents, ids: set<nat>): Documents {
    d.(active := WithExpired(d.active, ids), archive := WithExpired(d.archive, ids))
  }

  predicate Offers(n: Notification) {
    exists i :: 0 <= i < |n.actions| && n.actions[i].state == Available
  }

  /** Two lists that agree item by item in identifier and urgency. */
  ghost predicate SameItems(a: seq<Notification>, b: seq<Notification>) {
    |a| == |b| && forall i :: 0 <= i < |a| ==> a[i].id == b[i].id && a[i].urgency == b[i].urgency
  }

  lemma SameItemsSameIds(a: seq<Notification>, b: seq<Notification>)
    requires SameItems(a, b)
    ensures Ids(a) == Ids(b)
    ensures UniqueIn(a) ==> UniqueIn(b)
  {
    forall x ensures x in Ids(a) <==> x in Ids(b) {
      if x in Ids(a) {
        var i :| 0 <= i < |a| && a[i].id == x;
        assert b[i].id == x;
      }
      if x in Ids(b) {
        var i :| 0 <= i < |b| && b[i].id == x;
        assert a[i].id == x;
      }
    }
  }

  lemma SameDocumentsKeepUnique(d: Documents, r: Documents)
    requires UniqueIds(d) && SameItems(d.active, r.active) && SameItems(d.archive, r.archive)
    ensures UniqueIds(r) && Ids(r.active) == Ids(d.active) && Ids(r.archive) == Ids(d.archive)
  {
    SameItemsSameIds(d.active, r.active);
    SameItemsSameIds(d.archive, r.archive);
    forall n | n in r.active + r.archive ensures 0 < n.id <= U32_MAX {
      if n in r.active {
        var i :| 0 <= i < |r.active| && r.active[i] == n;
        assert d.active[i] in d.active + d.archive;
      } else {
        var i :| 0 <= i < |r.archive| && r.archive[i] == n;
        assert d.archive[i] in d.active + d.archive;
      }
    }
  }

  // ---------------------------------------------------------------- selections

  /** Identifiers of the items that satisfy a predicate. */
  function Select(items: seq<Notification>, p: Notification -> bool): set<nat> {
    set i | 0 <= i < |items| && p(items[i]) :: items[i].id
  }

  predicate IsCritical(n: Notification) {
    n.urgency == Critical
  }

  function CriticalIds(items: seq<Notification>): set<nat> {
    Select(items, IsCritical)
  }

  function OfferingIds(items: seq<Notification>): set<nat> {
    Select(items, Offers)
  }

  lemma SelectIsPart(items: seq<Notification>, p: Notification -> bool)
    ensures Select(items, p) <= Ids(items)
  {
  }

  lemma SelectConcat(a: seq<Notification>, b: seq<Notification>, p: Notification -> bool)
    ensures Select(a + b, p) == Select(a, p) + Select(b, p)
  {
    assert forall i :: 0 <= i < |a| ==> (a + b)[i] == a[i];
    assert forall i :: 0 <= i < |b| ==> (a + b)[|a| + i] == b[i];
  }

  lemma SelectOne(n: Notification, p: Notification -> bool)
    ensures Select([n], p) == if p(n) then {n.id} else {}
  {
    assert [n][0] == n;
  }

  lemma SelectAround(items: seq<Notification>, i: nat, p: Notification -> bool)
    requires i < |items|
    ensures Select(items, p)
            == Select(items[..i], p) + (if p(items[i]) then {items[i].id} else {}) + Select(items[i + 1..], p)
  {
    assert items == items[..i] + ([items[i]] + items[i + 1..]);
    SelectConcat(items[..i], [items[i]] + items[i + 1..], p);
    SelectConcat([items[i]], items[i + 1..], p);
    SelectOne(items[i], p);
  }

  lemma AbsentAround(items: seq<Notification>, id: nat)
    requires UniqueIn(items) && PositionOf(items, id) < |items|
    ensures id !in Ids(items[..PositionOf(items, id)]) && id !in Ids(items[PositionOf(items, id) + 1..])
  {
    WithoutIdIds(items, id);
  }

  lemma UnionWithout(a: set<nat>, b: set<nat>, one: set<nat>, id: nat)
    requires id !in a && id !in b && one <= {id}
    ensures a + b == a + one + b - {id}
  {
  }

  lemma SelectWithout(items: seq<Notification>, id: nat, p: Notification -> bool)
    requires UniqueIn(items)
    ensures Select(WithoutId(items, id), p) == Select(items, p) - {id}
  {
    if PositionOf(items, id) < |items| {
      SelectWithoutPresent(items, id, p);
    } else {
      SelectIsPart(items, p);
    }
  }

  lemma SelectWithoutPresent(items: seq<Notification>, id: nat, p: Notification -> bool)
    requires UniqueIn(items) && PositionOf(items, id) < |items|
    ensures Select(WithoutId(items, id), p) == Select(items, p) - {id}
  {
    var i := PositionOf(items, id);
    AbsentAround(items, id);
    SelectAround(items, i, p);
    SelectConcat(items[..i], items[i + 1..], p);
    SelectIsPart(items[..i], p);
    SelectIsPart(items[i + 1..], p);
    UnionWithout(Select(items[..i], p), Select(items[i + 1..], p), if p(items[i]) then {id} else {}, id);
  }

  lemma SelectSame(a: seq<Notification>, b: seq<Notification>, p: Notification -> bool)
    requires |a| == |b|
    requires forall i :: 0 <= i < |a| ==> a[i].id == b[i].id && p(a[i]) == p(b[i])
    ensures Select(a, p) == Select(b, p)
  {
  }

  /** Archiving does not change what is critical or what offers actions. */
  predicate IgnoresArchiving(p: Notification -> bool, items: seq<Notification>) {
    forall i :: 0 <= i < |items| ==> p(items[i].(archived := true)) == p(items[i])
  }

  lemma ExtendedSelects(d: Documents, n: Notification, p: Notification -> bool)
    requires UniqueIn(d.active)
    ensures Select(Extended(d, n), p) == Select(d.active, p) - {n.id} + (if p(n) then {n.id} else {})
  {
    SelectWithout(d.active, n.id, p);
    SelectConcat(WithoutId(d.active, n.id), [n], p);
    SelectOne(n, p);
  }

  /** A push adds at most its own identifier to a selection and loses none. */
  lemma PushSelects(d: Documents, n: Notification, nextId: nat, capacity: nat, p: Notification -> bool)
    requires UniqueIn(d.active) && IgnoresArchiving(p, Extended(d, n))
    ensures var r := Pushed(d, n, nextId, capacity);
            Select(r.active, p) + Select(r.archive, p)
            == Select(d.active, p) - {n.id} + Select(d.archive, p) + (if p(n) then {n.id} else {})
  {
    var active := Extended(d, n);
    var overflow := Overflow(|active|, capacity);
    var cut, rest := active[..overflow], active[overflow..];
    ExtendedSelects(d, n, p);
    CutSelects(active, overflow, p);
    ArchivingSelects(cut, active, overflow, p);
    SelectConcat(d.archive, Archived(cut), p);
    MovedUnion(Select(active, p), Select(rest, p), Select(cut, p), Select(d.archive, p));
  }

  lemma CutSelects(items: seq<Notification>, k: nat, p: Notification -> bool)
    requires k <= |items|
    ensures Select(items, p) == Select(items[..k], p) + Select(items[k..], p)
  {
    assert items == items[..k] + items[k..];
    SelectConcat(items[..k], items[k..], p);
  }

  lemma ArchivingSelects(cut: seq<Notification>, items: seq<Notification>, k: nat, p: Notification -> bool)
    requires k <= |items| && cut == items[..k] && IgnoresArchiving(p, items)
    ensures Select(Archived(cut), p) == Select(cut, p)
  {
    forall i | 0 <= i < |cut| ensures p(cut[i]) == p(Archived(cut)[i]) {
      assert cut[i] == items[i];
    }
    SelectSame(cut, Archived(cut), p);
  }

  lemma MovedUnion(all: set<nat>, rest: set<nat>, cut: set<nat>, archive: set<nat>)
    requires all == cut + rest
    ensures rest + (archive + cut) == all + archive
  {
  }

  /** The active list loses only what the push reports as archived. */
  lemma PushKeepsActive(d: Documents, n: Notification, nextId: nat, capacity: nat, p: Notification -> bool)
    requires UniqueIn(d.active) && capacity > 0
    ensures var r := Pushed(d, n, nextId, capacity);
            && Select(d.active, p) - {n.id} - SetOf(ArchivedIds(d, n, capacity)) <= Select(r.active, p)
            && (p(n) ==> n.id in Select(r.active, p))
  {
    var active := Extended(d, n);
    var overflow := Overflow(|active|, capacity);
    var cut, rest := active[..overflow], active[overflow..];
    ExtendedSelects(d, n, p);
    assert active == cut + rest;
    SelectConcat(cut, rest, p);
    SelectIsPart(cut, p);
    ReportedArchived(d, n, capacity);
    assert rest[|rest| - 1] == n;
  }

  function SetOf(ids: seq<nat>): set<nat> {
    set x | x in ids
  }

  /** Which identifiers are where after a push. */
  lemma PushMovesIds(d: Documents, n: Notification, nextId: nat, capacity: nat)
    requires UniqueIds(d) && capacity > 0 && n.id !in Ids(d.archive) && 0 < n.id <= U32_MAX
    ensures var r := Pushed(d, n, nextId, capacity);
            var moved := SetOf(ArchivedIds(d, n, capacity));
            && Ids(r.active) == Ids(d.active) + {n.id} - moved
            && Ids(r.archive) == Ids(d.archive) + moved
            && n.id !in moved && moved <= Ids(d.active)
  {
    var active := Extended(d, n);
    var overflow := Overflow(|active|, capacity);
    var cut, rest := active[..overflow], active[overflow..];
    ExtendedIds(d, n);
    SplitIds(active, overflow);
    ArchivingKeepsIds(cut);
    ConcatIds(d.archive, Archived(cut));
    MovedAreCut(d, n, capacity);
    LastStays(active, overflow);
    MovedOut(Ids(d.active), n.id, Ids(cut), Ids(rest));
  }

  lemma MovedAreCut(d: Documents, n: Notification, capacity: nat)
    ensures SetOf(ArchivedIds(d, n, capacity)) == Ids(Extended(d, n)[..Overflow(|Extended(d, n)|, capacity)])
  {
    ReportedArchived(d, n, capacity);
  }

  lemma LastStays(items: seq<Notification>, k: nat)
    requires k < |items|
    ensures items[|items| - 1].id in Ids(items[k..])
  {
    assert items[k..][|items| - k - 1] == items[|items| - 1];
  }

  lemma MovedOut(active: set<nat>, id: nat, cut: set<nat>, rest: set<nat>)
    requires active + {id} == cut + rest && cut !! rest && id in rest
    ensures rest == active + {id} - cut && id !in cut && cut <= active
  {
  }

  lemma OffersIgnoresArchiving(items: seq<Notification>)
    ensures IgnoresArchiving(Offers, items) && IgnoresArchiving(IsCritical, items)
  {
    forall i | 0 <= i < |items| ensures Offers(items[i].(archived := true)) == Offers(items[i]) {
      assert items[i].(archived := true).actions == items[i].actions;
    }
  }
}
