/**
  The durable list of handled desktop requests.  A request is recorded as pending before it is
  executed and completed afterwards; to make room, the oldest completed record is dropped, never a
  pending one.
 */
module DesktopDedupe {
  import opened Wrappers

  type RequestId = string

  datatype ResultStatus = Succeeded | Failed

  datatype DesktopResult = DesktopResult(
    requestId: RequestId, generation: nat, status: ResultStatus, diagnostic: Option<string>)

  datatype Record = Record(requestId: RequestId, result: Option<DesktopResult>)

  /** How the atomic replacement of the document ended; `Unsynced` reached the disk but is reported as an error. */
  datatype Commit = Written | Lost | Unsynced

  /** Position of the first record of a request, or the length when there is none. */
  function Position(records: seq<Record>, id: RequestId): (i: nat)
    ensures i <= |records|
    ensures i < |records| ==> records[i].requestId == id
    ensures forall j :: 0 <= j < i ==> records[j].requestId != id
  {
    if records == [] || records[0].requestId == id then 0
    else
      var rest := Position(records[1..], id);
      assert forall j :: 1 <= j < 1 + rest ==> records[j] == records[1..][j - 1];
      1 + rest
  }

  function Find(records: seq<Record>, id: RequestId): Option<Option<DesktopResult>> {
    var i := Position(records, id);
    if i < |records| then Some(records[i].result) else None
  }

  predicate DistinctIds(records: seq<Record>) {
    forall i, j :: 0 <= i < j < |records| ==> records[i].requestId != records[j].requestId
  }

  predicate IsPending(records: seq<Record>, id: RequestId) {
    Record(id, None) in records
  }

  function PendingRecords(records: seq<Record>): seq<Record> {
    if records == [] then []
    else (if records[0].result.None? then [records[0]] else []) + PendingRecords(records[1..])
  }

  function CompletedRecords(records: seq<Record>): seq<Record> {
    if records == [] then []
    else (if records[0].result.Some? then [records[0]] else []) + CompletedRecords(records[1..])
  }

  /** Position of the oldest completed record, or the length when all are pending. */
  function OldestCompleted(records: seq<Record>): (i: nat)
    ensures i <= |records|
    ensures i < |records| ==> records[i].result.Some?
    ensures forall j :: 0 <= j < i ==> records[j].result.None?
  {
    if records == [] || records[0].result.Some? then 0
    else
      var rest := OldestCompleted(records[1..]);
      assert forall j :: 1 <= j < 1 + rest ==> records[j] == records[1..][j - 1];
      1 + rest
  }

  function Without<T>(s: seq<T>, i: nat): seq<T>
    requires i < |s|
  {
    s[..i] + s[i + 1..]
  }

  function MakeRoom(records: seq<Record>, maximum: nat): Option<seq<Record>>
    decreases |records|
  {
    if |records| < maximum then Some(records)
    else
      var i := OldestCompleted(records);
      if i == |records| then None else MakeRoom(Without(records, i), maximum)
  }

  lemma {:induction false} SplitCounts(records: seq<Record>)
    ensures |PendingRecords(records)| + |CompletedRecords(records)| == |records|
    ensures forall r :: r in records && r.result.None? ==> r in PendingRecords(records)
    ensures forall r :: r in PendingRecords(records) || r in CompletedRecords(records) ==> r in records
  {
    if records != [] {
      SplitCounts(records[1..]);
      assert records == [records[0]] + records[1..];
    }
  }

  /** Dropping the oldest completed record leaves the pending ones and the other completed ones alone. */
  lemma {:induction false} EvictionIsOldest(records: seq<Record>)
    requires OldestCompleted(records) < |records|
    ensures var rest := Without(records, OldestCompleted(records));
            && PendingRecords(rest) == PendingRecords(records)
            && CompletedRecords(records) != []
            && CompletedRecords(rest) == CompletedRecords(records)[1..]
  {
    EvictionAt(records, OldestCompleted(records));
  }

  lemma {:induction false} EvictionAt(records: seq<Record>, i: nat)
    requires i < |records| && records[i].result.Some?
    requires forall j :: 0 <= j < i ==> records[j].result.None?
    ensures PendingRecords(Without(records, i)) == PendingRecords(records)
    ensures CompletedRecords(records) != []
    ensures CompletedRecords(Without(records, i)) == CompletedRecords(records)[1..]
  {
    if i == 0 {
      assert Without(records, 0) == records[1..];
    } else {
      EvictionAt(records[1..], i - 1);
      WithoutLater(records, i);
      Prepended(records[0], Without(records[1..], i - 1));
    }
  }

  lemma WithoutLater(records: seq<Record>, i: nat)
    requires 0 < i < |records|
    ensures Without(records, i) == [records[0]] + Without(records[1..], i - 1)
  {
  }

  lemma Prepended(first: Record, rest: seq<Record>)
    ensures PendingRecords([first] + rest) == (if first.result.None? then [first] else []) + PendingRecords(rest)
    ensures CompletedRecords([first] + rest) == (if first.result.Some? then [first] else []) + CompletedRecords(rest)
  {
    assert ([first] + rest)[1..] == rest;
  }

  predicate IsSuffix(tail: seq<Record>, whole: seq<Record>) {
    |tail| <= |whole| && tail == whole[|whole| - |tail|..]
  }

  /**
    Making room keeps every pending record in order, drops only the oldest completed records and no
    more than needed, and fails exactly when pending records alone fill the list.
   */
  lemma {:induction false} MakeRoomKeepsPending(records: seq<Record>, maximum: nat)
    ensures MakeRoom(records, maximum).None? <==> |PendingRecords(records)| >= maximum
    ensures MakeRoom(records, maximum).Some? ==>
              var kept := MakeRoom(records, maximum).value;
              && PendingRecords(kept) == PendingRecords(records)
              && IsSuffix(CompletedRecords(kept), CompletedRecords(records))
              && |kept| == if |records| < maximum then |records| else maximum - 1
    decreases |records|
  {
    SplitCounts(records);
    if |records| >= maximum {
      var i := OldestCompleted(records);
      if i == |records| {
        AllPending(records);
      } else {
        EvictionIsOldest(records);
        var rest := Without(records, i);
        MakeRoomKeepsPending(rest, maximum);
        if MakeRoom(rest, maximum).Some? {
          var tail, whole := CompletedRecords(MakeRoom(rest, maximum).value), CompletedRecords(records);
          assert whole[1..][|whole| - 1 - |tail|..] == whole[|whole| - |tail|..];
        }
      }
    }
  }

  lemma {:induction false} AllPending(records: seq<Record>)
    requires forall j :: 0 <= j < |records| ==> records[j].result.None?
    ensures PendingRecords(records) == records
  {
    if records != [] {
      AllPending(records[1..]);
      assert records == [records[0]] + records[1..];
    }
  }

  lemma {:induction false} MakeRoomOnlyDrops(records: seq<Record>, maximum: nat)
    requires MakeRoom(records, maximum).Some?
    ensures forall r :: r in MakeRoom(records, maximum).value ==> r in records
    ensures forall r :: r in records && r.result.None? ==> r in MakeRoom(records, maximum).value
    ensures DistinctIds(records) ==> DistinctIds(MakeRoom(records, maximum).value)
    decreases |records|
  {
    if |records| >= maximum {
      var i := OldestCompleted(records);
      DroppingOne(records, i);
      MakeRoomOnlyDrops(Without(records, i), maximum);
    }
  }

  lemma DroppingOne(records: seq<Record>, i: nat)
    requires i < |records|
    ensures forall r :: r in Without(records, i) ==> r in records
    ensures forall r :: r in records && r != records[i] ==> r in Without(records, i)
    ensures DistinctIds(records) ==> DistinctIds(Without(records, i))
  {
    var rest := Without(records, i);
    assert forall j :: 0 <= j < |rest| ==> rest[j] == if j < i then records[j] else records[j + 1];
    forall r | r in records && r != records[i] ensures r in rest {
      var j :| 0 <= j < |records| && records[j] == r;
      assert rest[if j < i then j else j - 1] == r;
    }
  }

  // ---------------------------------------------------------------- staged documents

  function StageBegin(records: seq<Record>, maximum: nat, id: RequestId): Option<seq<Record>> {
    var room := MakeRoom(records, maximum);
    if room.None? then None else Some(room.value + [Record(id, None)])
  }

  function SetResult(records: seq<Record>, id: RequestId, result: DesktopResult): seq<Record> {
    var i := Position(records, id);
    if i < |records| then records[i := Record(id, Some(result))] else records
  }

  function StageComplete(records: seq<Record>, maximum: nat, id: RequestId, result: DesktopResult)
    : Option<seq<Record>>
  {
    if Find(records, id).Some? then Some(SetResult(records, id, result))
    else
      var room := MakeRoom(records, maximum);
      if room.None? then None else Some(room.value + [Record(id, Some(result))])
  }

  /** Completing a request touches its own record only. */
  lemma SetResultTouchesOne(records: seq<Record>, id: RequestId, result: DesktopResult)
    requires DistinctIds(records)
    ensures DistinctIds(SetResult(records, id, result))
    ensures forall r: Record :: r.requestId != id ==>
              (r in SetResult(records, id, result) <==> r in records)
    ensures forall r: Record :: r in SetResult(records, id, result) && r.requestId == id ==>
              r == Record(id, Some(result)) && exists q :: q in records && q.requestId == id
  {
    var i := Position(records, id);
    var staged := SetResult(records, id, result);
    if i < |records| {
      assert forall j :: 0 <= j < |records| ==> staged[j].requestId == records[j].requestId;
      assert forall j :: 0 <= j < |records| && j != i ==> staged[j] == records[j] && staged[j].requestId != id;
      assert records[i] in records;
    }
  }

  /** What committing a staged document leaves in memory and on disk. */
  function InMemory(current: seq<Record>, staged: seq<Record>, commit: Commit): seq<Record> {
    if commit == Written then staged else current
  }

  function OnDisk(current: seq<Record>, staged: seq<Record>, commit: Commit): seq<Record> {
    if commit == Lost then current else staged
  }

  class DurableDedupe {
    var records: seq<Record>
    var disk: seq<Record>
    const maximum: nat

    /** Reads the document an earlier process left; it must fit the capacity and have distinct ids. */
    constructor (document: seq<Record>, maximum: nat)
      requires DistinctIds(document) && |document| <= maximum && maximum > 0
      ensures records == document && disk == document && this.maximum == maximum
    {
      records, disk := document, document;
      this.maximum := maximum;
    }

    method MakeRoomIn(document: seq<Record>) returns (staged: Option<seq<Record>>)
      ensures staged == MakeRoom(document, maximum)
    {
      var rest := document;
      while |rest| >= maximum
        invariant MakeRoom(rest, maximum) == MakeRoom(document, maximum)
        decreases |rest|
      {
        var index := 0;
        while index < |rest| && rest[index].result.None?
          invariant index <= OldestCompleted(rest)
        {
          index := index + 1;
        }
        if index == |rest| {
          return None;
        }
        rest := rest[..index] + rest[index + 1..];
      }
      staged := Some(rest);
    }

    method CommitDocument(staged: seq<Record>, commit: Commit) returns (ok: bool)
      modifies this
      ensures ok == (commit == Written)
      ensures records == InMemory(old(records), staged, commit)
      ensures disk == OnDisk(old(disk), staged, commit)
    {
      if commit != Lost {
        disk := staged;
      }
      if commit == Written {
        records := staged;
      }
      ok := commit == Written;
    }

    method Begin(id: RequestId, commit: Commit) returns (ok: bool)
      modifies this
      ensures var staged := StageBegin(old(records), maximum, id);
              if Find(old(records), id).Some? || staged.None? then
                !ok && records == old(records) && disk == old(disk)
              else
                && ok == (commit == Written)
                && records == InMemory(old(records), staged.value, commit)
                && disk == OnDisk(old(disk), staged.value, commit)
    {
      if Find(records, id).Some? {
        return false;
      }
      var room := MakeRoomIn(records);
      if room.None? {
        return false;
      }
      ok := CommitDocument(room.value + [Record(id, None)], commit);
    }

    method Complete(id: RequestId, result: DesktopResult, commit: Commit) returns (ok: bool)
      modifies this
      ensures var staged := StageComplete(old(records), maximum, id, result);
              if result.requestId != id || staged.None? then
                !ok && records == old(records) && disk == old(disk)
              else
                && ok == (commit == Written)
                && records == InMemory(old(records), staged.value, commit)
                && disk == OnDisk(old(disk), staged.value, commit)
    {
      if result.requestId != id {
        return false;
      }
      if Find(records, id).Some? {
        ok := CommitDocument(SetResult(records, id, result), commit);
        return;
      }
      var room := MakeRoomIn(records);
      if room.None? {
        return false;
      }
      ok := CommitDocument(room.value + [Record(id, Some(result))], commit);
    }
  }
}
