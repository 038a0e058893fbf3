/**
  Handling of desktop requests as a state machine.  One request is in flight at a time, producers
  publish concurrently, and the daemon may be killed and started again between any two steps.
  Every step is what the code does under one lock or as one durable write.
 */
module DesktopControl {
  import opened Wrappers
  import opened DesktopDedupe

  datatype Request = Request(id: RequestId, expectedGeneration: nat)

  /** Where the request in flight stands. */
  datatype Flight =
    | Idle
    | Unrecorded(request: Request)                  // not in the list
    | Matched(request: Request)                     // the expected generation is current
    | Begun(request: Request)                       // recorded as pending
    | Done(request: Request)                        // handed to the executor
    | Answered(request: Request, result: DesktopResult)

  datatype Daemon = Daemon(records: seq<Record>, generation: nat, initialized: bool, flight: Flight)

  datatype World = World(
    disk: seq<Record>, maximum: nat, issued: nat, daemon: Option<Daemon>, executed: seq<Request>)

  datatype Action =
    | Boot
    | Kill
    | Initialize(generation: nat)
    | Publish(generation: nat)                      // by a producer, or a readback of the request
    | Burn(generation: nat)                         // a number was issued, its publication failed
    | Receive(request: Request)
    | CheckGeneration
    | BeginRequest(commit: Commit)
    | Execute
    | PublishResult(generation: nat, status: ResultStatus, diagnostic: Option<string>)
    | Abandon                                       // an error ends the handling of the request
    | CompleteRequest(commit: Commit)

  /** The allocator only ever hands out numbers above all earlier ones. */
  predicate Fresh(w: World, a: Action) {
    a.Initialize? || a.Publish? || a.Burn? || a.PublishResult? ==> a.generation > w.issued
  }

  /** One step; an action that is not enabled changes nothing. */
  function Step(w: World, a: Action): World {
    if !Fresh(w, a) then w
    else if w.daemon.None? then
      if a.Boot? then w.(daemon := Some(Daemon(w.disk, 0, false, Idle))) else w
    else
      var d := w.daemon.value;
      match a
      case Boot => w
      case Kill => w.(daemon := None)
      case Initialize(g) =>
        if d.initialized then w
        else w.(issued := g, daemon := Some(d.(generation := g, initialized := true)))
      case Publish(g) =>
        if !d.initialized then w else w.(issued := g, daemon := Some(d.(generation := g)))
      case Burn(g) => w.(issued := g)
      case Receive(request) =>
        if d.flight.Idle? && Find(d.records, request.id).None?
        then w.(daemon := Some(d.(flight := Unrecorded(request))))
        else w
      case CheckGeneration =>
        if !d.flight.Unrecorded? then w
        else
          var r := d.flight.request;
          w.(daemon := Some(d.(flight :=
            if d.generation == r.expectedGeneration then Matched(r)
            else Answered(r, DesktopResult(r.id, d.generation, Failed, Some("request.generation-stale"))))))
      case BeginRequest(commit) =>
        if !d.flight.Matched? then w
        else
          var r := d.flight.request;
          var staged := StageBegin(d.records, w.maximum, r.id);
          if staged.None? then w.(daemon := Some(d.(flight := Idle)))
          else w.(disk := OnDisk(w.disk, staged.value, commit),
                  daemon := Some(d.(records := InMemory(d.records, staged.value, commit),
                                    flight := if commit == Written then Begun(r) else Idle)))
      case Execute =>
        if !d.flight.Begun? then w
        else w.(executed := w.executed + [d.flight.request],
                daemon := Some(d.(flight := Done(d.flight.request))))
      case PublishResult(g, status, diagnostic) =>
        if !d.flight.Done? || !d.initialized then w
        else
          var r := d.flight.request;
          w.(issued := g,
             daemon := Some(d.(generation := g,
                               flight := Answered(r, DesktopResult(r.id, g, status, diagnostic)))))
      case Abandon => w.(daemon := Some(d.(flight := Idle)))
      case CompleteRequest(commit) =>
        if !d.flight.Answered? then w
        else
          var staged := StageComplete(d.records, w.maximum, d.flight.request.id, d.flight.result);
          if staged.None? then w.(daemon := Some(d.(flight := Idle)))
          else w.(disk := OnDisk(w.disk, staged.value, commit),
                  daemon := Some(d.(records := InMemory(d.records, staged.value, commit), flight := Idle)))
  }

  function Run(w: World, actions: seq<Action>): World {
    if actions == [] then w
    else Step(Run(w, actions[..|actions| - 1]), actions[|actions| - 1])
  }

  predicate Initial(w: World) {
    && w.executed == [] && w.daemon.None?
    && DistinctIds(w.disk) && |w.disk| <= w.maximum && w.maximum > 0
  }

  // ---------------------------------------------------------------- the invariant

  /** The record of the request is pending wherever it can be looked up, now or after a restart. */
  predicate PendingEverywhere(w: World, id: RequestId) {
    IsPending(w.disk, id) && (w.daemon.Some? ==> IsPending(w.daemon.value.records, id))
  }

  /** No later check can find this generation current. */
  predicate MovedPast(w: World, generation: nat) {
    w.issued > generation
    && (w.daemon.Some? && w.daemon.value.initialized ==> w.daemon.value.generation > generation)
  }

  /** Earlier executions under the same id, for other generations, are all in the past. */
  ghost predicate OthersMovedPast(w: World, request: Request) {
    forall e :: e in w.executed && e.id == request.id && e != request && e.expectedGeneration > 0 ==>
      MovedPast(w, e.expectedGeneration)
  }

  predicate NotYetExecuted(w: World, request: Request) {
    request.expectedGeneration > 0 ==> request !in w.executed
  }

  ghost predicate FlightInv(w: World, d: Daemon) {
    match d.flight
    case Idle => true
    case Unrecorded(r) =>
      && Find(d.records, r.id).None? && OthersMovedPast(w, r)
      && (r in w.executed && r.expectedGeneration > 0 ==> MovedPast(w, r.expectedGeneration))
    case Matched(r) =>
      && Find(d.records, r.id).None? && OthersMovedPast(w, r)
      && NotYetExecuted(w, r) && w.issued >= r.expectedGeneration
    case Begun(r) =>
      && PendingEverywhere(w, r.id) && OthersMovedPast(w, r)
      && NotYetExecuted(w, r) && w.issued >= r.expectedGeneration
    case Done(r) =>
      PendingEverywhere(w, r.id) && OthersMovedPast(w, r) && w.issued >= r.expectedGeneration
    case Answered(r, result) =>
      && OthersMovedPast(w, r)
      && (r in w.executed && r.expectedGeneration > 0 ==> MovedPast(w, r.expectedGeneration))
  }

  ghost predicate Inv(w: World) {
    && w.maximum > 0 && DistinctIds(w.disk)
    && (forall e :: e in w.executed && e.expectedGeneration > 0 ==>
          PendingEverywhere(w, e.id) || MovedPast(w, e.expectedGeneration))
    && (forall i, j :: 0 <= i < j < |w.executed| && w.executed[i] == w.executed[j] ==>
          w.executed[i].expectedGeneration == 0)
    && (w.daemon.Some? ==>
          var d := w.daemon.value;
          && DistinctIds(d.records)
          && d.generation <= w.issued && (!d.initialized ==> d.generation == 0)
          && FlightInv(w, d))
  }

  lemma PendingIsFound(records: seq<Record>, id: RequestId)
    requires IsPending(records, id)
    ensures Find(records, id).Some?
  {
    var i :| 0 <= i < |records| && records[i] == Record(id, None);
    assert records[i].requestId == id;
  }

  /** Making room brings in no request of this id and loses no pending record. */
  lemma RoomIsFree(records: seq<Record>, maximum: nat, id: RequestId)
    requires DistinctIds(records) && Find(records, id).None? && MakeRoom(records, maximum).Some?
    ensures var room := MakeRoom(records, maximum).value;
            && DistinctIds(room) && (forall i :: 0 <= i < |room| ==> room[i].requestId != id)
            && (forall other :: IsPending(records, other) ==> IsPending(room, other))
  {
    MakeRoomOnlyDrops(records, maximum);
    var room := MakeRoom(records, maximum).value;
    forall i | 0 <= i < |room| ensures room[i].requestId != id {
      assert room[i] in records;
      var k :| 0 <= k < |records| && records[k] == room[i];
    }
  }

  /** A staged begin keeps all pending records and adds its own. */
  lemma BeginKeepsPending(records: seq<Record>, maximum: nat, id: RequestId)
    requires DistinctIds(records) && Find(records, id).None? && StageBegin(records, maximum, id).Some?
    ensures DistinctIds(StageBegin(records, maximum, id).value)
    ensures IsPending(StageBegin(records, maximum, id).value, id)
    ensures forall other :: IsPending(records, other) ==> IsPending(StageBegin(records, maximum, id).value, other)
  {
    RoomIsFree(records, maximum, id);
  }

  /** A staged completion keeps all pending records but its own. */
  lemma CompleteKeepsPending(records: seq<Record>, maximum: nat, id: RequestId, result: DesktopResult)
    requires DistinctIds(records) && StageComplete(records, maximum, id, result).Some?
    ensures DistinctIds(StageComplete(records, maximum, id, result).value)
    ensures forall other :: other != id && IsPending(records, other) ==>
              IsPending(StageComplete(records, maximum, id, result).value, other)
  {
    if Find(records, id).Some? {
      SetResultTouchesOne(records, id, result);
    } else {
      RoomIsFree(records, maximum, id);
    }
  }

  lemma ReceiveKeepsInv(w: World, a: Action)
    requires Inv(w) && a.Receive?
    ensures Inv(Step(w, a))
  {
    if w.daemon.Some? && Step(w, a) != w {
      forall e | e in w.executed && e.id == a.request.id && e.expectedGeneration > 0
        ensures MovedPast(w, e.expectedGeneration)
      {
        if PendingEverywhere(w, e.id) {
          PendingIsFound(w.daemon.value.records, e.id);
        }
      }
    }
  }

  lemma BeginKeepsInv(w: World, a: Action)
    requires Inv(w) && a.BeginRequest?
    ensures Inv(Step(w, a))
  {
    if w.daemon.Some? && Step(w, a) != w {
      var d := w.daemon.value;
      if StageBegin(d.records, w.maximum, d.flight.request.id).Some? {
        BeginKeepsPending(d.records, w.maximum, d.flight.request.id);
      }
    }
  }

  lemma CompleteKeepsInv(w: World, a: Action)
    requires Inv(w) && a.CompleteRequest?
    ensures Inv(Step(w, a))
  {
    if w.daemon.Some? && Step(w, a) != w {
      var d := w.daemon.value;
      if StageComplete(d.records, w.maximum, d.flight.request.id, d.flight.result).Some? {
        CompleteKeepsPending(d.records, w.maximum, d.flight.request.id, d.flight.result);
      }
    }
  }

  lemma ExecuteKeepsInv(w: World, a: Action)
    requires Inv(w) && a.Execute?
    ensures Inv(Step(w, a))
  {
  }

  lemma GenerationKeepsInv(w: World, a: Action)
    requires Inv(w) && (a.Initialize? || a.Publish? || a.Burn? || a.PublishResult?)
    ensures Inv(Step(w, a))
  {
  }

  lemma StepKeepsInv(w: World, a: Action)
    requires Inv(w)
    ensures Inv(Step(w, a))
  {
    match a
    case Receive(_) => ReceiveKeepsInv(w, a);
    case BeginRequest(_) => BeginKeepsInv(w, a);
    case CompleteRequest(_) => CompleteKeepsInv(w, a);
    case Execute => ExecuteKeepsInv(w, a);
    case Initialize(_) => GenerationKeepsInv(w, a);
    case Publish(_) => GenerationKeepsInv(w, a);
    case Burn(_) => GenerationKeepsInv(w, a);
    case PublishResult(_, _, _) => GenerationKeepsInv(w, a);
    case _ =>
  }

  lemma {:induction false} RunKeepsInv(w: World, actions: seq<Action>)
    requires Inv(w)
    ensures Inv(Run(w, actions))
  {
    if actions != [] {
      RunKeepsInv(w, actions[..|actions| - 1]);
      StepKeepsInv(Run(w, actions[..|actions| - 1]), actions[|actions| - 1]);
    }
  }

  /**
    At most once: over every run, with producers, kills, restarts, failed writes and evictions, a
    request that names a generation a daemon can have reaches the executor at most once.
   */
  lemma AtMostOnce(w: World, actions: seq<Action>, i: nat, j: nat)
    requires Initial(w)
    requires i < j < |Run(w, actions).executed|
    requires Run(w, actions).executed[i] == Run(w, actions).executed[j]
    ensures Run(w, actions).executed[i].expectedGeneration == 0
  {
    RunKeepsInv(w, actions);
  }

  // ---------------------------------------------------------------- what becomes of a request

  lemma {:induction false} RunConcat(w: World, before: seq<Action>, after: seq<Action>)
    ensures Run(w, before + after) == Run(Run(w, before), after)
  {
    if after == [] {
      assert before + after == before;
    } else {
      var all := before + after;
      assert all[..|all| - 1] == before + after[..|after| - 1];
      RunConcat(w, before, after[..|after| - 1]);
    }
  }

  lemma RunOne(w: World, before: seq<Action>, a: Action)
    ensures Run(w, before + [a]) == Step(Run(w, before), a)
  {
    assert (before + [a])[..|before|] == before;
  }

  /** Only producers act: publications, successful or not. */
  predicate ProducersOnly(actions: seq<Action>) {
    forall i :: 0 <= i < |actions| ==> actions[i].Publish? || actions[i].Burn?
  }

  /** Producers move the generation and nothing else. */
  lemma {:induction false} ProducersLeaveRequests(w: World, actions: seq<Action>)
    requires w.daemon.Some? && ProducersOnly(actions)
    ensures var v := Run(w, actions);
            && v.daemon.Some?
            && v == w.(issued := v.issued,
                       daemon := Some(w.daemon.value.(generation := v.daemon.value.generation)))
  {
    if actions != [] {
      ProducersLeaveRequests(w, actions[..|actions| - 1]);
    }
  }

  /** Numbers are issued in increasing order above those issued before. */
  predicate IssuedInOrder(actions: seq<Action>, issued: nat)
    requires ProducersOnly(actions)
  {
    && (forall i :: 0 <= i < |actions| ==> actions[i].generation > issued)
    && (forall i, j :: 0 <= i < j < |actions| ==> actions[i].generation < actions[j].generation)
  }

  /** The number of the last publication that succeeded, or the number before all of them. */
  function LastPublished(actions: seq<Action>, before: nat): nat
    requires ProducersOnly(actions)
  {
    if actions == [] then before
    else
      var last := actions[|actions| - 1];
      if last.Publish? then last.generation else LastPublished(actions[..|actions| - 1], before)
  }

  /** What a request is compared with is the last successful publication, not a number that was burned. */
  lemma {:induction false} CurrentIsLastPublished(w: World, actions: seq<Action>)
    requires w.daemon.Some? && w.daemon.value.initialized && ProducersOnly(actions) && IssuedInOrder(actions, w.issued)
    ensures var v := Run(w, actions);
            && v.daemon.Some? && v.daemon.value.generation == LastPublished(actions, w.daemon.value.generation)
            && v.issued == if actions == [] then w.issued else actions[|actions| - 1].generation
  {
    ProducersLeaveRequests(w, actions);
    if actions != [] {
      ProducersLeaveRequests(w, actions[..|actions| - 1]);
      CurrentIsLastPublished(w, actions[..|actions| - 1]);
    }
  }

  /** A request that is not in the list arrives while none is in flight. */
  predicate Arrives(w: World, r: Request) {
    w.daemon.Some? && w.daemon.value.flight.Idle? && Find(w.daemon.value.records, r.id).None?
  }

  /**
    A new request for the current generation is executed, once it is recorded as pending, whatever
    producers publish meanwhile; only a list full of pending records stands in its way.
   */
  lemma CurrentRequestIsExecuted(w: World, r: Request, early: seq<Action>, late: seq<Action>)
    requires Arrives(w, r) && r.expectedGeneration == w.daemon.value.generation
    requires |PendingRecords(w.daemon.value.records)| < w.maximum
    requires ProducersOnly(early) && ProducersOnly(late)
    ensures var v := Run(w, [Receive(r), CheckGeneration] + early + [BeginRequest(Written)] + late + [Execute]);
            && v.executed == w.executed + [r]
            && v.daemon.Some? && v.daemon.value.flight == Done(r)
            && PendingEverywhere(v, r.id) && v.daemon.value.records == v.disk
  {
    var checking := [Receive(r), CheckGeneration];
    var matched := MatchedAfter(w, r);
    RunConcat(w, checking, early);
    ProducersLeaveRequests(matched, early);
    var begun := BegunAfter(Run(matched, early), r);
    RunOne(w, checking + early, BeginRequest(Written));
    RunConcat(w, checking + early + [BeginRequest(Written)], late);
    ProducersLeaveRequests(begun, late);
    RunOne(w, checking + early + [BeginRequest(Written)] + late, Execute);
    ExecutedAfter(Run(begun, late), r);
  }

  lemma BeginHasRoom(records: seq<Record>, maximum: nat, id: RequestId)
    requires |PendingRecords(records)| < maximum
    ensures StageBegin(records, maximum, id).Some? && IsPending(StageBegin(records, maximum, id).value, id)
  {
    MakeRoomKeepsPending(records, maximum);
    var room := MakeRoom(records, maximum).value;
    assert (room + [Record(id, None)])[|room|] == Record(id, None);
  }

  lemma BegunAfter(w: World, r: Request) returns (v: World)
    requires w.daemon.Some? && w.daemon.value.flight == Matched(r)
    requires |PendingRecords(w.daemon.value.records)| < w.maximum
    ensures v == Step(w, BeginRequest(Written)) && v.executed == w.executed
    ensures v.daemon.Some? && v.daemon.value.flight == Begun(r) && v.daemon.value.records == v.disk
    ensures IsPending(v.disk, r.id)
  {
    BeginHasRoom(w.daemon.value.records, w.maximum, r.id);
    v := Step(w, BeginRequest(Written));
  }

  lemma ExecutedAfter(w: World, r: Request)
    requires w.daemon.Some? && w.daemon.value.flight == Begun(r)
    ensures var v := Step(w, Execute);
            && v.executed == w.executed + [r] && v.disk == w.disk
            && v.daemon == Some(w.daemon.value.(flight := Done(r)))
  {
  }

  /** The world in which an arriving request was found to expect the current generation. */
  lemma MatchedAfter(w: World, r: Request) returns (v: World)
    requires Arrives(w, r) && r.expectedGeneration == w.daemon.value.generation
    ensures v == Run(w, [Receive(r), CheckGeneration])
    ensures v == w.(daemon := Some(w.daemon.value.(flight := Matched(r))))
  {
    v := Run(w, [Receive(r), CheckGeneration]);
    RunTwo(w, Receive(r), CheckGeneration);
  }

  lemma RunTwo(w: World, a: Action, b: Action)
    ensures Run(w, [a, b]) == Step(Step(w, a), b)
  {
    assert [a, b][..1] == [a] && [a][..0] == [];
    assert Run(w, [a]) == Step(Run(w, []), a);
  }

  /** A new request for any other generation is refused, and no execution follows without another request. */
  lemma StaleRequestIsRefused(w: World, r: Request, after: seq<Action>)
    requires Arrives(w, r) && r.expectedGeneration != w.daemon.value.generation
    requires forall i :: 0 <= i < |after| ==> !after[i].Receive?
    ensures var refusal := DesktopResult(r.id, w.daemon.value.generation, Failed, Some("request.generation-stale"));
            Run(w, [Receive(r), CheckGeneration]) == w.(daemon := Some(w.daemon.value.(flight := Answered(r, refusal))))
    ensures Run(w, [Receive(r), CheckGeneration] + after).executed == w.executed
  {
    var checking := [Receive(r), CheckGeneration];
    RunTwo(w, Receive(r), CheckGeneration);
    NothingToExecute(Run(w, checking), after);
    RunConcat(w, checking, after);
  }

  /** No request is on its way to the executor. */
  predicate NothingComing(w: World) {
    w.daemon.Some? ==> var f := w.daemon.value.flight; !f.Unrecorded? && !f.Matched? && !f.Begun?
  }

  lemma {:induction false} NothingToExecute(w: World, actions: seq<Action>)
    requires NothingComing(w) && forall i :: 0 <= i < |actions| ==> !actions[i].Receive?
    ensures NothingComing(Run(w, actions)) && Run(w, actions).executed == w.executed
  {
    if actions != [] {
      NothingToExecute(w, actions[..|actions| - 1]);
    }
  }

  /** Everything is as before, except that the record of one request holds its result. */
  predicate Recorded(before: seq<Record>, after: seq<Record>, id: RequestId, result: DesktopResult) {
    && |after| == |before|
    && (forall i :: 0 <= i < |before| ==>
          after[i] == if before[i].requestId == id then Record(id, Some(result)) else before[i])
  }

  /**
    What the executor made of a request is recorded with exactly its status and diagnostic, under the
    generation of its publication, in place of the pending record; asking again finds that answer.
   */
  lemma ResultIsRecorded(w: World, r: Request, generation: nat, status: ResultStatus, diagnostic: Option<string>)
    requires w.daemon.Some? && w.daemon.value.flight == Done(r) && w.daemon.value.initialized
    requires DistinctIds(w.daemon.value.records) && IsPending(w.daemon.value.records, r.id) && generation > w.issued
    ensures var v := Run(w, [PublishResult(generation, status, diagnostic), CompleteRequest(Written)]);
            var result := DesktopResult(r.id, generation, status, diagnostic);
            && v.daemon.Some? && v.daemon.value.flight.Idle? && v.daemon.value.records == v.disk
            && v.issued == v.daemon.value.generation == generation && v.executed == w.executed
            && Recorded(w.daemon.value.records, v.disk, r.id, result)
            && Find(v.disk, r.id) == Some(Some(result))
            && forall again: Request :: again.id == r.id ==> Step(v, Receive(again)) == v
  {
    var records := w.daemon.value.records;
    var result := DesktopResult(r.id, generation, status, diagnostic);
    RunTwo(w, PublishResult(generation, status, diagnostic), CompleteRequest(Written));
    PendingIsFound(records, r.id);
    SetResultTouchesOne(records, r.id, result);
  }

  lemma RefusalHasRoom(records: seq<Record>, maximum: nat, id: RequestId, result: DesktopResult)
    requires DistinctIds(records) && Find(records, id).None? && |PendingRecords(records)| < maximum
    ensures StageComplete(records, maximum, id, result).Some?
    ensures var staged := StageComplete(records, maximum, id, result).value;
            && Find(staged, id) == Some(Some(result))
            && forall other :: IsPending(records, other) ==> IsPending(staged, other)
  {
    MakeRoomKeepsPending(records, maximum);
    RoomIsFree(records, maximum, id);
    LastIsFound(MakeRoom(records, maximum).value, id, result);
  }

  lemma LastIsFound(records: seq<Record>, id: RequestId, result: DesktopResult)
    requires forall i :: 0 <= i < |records| ==> records[i].requestId != id
    ensures Find(records + [Record(id, Some(result))], id) == Some(Some(result))
  {
    var all := records + [Record(id, Some(result))];
    assert all[|records|].requestId == id;
    assert forall i :: 0 <= i < |records| ==> all[i].requestId != id;
  }

  /** A refusal is recorded as given, when pending records leave room for it. */
  lemma RefusalIsRecorded(w: World, r: Request, result: DesktopResult)
    requires w.daemon.Some? && w.daemon.value.flight == Answered(r, result)
    requires Find(w.daemon.value.records, r.id).None? && DistinctIds(w.daemon.value.records)
    requires |PendingRecords(w.daemon.value.records)| < w.maximum
    ensures var v := Step(w, CompleteRequest(Written));
            && v.daemon.Some? && v.daemon.value.flight.Idle? && v.daemon.value.records == v.disk
            && Find(v.disk, r.id) == Some(Some(result))
            && (forall other :: IsPending(w.daemon.value.records, other) ==> IsPending(v.disk, other))
            && forall again: Request :: again.id == r.id ==> Step(v, Receive(again)) == v
  {
    RefusalHasRoom(w.daemon.value.records, w.maximum, r.id, result);
  }

  // ---------------------------------------------------------------- the generation before any

  ghost predicate Reaches(w: World, v: World) {
    exists actions :: Run(w, actions) == v
  }

  lemma ReachesNext(w: World, v: World, a: Action)
    requires Reaches(w, v)
    ensures Reaches(w, Step(v, a))
  {
    var actions :| Run(w, actions) == v;
    var more := actions + [a];
    assert more[..|more| - 1] == actions;
    assert Run(w, more) == Step(v, a);
  }

  /** A list with room for one record: beginning, completing and being replaced. */
  lemma SingleRecordList(id: RequestId, other: RequestId, result: DesktopResult, next: DesktopResult)
    requires id != other
    ensures StageComplete([Record(id, None)], 1, id, result) == Some([Record(id, Some(result))])
    ensures Find([Record(id, Some(result))], other).None?
    ensures MakeRoom([Record(id, Some(result))], 1) == Some([])
    ensures StageComplete([Record(id, Some(result))], 1, other, next) == Some([Record(other, Some(next))])
  {
    var done := [Record(id, Some(result))];
    assert Position([Record(id, None)], id) == 0 && [Record(id, None)][0 := done[0]] == done;
    assert Without(done, 0) == [] && [] + [Record(other, Some(next))] == [Record(other, Some(next))];
    assert Position(done, other) == 1;
  }

  lemma ZeroIsMatched(w: World, v: World, id: RequestId)
    requires Reaches(w, v) && v.daemon.None? && Find(v.disk, id).None?
    ensures Reaches(w, v.(daemon := Some(Daemon(v.disk, 0, false, Matched(Request(id, 0))))))
  {
    var r := Request(id, 0);
    ReachesNext(w, v, Boot);
    ReachesNext(w, v.(daemon := Some(Daemon(v.disk, 0, false, Idle))), Receive(r));
    ReachesNext(w, v.(daemon := Some(Daemon(v.disk, 0, false, Unrecorded(r)))), CheckGeneration);
  }

  /** From rest, with room for one record, a request for generation zero is executed before initialization. */
  lemma ServesZeroFromRest(w: World, v: World, id: RequestId)
    requires Reaches(w, v)
    requires v.daemon.None? && v.maximum == 1 && Find(v.disk, id).None? && MakeRoom(v.disk, 1) == Some([])
    ensures Reaches(w, World([Record(id, None)], 1, v.issued,
                             Some(Daemon([Record(id, None)], 0, false, Done(Request(id, 0)))),
                             v.executed + [Request(id, 0)]))
  {
    var r := Request(id, 0);
    ZeroIsMatched(w, v, id);
    ReachesNext(w, v.(daemon := Some(Daemon(v.disk, 0, false, Matched(r)))), BeginRequest(Written));
    assert StageBegin(v.disk, 1, id) == Some([Record(id, None)]) by {
      assert [] + [Record(id, None)] == [Record(id, None)];
    }
    ReachesNext(w, v.(disk := [Record(id, None)], daemon := Some(Daemon([Record(id, None)], 0, false, Begun(r)))),
                Execute);
  }

  /** The request then finishes after initialization. */
  lemma ZeroFinishes(w: World, id: RequestId, executed: seq<Request>)
    requires Reaches(w, World([Record(id, None)], 1, 0,
                              Some(Daemon([Record(id, None)], 0, false, Done(Request(id, 0)))), executed))
    ensures var done := [Record(id, Some(DesktopResult(id, 2, Succeeded, None)))];
            Reaches(w, World(done, 1, 2, Some(Daemon(done, 2, true, Idle)), executed))
  {
    var r := Request(id, 0);
    var pending := [Record(id, None)];
    ReachesNext(w, World(pending, 1, 0, Some(Daemon(pending, 0, false, Done(r))), executed), Initialize(1));
    ReachesNext(w, World(pending, 1, 1, Some(Daemon(pending, 1, true, Done(r))), executed),
                PublishResult(2, Succeeded, None));
    var answer := DesktopResult(id, 2, Succeeded, None);
    SingleRecordList(id, id + "'", answer, answer);
    ReachesNext(w, World(pending, 1, 2, Some(Daemon(pending, 2, true, Answered(r, answer))), executed),
                CompleteRequest(Written));
  }

  /** Another request is refused as stale. */
  lemma ZeroIsRefused(w: World, id: RequestId, other: RequestId, result: DesktopResult, executed: seq<Request>)
    requires id != other
    requires var done := [Record(id, Some(result))];
             Reaches(w, World(done, 1, 2, Some(Daemon(done, 2, true, Idle)), executed))
    ensures var done := [Record(id, Some(result))];
            var refusal := DesktopResult(other, 2, Failed, Some("request.generation-stale"));
            Reaches(w, World(done, 1, 2, Some(Daemon(done, 2, true, Answered(Request(other, 0), refusal))), executed))
  {
    var o := Request(other, 0);
    var done := [Record(id, Some(result))];
    SingleRecordList(id, other, result, DesktopResult(other, 2, Failed, Some("request.generation-stale")));
    ReachesNext(w, World(done, 1, 2, Some(Daemon(done, 2, true, Idle)), executed), Receive(o));
    ReachesNext(w, World(done, 1, 2, Some(Daemon(done, 2, true, Unrecorded(o))), executed), CheckGeneration);
  }

  /** The refusal takes its place in the list, and the daemon is killed. */
  lemma ZeroIsEvicted(w: World, id: RequestId, other: RequestId, result: DesktopResult, executed: seq<Request>)
    requires id != other
    requires var done := [Record(id, Some(result))];
             Reaches(w, World(done, 1, 2, Some(Daemon(done, 2, true, Idle)), executed))
    ensures var refusal := DesktopResult(other, 2, Failed, Some("request.generation-stale"));
            Reaches(w, World([Record(other, Some(refusal))], 1, 2, None, executed))
  {
    var o := Request(other, 0);
    var done := [Record(id, Some(result))];
    var refusal := DesktopResult(other, 2, Failed, Some("request.generation-stale"));
    SingleRecordList(id, other, result, refusal);
    ZeroIsRefused(w, id, other, result, executed);
    ReachesNext(w, World(done, 1, 2, Some(Daemon(done, 2, true, Answered(o, refusal))), executed),
                CompleteRequest(Written));
    var last := [Record(other, Some(refusal))];
    ReachesNext(w, World(last, 1, 2, Some(Daemon(last, 2, true, Idle)), executed), Kill);
  }

  /**
    Generation zero is the exception: before initialization a daemon's generation is zero again after
    every restart, so such a request can run twice once its record has been evicted.
   */
  lemma ZeroGenerationCanRunTwice(id: RequestId, other: RequestId)
    requires id != other
    ensures var w := World([], 1, 0, None, []);
            Initial(w) && exists actions :: Run(w, actions).executed == [Request(id, 0), Request(id, 0)]
  {
    var w := World([], 1, 0, None, []);
    assert Run(w, []) == w;
    ServesZeroFromRest(w, w, id);
    ZeroFinishes(w, id, [Request(id, 0)]);
    var answer := DesktopResult(id, 2, Succeeded, None);
    ZeroIsEvicted(w, id, other, answer, [Request(id, 0)]);
    var refusal := DesktopResult(other, 2, Failed, Some("request.generation-stale"));
    SingleRecordList(other, id, refusal, answer);
    ServesZeroFromRest(w, World([Record(other, Some(refusal))], 1, 2, None, [Request(id, 0)]), id);
    assert [Request(id, 0)] + [Request(id, 0)] == [Request(id, 0), Request(id, 0)];
  }

  /** The session daemon initializes before it serves requests. */
  ghost predicate ServesOnlyInitialized(w: World, actions: seq<Action>) {
    forall n :: 0 <= n < |actions| && actions[n].Receive? ==>
      var before := Run(w, actions[..n]);
      before.daemon.Some? ==> before.daemon.value.initialized
  }

  ghost predicate NoZero(w: World) {
    && (forall e :: e in w.executed ==> e.expectedGeneration > 0)
    && (w.daemon.Some? ==>
          var d := w.daemon.value;
          && (d.initialized <==> d.generation > 0)
          && (!d.flight.Idle? ==> d.initialized)
          && (d.flight.Matched? || d.flight.Begun? ==> d.flight.request.expectedGeneration > 0))
  }

  lemma {:induction false} ServingInitializedAvoidsZero(w: World, actions: seq<Action>)
    requires Initial(w) && ServesOnlyInitialized(w, actions)
    ensures NoZero(Run(w, actions))
  {
    if actions != [] {
      var n := |actions| - 1;
      forall m | 0 <= m < n && actions[..n][m].Receive?
        ensures var before := Run(w, actions[..n][..m]); before.daemon.Some? ==> before.daemon.value.initialized
      {
        assert actions[..n][..m] == actions[..m];
      }
      ServingInitializedAvoidsZero(w, actions[..n]);
    }
  }

  /** So a daemon that serves only after initialization executes every request at most once. */
  lemma AtMostOnceWhenInitializedFirst(w: World, actions: seq<Action>, i: nat, j: nat)
    requires Initial(w) && ServesOnlyInitialized(w, actions)
    requires i < j < |Run(w, actions).executed|
    ensures Run(w, actions).executed[i] != Run(w, actions).executed[j]
  {
    ServingInitializedAvoidsZero(w, actions);
    RunKeepsInv(w, actions);
    assert Run(w, actions).executed[i] in Run(w, actions).executed;
  }
}
