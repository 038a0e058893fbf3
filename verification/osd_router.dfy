/**
  Timed on-screen-display queues, one per output.  An output shows one event at a time; an event of
  the kind on screen replaces it, any other waits in a bounded line, and time moves the line on.
  Instants and durations are integers of one unit.
 */
module OsdRouting {
  import opened Wrappers

  const U64_MAX: nat := 0xFFFF_FFFF_FFFF_FFFF

  datatype Kind = Volume | Microphone | Brightness | Media | PowerProfile

  datatype Request = Request(kind: Kind, level: Option<real>, muted: Option<bool>, text: string)

  datatype Event = Event(output: string, kind: Kind, level: Option<real>, muted: Option<bool>, text: string)

  /** What one output shows, since when, what waits, and how many events found no room. */
  datatype Queue = Queue(current: Option<Event>, since: Option<int>, pending: seq<Event>, overflow: nat)

  const EMPTY: Queue := Queue(None, None, [], 0)

  // ---- One queue ---------------------------------------------------------------------------------

  /** Takes the current event off the screen and shows the next one from `at` on. */
  function Next(q: Queue, at: int): Queue {
    if q.pending == [] then q.(current := None, since := None)
    else q.(current := Some(q.pending[0]), since := Some(at), pending := q.pending[1..])
  }

  predicate Due(q: Queue, timeout: int, now: int) {
    q.since.Some? && now - q.since.value >= timeout
  }

  /** Moves on through every event whose time is over at `now`. */
  function Advanced(q: Queue, timeout: int, now: int): Queue
    decreases |q.pending|
  {
    if !Due(q, timeout, now) then q
    else if q.pending == [] then Next(q, q.since.value + timeout)
    else Advanced(Next(q, q.since.value + timeout), timeout, now)
  }

  /** Advancing in two ticks ends where one tick ends, for every queue. */
  lemma {:induction false} TicksCompose(q: Queue, timeout: int, t1: int, t2: int)
    requires timeout > 0 && t1 <= t2
    ensures Advanced(Advanced(q, timeout, t1), timeout, t2) == Advanced(q, timeout, t2)
    decreases |q.pending|
  {
    if Due(q, timeout, t1) && q.pending != [] {
      TicksCompose(Next(q, q.since.value + timeout), timeout, t1, t2);
    }
  }

  /** The state after `n` whole display times: the first `n` events of the line are over. */
  function AfterSteps(q: Queue, timeout: int, n: nat): Queue
    requires q.since.Some?
  {
    if n == 0 then q
    else if n <= |q.pending| then
      Queue(Some(q.pending[n - 1]), Some(q.since.value + n * timeout), q.pending[n..], q.overflow)
    else Queue(None, None, [], q.overflow)
  }

  /** Reference: what is shown at `now` is read off the elapsed number of whole display times. */
  lemma {:induction false} AdvancedByDivision(q: Queue, timeout: int, now: int)
    requires timeout > 0 && q.since.Some? && q.since.value <= now
    ensures Advanced(q, timeout, now) == AfterSteps(q, timeout, (now - q.since.value) / timeout)
    decreases |q.pending|
  {
    var since := q.since.value;
    var elapsed := now - since;
    if Due(q, timeout, now) {
      Quotient(elapsed, timeout);
      if q.pending != [] {
        var next := Next(q, since + timeout);
        AdvancedByDivision(next, timeout, now);
        var m := (elapsed - timeout) / timeout;
        assert now - next.since.value == elapsed - timeout;
        if m > 0 && m <= |next.pending| {
          Distribute(m, timeout);
          assert next.pending[m..] == q.pending[m + 1..];
        } else if m == 0 {
          Distribute(0, timeout);
        }
      }
    } else {
      SmallQuotient(elapsed, timeout);
    }
  }

  lemma Quotient(elapsed: int, timeout: int)
    requires 0 < timeout <= elapsed
    ensures elapsed / timeout == (elapsed - timeout) / timeout + 1
    ensures (elapsed - timeout) / timeout >= 0
  {
    var m, r := (elapsed - timeout) / timeout, (elapsed - timeout) % timeout;
    assert elapsed - timeout == timeout * m + r;
    Distribute(m, timeout);
    UniqueQuotient(elapsed, timeout, m + 1, r);
    if m < 0 {
      Below(m, timeout);
    }
  }

  lemma {:induction false} Below(m: int, timeout: int)
    requires m < 0 < timeout
    ensures timeout * m <= -timeout
    decreases -m
  {
    if m < -1 {
      Below(m + 1, timeout);
      Distribute(m, timeout);
    }
  }

  lemma UniqueQuotient(x: int, d: int, q: int, r: int)
    requires d > 0 && x == d * q + r && 0 <= r < d
    ensures x / d == q
  {
    var p, s := x / d, x % d;
    assert x == d * p + s && 0 <= s < d;
    assert d * (p - q) == r - s;
    if p > q {
      assert d * (q - p) == s - r;
      Below(q - p, d);
    } else if p < q {
      Below(p - q, d);
    }
  }

  lemma SmallQuotient(elapsed: int, timeout: int)
    requires 0 <= elapsed < timeout
    ensures elapsed / timeout == 0
  {
    UniqueQuotient(elapsed, timeout, 0, elapsed);
  }

  lemma Distribute(m: int, timeout: int)
    ensures (m + 1) * timeout == m * timeout + timeout
    ensures timeout * (m + 1) == timeout * m + timeout
  {
  }

  // ---- Pushing -----------------------------------------------------------------------------------

  /** What became of a pushed event. */
  datatype Verdict = Shown | Coalesced | Queued | Overflowed

  function VerdictOn(q: Queue, event: Event, capacity: nat): Verdict {
    if q.current.None? then Shown
    else if q.current.value.kind == event.kind then Coalesced
    else if |q.pending| < capacity then Queued
    else Overflowed
  }

  function Pushed(q: Queue, event: Event, capacity: nat, now: int): Queue {
    match VerdictOn(q, event, capacity)
    case Shown => q.(current := Some(event), since := Some(now))
    case Coalesced => q.(current := Some(event), since := Some(now))
    case Queued => q.(pending := q.pending + [event])
    case Overflowed => q.(overflow := if q.overflow < U64_MAX then q.overflow + 1 else U64_MAX)
  }

  /**
    A free screen, or an event of the kind that is on it, shows the pushed event from now on; otherwise
    it waits behind the others, or is counted as refused and changes nothing else.
   */
  predicate Placed(before: Queue, after: Queue, event: Event, capacity: nat, now: int, accepted: bool) {
    if before.current.None? || before.current.value.kind == event.kind then
      && accepted && after.current == Some(event) && after.since == Some(now)
      && after.pending == before.pending && after.overflow == before.overflow
    else
      && after.current == before.current && after.since == before.since
      && (accepted <==> |before.pending| < capacity)
      && (accepted ==> after.pending == before.pending + [event] && after.overflow == before.overflow)
      && (!accepted ==> after.pending == before.pending
                        && after.overflow == if before.overflow < U64_MAX then before.overflow + 1 else U64_MAX)
  }

  // ---- The account of an output ------------------------------------------------------------------

  datatype Entry = Entry(event: Event, verdict: Verdict)

  /**
    Every push with its verdict, the events whose turn on the screen has come, and everything that came
    on the screen, coalesced events included, in order.
   */
  datatype Ledger = Ledger(log: seq<Entry>, turns: seq<Event>, shows: seq<Event>)

  /** The events that were given a turn of their own, in the order of their pushes. */
  function Line(log: seq<Entry>): seq<Event> {
    if log == [] then []
    else
      var last := log[|log| - 1];
      Line(log[..|log| - 1]) + if last.verdict in {Shown, Queued} then [last.event] else []
  }

  function Refused(log: seq<Entry>): nat {
    if log == [] then 0
    else Refused(log[..|log| - 1]) + if log[|log| - 1].verdict == Overflowed then 1 else 0
  }

  predicate Logged(log: seq<Entry>, event: Event) {
    exists i :: 0 <= i < |log| && log[i].event == event
  }

  /**
    Turns come in the order of the pushes and what is still to come is what is pending; refusals are
    counted; nothing waits while nothing is shown; the line is bounded; what is shown has the kind
    of the turn it belongs to.
   */
  ghost predicate Accounted(q: Queue, l: Ledger, capacity: nat) {
    InLine(q, l, capacity) && OnScreen(q, l)
  }

  ghost predicate InLine(q: Queue, l: Ledger, capacity: nat) {
    && l.turns + q.pending == Line(l.log)
    && q.overflow == (if Refused(l.log) < U64_MAX then Refused(l.log) else U64_MAX)
    && |q.pending| <= capacity
    && (q.current.None? ==> q.pending == [])
    && (q.since.Some? <==> q.current.Some?)
  }

  /** The last event that came on the screen is the one still there; it was pushed, and its turn was the last. */
  ghost predicate OnScreen(q: Queue, l: Ledger) {
    q.current.Some? ==>
      && l.turns != [] && l.turns[|l.turns| - 1].kind == q.current.value.kind
      && l.shows != [] && l.shows[|l.shows| - 1] == q.current.value
      && Logged(l.log, q.current.value)
  }

  lemma {:induction false} LineIsLogged(log: seq<Entry>, i: nat)
    requires i < |Line(log)|
    ensures Logged(log, Line(log)[i])
  {
    var before, last := log[..|log| - 1], log[|log| - 1];
    if i < |Line(before)| {
      LineIsLogged(before, i);
      var k :| 0 <= k < |before| && before[k].event == Line(before)[i];
      assert log[k].event == Line(log)[i];
    } else {
      assert log[|log| - 1].event == Line(log)[i];
    }
  }

  function Recorded(l: Ledger, event: Event, verdict: Verdict): Ledger {
    Ledger(l.log + [Entry(event, verdict)], if verdict.Shown? then l.turns + [event] else l.turns,
           if verdict.Shown? || verdict.Coalesced? then l.shows + [event] else l.shows)
  }

  function TurnTaken(q: Queue, l: Ledger): Ledger {
    if q.pending == [] then l else l.(turns := l.turns + [q.pending[0]], shows := l.shows + [q.pending[0]])
  }

  lemma PushIsAccounted(q: Queue, l: Ledger, capacity: nat, event: Event, now: int)
    requires Accounted(q, l, capacity)
    ensures Accounted(Pushed(q, event, capacity, now), Recorded(l, event, VerdictOn(q, event, capacity)), capacity)
  {
    PushKeepsLine(q, l, capacity, event, now);
    PushKeepsScreen(q, l, capacity, event, now);
  }

  lemma PushKeepsLine(q: Queue, l: Ledger, capacity: nat, event: Event, now: int)
    requires InLine(q, l, capacity)
    ensures InLine(Pushed(q, event, capacity, now), Recorded(l, event, VerdictOn(q, event, capacity)), capacity)
  {
    var more := l.log + [Entry(event, VerdictOn(q, event, capacity))];
    assert more[..|more| - 1] == l.log;
  }

  lemma PushKeepsScreen(q: Queue, l: Ledger, capacity: nat, event: Event, now: int)
    requires OnScreen(q, l)
    ensures OnScreen(Pushed(q, event, capacity, now), Recorded(l, event, VerdictOn(q, event, capacity)))
  {
    LoggedLonger(l.log, Entry(event, VerdictOn(q, event, capacity)));
  }

  lemma LoggedLonger(log: seq<Entry>, entry: Entry)
    ensures Logged(log + [entry], entry.event)
    ensures forall e :: Logged(log, e) ==> Logged(log + [entry], e)
  {
    var more := log + [entry];
    assert more[|log|].event == entry.event;
    forall e | Logged(log, e) ensures Logged(more, e) {
      var i :| 0 <= i < |log| && log[i].event == e;
      assert more[i].event == e;
    }
  }

  lemma NextIsAccounted(q: Queue, l: Ledger, capacity: nat, at: int)
    requires Accounted(q, l, capacity)
    ensures Accounted(Next(q, at), TurnTaken(q, l), capacity)
  {
    if q.pending != [] {
      assert l.turns + [q.pending[0]] + q.pending[1..] == l.turns + q.pending;
      assert (l.turns + q.pending)[|l.turns|] == q.pending[0];
      LineIsLogged(l.log, |l.turns|);
    }
  }

  /** The turns taken while time moves on. */
  function TurnsAdvanced(q: Queue, l: Ledger, timeout: int, now: int): Ledger
    decreases |q.pending|
  {
    if !Due(q, timeout, now) then l
    else if q.pending == [] then TurnTaken(q, l)
    else TurnsAdvanced(Next(q, q.since.value + timeout), TurnTaken(q, l), timeout, now)
  }

  lemma {:induction false} AdvancingIsAccounted(q: Queue, l: Ledger, capacity: nat, timeout: int, now: int)
    requires Accounted(q, l, capacity)
    ensures Accounted(Advanced(q, timeout, now), TurnsAdvanced(q, l, timeout, now), capacity)
    ensures TurnsAdvanced(q, l, timeout, now).log == l.log
    decreases |q.pending|
  {
    if Due(q, timeout, now) {
      NextIsAccounted(q, l, capacity, q.since.value + timeout);
      if q.pending != [] {
        AdvancingIsAccounted(Next(q, q.since.value + timeout), TurnTaken(q, l), capacity, timeout, now);
      }
    }
  }

  // ---- The router --------------------------------------------------------------------------------

  datatype RouteError = MissingFocus | StaleFocus | InvalidEvent

  datatype Route = Routed(accepted: bool) | Unrouted(error: RouteError)

  datatype Focus = Focus(output: string, observedAt: int)

  /** White space only. */
  predicate Blank(s: string) {
    forall c :: c in s ==> c == ' ' || c == '\t' || c == '\n' || c == '\r'
  }

  function EventFor(request: Request, output: string): Event {
    Event(output, request.kind, request.level, request.muted, request.text)
  }

  function QueueOf(outputs: map<string, Queue>, output: string): Queue {
    if output in outputs then outputs[output] else EMPTY
  }

  function LedgerOf(ledgers: map<string, Ledger>, output: string): Ledger {
    if output in ledgers then ledgers[output] else Ledger([], [], [])
  }

  function AllAdvanced(outputs: map<string, Queue>, timeout: int, now: int): map<string, Queue> {
    map k | k in outputs :: Advanced(outputs[k], timeout, now)
  }

  /** Two ticks of the whole router end where the later one alone ends. */
  lemma RouterTicksCompose(outputs: map<string, Queue>, timeout: int, t1: int, t2: int)
    requires timeout > 0 && t1 <= t2
    ensures AllAdvanced(AllAdvanced(outputs, timeout, t1), timeout, t2) == AllAdvanced(outputs, timeout, t2)
  {
    forall k | k in outputs
      ensures Advanced(Advanced(outputs[k], timeout, t1), timeout, t2) == Advanced(outputs[k], timeout, t2)
    {
      TicksCompose(outputs[k], timeout, t1, t2);
    }
  }

  /** A queue is moved on exactly when the event it shows is due. */
  lemma {:induction false} AdvancingChanges(q: Queue, timeout: int, now: int)
    requires timeout > 0
    ensures Advanced(q, timeout, now) != q <==> Due(q, timeout, now)
    ensures Advanced(q, timeout, now).since.Some? && q.since.Some? && Due(q, timeout, now)
            ==> Advanced(q, timeout, now).since.value > q.since.value
    decreases |q.pending|
  {
    if Due(q, timeout, now) && q.pending != [] {
      AdvancingChanges(Next(q, q.since.value + timeout), timeout, now);
    }
  }

  /** Every output has its account, which holds only its own events. */
  ghost predicate AllAccounted(outputs: map<string, Queue>, ledgers: map<string, Ledger>, capacity: nat) {
    && outputs.Keys == ledgers.Keys
    && (forall k :: k in outputs ==> Accounted(outputs[k], ledgers[k], capacity) && OwnEvents(ledgers[k], k))
  }

  predicate OwnEvents(l: Ledger, output: string) {
    forall i :: 0 <= i < |l.log| ==> l.log[i].event.output == output
  }

  lemma OneReplaced(outputs: map<string, Queue>, ledgers: map<string, Ledger>, capacity: nat,
                    output: string, q: Queue, l: Ledger)
    requires AllAccounted(outputs, ledgers, capacity) && Accounted(q, l, capacity) && OwnEvents(l, output)
    ensures AllAccounted(outputs[output := q], ledgers[output := l], capacity)
  {
  }

  /** A push keeps the accounts of all outputs. */
  lemma AllPushIsAccounted(outputs: map<string, Queue>, ledgers: map<string, Ledger>, capacity: nat, event: Event,
                           now: int)
    requires AllAccounted(outputs, ledgers, capacity)
    ensures var q, l := QueueOf(outputs, event.output), LedgerOf(ledgers, event.output);
            AllAccounted(outputs[event.output := Pushed(q, event, capacity, now)],
                         ledgers[event.output := Recorded(l, event, VerdictOn(q, event, capacity))], capacity)
  {
    var q, l := QueueOf(outputs, event.output), LedgerOf(ledgers, event.output);
    var recorded := Recorded(l, event, VerdictOn(q, event, capacity));
    assert Accounted(q, l, capacity) && OwnEvents(l, event.output);
    PushIsAccounted(q, l, capacity, event, now);
    OneReplaced(outputs, ledgers, capacity, event.output, Pushed(q, event, capacity, now), recorded);
  }

  lemma PushedIsPlaced(q: Queue, event: Event, capacity: nat, now: int)
    ensures var accepted := VerdictOn(q, event, capacity) != Overflowed;
            Placed(q, Pushed(q, event, capacity, now), event, capacity, now, accepted)
  {
  }

  class OsdRouter {
    const pendingCapacity: nat
    const displayTimeout: int
    const focusTtl: int
    var focusedOutput: Option<Focus>
    var outputs: map<string, Queue>
    ghost var ledgers: map<string, Ledger>

    ghost predicate Valid()
      reads this
    {
      displayTimeout > 0 && AllAccounted(outputs, ledgers, pendingCapacity)
    }

    constructor (pendingCapacity: nat, displayTimeout: nat, focusTtl: nat)
      ensures Valid() && outputs == map[] && focusedOutput == None
    {
      this.pendingCapacity := pendingCapacity;
      this.displayTimeout := if displayTimeout == 0 then 1 else displayTimeout;
      this.focusTtl := focusTtl;
      focusedOutput, outputs, ledgers := None, map[], map[];
    }

    /** Only the event's own output is touched; the answer is whether the event found a place. */
    method PushAt(event: Event, now: int) returns (accepted: bool)
      requires Valid()
      modifies this`outputs, this`ledgers
      ensures Valid()
      ensures var q := QueueOf(old(outputs), event.output);
              && outputs == old(outputs)[event.output := Pushed(q, event, pendingCapacity, now)]
              && ledgers == old(ledgers)[event.output :=
                   Recorded(LedgerOf(old(ledgers), event.output), event, VerdictOn(q, event, pendingCapacity))]
              && (accepted <==> VerdictOn(q, event, pendingCapacity) != Overflowed)
      ensures Placed(QueueOf(old(outputs), event.output), outputs[event.output], event, pendingCapacity, now, accepted)
    {
      var output := event.output;
      var queue := if output in outputs then outputs[output] else EMPTY;
      ghost var recorded := Recorded(LedgerOf(ledgers, output), event, VerdictOn(queue, event, pendingCapacity));
      AllPushIsAccounted(outputs, ledgers, pendingCapacity, event, now);
      PushedIsPlaced(queue, event, pendingCapacity, now);
      queue, accepted := PushOnto(queue, event, now);
      outputs, ledgers := outputs[output := queue], ledgers[output := recorded];
    }

    /** Shows, coalesces, queues or refuses the event. */
    method PushOnto(start: Queue, event: Event, now: int) returns (queue: Queue, accepted: bool)
      ensures queue == Pushed(start, event, pendingCapacity, now)
      ensures accepted <==> VerdictOn(start, event, pendingCapacity) != Overflowed
    {
      queue := start;
      if queue.current.None? || queue.current.value.kind == event.kind {
        queue := queue.(current := Some(event), since := Some(now));
        accepted := true;
      } else if |queue.pending| < pendingCapacity {
        queue := queue.(pending := queue.pending + [event]);
        accepted := true;
      } else {
        queue := queue.(overflow := if queue.overflow < U64_MAX then queue.overflow + 1 else U64_MAX);
        accepted := false;
      }
    }

    /** Remembers which output is focused; an absent or blank name forgets it. */
    method ObserveFocus(output: Option<string>, observedAt: int)
      requires Valid()
      modifies this`focusedOutput
      ensures Valid()
      ensures focusedOutput ==
              if output.Some? && !Blank(output.value) then Some(Focus(output.value, observedAt)) else None
    {
      focusedOutput := None;
      if output.Some? && !Blank(output.value) {
        focusedOutput := Some(Focus(output.value, observedAt));
      }
    }

    /** The runtime missed events and no longer knows the focus. */
    method ForgetFocus()
      requires Valid()
      modifies this`focusedOutput
      ensures Valid() && focusedOutput == None
    {
      focusedOutput := None;
    }

    /** Routes a request to the focused output exactly while the focus is fresh and the event is valid. */
    method PushFocused(request: Request, now: int, valid: Event -> bool) returns (route: Route)
      requires Valid()
      modifies this`outputs, this`ledgers
      ensures Valid()
      ensures route.Unrouted? ==> outputs == old(outputs) && ledgers == old(ledgers)
      ensures if focusedOutput.None? then route == Unrouted(MissingFocus)
              else if !(0 <= now - focusedOutput.value.observedAt <= focusTtl) then route == Unrouted(StaleFocus)
              else
                var event :=
                  Event(focusedOutput.value.output, request.kind, request.level, request.muted, request.text);
                var q := QueueOf(old(outputs), event.output);
                if !valid(event) then route == Unrouted(InvalidEvent)
                else
                  && route == Routed(VerdictOn(q, event, pendingCapacity) != Overflowed)
                  && outputs == old(outputs)[event.output := Pushed(q, event, pendingCapacity, now)]
    {
      if focusedOutput.None? {
        return Unrouted(MissingFocus);
      }
      var age := now - focusedOutput.value.observedAt;
      if age < 0 || age > focusTtl {
        return Unrouted(StaleFocus);
      }
      var event := EventFor(request, focusedOutput.value.output);
      if !valid(event) {
        return Unrouted(InvalidEvent);
      }
      var accepted := PushAt(event, now);
      return Routed(accepted);
    }

    /** Moves every output on; reports whether any changed. */
    method AdvanceTime(now: int) returns (changed: bool)
      requires Valid()
      modifies this`outputs, this`ledgers
      ensures Valid()
      ensures outputs == AllAdvanced(old(outputs), displayTimeout, now)
      ensures changed <==> outputs != old(outputs)
      ensures forall k :: k in ledgers ==> ledgers[k].log == old(ledgers)[k].log
    {
      var result;
      result, changed := AdvanceQueues(outputs, now);
      ledgers := AdvancedLedgers(now);
      outputs := result;
    }

    /** The loop over the queues, in any order. */
    method AdvanceQueues(queues: map<string, Queue>, now: int) returns (result: map<string, Queue>, changed: bool)
      requires displayTimeout > 0
      ensures result == AllAdvanced(queues, displayTimeout, now)
      ensures changed <==> result != queues
    {
      result, changed := map[], false;
      var remaining := queues.Keys;
      while remaining != {}
        invariant remaining <= queues.Keys && result.Keys == queues.Keys - remaining
        invariant forall k :: k in result ==> result[k] == Advanced(queues[k], displayTimeout, now)
        invariant changed <==> exists k :: k in result && result[k] != queues[k]
        decreases |remaining|
      {
        var k :| k in remaining;
        var queue, moved := AdvanceOne(queues[k], now);
        result := result[k := queue];
        changed := changed || moved;
        remaining := remaining - {k};
      }
    }

    /** The account of every output after time has moved on. */
    ghost method AdvancedLedgers(now: int) returns (after: map<string, Ledger>)
      requires Valid()
      ensures after.Keys == ledgers.Keys
      ensures forall k :: k in ledgers ==>
                            && after[k].log == ledgers[k].log
                            && Accounted(Advanced(outputs[k], displayTimeout, now), after[k], pendingCapacity)
    {
      after := map k | k in ledgers :: TurnsAdvanced(outputs[k], ledgers[k], displayTimeout, now);
      forall k | k in ledgers
        ensures after[k].log == ledgers[k].log
                && Accounted(Advanced(outputs[k], displayTimeout, now), after[k], pendingCapacity)
      {
        AdvancingIsAccounted(outputs[k], ledgers[k], pendingCapacity, displayTimeout, now);
      }
    }

    /** The loop over one queue: shows the next event from the moment the previous one was over. */
    method AdvanceOne(start: Queue, now: int) returns (queue: Queue, moved: bool)
      requires displayTimeout > 0
      ensures queue == Advanced(start, displayTimeout, now)
      ensures moved <==> queue != start
    {
      queue, moved := start, false;
      AdvancingChanges(start, displayTimeout, now);
      while queue.since.Some?
        invariant Advanced(queue, displayTimeout, now) == Advanced(start, displayTimeout, now)
        invariant moved <==> queue != start
        invariant !moved ==> queue == start
        decreases |queue.pending|, queue.since.Some?
      {
        var since := queue.since.value;
        if now < since || now - since < displayTimeout {
          break;
        }
        var nextSince := since + displayTimeout;
        if queue.pending == [] {
          queue := queue.(current := None, since := None);
        } else {
          queue := queue.(current := Some(queue.pending[0]), since := Some(nextSince), pending := queue.pending[1..]);
        }
        moved := true;
      }
    }

    /** Ends the current event early and starts the next one now. */
    method Complete(output: string, now: int) returns (shown: Option<Event>)
      requires Valid()
      modifies this`outputs, this`ledgers
      ensures Valid()
      ensures output !in old(outputs) ==> shown == None && outputs == old(outputs) && ledgers == old(ledgers)
      ensures output in old(outputs) ==>
                && outputs == old(outputs)[output := Next(old(outputs)[output], now)]
                && shown == outputs[output].current
    {
      if output !in outputs {
        return None;
      }
      var queue := outputs[output];
      NextIsAccounted(queue, ledgers[output], pendingCapacity, now);
      ledgers := ledgers[output := TurnTaken(queue, ledgers[output])];
      shown := if queue.pending == [] then None else Some(queue.pending[0]);
      outputs := outputs[output := Queue(shown, if shown.Some? then Some(now) else None,
                                         if queue.pending == [] then [] else queue.pending[1..], queue.overflow)];
    }
  }
}
