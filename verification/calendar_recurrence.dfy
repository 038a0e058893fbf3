/**
  Expansion of a calendar event into the occurrences that meet a window.  The expansion stops
  generating at the window's end, so its exactness rests on instances coming in increasing order.
 */
module CalendarRecurrence {
  import opened Wrappers
  import opened CalendarTimezone

  const DAY: int := 86400
  const USIZE_MAX: nat := USIZE_LIMIT - 1

  /** How the local times of the named zones resolve to instants. */
  type Resolver = (seq<string>, int) -> Result<int>

  // ---- Events ----------------------------------------------------------------------------------

  datatype Civil = Civil(local: int, zone: seq<string>)

  datatype Time = Time(at: int, allDay: bool, local: Option<Civil>)

  datatype Frequency = Daily | Weekly

  datatype Recurrence = Recurrence(frequency: Frequency, count: Option<nat>, until: Option<int>)

  datatype RawEvent = RawEvent(
    uid: Option<string>, summary: Option<string>, location: Option<string>,
    start: Option<Time>, end: Option<Time>,
    rule: Option<Recurrence>, rdates: seq<int>, exdates: set<int>)

  /** A start of the event: an instant and, for an instance in a time zone, its local time. */
  datatype Start = Start(at: int, local: Option<Civil>)

  datatype CalendarEvent = CalendarEvent(
    uid: string, summary: string, location: Option<string>, startsAt: int, endsAt: int, allDay: bool)

  datatype Failure =
    | Cancelled | MissingUid | MissingSummary | MissingStart | NotOrdered
    | RuleOverflow | ZoneFailure(error: ZoneError) | LimitExceeded | BudgetExceeded | TimeOverflow

  datatype Outcome<+T> = Done(value: T) | Failed(failure: Failure)

  /** Times are produced by the parser: a local time comes with the instant it resolves to. */
  ghost predicate Genuine(resolve: Resolver, t: Time) {
    t.local.Some? ==> resolve(t.local.value.zone, t.local.value.local) == Ok(t.at)
  }

  ghost predicate GenuineEvent(resolve: Resolver, raw: RawEvent) {
    && (raw.start.Some? ==> Genuine(resolve, raw.start.value))
    && (raw.end.Some? ==> Genuine(resolve, raw.end.value))
  }

  // ---- The recurrence set ----------------------------------------------------------------------

  function Shift(f: Frequency, k: int): int {
    if f.Daily? then DAY * k else 7 * DAY * k
  }

  function FirstOf(t: Time): Start {
    Start(t.at, t.local)
  }

  /** The `k`th instance of a rule counted from the event's start, if it can be represented. */
  function Instance(resolve: Resolver, first: Start, f: Frequency, k: nat): Outcome<Start> {
    match first.local
    case None =>
      var at := first.at + Shift(f, k);
      if at <= MAX_TIMESTAMP then Done(Start(at, None)) else Failed(RuleOverflow)
    case Some(civil) =>
      var local := civil.local + Shift(f, k);
      if local > MAX_TIMESTAMP then Failed(RuleOverflow)
      else
        var at := resolve(civil.zone, local);
        if at.Err? then Failed(ZoneFailure(at.error)) else Done(Start(at.value, Some(Civil(local, civil.zone))))
  }

  function Count(rule: Recurrence): nat {
    if rule.count.Some? then rule.count.value else USIZE_MAX
  }

  predicate BeyondUntil(rule: Recurrence, at: int) {
    rule.until.Some? && at > rule.until.value
  }

  /** The event's start is instance 0; the rule gives the others below COUNT and up to UNTIL. */
  predicate RuleGives(resolve: Resolver, first: Start, rule: Option<Recurrence>, k: nat, s: Start) {
    if k == 0 then s == first
    else
      && rule.Some? && k < Count(rule.value)
      && Instance(resolve, first, rule.value.frequency, k) == Done(s)
      && !BeyondUntil(rule.value, s.at)
  }

  ghost predicate FromRule(resolve: Resolver, first: Start, rule: Option<Recurrence>, s: Start) {
    exists k: nat :: RuleGives(resolve, first, rule, k, s)
  }

  /**
    The recurrence set of section 3.8.5 of RFC 5545: the start, the rule's instances and the
    additional dates, without the excluded ones.  A date that is both keeps the rule's local time.
   */
  ghost predicate Occurs(resolve: Resolver, raw: RawEvent, s: Start)
    requires raw.start.Some?
  {
    var first := FirstOf(raw.start.value);
    && s.at !in raw.exdates
    && (|| FromRule(resolve, first, raw.rule, s)
        || (s.local.None? && s.at in raw.rdates && forall t :: FromRule(resolve, first, raw.rule, t) ==> t.at != s.at))
  }

  /** Local times of a zone that are a step apart resolve to instants in the same order. */
  ghost predicate InStepOrder(resolve: Resolver, zone: seq<string>, step: int) {
    forall local, later ::
      local + step <= later && resolve(zone, local).Ok? && resolve(zone, later).Ok?
      ==> resolve(zone, local).value < resolve(zone, later).value
  }

  /** Instances come in increasing order: always for instants, and for local times in an ordered zone. */
  ghost predicate Advances(resolve: Resolver, first: Start, rule: Option<Recurrence>) {
    rule.Some? && first.local.Some? ==>
      InStepOrder(resolve, first.local.value.zone, Shift(rule.value.frequency, 1))
  }

  ghost predicate GenuineStart(resolve: Resolver, first: Start) {
    first.local.Some? ==> resolve(first.local.value.zone, first.local.value.local) == Ok(first.at)
  }

  lemma InstancesIncrease(resolve: Resolver, first: Start, rule: Option<Recurrence>, j: nat, s: Start, k: nat, t: Start)
    requires GenuineStart(resolve, first) && Advances(resolve, first, rule) && rule.Some? && j < k
    requires if j == 0 then s == first else Instance(resolve, first, rule.value.frequency, j) == Done(s)
    requires Instance(resolve, first, rule.value.frequency, k) == Done(t)
    ensures s.at < t.at
  {
    if first.local.Some? {
      var Civil(local, zone) := first.local.value;
      var f := rule.value.frequency;
      assert local + Shift(f, j) + Shift(f, 1) <= local + Shift(f, k);
    }
  }

  /** An interval of the rule: a day or a week, on the clock of the event. */
  function Interval(f: Frequency): int {
    match f
    case Daily => 24 * 60 * 60
    case Weekly => 7 * 24 * 60 * 60
  }

  predicate WithinRule(rule: Recurrence, k: nat, at: int) {
    && (rule.count.Some? ==> k < rule.count.value)
    && (rule.count.None? ==> k < USIZE_MAX)
    && (rule.until.Some? ==> at <= rule.until.value)
  }

  /**
    What a rule gives: without a time zone, every interval after the start in elapsed time; in a time
    zone, the instants that the local times an interval apart resolve to.
   */
  lemma RuleInIntervals(resolve: Resolver, first: Start, rule: Recurrence, s: Start)
    requires s != first
    ensures first.local.None? ==>
              (FromRule(resolve, first, Some(rule), s) <==>
               && s.local.None? && s.at <= MAX_TIMESTAMP
               && exists k: nat ::
                    k > 0 && WithinRule(rule, k, s.at) && s.at == first.at + Interval(rule.frequency) * k)
    ensures first.local.Some? ==>
              (FromRule(resolve, first, Some(rule), s) <==>
               && s.local.Some? && s.local.value.zone == first.local.value.zone
               && s.local.value.local <= MAX_TIMESTAMP
               && resolve(s.local.value.zone, s.local.value.local) == Ok(s.at)
               && exists k: nat ::
                    && k > 0 && WithinRule(rule, k, s.at)
                    && s.local.value.local == first.local.value.local + Interval(rule.frequency) * k)
  {
    forall k: nat | k > 0
      ensures first.local.None? ==>
                (RuleGives(resolve, first, Some(rule), k, s) <==>
                 && s.local.None? && s.at <= MAX_TIMESTAMP
                 && s.at == first.at + Interval(rule.frequency) * k && WithinRule(rule, k, s.at))
      ensures first.local.Some? ==>
                (RuleGives(resolve, first, Some(rule), k, s) <==>
                 && s.local.Some? && s.local.value.zone == first.local.value.zone
                 && s.local.value.local <= MAX_TIMESTAMP
                 && resolve(s.local.value.zone, s.local.value.local) == Ok(s.at)
                 && WithinRule(rule, k, s.at)
                 && s.local.value.local == first.local.value.local + Interval(rule.frequency) * k)
    {
      InstanceInInterval(first, rule.frequency, k);
    }
    assert forall k: nat :: RuleGives(resolve, first, Some(rule), k, s) ==> k > 0;
  }

  lemma InstanceInInterval(first: Start, f: Frequency, k: nat)
    ensures Shift(f, k) == Interval(f) * k
  {
  }

  // ---- Generating the rule's instances -----------------------------------------------------------

  /** What the generated starts are, and why generation stopped before COUNT. */
  ghost predicate Generated(resolve: Resolver, first: Start, rule: Recurrence, windowEnd: int, starts: seq<Start>) {
    && starts != []
    && (forall i :: 0 <= i < |starts| ==> RuleGives(resolve, first, Some(rule), i, starts[i]))
    && (forall i :: 0 < i < |starts| ==> starts[i].at < windowEnd)
  }

  ghost predicate Finished(resolve: Resolver, first: Start, rule: Recurrence, windowEnd: int, n: nat) {
    n < Count(rule) ==>
      var next := Instance(resolve, first, rule.frequency, n);
      next.Done? && (next.value.at >= windowEnd || BeyondUntil(rule, next.value.at))
  }

  /** Adds one step to the current instance, through the local time when there is one. */
  method Advance(resolve: Resolver, f: Frequency, current: Start, ghost first: Start, ghost k: nat)
    returns (r: Outcome<Start>)
    requires current.local.Some? <==> first.local.Some?
    requires first.local.None? ==> current.at == first.at + Shift(f, k)
    requires first.local.Some? ==>
               current.local.value == Civil(first.local.value.local + Shift(f, k), first.local.value.zone)
    ensures r == Instance(resolve, first, f, k + 1)
  {
    if current.local.Some? {
      var local := current.local.value.local + Shift(f, 1);
      if local > MAX_TIMESTAMP {
        return Failed(RuleOverflow);
      }
      var at := resolve(current.local.value.zone, local);
      if at.Err? {
        return Failed(ZoneFailure(at.error));
      }
      return Done(Start(at.value, Some(Civil(local, current.local.value.zone))));
    }
    var at := current.at + Shift(f, 1);
    r := if at <= MAX_TIMESTAMP then Done(Start(at, None)) else Failed(RuleOverflow);
  }

  /** The starts of more than `limit` occurrences, all of them before the window's end. */
  ghost predicate TooMany(resolve: Resolver, first: Start, rule: Recurrence, windowEnd: int, limit: nat) {
    exists starts :: |starts| > limit && Generated(resolve, first, rule, windowEnd, starts)
  }

  /** The instance after those before the window's end cannot be represented or resolved. */
  ghost predicate Unrepresentable(resolve: Resolver, first: Start, rule: Recurrence, windowEnd: int, failure: Failure) {
    exists starts ::
      && Generated(resolve, first, rule, windowEnd, starts) && |starts| < Count(rule)
      && Instance(resolve, first, rule.frequency, |starts|) == Failed(failure)
  }

  /** Generates instances until COUNT, UNTIL or the window's end; `patience` checks find no cancellation. */
  method Generate(resolve: Resolver, first: Start, rule: Recurrence, windowEnd: int, limit: nat, patience: nat)
    returns (r: Outcome<seq<Start>>, left: nat)
    requires GenuineStart(resolve, first)
    ensures r.Done? ==>
              && Generated(resolve, first, rule, windowEnd, r.value)
              && Finished(resolve, first, rule, windowEnd, |r.value|)
    ensures r.Done? ==> left + |r.value| >= patience && (|r.value| <= limit || |r.value| == 1)
    ensures r.Failed? ==>
              match r.failure
              case Cancelled => patience <= limit
              case LimitExceeded => TooMany(resolve, first, rule, windowEnd, limit)
              case RuleOverflow => Unrepresentable(resolve, first, rule, windowEnd, RuleOverflow)
              case ZoneFailure(error) => Unrepresentable(resolve, first, rule, windowEnd, ZoneFailure(error))
              case _ => false
  {
    left := patience;
    var starts := [first];
    var current := first;
    var k := 1;
    while k < Count(rule)
      invariant 1 <= k == |starts| && (k <= Count(rule) || k == 1)
      invariant left + k == patience + 1 && (k <= limit || k == 1)
      invariant Generated(resolve, first, rule, windowEnd, starts)
      invariant current.local.Some? <==> first.local.Some?
      invariant first.local.None? ==> current.at == first.at + Shift(rule.frequency, k - 1)
      invariant first.local.Some? ==>
                  current.local.value == Civil(first.local.value.local + Shift(rule.frequency, k - 1),
                                               first.local.value.zone)
      decreases Count(rule) - k
    {
      if left == 0 {
        return Failed(Cancelled), left;
      }
      left := left - 1;
      var next := Advance(resolve, rule.frequency, current, first, k - 1);
      if next.Failed? {
        assert Generated(resolve, first, rule, windowEnd, starts);
        return Failed(next.failure), left;
      }
      current := next.value;
      if BeyondUntil(rule, current.at) {
        break;
      }
      if current.at >= windowEnd {
        break;
      }
      assert Generated(resolve, first, rule, windowEnd, starts + [current]);
      if |starts| >= limit {
        return Failed(LimitExceeded), left;
      }
      starts := starts + [current];
      k := k + 1;
    }
    return Done(starts), left;
  }

  // ---- When stopping early is exact ----------------------------------------------------------------

  function Nth(resolve: Resolver, first: Start, f: Frequency, k: nat): Outcome<Start> {
    if k == 0 then Done(first) else Instance(resolve, first, f, k)
  }

  /** Different instances are different instants. */
  ghost predicate InstancesDiffer(resolve: Resolver, first: Start, rule: Option<Recurrence>) {
    rule.Some? ==>
      var f := rule.value.frequency;
      forall j: nat, k: nat ::
        j < k && Nth(resolve, first, f, j).Done? && Nth(resolve, first, f, k).Done? ==>
          Nth(resolve, first, f, j).value.at != Nth(resolve, first, f, k).value.at
  }

  /** The rule gives its `k`th instance. */
  ghost predicate Gives(resolve: Resolver, first: Start, rule: Recurrence, k: nat) {
    var s := Nth(resolve, first, rule.frequency, k);
    s.Done? && RuleGives(resolve, first, Some(rule), k, s.value)
  }

  /**
    The rule gives instance `k` and everything before an earlier instance `n`, but instance `n` is
    later than instance `k`.  That covers an instance `n` beyond UNTIL, because instance `k` is not.
   */
  ghost predicate Outruns(resolve: Resolver, first: Start, rule: Recurrence, n: nat, k: nat) {
    && 0 < n < k && Gives(resolve, first, rule, k)
    && (forall i :: 0 <= i < n ==> Gives(resolve, first, rule, i))
    && var there := Instance(resolve, first, rule.frequency, n);
       there.Done? && there.value.at > Nth(resolve, first, rule.frequency, k).value.at
  }

  ghost predicate Orderly(resolve: Resolver, first: Start, rule: Option<Recurrence>) {
    rule.Some? ==> forall n, k :: !Outruns(resolve, first, rule.value, n, k)
  }

  /** Whatever the window's end, everything the rule gives before it was generated before the stop. */
  ghost predicate MissesNothing(resolve: Resolver, first: Start, rule: Recurrence) {
    forall windowEnd, starts, k: nat, s ::
      && Generated(resolve, first, rule, windowEnd, starts) && Finished(resolve, first, rule, windowEnd, |starts|)
      && RuleGives(resolve, first, Some(rule), k, s) && s.at < windowEnd
      ==> k < |starts| && s == starts[k]
  }

  /** Stopping early is exact, for all window ends, exactly when no instance outruns a later one. */
  lemma StoppingEarlyMissesNothing(resolve: Resolver, first: Start, rule: Recurrence)
    ensures MissesNothing(resolve, first, rule) <==> Orderly(resolve, first, Some(rule))
  {
    if Orderly(resolve, first, Some(rule)) {
      forall windowEnd, starts, k: nat, s |
        && Generated(resolve, first, rule, windowEnd, starts) && Finished(resolve, first, rule, windowEnd, |starts|)
        && RuleGives(resolve, first, Some(rule), k, s) && s.at < windowEnd
        ensures k < |starts| && s == starts[k]
      {
        OrderlyMissesNothing(resolve, first, rule, windowEnd, starts, k, s);
      }
    } else {
      var n, k :| Outruns(resolve, first, rule, n, k);
      OutrunningMisses(resolve, first, rule, n, k);
    }
  }

  lemma OrderlyMissesNothing(resolve: Resolver, first: Start, rule: Recurrence, windowEnd: int,
                             starts: seq<Start>, k: nat, s: Start)
    requires Orderly(resolve, first, Some(rule))
    requires Generated(resolve, first, rule, windowEnd, starts) && Finished(resolve, first, rule, windowEnd, |starts|)
    requires RuleGives(resolve, first, Some(rule), k, s) && s.at < windowEnd
    ensures k < |starts| && s == starts[k]
  {
    var n := |starts|;
    if k < n {
      assert RuleGives(resolve, first, Some(rule), k, starts[k]);
    } else {
      assert Gives(resolve, first, rule, k);
      forall i | 0 <= i < n ensures Gives(resolve, first, rule, i) {
        assert RuleGives(resolve, first, Some(rule), i, starts[i]);
      }
      assert k > n ==> Outruns(resolve, first, rule, n, k);
    }
  }

  /** The first `n` instances, which the rule gives. */
  function Leading(resolve: Resolver, first: Start, rule: Recurrence, n: nat): (r: seq<Start>)
    requires forall i :: 0 <= i < n ==> Nth(resolve, first, rule.frequency, i).Done?
    ensures |r| == n && forall i :: 0 <= i < n ==> r[i] == Nth(resolve, first, rule.frequency, i).value
  {
    seq(n, i requires 0 <= i < n => Nth(resolve, first, rule.frequency, i).value)
  }

  lemma OutrunningMisses(resolve: Resolver, first: Start, rule: Recurrence, n: nat, k: nat)
    requires Outruns(resolve, first, rule, n, k)
    ensures !MissesNothing(resolve, first, rule)
  {
    forall i | 0 <= i < n ensures Nth(resolve, first, rule.frequency, i).Done? {
      assert Gives(resolve, first, rule, i);
    }
    var all := Leading(resolve, first, rule, n);
    var s := Nth(resolve, first, rule.frequency, k).value;
    var m := FirstReaching(all, s.at + 1, 1);
    StopsThere(resolve, first, rule, all[..m], s.at + 1);
    assert RuleGives(resolve, first, Some(rule), k, s);
  }

  /** Instances the rule gives before the window's end, with an instance after them that is not, end the loop. */
  lemma StopsThere(resolve: Resolver, first: Start, rule: Recurrence, starts: seq<Start>, windowEnd: int)
    requires starts != [] && |starts| < Count(rule)
    requires forall i :: 0 <= i < |starts| ==>
                           Gives(resolve, first, rule, i) && starts[i] == Nth(resolve, first, rule.frequency, i).value
    requires forall i :: 0 < i < |starts| ==> starts[i].at < windowEnd
    requires var next := Instance(resolve, first, rule.frequency, |starts|);
             next.Done? && (next.value.at >= windowEnd || BeyondUntil(rule, next.value.at))
    ensures Generated(resolve, first, rule, windowEnd, starts) && Finished(resolve, first, rule, windowEnd, |starts|)
  {
    forall i | 0 <= i < |starts| ensures RuleGives(resolve, first, Some(rule), i, starts[i]) {
      assert Gives(resolve, first, rule, i);
    }
  }

  /** The first position from `i` on whose start is not before `at`, or the end. */
  function FirstReaching(s: seq<Start>, at: int, i: nat): (m: nat)
    requires i <= |s|
    ensures i <= m <= |s| && (m < |s| ==> s[m].at >= at)
    ensures forall j :: i <= j < m ==> s[j].at < at
    decreases |s| - i
  {
    if i == |s| || s[i].at >= at then i else FirstReaching(s, at, i + 1)
  }

  /** Increasing instances differ and never outrun each other. */
  lemma AdvancingIsOrderly(resolve: Resolver, first: Start, rule: Option<Recurrence>)
    requires GenuineStart(resolve, first) && Advances(resolve, first, rule)
    ensures InstancesDiffer(resolve, first, rule) && Orderly(resolve, first, rule)
  {
    if rule.Some? {
      var f := rule.value.frequency;
      forall j: nat, k: nat | j < k && Nth(resolve, first, f, j).Done? && Nth(resolve, first, f, k).Done?
        ensures Nth(resolve, first, f, j).value.at < Nth(resolve, first, f, k).value.at
      {
        InstancesIncrease(resolve, first, rule, j, Nth(resolve, first, f, j).value, k, Nth(resolve, first, f, k).value);
      }
      forall n, k ensures !Outruns(resolve, first, rule.value, n, k) {
        assert Outruns(resolve, first, rule.value, n, k) ==>
                 Nth(resolve, first, f, n).Done? && Nth(resolve, first, f, k).Done?;
      }
    }
  }

  // ---- Sorting and removing duplicates -----------------------------------------------------------

  predicate SortedByKey(s: seq<Start>) {
    forall i, j :: 0 <= i < j < |s| ==> s[i].at <= s[j].at
  }

  predicate Increasing(s: seq<Start>) {
    forall i, j :: 0 <= i < j < |s| ==> s[i].at < s[j].at
  }

  /** Puts `x` before every start that is not earlier. */
  function Insert(x: Start, s: seq<Start>): (r: seq<Start>)
    ensures |r| == |s| + 1
    ensures forall y :: y in r <==> y == x || y in s
  {
    if s == [] || x.at <= s[0].at then [x] + s else [s[0]] + Insert(x, s[1..])
  }

  /** The stable sort by instant. */
  function SortByKey(s: seq<Start>): seq<Start> {
    if s == [] then [] else Insert(s[0], SortByKey(s[1..]))
  }

  /** Keeps the first of each stretch of neighbours with the same instant. */
  function DedupByKey(s: seq<Start>): (r: seq<Start>)
    decreases |s|
  {
    if |s| <= 1 then s
    else if s[0].at == s[1].at then DedupByKey([s[0]] + s[2..])
    else [s[0]] + DedupByKey(s[1..])
  }

  /** The first start at an instant. */
  function FirstAt(s: seq<Start>, at: int): (r: Option<Start>)
    ensures r.Some? <==> exists i :: 0 <= i < |s| && s[i].at == at
    ensures r.Some? ==> r.value in s && r.value.at == at
  {
    if s == [] then None
    else if s[0].at == at then Some(s[0])
    else
      var r := FirstAt(s[1..], at);
      assert r.Some? <== (exists i :: 0 <= i < |s| && s[i].at == at) by {
        if i :| 0 <= i < |s| && s[i].at == at {
          assert s[1..][i - 1].at == at;
        }
      }
      r
  }

  lemma {:induction false} InsertKeepsSorted(x: Start, s: seq<Start>)
    requires SortedByKey(s)
    ensures SortedByKey(Insert(x, s))
  {
    if s != [] && x.at > s[0].at {
      InsertKeepsSorted(x, s[1..]);
      SortedWithHead(s[0], Insert(x, s[1..]));
    }
  }

  lemma SortedWithHead(head: Start, rest: seq<Start>)
    requires SortedByKey(rest) && forall y :: y in rest ==> head.at <= y.at
    ensures SortedByKey([head] + rest)
  {
    forall i | 0 <= i < |rest| ensures head.at <= rest[i].at {
      assert rest[i] in rest;
    }
  }

  lemma {:induction false} InsertKeepsFirst(x: Start, s: seq<Start>, at: int)
    requires SortedByKey(s)
    ensures FirstAt(Insert(x, s), at) == if x.at == at then Some(x) else FirstAt(s, at)
  {
    if s == [] || x.at <= s[0].at {
      assert ([x] + s)[1..] == s;
    } else {
      InsertKeepsFirst(x, s[1..], at);
      var rest := Insert(x, s[1..]);
      assert ([s[0]] + rest)[1..] == rest;
    }
  }

  /** Sorting is stable: the first start at each instant stays the first. */
  lemma {:induction false} SortKeepsFirst(s: seq<Start>, at: int)
    ensures SortedByKey(SortByKey(s))
    ensures FirstAt(SortByKey(s), at) == FirstAt(s, at)
  {
    if s != [] {
      SortKeepsFirst(s[1..], at);
      InsertKeepsSorted(s[0], SortByKey(s[1..]));
      InsertKeepsFirst(s[0], SortByKey(s[1..]), at);
    }
  }

  /** Leaving out the second of two starts at one instant. */
  lemma SkipSecond(s: seq<Start>, at: int)
    requires |s| > 1 && s[0].at == s[1].at && SortedByKey(s)
    ensures SortedByKey([s[0]] + s[2..]) && FirstAt([s[0]] + s[2..], at) == FirstAt(s, at)
  {
    assert ([s[0]] + s[2..])[1..] == s[2..] && s[1..][1..] == s[2..];
  }

  lemma {:induction false} DedupKeepsFirst(s: seq<Start>, at: int)
    requires SortedByKey(s)
    ensures FirstAt(DedupByKey(s), at) == FirstAt(s, at)
    decreases |s|
  {
    if |s| > 1 {
      if s[0].at == s[1].at {
        SkipSecond(s, at);
        DedupKeepsFirst([s[0]] + s[2..], at);
      } else {
        DedupKeepsFirst(s[1..], at);
        var rest := DedupByKey(s[1..]);
        assert ([s[0]] + rest)[1..] == rest;
      }
    }
  }

  lemma {:induction false} DedupIncreases(s: seq<Start>)
    requires SortedByKey(s)
    ensures Increasing(DedupByKey(s))
    ensures s != [] ==> DedupByKey(s) != [] && DedupByKey(s)[0] == s[0]
    decreases |s|
  {
    if |s| > 1 {
      if s[0].at == s[1].at {
        SkipSecond(s, 0);
        DedupIncreases([s[0]] + s[2..]);
      } else {
        DedupIncreases(s[1..]);
        IncreasingWithHead(s[0], DedupByKey(s[1..]));
      }
    }
  }

  lemma IncreasingWithHead(head: Start, rest: seq<Start>)
    requires Increasing(rest) && rest != [] && head.at < rest[0].at
    ensures Increasing([head] + rest)
  {
  }

  predicate DistinctTimes(s: seq<Start>) {
    forall i, j :: 0 <= i < j < |s| ==> s[i].at != s[j].at
  }

  lemma {:induction false} FirstIsMember(s: seq<Start>, x: Start)
    requires DistinctTimes(s)
    ensures x in s <==> FirstAt(s, x.at) == Some(x)
  {
    if s != [] && s[0].at != x.at {
      FirstIsMember(s[1..], x);
    }
  }

  function Distinct(s: seq<Start>): seq<Start> {
    DedupByKey(SortByKey(s))
  }

  /** Sorting and deduplicating keeps, in increasing order, the first start at each instant. */
  lemma DistinctKeepsFirsts(s: seq<Start>)
    ensures Increasing(Distinct(s))
    ensures forall x :: x in Distinct(s) <==> FirstAt(s, x.at) == Some(x)
  {
    SortKeepsFirst(s, 0);
    DedupIncreases(SortByKey(s));
    forall x ensures x in Distinct(s) <==> FirstAt(s, x.at) == Some(x) {
      SortKeepsFirst(s, x.at);
      DedupKeepsFirst(SortByKey(s), x.at);
      FirstIsMember(Distinct(s), x);
    }
  }

  lemma {:induction false} FirstOfConcat(a: seq<Start>, b: seq<Start>, at: int)
    ensures FirstAt(a + b, at) == if FirstAt(a, at).Some? then FirstAt(a, at) else FirstAt(b, at)
  {
    if a == [] {
      assert a + b == b;
    } else {
      assert (a + b)[1..] == a[1..] + b;
      FirstOfConcat(a[1..], b, at);
    }
  }

  // ---- The expansion -----------------------------------------------------------------------------

  function Dates(rdates: seq<int>): (r: seq<Start>)
    ensures |r| == |rdates|
    ensures forall i :: 0 <= i < |r| ==> r[i] == Start(rdates[i], None)
  {
    seq(|rdates|, i requires 0 <= i < |rdates| => Start(rdates[i], None))
  }

  /** The event ends after it starts; an all-day event without an end takes a day. */
  predicate Ordered(raw: RawEvent) {
    && raw.start.Some?
    && (if raw.end.Some? then raw.end.value.at > raw.start.value.at
        else raw.start.value.allDay && !EndsTooLate(raw))
  }

  /** A day from the start cannot be represented. */
  predicate EndsTooLate(raw: RawEvent) {
    raw.start.Some? && raw.end.None? && raw.start.value.allDay && raw.start.value.at + 86400 > MAX_TIMESTAMP
  }

  /** Both ends of the event are local times of one zone. */
  predicate OnOneClock(raw: RawEvent)
    requires raw.start.Some?
  {
    && raw.end.Some? && raw.start.value.local.Some? && raw.end.value.local.Some?
    && raw.start.value.local.value.zone == raw.end.value.local.value.zone
  }

  /** The local time at which an occurrence ends when both ends are on one clock. */
  function LocalEnd(raw: RawEvent, s: Civil): int
    requires raw.start.Some? && OnOneClock(raw)
  {
    s.local + (raw.end.value.local.value.local - raw.start.value.local.value.local)
  }

  /** The elapsed time from the event's start to its end. */
  function Elapsed(raw: RawEvent): int
    requires raw.start.Some?
  {
    if raw.end.Some? then raw.end.value.at - raw.start.value.at else 86400
  }

  /** An occurrence that starts at `s` ends at `end`: as much later on its clock, or in elapsed time, as the event. */
  predicate Lasts(resolve: Resolver, raw: RawEvent, s: Start, end: int)
    requires raw.start.Some?
  {
    if s.local.Some? && OnOneClock(raw) then resolve(s.local.value.zone, LocalEnd(raw, s.local.value)) == Ok(end)
    else end - s.at == Elapsed(raw)
  }

  /** An occurrence that starts at `s` has no end: it is out of range or a local time that does not resolve. */
  predicate Endless(resolve: Resolver, raw: RawEvent, s: Start, failure: Failure)
    requires raw.start.Some?
  {
    if s.local.Some? && OnOneClock(raw) then
      var local := LocalEnd(raw, s.local.value);
      if local > MAX_TIMESTAMP then failure == TimeOverflow
      else
        var end := resolve(s.local.value.zone, local);
        end.Err? && failure == ZoneFailure(end.error)
    else s.at + Elapsed(raw) > MAX_TIMESTAMP && failure == TimeOverflow
  }

  /** The computed end is the one the occurrence lasts to, and is missing exactly when there is none. */
  lemma EndOfLasts(resolve: Resolver, raw: RawEvent, s: Start)
    requires Ordered(raw)
    ensures forall end :: EndOf(resolve, raw, s) == Done(end) ==> Lasts(resolve, raw, s, end)
    ensures forall failure :: EndOf(resolve, raw, s) == Failed(failure) <==> Endless(resolve, raw, s, failure)
  {
  }

  /** The end of the event itself: its own, or a day after the start of an all-day event. */
  function EndTime(raw: RawEvent): Outcome<int>
    requires raw.start.Some?
  {
    var start := raw.start.value;
    if raw.end.Some? then Done(raw.end.value.at)
    else if !start.allDay then Done(start.at)
    else if start.at + DAY <= MAX_TIMESTAMP then Done(start.at + DAY)
    else Failed(TimeOverflow)
  }

  /** The duration on the clock, when both ends are local times of one zone. */
  function CivilDuration(raw: RawEvent): Option<int>
    requires raw.start.Some?
  {
    if raw.end.Some? && raw.start.value.local.Some? && raw.end.value.local.Some?
       && raw.start.value.local.value.zone == raw.end.value.local.value.zone
    then Some(raw.end.value.local.value.local - raw.start.value.local.value.local)
    else None
  }

  /** The end of one occurrence: the same duration on the clock in a zone, else the same elapsed time. */
  function EndOf(resolve: Resolver, raw: RawEvent, s: Start): Outcome<int>
    requires Ordered(raw)
  {
    var civil := CivilDuration(raw);
    if s.local.Some? && civil.Some? then
      var local := s.local.value.local + civil.value;
      if local > MAX_TIMESTAMP then Failed(TimeOverflow)
      else
        var end := resolve(s.local.value.zone, local);
        if end.Ok? then Done(end.value) else Failed(ZoneFailure(end.error))
    else
      var end := s.at + (EndTime(raw).value - raw.start.value.at);
      if end <= MAX_TIMESTAMP then Done(end) else Failed(TimeOverflow)
  }

  predicate Named(raw: RawEvent) {
    raw.uid.Some? && raw.uid.value != "" && raw.summary.Some? && raw.summary.value != ""
  }

  predicate Complete(raw: RawEvent) {
    Named(raw) && Ordered(raw)
  }

  function EventOf(resolve: Resolver, raw: RawEvent, s: Start): CalendarEvent
    requires Complete(raw) && EndOf(resolve, raw, s).Done?
  {
    CalendarEvent(raw.uid.value, raw.summary.value, raw.location,
                  s.at, EndOf(resolve, raw, s).value, raw.start.value.allDay)
  }

  /** The occurrence ends after the window's start and starts before its end. */
  predicate Meets(resolve: Resolver, raw: RawEvent, s: Start, windowStart: int, windowEnd: int)
    requires Ordered(raw)
  {
    var end := EndOf(resolve, raw, s);
    end.Done? && end.value > windowStart && s.at < windowEnd
  }

  predicate Chosen(resolve: Resolver, raw: RawEvent, s: Start, windowStart: int, windowEnd: int)
    requires Ordered(raw)
  {
    s.at !in raw.exdates && Meets(resolve, raw, s, windowStart, windowEnd)
  }

  function TotalSize(size: CalendarEvent -> nat, events: seq<CalendarEvent>): nat {
    if events == [] then 0 else TotalSize(size, events[..|events| - 1]) + size(events[|events| - 1]) + 1
  }

  /** The chosen starts, in order, and the event made of each. */
  ghost predicate Emits(resolve: Resolver, raw: RawEvent, starts: seq<Start>, windowStart: int, windowEnd: int,
                        kept: seq<Start>, events: seq<CalendarEvent>)
    requires Complete(raw)
  {
    && |kept| == |events|
    && Increasing(kept)
    && (forall x :: x in kept <==> x in starts && Chosen(resolve, raw, x, windowStart, windowEnd))
    && (forall i :: 0 <= i < |kept| ==>
                      EndOf(resolve, raw, kept[i]).Done? && events[i] == EventOf(resolve, raw, kept[i]))
    && (forall x :: x in starts && x.at !in raw.exdates ==> EndOf(resolve, raw, x).Done?)
  }

  lemma EmitsNothing(resolve: Resolver, raw: RawEvent, ws: int, we: int)
    requires Complete(raw)
    ensures Emits(resolve, raw, [], ws, we, [], [])
  {
  }

  lemma EmitsSkip(resolve: Resolver, raw: RawEvent, starts: seq<Start>, ws: int, we: int, kept: seq<Start>,
                  events: seq<CalendarEvent>, x: Start)
    requires Complete(raw) && Emits(resolve, raw, starts, ws, we, kept, events)
    requires x.at in raw.exdates || (EndOf(resolve, raw, x).Done? && !Meets(resolve, raw, x, ws, we))
    ensures Emits(resolve, raw, starts + [x], ws, we, kept, events)
  {
  }

  lemma EmitsOne(resolve: Resolver, raw: RawEvent, starts: seq<Start>, ws: int, we: int, kept: seq<Start>,
                 events: seq<CalendarEvent>, x: Start)
    requires Complete(raw) && Emits(resolve, raw, starts, ws, we, kept, events)
    requires Chosen(resolve, raw, x, ws, we) && Increasing(starts + [x])
    ensures Emits(resolve, raw, starts + [x], ws, we, kept + [x], events + [EventOf(resolve, raw, x)])
  {
    forall i | 0 <= i < |kept| ensures kept[i].at < x.at {
      assert kept[i] in starts;
      var j :| 0 <= j < |starts| && starts[j] == kept[i];
      assert (starts + [x])[j].at < (starts + [x])[|starts|].at;
    }
  }

  /** Chosen starts whose events together exceed the budget. */
  ghost predicate Oversized(resolve: Resolver, raw: RawEvent, starts: seq<Start>, windowStart: int, windowEnd: int,
                            budget: nat, size: CalendarEvent -> nat)
    requires Complete(raw)
  {
    exists kept, events :: Overflowing(resolve, raw, starts, windowStart, windowEnd, kept, events, budget, size)
  }

  ghost predicate Overflowing(resolve: Resolver, raw: RawEvent, starts: seq<Start>, windowStart: int, windowEnd: int,
                              kept: seq<Start>, events: seq<CalendarEvent>, budget: nat, size: CalendarEvent -> nat)
    requires Complete(raw)
  {
    && |kept| == |events| && Increasing(kept) && TotalSize(size, events) > budget
    && (forall x :: x in kept ==> x in starts && x.at !in raw.exdates)
    && (forall i :: 0 <= i < |kept| ==>
                      Lists(resolve, raw, kept[i], events[i]) && InWindow(events[i], windowStart, windowEnd))
  }

  lemma TooLarge(resolve: Resolver, raw: RawEvent, starts: seq<Start>, n: nat, ws: int, we: int,
                 kept: seq<Start>, events: seq<CalendarEvent>, budget: nat, size: CalendarEvent -> nat)
    requires Complete(raw) && n <= |starts| && Emits(resolve, raw, starts[..n], ws, we, kept, events)
    requires TotalSize(size, events) > budget
    ensures Oversized(resolve, raw, starts, ws, we, budget, size)
  {
    forall i | 0 <= i < |kept| ensures Lists(resolve, raw, kept[i], events[i]) && InWindow(events[i], ws, we) {
      assert kept[i] in kept;
      EndOfLasts(resolve, raw, kept[i]);
    }
    assert Overflowing(resolve, raw, starts, ws, we, kept, events, budget, size);
  }

  /** Some start that is not excluded has an end that cannot be represented or resolved. */
  ghost predicate EndFails(resolve: Resolver, raw: RawEvent, starts: seq<Start>, failure: Failure)
    requires Ordered(raw)
  {
    exists s :: s in starts && s.at !in raw.exdates && Endless(resolve, raw, s, failure)
  }

  method Emit(resolve: Resolver, raw: RawEvent, starts: seq<Start>, windowStart: int, windowEnd: int,
              budget: nat, size: CalendarEvent -> nat, patience: nat)
    returns (r: Outcome<(seq<CalendarEvent>, nat)>, ghost kept: seq<Start>)
    requires Complete(raw) && Increasing(starts)
    ensures r.Done? ==> Emits(resolve, raw, starts, windowStart, windowEnd, kept, r.value.0)
    ensures r.Done? ==> r.value.1 == TotalSize(size, r.value.0) <= budget
    ensures r.Failed? ==>
              match r.failure
              case Cancelled => patience < |starts|
              case BudgetExceeded => Oversized(resolve, raw, starts, windowStart, windowEnd, budget, size)
              case TimeOverflow => EndFails(resolve, raw, starts, TimeOverflow)
              case ZoneFailure(error) => EndFails(resolve, raw, starts, ZoneFailure(error))
              case _ => false
  {
    var left := patience;
    var events, bytes := [], 0;
    kept := [];
    EmitsNothing(resolve, raw, windowStart, windowEnd);
    for i := 0 to |starts|
      invariant Emits(resolve, raw, starts[..i], windowStart, windowEnd, kept, events)
      invariant bytes == TotalSize(size, events) <= budget
      invariant left + i == patience
    {
      if left == 0 {
        return Failed(Cancelled), kept;
      }
      left := left - 1;
      var made := MakeEvent(resolve, raw, starts[i], windowStart, windowEnd);
      if made.Failed? {
        EndOfLasts(resolve, raw, starts[i]);
        return Failed(made.failure), kept;
      }
      EmitsNext(resolve, raw, starts, i, windowStart, windowEnd, kept, events, made.value);
      if made.value.Some? {
        var event := made.value.value;
        TotalOfNext(size, events, event);
        if bytes + size(event) + 1 > budget {
          TooLarge(resolve, raw, starts, i + 1, windowStart, windowEnd, kept + [starts[i]], events + [event],
                   budget, size);
          return Failed(BudgetExceeded), kept;
        }
        bytes := bytes + size(event) + 1;
        events := events + [event];
        kept := kept + [starts[i]];
      }
    }
    assert starts[..|starts|] == starts;
    r := Done((events, bytes));
  }

  /** The event of a start that is not excluded and meets the window. */
  method MakeEvent(resolve: Resolver, raw: RawEvent, s: Start, windowStart: int, windowEnd: int)
    returns (r: Outcome<Option<CalendarEvent>>)
    requires Complete(raw)
    ensures match r
            case Failed(failure) => s.at !in raw.exdates && EndOf(resolve, raw, s) == Failed(failure)
            case Done(made) =>
              && (s.at in raw.exdates || EndOf(resolve, raw, s).Done?)
              && made == (if Chosen(resolve, raw, s, windowStart, windowEnd) then Some(EventOf(resolve, raw, s))
                          else None)
  {
    if s.at in raw.exdates {
      return Done(None);
    }
    var end := EndOf(resolve, raw, s);
    if end.Failed? {
      return Failed(end.failure);
    }
    if end.value > windowStart && s.at < windowEnd {
      return Done(Some(CalendarEvent(raw.uid.value, raw.summary.value, raw.location,
                                     s.at, end.value, raw.start.value.allDay)));
    }
    return Done(None);
  }

  lemma EmitsNext(resolve: Resolver, raw: RawEvent, starts: seq<Start>, i: nat, ws: int, we: int, kept: seq<Start>,
                  events: seq<CalendarEvent>, made: Option<CalendarEvent>)
    requires Complete(raw) && i < |starts| && Increasing(starts)
    requires Emits(resolve, raw, starts[..i], ws, we, kept, events)
    requires starts[i].at in raw.exdates || EndOf(resolve, raw, starts[i]).Done?
    requires made == if Chosen(resolve, raw, starts[i], ws, we) then Some(EventOf(resolve, raw, starts[i])) else None
    ensures if made.Some?
            then Emits(resolve, raw, starts[..i + 1], ws, we, kept + [starts[i]], events + [made.value])
            else Emits(resolve, raw, starts[..i + 1], ws, we, kept, events)
  {
    assert starts[..i + 1] == starts[..i] + [starts[i]];
    if made.Some? {
      EmitsOne(resolve, raw, starts[..i], ws, we, kept, events, starts[i]);
    } else {
      EmitsSkip(resolve, raw, starts[..i], ws, we, kept, events, starts[i]);
    }
  }

  lemma TotalOfNext(size: CalendarEvent -> nat, events: seq<CalendarEvent>, event: CalendarEvent)
    ensures TotalSize(size, events + [event]) == TotalSize(size, events) + size(event) + 1
  {
    assert (events + [event])[..|events|] == events;
  }

  // ---- Exactness ---------------------------------------------------------------------------------

  /** The event listed for an occurrence: the particulars of the event, and the occurrence's own interval. */
  predicate Lists(resolve: Resolver, raw: RawEvent, s: Start, event: CalendarEvent)
    requires Complete(raw)
  {
    && event.uid == raw.uid.value && event.summary == raw.summary.value && event.location == raw.location
    && event.allDay == raw.start.value.allDay
    && event.startsAt == s.at && Lasts(resolve, raw, s, event.endsAt)
  }

  predicate InWindow(event: CalendarEvent, windowStart: int, windowEnd: int) {
    event.endsAt > windowStart && event.startsAt < windowEnd
  }

  /** The listed event is one of a start that the rule or an additional date gives. */
  ghost predicate Sound(resolve: Resolver, raw: RawEvent, windowStart: int, windowEnd: int, event: CalendarEvent)
    requires Complete(raw)
  {
    && InWindow(event, windowStart, windowEnd)
    && exists s :: GivenOne(resolve, raw, s) && s.at !in raw.exdates && Lists(resolve, raw, s, event)
  }

  /** The events are, in increasing order, those of the recurrence set that meet the window. */
  ghost predicate Exact(resolve: Resolver, raw: RawEvent, windowStart: int, windowEnd: int, events: seq<CalendarEvent>)
    requires Complete(raw)
  {
    && (forall i, j :: 0 <= i < j < |events| ==> events[i].startsAt < events[j].startsAt)
    && (forall event :: event in events ==>
                          && InWindow(event, windowStart, windowEnd)
                          && exists s :: Occurs(resolve, raw, s) && Lists(resolve, raw, s, event))
    && (forall s, event :: Occurs(resolve, raw, s) && Lists(resolve, raw, s, event)
                           && InWindow(event, windowStart, windowEnd)
                           ==> event in events)
    && (forall s, failure :: Occurs(resolve, raw, s) && s.at < windowEnd ==> !Endless(resolve, raw, s, failure))
  }

  /** What is known of the generated starts of an event, with or without a rule. */
  ghost predicate Collected(resolve: Resolver, raw: RawEvent, windowEnd: int, starts: seq<Start>)
    requires raw.start.Some?
  {
    var first := FirstOf(raw.start.value);
    if raw.rule.None? then starts == [first]
    else
      && Generated(resolve, first, raw.rule.value, windowEnd, starts)
      && Finished(resolve, first, raw.rule.value, windowEnd, |starts|)
  }

  lemma CollectedIsTheRule(resolve: Resolver, raw: RawEvent, windowEnd: int, starts: seq<Start>, s: Start)
    requires raw.start.Some? && Genuine(resolve, raw.start.value) && Collected(resolve, raw, windowEnd, starts)
    requires Orderly(resolve, FirstOf(raw.start.value), raw.rule) && s.at < windowEnd
    ensures s in starts <==> FromRule(resolve, FirstOf(raw.start.value), raw.rule, s)
  {
    var first := FirstOf(raw.start.value);
    if s in starts {
      var i :| 0 <= i < |starts| && starts[i] == s;
      assert RuleGives(resolve, first, raw.rule, i, s);
    }
    if FromRule(resolve, first, raw.rule, s) {
      var k: nat :| RuleGives(resolve, first, raw.rule, k, s);
      if raw.rule.Some? {
        OrderlyMissesNothing(resolve, first, raw.rule.value, windowEnd, starts, k, s);
      }
    }
  }

  lemma CollectedDiffer(resolve: Resolver, raw: RawEvent, windowEnd: int, starts: seq<Start>)
    requires raw.start.Some? && Collected(resolve, raw, windowEnd, starts)
    requires InstancesDiffer(resolve, FirstOf(raw.start.value), raw.rule)
    ensures DistinctTimes(starts)
  {
    if raw.rule.Some? {
      GeneratedDiffer(resolve, FirstOf(raw.start.value), raw.rule.value, windowEnd, starts);
    }
  }

  lemma GeneratedDiffer(resolve: Resolver, first: Start, rule: Recurrence, windowEnd: int, starts: seq<Start>)
    requires InstancesDiffer(resolve, first, Some(rule)) && Generated(resolve, first, rule, windowEnd, starts)
    ensures DistinctTimes(starts)
  {
    forall i | 0 <= i < |starts| ensures Nth(resolve, first, rule.frequency, i) == Done(starts[i]) {
      assert RuleGives(resolve, first, Some(rule), i, starts[i]);
    }
  }

  /** Before the window's end, the first starts of the collected list are the recurrence set. */
  lemma DistinctIsTheRecurrenceSet(resolve: Resolver, raw: RawEvent, windowEnd: int, starts: seq<Start>, s: Start)
    requires raw.start.Some? && Genuine(resolve, raw.start.value) && Collected(resolve, raw, windowEnd, starts)
    requires Orderly(resolve, FirstOf(raw.start.value), raw.rule)
    requires InstancesDiffer(resolve, FirstOf(raw.start.value), raw.rule) && s.at < windowEnd
    ensures s in Distinct(starts + Dates(raw.rdates)) && s.at !in raw.exdates <==> Occurs(resolve, raw, s)
  {
    var first, dates := FirstOf(raw.start.value), Dates(raw.rdates);
    DistinctKeepsFirsts(starts + dates);
    FirstOfConcat(starts, dates, s.at);
    CollectedDiffer(resolve, raw, windowEnd, starts);
    FirstIsMember(starts, s);
    CollectedIsTheRule(resolve, raw, windowEnd, starts, s);
    if FirstAt(starts, s.at).Some? {
      var t := FirstAt(starts, s.at).value;
      CollectedIsTheRule(resolve, raw, windowEnd, starts, t);
      assert s in starts <==> s == t;
      assert FromRule(resolve, first, raw.rule, t);
    } else {
      forall t | FromRule(resolve, first, raw.rule, t) ensures t.at != s.at {
        if t.at == s.at {
          CollectedIsTheRule(resolve, raw, windowEnd, starts, t);
          FirstIsMember(starts, t);
        }
      }
      assert FirstAt(dates, s.at).Some? ==> FirstAt(dates, s.at).value == Start(s.at, None);
      assert s.at in raw.rdates <==> exists i :: 0 <= i < |dates| && dates[i].at == s.at by {
        if s.at in raw.rdates {
          var i :| 0 <= i < |raw.rdates| && raw.rdates[i] == s.at;
          assert dates[i].at == s.at;
        }
      }
    }
  }

  /** The emitted events of the distinct starts are exactly those of the recurrence set. */
  lemma EmittedIsExact(resolve: Resolver, raw: RawEvent, ws: int, we: int, starts: seq<Start>, kept: seq<Start>,
                       events: seq<CalendarEvent>)
    requires Complete(raw) && Genuine(resolve, raw.start.value) && Collected(resolve, raw, we, starts)
    requires Orderly(resolve, FirstOf(raw.start.value), raw.rule)
    requires InstancesDiffer(resolve, FirstOf(raw.start.value), raw.rule)
    requires Emits(resolve, raw, Distinct(starts + Dates(raw.rdates)), ws, we, kept, events)
    ensures Exact(resolve, raw, ws, we, events)
  {
    var distinct := Distinct(starts + Dates(raw.rdates));
    forall s: Start | s.at < we ensures s in distinct && s.at !in raw.exdates <==> Occurs(resolve, raw, s) {
      DistinctIsTheRecurrenceSet(resolve, raw, we, starts, s);
    }
    forall event | event in events
      ensures InWindow(event, ws, we) && exists s :: Occurs(resolve, raw, s) && Lists(resolve, raw, s, event)
    {
      var i :| 0 <= i < |events| && events[i] == event;
      assert kept[i] in kept;
      EndOfLasts(resolve, raw, kept[i]);
      assert Occurs(resolve, raw, kept[i]) && Lists(resolve, raw, kept[i], event);
    }
    forall s, event | Occurs(resolve, raw, s) && Lists(resolve, raw, s, event) && InWindow(event, ws, we)
      ensures event in events
    {
      EndOfLasts(resolve, raw, s);
      assert s in kept;
      var i :| 0 <= i < |kept| && kept[i] == s;
      assert events[i] == event;
    }
    forall s, failure | Occurs(resolve, raw, s) && s.at < we ensures !Endless(resolve, raw, s, failure) {
      EndOfLasts(resolve, raw, s);
    }
  }

  /** More than `limit` different starts, each given by the rule or an additional date. */
  ghost predicate Crowded(resolve: Resolver, raw: RawEvent, limit: nat)
    requires raw.start.Some?
  {
    exists starts ::
      && |starts| > limit && DistinctTimes(starts)
      && forall x :: x in starts ==> FromRule(resolve, FirstOf(raw.start.value), raw.rule, x) || x.at in raw.rdates
  }

  lemma TooManyIsCrowded(resolve: Resolver, raw: RawEvent, windowEnd: int, limit: nat)
    requires raw.start.Some? && raw.rule.Some?
    requires InstancesDiffer(resolve, FirstOf(raw.start.value), raw.rule)
    requires TooMany(resolve, FirstOf(raw.start.value), raw.rule.value, windowEnd, limit)
    ensures Crowded(resolve, raw, limit)
  {
    var first := FirstOf(raw.start.value);
    var starts: seq<Start> :| |starts| > limit && Generated(resolve, first, raw.rule.value, windowEnd, starts);
    GeneratedDiffer(resolve, first, raw.rule.value, windowEnd, starts);
    forall x | x in starts ensures FromRule(resolve, first, raw.rule, x) {
      var i :| 0 <= i < |starts| && starts[i] == x;
      assert RuleGives(resolve, first, raw.rule, i, x);
    }
  }

  lemma DistinctIsCrowded(resolve: Resolver, raw: RawEvent, windowEnd: int, starts: seq<Start>, limit: nat)
    requires raw.start.Some? && Collected(resolve, raw, windowEnd, starts)
    requires |Distinct(starts + Dates(raw.rdates))| > limit
    ensures Crowded(resolve, raw, limit)
  {
    var first, dates := FirstOf(raw.start.value), Dates(raw.rdates);
    var distinct := Distinct(starts + dates);
    DistinctKeepsFirsts(starts + dates);
    forall x | x in distinct ensures FromRule(resolve, first, raw.rule, x) || x.at in raw.rdates {
      assert x in starts + dates;
      if x in starts {
        var i :| 0 <= i < |starts| && starts[i] == x;
        assert RuleGives(resolve, first, raw.rule, i, x);
      } else {
        var i :| 0 <= i < |dates| && dates[i] == x;
        assert raw.rdates[i] == x.at;
      }
    }
  }

  /** Why the instances of a rule cannot all be generated. */
  ghost predicate RuleObstructs(resolve: Resolver, raw: RawEvent, windowEnd: int, limit: nat, patience: nat,
                                failure: Failure)
    requires raw.start.Some?
  {
    && raw.rule.Some?
    && var first := FirstOf(raw.start.value);
       match failure
       case Cancelled => patience <= limit
       case LimitExceeded => InstancesDiffer(resolve, first, raw.rule) ==> Crowded(resolve, raw, limit)
       case RuleOverflow => Unrepresentable(resolve, first, raw.rule.value, windowEnd, RuleOverflow)
       case ZoneFailure(error) => Unrepresentable(resolve, first, raw.rule.value, windowEnd, ZoneFailure(error))
       case _ => false
  }

  /** The rule or an additional date gives this start. */
  ghost predicate GivenOne(resolve: Resolver, raw: RawEvent, s: Start)
    requires raw.start.Some?
  {
    FromRule(resolve, FirstOf(raw.start.value), raw.rule, s) || (s.local.None? && s.at in raw.rdates)
  }

  ghost predicate Given(resolve: Resolver, raw: RawEvent, starts: seq<Start>)
    requires raw.start.Some?
  {
    forall x :: x in starts ==> GivenOne(resolve, raw, x)
  }

  lemma EmittedIsSound(resolve: Resolver, raw: RawEvent, ws: int, we: int, starts: seq<Start>, kept: seq<Start>,
                       events: seq<CalendarEvent>)
    requires Complete(raw) && Given(resolve, raw, starts) && Emits(resolve, raw, starts, ws, we, kept, events)
    ensures forall event :: event in events ==> Sound(resolve, raw, ws, we, event)
  {
    forall event | event in events ensures Sound(resolve, raw, ws, we, event) {
      var i :| 0 <= i < |events| && events[i] == event;
      assert kept[i] in kept;
      EndOfLasts(resolve, raw, kept[i]);
      assert GivenOne(resolve, raw, kept[i]) && Lists(resolve, raw, kept[i], event);
    }
  }

  lemma DistinctAreGiven(resolve: Resolver, raw: RawEvent, windowEnd: int, starts: seq<Start>)
    requires raw.start.Some? && Collected(resolve, raw, windowEnd, starts)
    ensures Given(resolve, raw, Distinct(starts + Dates(raw.rdates)))
  {
    var first, dates := FirstOf(raw.start.value), Dates(raw.rdates);
    DistinctKeepsFirsts(starts + dates);
    forall x | x in Distinct(starts + dates)
      ensures GivenOne(resolve, raw, x)
    {
      assert x in starts + dates;
      if x in starts {
        var i :| 0 <= i < |starts| && starts[i] == x;
        assert RuleGives(resolve, first, raw.rule, i, x);
      } else {
        var i :| 0 <= i < |dates| && dates[i] == x;
        assert raw.rdates[i] == x.at;
      }
    }
  }

  /** Why the given starts cannot all be turned into events. */
  ghost predicate EventsObstruct(resolve: Resolver, raw: RawEvent, windowStart: int, windowEnd: int, limit: nat,
                                 budget: nat, size: CalendarEvent -> nat, patience: nat, failure: Failure)
    requires Complete(raw)
  {
    match failure
    case Cancelled => patience <= 2 * limit + 1
    case LimitExceeded => Crowded(resolve, raw, limit)
    case TimeOverflow => exists starts :: Given(resolve, raw, starts) && EndFails(resolve, raw, starts, TimeOverflow)
    case ZoneFailure(error) =>
      exists starts :: Given(resolve, raw, starts) && EndFails(resolve, raw, starts, ZoneFailure(error))
    case BudgetExceeded =>
      exists starts ::
        Given(resolve, raw, starts) && Oversized(resolve, raw, starts, windowStart, windowEnd, budget, size)
    case _ => false
  }

  /**
    The reasons for which an expansion fails.  Without any of them it succeeds: with more than twice
    `limit` checks before a cancellation, a complete event whose instances and ends are representable
    and resolve, and whose starts and events stay within the limit and the budget, is expanded.
   */
  ghost predicate Obstructed(resolve: Resolver, raw: RawEvent, windowStart: int, windowEnd: int, limit: nat,
                             budget: nat, size: CalendarEvent -> nat, patience: nat, failure: Failure)
  {
    match failure
    case MissingUid => raw.uid.None? || raw.uid.value == ""
    case MissingSummary => raw.summary.None? || raw.summary.value == ""
    case MissingStart => raw.start.None?
    case NotOrdered => raw.start.Some? && !Ordered(raw) && !EndsTooLate(raw)
    case Cancelled => patience <= 2 * limit + 1
    case TimeOverflow =>
      || EndsTooLate(raw)
      || (Complete(raw) && EventsObstruct(resolve, raw, windowStart, windowEnd, limit, budget, size, patience, failure))
    case _ =>
      && Complete(raw)
      && (|| RuleObstructs(resolve, raw, windowEnd, limit, patience, failure)
          || EventsObstruct(resolve, raw, windowStart, windowEnd, limit, budget, size, patience, failure))
  }

  /** The collected starts of an event: its own start and, with a rule, the generated instances. */
  method Collect(resolve: Resolver, raw: RawEvent, windowEnd: int, limit: nat, patience: nat)
    returns (r: Outcome<seq<Start>>, left: nat)
    requires raw.start.Some? && Genuine(resolve, raw.start.value)
    ensures r.Done? ==> Collected(resolve, raw, windowEnd, r.value)
    ensures r.Done? ==> left + |r.value| >= patience && (|r.value| <= limit || |r.value| == 1)
    ensures r.Failed? ==> RuleObstructs(resolve, raw, windowEnd, limit, patience, r.failure)
  {
    var first := FirstOf(raw.start.value);
    if raw.rule.None? {
      return Done([first]), patience;
    }
    r, left := Generate(resolve, first, raw.rule.value, windowEnd, limit, patience);
    if r == Failed(LimitExceeded) && InstancesDiffer(resolve, first, raw.rule) {
      TooManyIsCrowded(resolve, raw, windowEnd, limit);
    }
  }

  /** No instance of the event's rule outruns a later one, and different instances are different instants. */
  ghost predicate Exhaustive(resolve: Resolver, raw: RawEvent)
    requires raw.start.Some?
  {
    var first := FirstOf(raw.start.value);
    Orderly(resolve, first, raw.rule) && InstancesDiffer(resolve, first, raw.rule)
  }

  /** The event itself is refused before anything is expanded. */
  predicate Refused<T>(raw: RawEvent, r: Outcome<T>) {
    && r.Failed?
    && (|| r.failure in {MissingUid, MissingSummary, MissingStart, NotOrdered}
        || (r.failure == TimeOverflow && EndsTooLate(raw)))
  }

  /**
    Expands an event.  A success lists exactly the members of the recurrence set that meet the
    window, with their total size within the budget; refusals name the part that is missing.
   */
  method Expand(resolve: Resolver, raw: RawEvent, windowStart: int, windowEnd: int, limit: nat,
                budget: nat, size: CalendarEvent -> nat, patience: nat)
    returns (r: Outcome<(seq<CalendarEvent>, nat)>)
    requires GenuineEvent(resolve, raw)
    ensures r.Done? ==> Complete(raw) && r.value.1 == TotalSize(size, r.value.0) <= budget
    ensures r.Done? ==> forall event :: event in r.value.0 ==> Sound(resolve, raw, windowStart, windowEnd, event)
    ensures r.Done? && Exhaustive(resolve, raw) ==> Exact(resolve, raw, windowStart, windowEnd, r.value.0)
    ensures r.Done? && raw.start.value.local.None? ==> Exact(resolve, raw, windowStart, windowEnd, r.value.0)
    ensures patience > 0 ==> (!Complete(raw) <==> Refused(raw, r))
    ensures r.Failed? ==> Obstructed(resolve, raw, windowStart, windowEnd, limit, budget, size, patience, r.failure)
  {
    if patience == 0 {
      return Failed(Cancelled);
    }
    if raw.uid.None? || raw.uid.value == "" {
      return Failed(MissingUid);
    }
    if raw.summary.None? || raw.summary.value == "" {
      return Failed(MissingSummary);
    }
    if raw.start.None? {
      return Failed(MissingStart);
    }
    var end := EndTime(raw);
    if end.Failed? {
      return Failed(end.failure);
    }
    if end.value <= raw.start.value.at {
      return Failed(NotOrdered);
    }
    if raw.start.value.local.None? {
      AdvancingIsOrderly(resolve, FirstOf(raw.start.value), raw.rule);
    }
    r := ExpandComplete(resolve, raw, windowStart, windowEnd, limit, budget, size, patience - 1);
  }

  /** Expands an event that has its parts. */
  method ExpandComplete(resolve: Resolver, raw: RawEvent, windowStart: int, windowEnd: int, limit: nat,
                        budget: nat, size: CalendarEvent -> nat, patience: nat)
    returns (r: Outcome<(seq<CalendarEvent>, nat)>)
    requires Complete(raw) && Genuine(resolve, raw.start.value)
    ensures r.Done? ==> r.value.1 == TotalSize(size, r.value.0) <= budget
    ensures r.Done? ==> forall event :: event in r.value.0 ==> Sound(resolve, raw, windowStart, windowEnd, event)
    ensures r.Done? && Exhaustive(resolve, raw) ==> Exact(resolve, raw, windowStart, windowEnd, r.value.0)
    ensures r.Failed? ==>
              || RuleObstructs(resolve, raw, windowEnd, limit, patience, r.failure)
              || EventsObstruct(resolve, raw, windowStart, windowEnd, limit, budget, size, patience + 1, r.failure)
  {
    var collected, left := Collect(resolve, raw, windowEnd, limit, patience);
    if collected.Failed? {
      return Failed(collected.failure);
    }
    var all := collected.value + Dates(raw.rdates);
    var starts := Distinct(all);
    if |starts| > limit {
      DistinctIsCrowded(resolve, raw, windowEnd, collected.value, limit);
      return Failed(LimitExceeded);
    }
    DistinctKeepsFirsts(all);
    DistinctAreGiven(resolve, raw, windowEnd, collected.value);
    ghost var kept;
    r, kept := Emit(resolve, raw, starts, windowStart, windowEnd, budget, size, left);
    if r.Done? {
      EmittedIsSound(resolve, raw, windowStart, windowEnd, starts, kept, r.value.0);
    }
    if r.Done? && Exhaustive(resolve, raw) {
      EmittedIsExact(resolve, raw, windowStart, windowEnd, collected.value, kept, r.value.0);
    }
  }

  // ---- Which events the exactness covers ---------------------------------------------------------

  /** Local times resolved with the zone files of a directory. */
  function In(zones: Directory): Resolver {
    (name, local) => ResolveLocalTime(zones, name, local)
  }

  /** Different local times of a zone never resolve to the same instant. */
  ghost predicate OneClock(resolve: Resolver, zone: seq<string>) {
    forall a, b :: a != b && resolve(zone, a).Ok? && resolve(zone, b).Ok? ==>
                     resolve(zone, a).value != resolve(zone, b).value
  }

  lemma OneClockTellsApart(resolve: Resolver, first: Start, rule: Option<Recurrence>)
    requires GenuineStart(resolve, first) && (first.local.Some? ==> OneClock(resolve, first.local.value.zone))
    ensures InstancesDiffer(resolve, first, rule)
  {
    if rule.Some? {
      var f := rule.value.frequency;
      forall j: nat, k: nat |
        j < k && Nth(resolve, first, f, j).Done? && Nth(resolve, first, f, k).Done?
        ensures Nth(resolve, first, f, j).value.at != Nth(resolve, first, f, k).value.at
      {
        if first.local.Some? {
          var local := first.local.value.local;
          assert local + Shift(f, j) != local + Shift(f, k) && local + Shift(f, 0) == local;
        }
      }
    }
  }

  /** With real zone files different instances are always different instants. */
  lemma ZonedInstancesDiffer(zones: Directory, first: Start, rule: Option<Recurrence>)
    requires GenuineStart(In(zones), first)
    ensures InstancesDiffer(In(zones), first, rule)
  {
    if first.local.Some? {
      ZonesHaveOneClock(zones, first.local.value.zone);
    }
    OneClockTellsApart(In(zones), first, rule);
  }

  lemma ZonesHaveOneClock(zones: Directory, zone: seq<string>)
    ensures OneClock(In(zones), zone)
  {
    forall a, b | a != b && ResolveLocalTime(zones, zone, a).Ok? && ResolveLocalTime(zones, zone, b).Ok?
      ensures ResolveLocalTime(zones, zone, a).value != ResolveLocalTime(zones, zone, b).value
    {
      OneLocalTime(zones, zone, a, b);
    }
  }

  /** An event in a zone of the directory advances when the zone's clock never falls back by a step. */
  lemma ZonedEventsAdvance(zones: Directory, raw: RawEvent)
    requires raw.start.Some? && raw.start.value.local.Some? && raw.rule.Some?
    requires ZoneAdvances(zones, raw.start.value.local.value.zone, Shift(raw.rule.value.frequency, 1))
    ensures Advances(In(zones), FirstOf(raw.start.value), raw.rule)
  {
    var zone, step := raw.start.value.local.value.zone, Shift(raw.rule.value.frequency, 1);
    forall local, later |
      local + step <= later && ResolveLocalTime(zones, zone, local).Ok? && ResolveLocalTime(zones, zone, later).Ok?
      ensures ResolveLocalTime(zones, zone, local).value < ResolveLocalTime(zones, zone, later).value
    {
      ResolvedInOrder(zones, step, zone, local, later);
    }
  }

  // ---- A zone in which an instance outruns a later one -------------------------------------------

  const LEAPING_FILE := ZoneFile(
    0, None, [DAY / 2, 10 * DAY - 3600, 10 * DAY + 3600], [1, 2, 1],
    [TypeRecord(0, false, 0), TypeRecord(DAY, false, 0), TypeRecord(-9 * DAY, false, 0)],
    [], 0, [], [], [], [])

  const LEAPING := Tzif([DAY / 2, 10 * DAY - 3600, 10 * DAY + 3600], [1, 2, 1], [0, DAY, -9 * DAY], 0)

  lemma FitsInFour(x: int)
    requires -1000000 <= x <= 1000000
    ensures Fits(x, 4)
  {
    assert Pow256(2) == 0x1_0000;
    assert Pow256(4) == 0x1_0000_0000;
  }

  lemma LeapingFileIsWellFormed()
    ensures WellFormed(LEAPING_FILE)
  {
    FitsInFour(DAY / 2);
    FitsInFour(10 * DAY - 3600);
    FitsInFour(10 * DAY + 3600);
    FitsInFour(0);
    FitsInFour(DAY);
    FitsInFour(-9 * DAY);
  }

  /** The zone has a file. */
  lemma LeapingFileParses()
    ensures WellFormed(LEAPING_FILE) && Parsed(Encode(LEAPING_FILE)) == Ok(LEAPING)
  {
    LeapingFileIsWellFormed();
    LeapingFileMeaning();
    ParseInvertsEncode(LEAPING_FILE);
  }

  lemma LeapingFileMeaning()
    ensures Meaning(LEAPING_FILE) == LEAPING
  {
    assert !LEAPING_FILE.types[0].daylight;
    assert Meaning(LEAPING_FILE).offsets == LEAPING.offsets;
  }

  /** Its first three midnights, in order, are the instants 0, ten days and one day. */
  lemma LeapingMidnights()
    ensures Resolve(LEAPING, 0) == Ok(0)
    ensures Resolve(LEAPING, DAY) == Ok(10 * DAY)
    ensures Resolve(LEAPING, 2 * DAY) == Ok(DAY)
  {
    FirstMidnight();
    SecondMidnight();
    ThirdMidnight();
  }

  lemma FirstMidnight()
    ensures Resolve(LEAPING, 0) == Ok(0)
  {
    LeapingOffset(0);
    LeapingOffset(-DAY);
    LeapingOffset(9 * DAY);
    OnlyInstant(LEAPING, 0, 0);
  }

  lemma SecondMidnight()
    ensures Resolve(LEAPING, DAY) == Ok(10 * DAY)
  {
    LeapingOffset(DAY);
    LeapingOffset(0);
    LeapingOffset(10 * DAY);
    OnlyInstant(LEAPING, DAY, 10 * DAY);
  }

  lemma ThirdMidnight()
    ensures Resolve(LEAPING, 2 * DAY) == Ok(DAY)
  {
    LeapingOffset(2 * DAY);
    LeapingOffset(DAY);
    LeapingOffset(11 * DAY);
    OnlyInstant(LEAPING, 2 * DAY, DAY);
  }

  lemma LeapingOffset(u: int)
    ensures OffsetAt(LEAPING, u) ==
            if u < DAY / 2 then 0
            else if u < 10 * DAY - 3600 then DAY
            else if u < 10 * DAY + 3600 then -9 * DAY
            else DAY
  {
    OffsetAtIsScan(LEAPING, u);
    assert ScanBack(LEAPING, u, 1) == if DAY / 2 <= u then DAY else 0;
    assert ScanBack(LEAPING, u, 2) == if 10 * DAY - 3600 <= u then -9 * DAY else ScanBack(LEAPING, u, 1);
    assert ScanBack(LEAPING, u, 3) == if 10 * DAY + 3600 <= u then DAY else ScanBack(LEAPING, u, 2);
  }

  /** Three daily midnights of the zone. */
  const MIDNIGHTS := Recurrence(Daily, Some(3), None)

  /**
    Stopping early is not exact for every zone file: generating the three midnights for a window that
    ends on the fifth day stops at the second one and misses the third, which is on the first day.
   */
  lemma LeapingMidnightIsMissed(zones: Directory, name: seq<string>)
    requires ValidName(name) && name in zones && Parsed(zones[name]) == Ok(LEAPING)
    ensures var first, missed := Start(0, Some(Civil(0, name))), Start(DAY, Some(Civil(2 * DAY, name)));
            && GenuineStart(In(zones), first)
            && FromRule(In(zones), first, Some(MIDNIGHTS), missed)
            && Outruns(In(zones), first, MIDNIGHTS, 1, 2) && !MissesNothing(In(zones), first, MIDNIGHTS)
            && Generated(In(zones), first, MIDNIGHTS, 5 * DAY, [first])
            && Finished(In(zones), first, MIDNIGHTS, 5 * DAY, 1)
            && (forall starts ::
                  Generated(In(zones), first, MIDNIGHTS, 5 * DAY, starts) ==> starts == [first] && missed !in starts)
  {
    var first, missed := Start(0, Some(Civil(0, name))), Start(DAY, Some(Civil(2 * DAY, name)));
    var resolve := In(zones);
    LeapingMidnights();
    assert resolve(name, 0) == Ok(0) && resolve(name, DAY) == Ok(10 * DAY) && resolve(name, 2 * DAY) == Ok(DAY);
    MissedBetween(resolve, name);
    StoppingEarlyMissesNothing(resolve, first, MIDNIGHTS);
  }

  lemma MissedBetween(resolve: Resolver, name: seq<string>)
    requires resolve(name, 0) == Ok(0) && resolve(name, DAY) == Ok(10 * DAY) && resolve(name, 2 * DAY) == Ok(DAY)
    ensures var first, missed := Start(0, Some(Civil(0, name))), Start(DAY, Some(Civil(2 * DAY, name)));
            && FromRule(resolve, first, Some(MIDNIGHTS), missed)
            && Outruns(resolve, first, MIDNIGHTS, 1, 2)
            && Generated(resolve, first, MIDNIGHTS, 5 * DAY, [first])
            && Finished(resolve, first, MIDNIGHTS, 5 * DAY, 1)
            && (forall starts ::
                  Generated(resolve, first, MIDNIGHTS, 5 * DAY, starts) ==> starts == [first] && missed !in starts)
  {
    var first, missed := Start(0, Some(Civil(0, name))), Start(DAY, Some(Civil(2 * DAY, name)));
    assert Instance(resolve, first, Daily, 1) == Done(Start(10 * DAY, Some(Civil(DAY, name))));
    assert Instance(resolve, first, Daily, 2) == Done(missed);
    assert RuleGives(resolve, first, Some(MIDNIGHTS), 2, missed);
    assert Gives(resolve, first, MIDNIGHTS, 0) && Gives(resolve, first, MIDNIGHTS, 2);
    forall starts | Generated(resolve, first, MIDNIGHTS, 5 * DAY, starts) ensures starts == [first] {
      assert RuleGives(resolve, first, Some(MIDNIGHTS), 0, starts[0]);
      assert |starts| > 1 ==> RuleGives(resolve, first, Some(MIDNIGHTS), 1, starts[1]);
    }
  }
}
