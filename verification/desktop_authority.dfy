/**
  The desktop state authority: every publication stages one domain, assembles the whole snapshot,
  takes the next generation and, under one lock, replaces the replay snapshot and sends the
  increment.  A subscriber starts from the replay snapshot and then receives increments.
 */
module DesktopAuthority {
  import opened Wrappers
  import opened DesktopSnapshot

  const U64_LIMIT: nat := 0x1_0000_0000_0000_0000

  datatype Cause = RequestCause(requestId: string) | ProducerCause | ReplayCause

  datatype Event<S, U> = FullSnapshot(snapshot: S) | Domain(update: U) | CommandResult(requestId: string)

  datatype Envelope<S, U> = Envelope(generation: nat, cause: Cause, event: Event<S, U>)

  /** How snapshots are assembled, cut into updates and put together again by a subscriber. */
  datatype Assembler<!S, !U> = Assembler(
    assemble: States -> Option<S>, update: (DomainId, S) -> U, apply: (S, U) -> S)

  /** The law an assembler owes: the update of a replaced domain turns the old snapshot into the new one. */
  ghost predicate Lawful<S(!new), U(!new)>(t: Assembler<S, U>) {
    forall states, state: DomainState ::
      t.assemble(states).Some? && t.assemble(states[state.domain := state]).Some? ==>
        var staged := t.assemble(states[state.domain := state]).value;
        t.apply(t.assemble(states).value, t.update(state.domain, staged)) == staged
  }

  datatype Authority<S, U> = Authority(
    states: Option<States>, generation: nat, latest: Option<Envelope<S, U>>, events: seq<Envelope<S, U>>,
    revisions: map<DomainId, nat>)

  /** An update of one domain; a versioned one carries the revision current when its observation began. */
  datatype DomainChange = DomainChange(state: DomainState, revision: Option<nat>)

  /** The state that stands in for a producer whose value breaks the contract. */
  function ContractInvalid(domain: DomainId): DomainState {
    DomainState(domain, Parse, None, Some("producer.contract-invalid"))
  }

  /** The state to store for an update: the given one, or the terminal one if it cannot be assembled. */
  function StagedState<S, U>(t: Assembler<S, U>, states: States, state: DomainState): Option<DomainState> {
    if t.assemble(states[state.domain := state]).Some? then Some(state)
    else if t.assemble(states[state.domain := ContractInvalid(state.domain)]).Some?
    then Some(ContractInvalid(state.domain))
    else None
  }

  function RevisionOf<S, U>(a: Authority<S, U>, domain: DomainId): nat {
    if domain in a.revisions then a.revisions[domain] else 0
  }

  /** The revision counter is an unsigned 64-bit integer that wraps. */
  function NextRevision(revision: nat): nat {
    if revision + 1 == U64_LIMIT then 0 else revision + 1
  }

  predicate IsStale<S, U>(a: Authority<S, U>, change: DomainChange) {
    change.revision.Some? && change.revision.value != RevisionOf(a, change.state.domain)
  }

  /** A publication that is discarded, refused or cancelled leaves the authority as it is. */
  predicate Publishes<S, U>(t: Assembler<S, U>, a: Authority<S, U>, change: DomainChange, goesThrough: bool) {
    && a.states.Some? && !IsStale(a, change) && goesThrough
    && StagedState(t, a.states.value, change.state).Some?
  }

  function AfterDomain<S, U>(
    t: Assembler<S, U>, a: Authority<S, U>, change: DomainChange, cause: Cause, generation: nat, goesThrough: bool)
    : Authority<S, U>
  {
    if !Publishes(t, a, change, goesThrough) then a
    else
      var d := change.state.domain;
      var staged := a.states.value[d := StagedState(t, a.states.value, change.state).value];
      var snapshot := t.assemble(staged).value;
      Authority(
        Some(staged), generation,
        Some(Envelope(generation, ReplayCause, FullSnapshot(snapshot))),
        a.events + [Envelope(generation, cause, Domain(t.update(d, snapshot)))],
        if cause.RequestCause? then a.revisions[d := NextRevision(RevisionOf(a, d))] else a.revisions)
  }

  function AfterResult<S, U>(t: Assembler<S, U>, a: Authority<S, U>, requestId: string, generation: nat,
                             goesThrough: bool)
    : Authority<S, U>
  {
    if !goesThrough || a.states.None? || t.assemble(a.states.value).None? then a
    else
      a.(generation := generation,
         latest := Some(Envelope(generation, ReplayCause, FullSnapshot(t.assemble(a.states.value).value))),
         events := a.events + [Envelope(generation, RequestCause(requestId), CommandResult(requestId))])
  }

  datatype Operation =
    | PublishDomain(change: DomainChange, cause: Cause, generation: nat, goesThrough: bool)
    | PublishResult(requestId: string, generation: nat, goesThrough: bool)

  function After<S, U>(t: Assembler<S, U>, a: Authority<S, U>, op: Operation): Authority<S, U> {
    match op
    case PublishDomain(change, cause, generation, goesThrough) =>
      AfterDomain(t, a, change, cause, generation, goesThrough)
    case PublishResult(requestId, generation, goesThrough) =>
      AfterResult(t, a, requestId, generation, goesThrough)
  }

  function AfterAll<S, U>(t: Assembler<S, U>, a: Authority<S, U>, ops: seq<Operation>): Authority<S, U> {
    if ops == [] then a
    else After(t, AfterAll(t, a, ops[..|ops| - 1]), ops[|ops| - 1])
  }

  /** The allocator's promise: each number is above all earlier ones. */
  ghost predicate Increasing(ops: seq<Operation>, floor: nat) {
    && (forall i :: 0 <= i < |ops| ==> ops[i].generation > floor)
    && (forall i, j :: 0 <= i < j < |ops| ==> ops[i].generation < ops[j].generation)
  }

  /**
    What a publication leaves and sends: the update itself when its snapshot can be assembled, else the
    terminal parse state in its place, nothing only when neither can or the update is out of date.
   */
  lemma PublicationIsNeverLost<S, U>(t: Assembler<S, U>, a: Authority<S, U>, change: DomainChange, cause: Cause,
                                     generation: nat)
    requires a.states.Some? && !IsStale(a, change)
    ensures var b := AfterDomain(t, a, change, cause, generation, true);
            var d := change.state.domain;
            var given := a.states.value[d := change.state];
            var invalid := a.states.value[d := DomainState(d, Parse, None, Some("producer.contract-invalid"))];
            && (t.assemble(given).None? && t.assemble(invalid).None? ==> b == a)
            && (t.assemble(given).Some? || t.assemble(invalid).Some? ==>
                  && b.states == Some(if t.assemble(given).Some? then given else invalid)
                  && t.assemble(b.states.value).Some?
                  && b.generation == generation && |b.events| == |a.events| + 1
                  && var snapshot := t.assemble(b.states.value).value;
                     && b.latest == Some(Envelope(generation, ReplayCause, FullSnapshot(snapshot)))
                     && b.events[|a.events|] == Envelope(generation, cause, Domain(t.update(d, snapshot))))
  {
    var d := change.state.domain;
    assert a.states.value[d := ContractInvalid(d)]
        == a.states.value[d := DomainState(d, Parse, None, Some("producer.contract-invalid"))];
  }

  /** The result of a command is sent under its own request, with the snapshot as it is. */
  lemma ResultIsSent<S, U>(t: Assembler<S, U>, a: Authority<S, U>, requestId: string, generation: nat)
    requires a.states.Some? && t.assemble(a.states.value).Some?
    ensures var b := AfterResult(t, a, requestId, generation, true);
            && b.states == a.states && b.revisions == a.revisions && b.generation == generation
            && b.events == a.events + [Envelope(generation, RequestCause(requestId), CommandResult(requestId))]
            && b.latest == Some(Envelope(generation, ReplayCause, FullSnapshot(t.assemble(a.states.value).value)))
  {
  }

  // ---------------------------------------------------------------- what a subscriber computes

  /** Applies the increments of a stretch of events, in order. */
  function Fold<S, U>(t: Assembler<S, U>, snapshot: S, events: seq<Envelope<S, U>>): S {
    if events == [] then snapshot
    else
      var last := events[|events| - 1].event;
      var before := Fold(t, snapshot, events[..|events| - 1]);
      if last.Domain? then t.apply(before, last.update) else before
  }

  ghost predicate Initialized<S, U>(t: Assembler<S, U>, a: Authority<S, U>) {
    && a.states.Some? && t.assemble(a.states.value).Some?
    && a.latest == Some(Envelope(a.generation, ReplayCause, FullSnapshot(t.assemble(a.states.value).value)))
  }

  predicate Ordered<S, U>(events: seq<Envelope<S, U>>) {
    forall i, j :: 0 <= i < j < |events| ==> events[i].generation < events[j].generation
  }

  ghost predicate Inv<S, U>(t: Assembler<S, U>, a: Authority<S, U>) {
    && Initialized(t, a) && Ordered(a.events)
    && (forall i :: 0 <= i < |a.events| ==> a.events[i].generation <= a.generation)
  }

  /** One operation keeps the replay snapshot in step with the increments already sent. */
  lemma StepInStep<S(!new), U(!new)>(t: Assembler<S, U>, a: Authority<S, U>, op: Operation)
    requires Lawful(t) && Inv(t, a) && op.generation > a.generation
    ensures var b := After(t, a, op);
            && Inv(t, b) && a.generation <= b.generation <= op.generation
            && |a.events| <= |b.events| <= |a.events| + 1 && b.events[..|a.events|] == a.events
            && (b != a ==> |b.events| == |a.events| + 1
                           && a.generation < b.events[|a.events|].generation == b.generation == op.generation)
            && Fold(t, a.latest.value.event.snapshot, b.events[|a.events|..]) == b.latest.value.event.snapshot
  {
    var b := After(t, a, op);
    if b == a {
      assert b.events[|a.events|..] == [];
    } else {
      var e := b.events[|a.events|];
      assert b.events[|a.events|..] == [e] && [e][..0] == [];
      assert Fold(t, a.latest.value.event.snapshot, []) == a.latest.value.event.snapshot;
      match op
      case PublishResult(_, _, _) =>
      case PublishDomain(change, _, _, _) =>
        var staged := StagedState(t, a.states.value, change.state).value;
        assert staged.domain == change.state.domain && t.assemble(a.states.value[staged.domain := staged]).Some?;
    }
  }

  lemma {:induction false} FoldConcat<S, U>(t: Assembler<S, U>, snapshot: S, a: seq<Envelope<S, U>>,
                                            b: seq<Envelope<S, U>>)
    ensures Fold(t, snapshot, a + b) == Fold(t, Fold(t, snapshot, a), b)
  {
    if b == [] {
      assert a + b == a;
    } else {
      FoldConcat(t, snapshot, a, b[..|b| - 1]);
      assert (a + b)[..|a + b| - 1] == a + b[..|b| - 1];
    }
  }

  /** From `a` to `b` only envelopes were added, and they turn the one's snapshot into the other's. */
  ghost predicate Follows<S(!new), U(!new)>(t: Assembler<S, U>, a: Authority<S, U>, b: Authority<S, U>)
    requires Inv(t, a) && Inv(t, b)
  {
    && a.generation <= b.generation
    && |a.events| <= |b.events| && b.events[..|a.events|] == a.events
    && Fold(t, a.latest.value.event.snapshot, b.events[|a.events|..]) == b.latest.value.event.snapshot
    && (forall i :: |a.events| <= i < |b.events| ==> b.events[i].generation > a.generation)
  }

  lemma FollowsOne<S(!new), U(!new)>(t: Assembler<S, U>, a: Authority<S, U>, op: Operation)
    requires Lawful(t) && Inv(t, a) && op.generation > a.generation
    ensures var b := After(t, a, op);
            Inv(t, b) && Follows(t, a, b) && b.generation <= op.generation
  {
    StepInStep(t, a, op);
  }

  lemma FollowsFurther<S(!new), U(!new)>(t: Assembler<S, U>, a: Authority<S, U>, b: Authority<S, U>, c: Authority<S, U>)
    requires Inv(t, a) && Inv(t, b) && Inv(t, c) && Follows(t, a, b) && Follows(t, b, c)
    ensures Follows(t, a, c)
  {
    var n := |a.events|;
    assert c.events[..n] == c.events[..|b.events|][..n];
    assert c.events == b.events + c.events[|b.events|..];
    assert c.events[n..] == b.events[n..] + c.events[|b.events|..];
    FoldConcat(t, a.latest.value.event.snapshot, b.events[n..], c.events[|b.events|..]);
    forall i | n <= i < |c.events| ensures c.events[i].generation > a.generation {
      if i < |b.events| {
        assert c.events[i] == b.events[i];
      }
    }
  }

  /**
    Replay plus deltas equals state: from any subscription point, whatever is published afterwards,
    applying the later increments in order to the replay snapshot gives the authority's snapshot, and
    the generations a subscriber sees keep growing.
   */
  lemma {:induction false} ReplayPlusDeltas<S(!new), U(!new)>(t: Assembler<S, U>, a: Authority<S, U>,
                                                              ops: seq<Operation>)
    requires Lawful(t) && Inv(t, a) && Increasing(ops, a.generation)
    ensures var b := AfterAll(t, a, ops);
            && Inv(t, b) && a.generation <= b.generation
            && (ops != [] ==> b.generation <= ops[|ops| - 1].generation)
            && |a.events| <= |b.events| && b.events[..|a.events|] == a.events
            && Fold(t, a.latest.value.event.snapshot, b.events[|a.events|..]) == b.latest.value.event.snapshot
            && (forall i :: |a.events| <= i < |b.events| ==> b.events[i].generation > a.latest.value.generation)
  {
    if ops == [] {
      assert a.events[|a.events|..] == [];
    } else {
      var n := |ops| - 1;
      ReplayPlusDeltas(t, a, ops[..n]);
      var mid := AfterAll(t, a, ops[..n]);
      assert n > 0 ==> mid.generation <= ops[..n][n - 1].generation < ops[n].generation;
      FollowsOne(t, mid, ops[n]);
      FollowsFurther(t, a, mid, After(t, mid, ops[n]));
    }
  }

  // ---------------------------------------------------------------- stale observations

  /** The operation publishes a request-caused update of the domain. */
  predicate IsRequestUpdate<S, U>(t: Assembler<S, U>, a: Authority<S, U>, op: Operation, domain: DomainId) {
    && op.PublishDomain? && op.cause.RequestCause? && op.change.state.domain == domain
    && Publishes(t, a, op.change, op.goesThrough)
  }

  /** How many request-caused updates of a domain a stretch of operations publishes. */
  function RequestUpdates<S, U>(t: Assembler<S, U>, a: Authority<S, U>, ops: seq<Operation>, domain: DomainId): nat {
    if ops == [] then 0
    else
      var n := |ops| - 1;
      RequestUpdates(t, a, ops[..n], domain)
      + (if IsRequestUpdate(t, AfterAll(t, a, ops[..n]), ops[n], domain) then 1 else 0)
  }

  /** The counter after `count` increments. */
  function Revised(revision: nat, count: nat): nat {
    if count == 0 then revision else NextRevision(Revised(revision, count - 1))
  }

  lemma RevisionStep<S, U>(t: Assembler<S, U>, a: Authority<S, U>, op: Operation, domain: DomainId)
    ensures RevisionOf(After(t, a, op), domain) ==
            if IsRequestUpdate(t, a, op, domain) then NextRevision(RevisionOf(a, domain))
            else RevisionOf(a, domain)
  {
  }

  lemma {:induction false} RevisionCountsRequests<S, U>(
    t: Assembler<S, U>, a: Authority<S, U>, ops: seq<Operation>, domain: DomainId)
    ensures RevisionOf(AfterAll(t, a, ops), domain)
            == Revised(RevisionOf(a, domain), RequestUpdates(t, a, ops, domain))
  {
    if ops != [] {
      var n := |ops| - 1;
      RevisionCountsRequests(t, a, ops[..n], domain);
      RevisionStep(t, AfterAll(t, a, ops[..n]), ops[n], domain);
    }
  }

  lemma {:induction false} RevisedWraps(revision: nat, count: nat)
    requires revision < U64_LIMIT
    ensures Revised(revision, count) == (revision + count) % U64_LIMIT
  {
    if count > 0 {
      RevisedWraps(revision, count - 1);
      WrapNext(revision + count - 1);
    }
  }

  lemma WrapNext(r: nat)
    ensures NextRevision(r % U64_LIMIT) == (r + 1) % U64_LIMIT
  {
    var q := r / U64_LIMIT;
    assert r == q * U64_LIMIT + r % U64_LIMIT;
    if r % U64_LIMIT + 1 == U64_LIMIT {
      assert r + 1 == (q + 1) * U64_LIMIT;
      WrapMultiple(q + 1, 0);
    } else {
      WrapMultiple(q, r % U64_LIMIT + 1);
    }
  }

  lemma WrapMultiple(q: nat, s: nat)
    requires s < U64_LIMIT
    ensures (q * U64_LIMIT + s) % U64_LIMIT == s
  {
  }

  /** The counter is back where it was exactly after a multiple of its range. */
  lemma RevisedReturns(revision: nat, count: nat)
    requires revision < U64_LIMIT
    ensures Revised(revision, count) == revision <==> count % U64_LIMIT == 0
  {
    RevisedWraps(revision, count);
    WrapIsIdentityOnlyForMultiples(revision, count);
  }

  lemma StaleIsDiscarded<S, U>(
    t: Assembler<S, U>, a: Authority<S, U>, change: DomainChange, cause: Cause, generation: nat, goesThrough: bool)
    requires IsStale(a, change)
    ensures AfterDomain(t, a, change, cause, generation, goesThrough) == a
  {
  }

  /** An observation that began at `a`, offered after `ops`. */
  function Observation<S, U>(a: Authority<S, U>, state: DomainState): DomainChange {
    DomainChange(state, Some(RevisionOf(a, state.domain)))
  }

  /**
    The revision check discards an observation exactly when the number of request-caused updates of
    its domain since it began is not a multiple of the counter's range.
   */
  lemma ObservationGoesStale<S, U>(t: Assembler<S, U>, a: Authority<S, U>, ops: seq<Operation>, state: DomainState)
    requires RevisionOf(a, state.domain) < U64_LIMIT
    ensures IsStale(AfterAll(t, a, ops), Observation(a, state))
            <==> RequestUpdates(t, a, ops, state.domain) % U64_LIMIT != 0
  {
    RevisionCountsRequests(t, a, ops, state.domain);
    RevisedReturns(RevisionOf(a, state.domain), RequestUpdates(t, a, ops, state.domain));
    StaleMeansMoved(AfterAll(t, a, ops), state, RevisionOf(a, state.domain));
  }

  lemma StaleMeansMoved<S, U>(b: Authority<S, U>, state: DomainState, revision: nat)
    ensures IsStale(b, DomainChange(state, Some(revision))) <==> RevisionOf(b, state.domain) != revision
  {
  }

  /**
    No stale overwrite: once a request-caused update of a domain is published, and before the counter
    wraps, no observation of the domain that began earlier is published, whatever came in between.
   */
  lemma NoStaleOverwrite<S, U>(
    t: Assembler<S, U>, a: Authority<S, U>, ops: seq<Operation>, state: DomainState,
    cause: Cause, generation: nat, goesThrough: bool)
    requires RevisionOf(a, state.domain) < U64_LIMIT
    requires 0 < RequestUpdates(t, a, ops, state.domain) < U64_LIMIT
    ensures var b := AfterAll(t, a, ops);
            AfterDomain(t, b, Observation(a, state), cause, generation, goesThrough) == b
  {
    ObservationGoesStale(t, a, ops, state);
    WrapIsIdentityOnlyForMultiples(0, RequestUpdates(t, a, ops, state.domain));
    StaleIsDiscarded(t, AfterAll(t, a, ops), Observation(a, state), cause, generation, goesThrough);
  }

  /** Requests that publish a domain's current state again, `n` times. */
  function Republications(state: DomainState, requestId: string, floor: nat, n: nat): (ops: seq<Operation>)
    ensures |ops| == n
  {
    seq(n, i requires 0 <= i < n =>
      PublishDomain(DomainChange(state, None), RequestCause(requestId), floor + 1 + i, true))
  }

  lemma {:induction false} RepublicationsCount<S, U>(
    t: Assembler<S, U>, a: Authority<S, U>, state: DomainState, requestId: string, n: nat)
    requires Initialized(t, a) && state.domain in a.states.value && a.states.value[state.domain] == state
    ensures var ops := Republications(state, requestId, a.generation, n);
            && Initialized(t, AfterAll(t, a, ops)) && AfterAll(t, a, ops).states == a.states
            && RequestUpdates(t, a, ops, state.domain) == n
  {
    if n > 0 {
      var ops := Republications(state, requestId, a.generation, n);
      assert ops[..n - 1] == Republications(state, requestId, a.generation, n - 1);
      RepublicationsCount(t, a, state, requestId, n - 1);
      var states := a.states.value;
      assert states[state.domain := state] == states;
    }
  }

  /**
    The wrap is real: in every initialized authority, after as many request-caused updates of a domain
    as the counter has values, an observation that began before all of them is published after all.
   */
  lemma WrapLetsStaleThrough<S, U>(
    t: Assembler<S, U>, a: Authority<S, U>, state: DomainState, observed: DomainState, requestId: string,
    cause: Cause, generation: nat)
    requires Initialized(t, a) && state.domain in a.states.value && a.states.value[state.domain] == state
    requires RevisionOf(a, state.domain) < U64_LIMIT
    requires observed.domain == state.domain && t.assemble(a.states.value[state.domain := observed]).Some?
    ensures var ops := Republications(state, requestId, a.generation, U64_LIMIT);
            var b := AfterAll(t, a, ops);
            && Increasing(ops, a.generation) && RequestUpdates(t, a, ops, state.domain) == U64_LIMIT
            && AfterDomain(t, b, Observation(a, observed), cause, generation, true).states
               == Some(a.states.value[state.domain := observed])
  {
    var ops := Republications(state, requestId, a.generation, U64_LIMIT);
    RepublicationsCount(t, a, state, requestId, U64_LIMIT);
    ObservationGoesStale(t, a, ops, observed);
  }

  lemma WrapIsIdentityOnlyForMultiples(r: nat, n: nat)
    requires r < U64_LIMIT
    ensures (r + n) % U64_LIMIT == r <==> n % U64_LIMIT == 0
    ensures 0 < n < U64_LIMIT ==> n % U64_LIMIT != 0
  {
    var q, s := n / U64_LIMIT, n % U64_LIMIT;
    assert n == q * U64_LIMIT + s;
    if r + s < U64_LIMIT {
      assert r + n == q * U64_LIMIT + (r + s);
      WrapMultiple(q, r + s);
    } else {
      assert r + n == (q + 1) * U64_LIMIT + (r + s - U64_LIMIT);
      WrapMultiple(q + 1, r + s - U64_LIMIT);
    }
  }

  // ---------------------------------------------------------------- the authority and its subscribers

  class DesktopStateAuthority<S(!new), U(!new)> {
    const t: Assembler<S, U>
    const capacity: nat

    var states: Option<States>
    var generation: nat
    var latest: Option<Envelope<S, U>>
    /** Everything ever sent; the channel retains the last `capacity` events. */
    var events: seq<Envelope<S, U>>
    var revisions: map<DomainId, nat>

    ghost function State(): Authority<S, U>
      reads this
    {
      Authority(states, generation, latest, events, revisions)
    }

    /** After initialization: the first snapshot is in place and nothing has been sent. */
    constructor (t: Assembler<S, U>, capacity: nat, initial: States, generation: nat)
      requires capacity > 0 && t.assemble(initial).Some?
      ensures Inv(t, State()) && this.t == t && this.capacity == capacity && events == []
      ensures this.generation == generation
    {
      this.t, this.capacity := t, capacity;
      states := Some(initial);
      this.generation := generation;
      latest := Some(Envelope(generation, ReplayCause, FullSnapshot(t.assemble(initial).value)));
      events := [];
      revisions := map[];
    }

    method PublishDomainChange(change: DomainChange, cause: Cause, next: nat, goesThrough: bool)
      modifies this
      ensures State() == AfterDomain(t, old(State()), change, cause, next, goesThrough)
    {
      if states.None? || !goesThrough {
        return;
      }
      var domain := change.state.domain;
      var revision := if domain in revisions then revisions[domain] else 0;
      if change.revision.Some? && change.revision.value != revision {
        return;
      }
      var staged := states.value[domain := change.state];
      var snapshot := t.assemble(staged);
      if snapshot.None? {
        staged := states.value[domain := ContractInvalid(domain)];
        snapshot := t.assemble(staged);
        if snapshot.None? {
          return;
        }
      }
      if cause.RequestCause? {
        revisions := revisions[domain := NextRevision(revision)];
      }
      states := Some(staged);
      latest := Some(Envelope(next, ReplayCause, FullSnapshot(snapshot.value)));
      generation := next;
      events := events + [Envelope(next, cause, Domain(t.update(domain, snapshot.value)))];
    }

    method PublishCommandResult(requestId: string, next: nat, goesThrough: bool)
      modifies this
      ensures State() == AfterResult(t, old(State()), requestId, next, goesThrough)
    {
      if states.None? || !goesThrough {
        return;
      }
      var snapshot := t.assemble(states.value);
      if snapshot.None? {
        return;
      }
      latest := Some(Envelope(next, ReplayCause, FullSnapshot(snapshot.value)));
      generation := next;
      events := events + [Envelope(next, RequestCause(requestId), CommandResult(requestId))];
    }

    method Perform(op: Operation)
      modifies this
      ensures State() == After(t, old(State()), op) && old(events) <= events
    {
      match op
      case PublishDomain(change, cause, next, goesThrough) =>
        PublishDomainChange(change, cause, next, goesThrough);
      case PublishResult(requestId, next, goesThrough) =>
        PublishCommandResult(requestId, next, goesThrough);
    }
  }

  datatype Received<S, U> = Got(event: Envelope<S, U>) | Lagged | Nothing

  class DesktopSubscriber<S(!new), U(!new)> {
    var replay: Option<Envelope<S, U>>
    var position: nat
    var lagged: bool
    /** Where the subscription started, and what has been received since. */
    ghost const start: nat
    ghost var received: seq<Envelope<S, U>>

    /** Subscribing takes the replay snapshot and the channel position under the authority's lock. */
    constructor (authority: DesktopStateAuthority<S, U>)
      requires authority.latest.Some?
      ensures replay == authority.latest && position == start == |authority.events|
      ensures received == [] && !lagged
    {
      replay := authority.latest;
      position, start := |authority.events|, |authority.events|;
      received := [];
      lagged := false;
    }

    ghost predicate InOrder(events: seq<Envelope<S, U>>)
      reads this
    {
      start <= position <= |events| && (!lagged ==> received == events[start..position])
    }

    /** Replay first, then the next event, unless more than `capacity` events are waiting. */
    method Recv(authority: DesktopStateAuthority<S, U>) returns (r: Received<S, U>)
      requires InOrder(authority.events)
      modifies this
      ensures InOrder(authority.events)
      ensures old(lagged) ==> lagged
      ensures old(replay).Some? ==>
                r == Got(old(replay).value) && replay.None? && position == old(position) && lagged == old(lagged)
      ensures old(replay).None? ==>
                && replay.None?
                && (r.Lagged? <==> |authority.events| - old(position) > authority.capacity)
                && (r.Lagged? ==> position == |authority.events| - authority.capacity)
                && (r.Got? ==> old(position) < |authority.events|
                               && r.event == authority.events[old(position)] && position == old(position) + 1)
                && (r.Nothing? ==> old(position) == |authority.events| && position == old(position))
                && (!r.Lagged? ==> lagged == old(lagged))
    {
      if replay.Some? {
        r := Got(replay.value);
        replay := None;
        return;
      }
      var events := authority.events;
      if |events| - position > authority.capacity {
        position := |events| - authority.capacity;
        lagged := true;
        return Lagged;
      }
      if position == |events| {
        return Nothing;
      }
      received := received + [events[position]];
      assert events[start..position + 1] == events[start..position] + [events[position]];
      r := Got(events[position]);
      position := position + 1;
    }
  }

  datatype Turn = Publishing(op: Operation) | Receiving

  function Operations(turns: seq<Turn>): seq<Operation> {
    if turns == [] then []
    else
      var before := Operations(turns[..|turns| - 1]);
      var turn := turns[|turns| - 1];
      if turn.Publishing? then before + [turn.op] else before
  }

  /** The allocator's promise for the publications among the turns. */
  ghost predicate TurnsIncrease(turns: seq<Turn>, floor: nat) {
    && (forall i :: 0 <= i < |turns| && turns[i].Publishing? ==> turns[i].op.generation > floor)
    && (forall i, j :: 0 <= i < j < |turns| && turns[i].Publishing? && turns[j].Publishing? ==>
                         turns[i].op.generation < turns[j].op.generation)
  }

  ghost predicate Announces(turns: seq<Turn>, op: Operation) {
    exists i :: 0 <= i < |turns| && turns[i] == Publishing(op)
  }

  lemma {:induction false} OperationsIncrease(turns: seq<Turn>, floor: nat)
    requires TurnsIncrease(turns, floor)
    ensures Increasing(Operations(turns), floor)
    ensures forall op :: op in Operations(turns) ==> Announces(turns, op)
  {
    if turns != [] {
      var n := |turns| - 1;
      OperationsIncrease(turns[..n], floor);
      var before := Operations(turns[..n]);
      forall op | op in before ensures exists i :: 0 <= i < n && turns[i] == Publishing(op) {
        var i :| 0 <= i < n && turns[..n][i] == Publishing(op);
        assert turns[i] == Publishing(op);
      }
      if turns[n].Publishing? {
        IncreasingAppended(before, turns[n].op, floor);
      }
    }
  }

  lemma IncreasingAppended(ops: seq<Operation>, op: Operation, floor: nat)
    requires Increasing(ops, floor) && op.generation > floor
    requires forall other :: other in ops ==> other.generation < op.generation
    ensures Increasing(ops + [op], floor)
  {
    forall i | 0 <= i < |ops| ensures ops[i].generation < op.generation {
      assert ops[i] in ops;
    }
  }

  lemma OneTurnMore<S, U>(t: Assembler<S, U>, a: Authority<S, U>, turns: seq<Turn>, n: nat)
    requires n < |turns|
    ensures var before := AfterAll(t, a, Operations(turns[..n]));
            AfterAll(t, a, Operations(turns[..n + 1]))
            == if turns[n].Publishing? then After(t, before, turns[n].op) else before
  {
    assert turns[..n + 1][..n] == turns[..n];
    var before := Operations(turns[..n]);
    if turns[n].Publishing? {
      assert (before + [turns[n].op])[..|before|] == before;
    }
  }

  /**
    Publications and receptions in any order: a subscriber that has not lagged and has caught up
    holds, after its replay snapshot and the increments, exactly the authority's latest snapshot.
   */
  method Session<S(!new), U(!new)>(authority: DesktopStateAuthority<S, U>, turns: seq<Turn>)
    returns (subscriber: DesktopSubscriber<S, U>, ghost from: Authority<S, U>)
    requires Lawful(authority.t) && Inv(authority.t, authority.State())
    requires TurnsIncrease(turns, authority.generation)
    modifies authority
    ensures from == old(authority.State()) && Inv(authority.t, authority.State())
    ensures authority.State() == AfterAll(authority.t, from, Operations(turns))
    ensures !subscriber.lagged && subscriber.position == |authority.events| ==>
              Fold(authority.t, from.latest.value.event.snapshot, subscriber.received)
              == authority.latest.value.event.snapshot
    ensures !subscriber.lagged ==> Ordered(subscriber.received)
    ensures !subscriber.lagged ==>
              forall i :: 0 <= i < |subscriber.received| ==>
                subscriber.received[i].generation > from.latest.value.generation
  {
    subscriber := new DesktopSubscriber(authority);
    from := authority.State();
    Exchange(authority, subscriber, turns);
    OperationsIncrease(turns, from.generation);
    ReplayPlusDeltas(authority.t, from, Operations(turns));
    ReceivedStretch(authority.t, from, authority.State(), subscriber.position);
  }

  /** The publications and receptions, in their order. */
  method Exchange<S(!new), U(!new)>(authority: DesktopStateAuthority<S, U>, subscriber: DesktopSubscriber<S, U>,
                                    turns: seq<Turn>)
    requires subscriber.InOrder(authority.events)
    modifies authority, subscriber
    ensures authority.State() == AfterAll(authority.t, old(authority.State()), Operations(turns))
    ensures subscriber.InOrder(authority.events)
  {
    ghost var from := authority.State();
    for n := 0 to |turns|
      invariant authority.State() == AfterAll(authority.t, from, Operations(turns[..n]))
      invariant subscriber.InOrder(authority.events)
    {
      OneTurnMore(authority.t, from, turns, n);
      match turns[n]
      case Publishing(op) =>
        authority.Perform(op);
      case Receiving =>
        var r := subscriber.Recv(authority);
    }
    assert turns[..|turns|] == turns;
  }

  /** What holds of the events a subscriber has received in order since it subscribed at `a`. */
  lemma ReceivedStretch<S(!new), U(!new)>(t: Assembler<S, U>, a: Authority<S, U>, b: Authority<S, U>, position: nat)
    requires Inv(t, a) && Inv(t, b) && |a.events| <= position <= |b.events|
    requires Fold(t, a.latest.value.event.snapshot, b.events[|a.events|..]) == b.latest.value.event.snapshot
    requires forall i :: |a.events| <= i < |b.events| ==> b.events[i].generation > a.latest.value.generation
    ensures var received := b.events[|a.events|..position];
            && Ordered(received)
            && (forall i :: 0 <= i < |received| ==> received[i].generation > a.latest.value.generation)
            && (position == |b.events| ==>
                  Fold(t, a.latest.value.event.snapshot, received) == b.latest.value.event.snapshot)
  {
    assert position == |b.events| ==> b.events[|a.events|..position] == b.events[|a.events|..];
  }

  // ---------------------------------------------------------------- the desktop's own assembler

  /** Assembling as the registry does it; the contract stands for the SDK validators and size budgets. */
  function DesktopAssembler(contract: Snapshot -> bool): Assembler<Snapshot, Update> {
    Assembler(
      (states: States) =>
        if Assemblable(states) && contract(Assemble(states)) then Some(Assemble(states)) else None,
      DomainUpdate, ApplyUpdate)
  }

  lemma DesktopAssemblerIsLawful(contract: Snapshot -> bool)
    ensures Lawful(DesktopAssembler(contract))
  {
    var t := DesktopAssembler(contract);
    forall states, state: DomainState
      | t.assemble(states).Some? && t.assemble(states[state.domain := state]).Some?
      ensures var staged := t.assemble(states[state.domain := state]).value;
              t.apply(t.assemble(states).value, t.update(state.domain, staged)) == staged
    {
      OneUpdateSuffices(states, state.domain, state);
    }
  }
}
