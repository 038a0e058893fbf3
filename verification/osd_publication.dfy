/**
  The hub that publishes what is on screen and its subscribers.  A subscriber joins the event channel
  first and takes the latest publication afterwards, so it may meet the same publication twice and
  tells repetitions apart by their sequence.
 */
module OsdPublications {
  import opened Wrappers

  datatype Publication = Publication(sequence: nat, content: int)

  predicate Increasing(s: seq<Publication>) {
    forall i, j :: 0 <= i < j < |s| ==> s[i].sequence < s[j].sequence
  }

  function Last(s: seq<Publication>): Option<Publication> {
    if s == [] then None else Some(s[|s| - 1])
  }

  /** What the hub has accepted once these were offered: each that is above all before it. */
  function Accepting(sent: seq<Publication>, offered: seq<Publication>): seq<Publication> {
    if offered == [] then sent
    else
      var before := Accepting(sent, offered[..|offered| - 1]);
      var p := offered[|offered| - 1];
      if before != [] && p.sequence <= before[|before| - 1].sequence then before else before + [p]
  }

  lemma AcceptingOne(sent: seq<Publication>, offered: seq<Publication>, p: Publication)
    ensures Accepting(sent, offered + [p]) == Accepting(Accepting(sent, offered), [p])
  {
    assert (offered + [p])[..|offered|] == offered;
    assert [p][..0] == [] && Accepting(Accepting(sent, offered), []) == Accepting(sent, offered);
  }

  class Hub {
    const capacity: nat
    var latest: Option<Publication>
    /** What was accepted, of which the channel keeps the last `capacity`. */
    var sent: seq<Publication>

    ghost predicate Valid()
      reads this
    {
      capacity >= 1 && Increasing(sent) && latest == Last(sent)
    }

    constructor (capacity: nat)
      ensures Valid() && sent == [] && this.capacity == (if capacity == 0 then 1 else capacity)
    {
      this.capacity := if capacity == 0 then 1 else capacity;
      latest, sent := None, [];
    }

    /** Only a greater sequence is accepted. */
    method Publish(p: Publication) returns (ok: bool)
      requires Valid()
      modifies this
      ensures Valid()
      ensures ok <==> old(latest).None? || p.sequence > old(latest).value.sequence
      ensures sent == if ok then old(sent) + [p] else old(sent)
      ensures sent == Accepting(old(sent), [p])
    {
      assert [p][..0] == [] && Accepting(sent, []) == sent;
      if latest.Some? && p.sequence <= latest.value.sequence {
        return false;
      }
      IncreasingAppend(sent, p);
      latest := Some(p);
      sent := sent + [p];
      return true;
    }
  }

  lemma IncreasingAppend(s: seq<Publication>, p: Publication)
    requires Increasing(s) && (s == [] || s[|s| - 1].sequence < p.sequence)
    ensures Increasing(s + [p])
  {
  }

  datatype Reply = Lagged | Waiting | Received(publication: Publication)

  /**
    What a subscriber is to receive when `joined` publications preceded its replay: the last of them
    and all later ones.  Without any, a first publication numbered zero is taken for a repetition.
   */
  function Expected(all: seq<Publication>, joined: nat): seq<Publication>
    requires joined <= |all|
  {
    if joined > 0 then all[joined - 1..]
    else if all != [] && all[0].sequence == 0 then all[1..]
    else all
  }

  /**
    A subscriber without a pending replay: the first `heard` publications are dealt with, those between
    `next` and `heard` are repetitions, and unless it lagged it has received what is expected of them.
   */
  ghost predicate Tracks(all: seq<Publication>, joined: nat, last: nat, next: nat, heard: nat, lagged: bool,
                         delivered: seq<Publication>) {
    && joined <= heard <= |all| && next <= heard
    && (forall i :: next <= i < heard ==> all[i].sequence <= last)
    && (if heard > 0 then last <= all[heard - 1].sequence else last == 0)
    && (!lagged ==> delivered == Expected(all[..heard], joined))
  }

  lemma TracksReplay(all: seq<Publication>, next: nat)
    requires Increasing(all) && all != [] && next <= |all|
    ensures var last := all[|all| - 1]; Tracks(all, |all|, last.sequence, next, |all|, false, [last])
  {
    assert all[..|all|] == all;
  }

  lemma TracksMore(all: seq<Publication>, more: seq<Publication>, joined: nat, last: nat, next: nat, heard: nat,
                   lagged: bool, delivered: seq<Publication>)
    requires Tracks(all, joined, last, next, heard, lagged, delivered)
    ensures Tracks(all + more, joined, last, next, heard, lagged, delivered)
  {
    assert (all + more)[..heard] == all[..heard];
  }

  lemma TracksLag(all: seq<Publication>, joined: nat, last: nat, next: nat, heard: nat, lagged: bool,
                  delivered: seq<Publication>, skipped: nat)
    requires Increasing(all) && Tracks(all, joined, last, next, heard, lagged, delivered) && next < skipped <= |all|
    ensures Tracks(all, joined, last, skipped, if skipped > heard then skipped else heard, true, delivered)
  {
    if skipped > heard > 0 {
      assert all[heard - 1].sequence < all[skipped - 1].sequence;
    }
  }

  lemma ExpectedGrows(s: seq<Publication>, p: Publication, joined: nat)
    requires joined <= |s| && p.sequence > 0
    ensures Expected(s + [p], joined) == Expected(s, joined) + [p]
  {
    if joined > 0 {
      assert (s + [p])[joined - 1..] == s[joined - 1..] + [p];
    } else if s == [] {
      assert s + [p] == [p];
    } else {
      assert (s + [p])[1..] == s[1..] + [p];
    }
  }

  /** An event above the last one is the next of the expected ones. */
  lemma TracksNew(all: seq<Publication>, joined: nat, last: nat, next: nat, heard: nat, lagged: bool,
                  delivered: seq<Publication>)
    requires Increasing(all) && Tracks(all, joined, last, next, heard, lagged, delivered)
    requires next < |all| && all[next].sequence > last
    ensures Tracks(all, joined, all[next].sequence, next + 1, next + 1, lagged, delivered + [all[next]])
  {
    assert next == heard;
    ExpectedGrows(all[..next], all[next], joined);
    assert all[..next + 1] == all[..next] + [all[next]];
  }

  /** An event that is not above the last one is a repetition, or numbered zero and the first of all. */
  lemma TracksRepetition(all: seq<Publication>, joined: nat, last: nat, next: nat, heard: nat, lagged: bool,
                         delivered: seq<Publication>)
    requires Increasing(all) && Tracks(all, joined, last, next, heard, lagged, delivered)
    requires next < |all| && all[next].sequence <= last
    ensures Tracks(all, joined, last, next + 1, if next + 1 > heard then next + 1 else heard, lagged, delivered)
  {
    if next == heard {
      assert heard == 0;
    }
  }

  class Subscriber {
    var replay: Option<Publication>
    var last: nat
    /** The position of the next event in the channel. */
    var next: nat

    ghost var joined: nat
    ghost var heard: nat
    ghost var lagged: bool
    ghost var delivered: seq<Publication>

    ghost predicate Follows(all: seq<Publication>)
      reads this
    {
      if replay.Some? then
        && 0 < joined == heard <= |all| && next <= joined
        && replay.value == all[joined - 1] && delivered == [] && last == 0 && !lagged
      else Tracks(all, joined, last, next, heard, lagged, delivered)
    }

    /** Joining the channel comes first. */
    constructor (hub: Hub)
      requires hub.Valid()
      ensures next == |hub.sent| && replay == None && last == 0 && !lagged && delivered == []
    {
      replay, last, next := None, 0, |hub.sent|;
      joined, heard, lagged, delivered := 0, 0, false, [];
    }

    /** Taking the replay comes second; there may have been publications in between. */
    method TakeReplay(hub: Hub)
      requires hub.Valid() && next <= |hub.sent|
      requires replay == None && last == 0 && !lagged && delivered == []
      modifies this
      ensures Follows(hub.sent) && joined == |hub.sent| && next == old(next) && !lagged && delivered == []
    {
      replay := hub.latest;
      joined, heard := |hub.sent|, |hub.sent|;
    }

    /** Later publications leave the subscriber where it is. */
    lemma StillFollows(all: seq<Publication>, more: seq<Publication>)
      requires Follows(all)
      ensures Follows(all + more)
    {
      if replay.None? {
        TracksMore(all, more, joined, last, next, heard, lagged, delivered);
      }
    }

    method TakePending(hub: Hub) returns (publication: Publication)
      requires hub.Valid() && Follows(hub.sent) && replay.Some?
      modifies this
      ensures Follows(hub.sent) && joined == old(joined) && replay.None? && lagged == old(lagged) && next == old(next)
      ensures delivered == old(delivered) + [publication]
    {
      publication := replay.value;
      ghost var known := hub.sent[..joined];
      TracksReplay(known, next);
      assert known + hub.sent[joined..] == hub.sent;
      TracksMore(known, hub.sent[joined..], joined, publication.sequence, next, joined, false, [publication]);
      last, replay := publication.sequence, None;
      delivered := [publication];
    }

    /** The replay first, then every publication that is not a repetition, unless the channel overran. */
    method Recv(hub: Hub) returns (reply: Reply)
      requires hub.Valid() && Follows(hub.sent)
      modifies this
      ensures Follows(hub.sent) && joined == old(joined) && next >= old(next)
      ensures reply.Received? ==> delivered == old(delivered) + [reply.publication] && lagged == old(lagged)
      ensures !reply.Received? ==> delivered == old(delivered)
      ensures reply.Waiting? ==> replay.None? && heard == |hub.sent| && lagged == old(lagged)
      ensures reply.Lagged? <==> old(replay).None? && |hub.sent| - old(next) > hub.capacity
      ensures reply.Lagged? ==> lagged
    {
      if replay.Some? {
        var publication := TakePending(hub);
        return Received(publication);
      }
      if |hub.sent| - next > hub.capacity {
        var skipped := |hub.sent| - hub.capacity;
        TracksLag(hub.sent, joined, last, next, heard, lagged, delivered, skipped);
        next, heard, lagged := skipped, if skipped > heard then skipped else heard, true;
        return Lagged;
      }
      reply := NextNew(hub);
    }

    /** Passes over repetitions to the next new event. */
    method NextNew(hub: Hub) returns (reply: Reply)
      requires hub.Valid() && Follows(hub.sent) && replay.None?
      modifies this
      ensures Follows(hub.sent) && joined == old(joined) && replay.None? && !reply.Lagged? && lagged == old(lagged)
      ensures next >= old(next)
      ensures delivered == if reply.Received? then old(delivered) + [reply.publication] else old(delivered)
      ensures reply.Waiting? ==> heard == |hub.sent|
    {
      var at: nat;
      ghost var dealt: nat;
      at, dealt := SkipRepetitions(hub.sent, last, next, joined, heard, lagged, delivered);
      if at == |hub.sent| {
        next, heard := at, dealt;
        return Waiting;
      }
      var publication := TakeAt(hub.sent, at, dealt);
      reply := Received(publication);
    }

    method TakeAt(all: seq<Publication>, at: nat, ghost dealt: nat) returns (publication: Publication)
      requires Increasing(all) && Tracks(all, joined, last, at, dealt, lagged, delivered) && replay.None?
      requires at < |all| && all[at].sequence > last
      modifies this`last, this`next, this`heard, this`delivered
      ensures Follows(all) && delivered == old(delivered) + [publication] && next == at + 1
    {
      publication := all[at];
      TracksNew(all, joined, last, at, dealt, lagged, delivered);
      last, next := publication.sequence, at + 1;
      heard, delivered := at + 1, delivered + [publication];
    }
  }

  /** The receiving loop: finds the first event above the last one. */
  method SkipRepetitions(all: seq<Publication>, last: nat, next: nat,
                         ghost joined: nat, ghost heard: nat, ghost lagged: bool, ghost delivered: seq<Publication>)
    returns (at: nat, ghost dealt: nat)
    requires Increasing(all) && Tracks(all, joined, last, next, heard, lagged, delivered)
    ensures next <= at <= |all| && (at < |all| ==> all[at].sequence > last)
    ensures forall i :: next <= i < at ==> all[i].sequence <= last
    ensures Tracks(all, joined, last, at, dealt, lagged, delivered) && (at == |all| ==> dealt == |all|)
  {
    at, dealt := next, heard;
    while at < |all| && all[at].sequence <= last
      invariant next <= at <= |all|
      invariant forall i :: next <= i < at ==> all[i].sequence <= last
      invariant Tracks(all, joined, last, at, dealt, lagged, delivered)
    {
      TracksRepetition(all, joined, last, at, dealt, lagged, delivered);
      at, dealt := at + 1, if at + 1 > dealt then at + 1 else dealt;
    }
  }

  // ---- Whole subscriptions -----------------------------------------------------------------------

  datatype Turn = Publishing(publication: Publication) | Receiving

  function Offered(turns: seq<Turn>): seq<Publication> {
    if turns == [] then []
    else
      var before := Offered(turns[..|turns| - 1]);
      var turn := turns[|turns| - 1];
      if turn.Publishing? then before + [turn.publication] else before
  }

  method PublishAll(hub: Hub, publications: seq<Publication>)
    requires hub.Valid()
    modifies hub
    ensures hub.Valid() && old(hub.sent) <= hub.sent == Accepting(old(hub.sent), publications)
  {
    for i := 0 to |publications|
      invariant hub.Valid() && old(hub.sent) <= hub.sent == Accepting(old(hub.sent), publications[..i])
    {
      assert publications[..i + 1] == publications[..i] + [publications[i]];
      AcceptingOne(old(hub.sent), publications[..i], publications[i]);
      var ok := hub.Publish(publications[i]);
    }
    assert publications[..|publications|] == publications;
  }

  /**
    A subscriber that has just taken its replay, among any publications and receptions: unless it lagged,
    what it received once it has caught up is exactly what is expected from there, in strictly
    increasing order; it lags only when more than the capacity was published past its place.
   */
  method Listen(hub: Hub, subscriber: Subscriber, turns: seq<Turn>)
    returns (received: seq<Publication>, caughtUp: bool, lagged: bool)
    requires hub.Valid() && subscriber.Follows(hub.sent) && subscriber.joined == |hub.sent|
    requires !subscriber.lagged && subscriber.delivered == []
    modifies hub, subscriber
    ensures hub.Valid() && old(hub.sent) <= hub.sent == Accepting(old(hub.sent), Offered(turns))
    ensures !lagged && caughtUp ==> received == Expected(hub.sent, old(|hub.sent|))
    ensures !lagged ==> Increasing(received)
    ensures lagged ==> |hub.sent| - old(subscriber.next) > hub.capacity
  {
    received, caughtUp, lagged := [], false, false;
    ghost var start, joined, place := hub.sent, |hub.sent|, subscriber.next;
    for i := 0 to |turns|
      invariant start <= hub.sent == Accepting(start, Offered(turns[..i]))
      invariant Heard(hub, subscriber, joined, place, received, caughtUp, lagged)
    {
      OfferedStep(start, turns, i);
      received, caughtUp, lagged := ListenOnce(hub, subscriber, turns[i], joined, place, received, caughtUp, lagged);
    }
    assert turns[..|turns|] == turns;
    if !lagged {
      FollowedToTheEnd(subscriber, hub.sent, joined);
    }
  }

  /** What is known between two turns. */
  ghost predicate Heard(hub: Hub, subscriber: Subscriber, joined: nat, place: nat,
                        received: seq<Publication>, caughtUp: bool, lagged: bool)
    reads hub, subscriber
  {
    && hub.Valid() && subscriber.Follows(hub.sent)
    && subscriber.joined == joined && subscriber.next >= place && received == subscriber.delivered
    && (if lagged then |hub.sent| - place > hub.capacity else !subscriber.lagged)
    && (caughtUp ==> subscriber.replay.None? && subscriber.heard == |hub.sent|)
  }

  method ListenOnce(hub: Hub, subscriber: Subscriber, turn: Turn, ghost joined: nat, ghost place: nat,
                    before: seq<Publication>, wasUp: bool, hadLagged: bool)
    returns (received: seq<Publication>, caughtUp: bool, lagged: bool)
    requires Heard(hub, subscriber, joined, place, before, wasUp, hadLagged)
    modifies hub, subscriber
    ensures Heard(hub, subscriber, joined, place, received, caughtUp, lagged)
    ensures old(hub.sent) <= hub.sent
    ensures hub.sent == if turn.Publishing? then Accepting(old(hub.sent), [turn.publication]) else old(hub.sent)
  {
    received, caughtUp, lagged := before, wasUp, hadLagged;
    match turn
    case Publishing(p) =>
      var ok := PublishBeside(hub, subscriber, p);
      caughtUp := caughtUp && !ok;
    case Receiving =>
      var reply := subscriber.Recv(hub);
      match reply {
        case Received(p) => received, caughtUp := received + [p], false;
        case Waiting => caughtUp := true;
        case Lagged => lagged, caughtUp := true, false;
      }
  }

  lemma OfferedStep(start: seq<Publication>, turns: seq<Turn>, i: nat)
    requires i < |turns|
    ensures var before := Accepting(start, Offered(turns[..i]));
            Accepting(start, Offered(turns[..i + 1]))
            == if turns[i].Publishing? then Accepting(before, [turns[i].publication]) else before
  {
    assert turns[..i + 1][..i] == turns[..i];
    if turns[i].Publishing? {
      AcceptingOne(start, Offered(turns[..i]), turns[i].publication);
    }
  }

  /** Publishes while a subscriber is listening; that leaves it where it is. */
  method PublishBeside(hub: Hub, subscriber: Subscriber, p: Publication) returns (ok: bool)
    requires hub.Valid() && subscriber.Follows(hub.sent)
    modifies hub
    ensures hub.Valid() && subscriber.Follows(hub.sent)
    ensures old(hub.sent) <= hub.sent == Accepting(old(hub.sent), [p])
    ensures !ok ==> hub.sent == old(hub.sent)
  {
    ghost var all := hub.sent;
    ok := hub.Publish(p);
    if ok {
      subscriber.StillFollows(all, [p]);
    }
  }

  lemma FollowedToTheEnd(subscriber: Subscriber, all: seq<Publication>, joined: nat)
    requires subscriber.Follows(all) && Increasing(all) && subscriber.joined == joined && !subscriber.lagged
    ensures Increasing(subscriber.delivered)
    ensures subscriber.replay.None? && subscriber.heard == |all| ==> subscriber.delivered == Expected(all, joined)
  {
    assert all[..|all|] == all;
    ExpectedIncreases(all, subscriber.heard, joined);
  }

  /**
    A subscription among any publications: `before` it joins the channel, `between` joining and taking
    the replay, and afterwards.  Unless it lagged, it receives the latest of those that preceded its
    replay and all later ones.
   */
  method Session(hub: Hub, before: seq<Publication>, between: seq<Publication>, turns: seq<Turn>)
    returns (received: seq<Publication>, caughtUp: bool, lagged: bool)
    requires hub.Valid()
    modifies hub
    ensures var preceding := Accepting(Accepting(old(hub.sent), before), between);
            && hub.Valid() && preceding <= hub.sent == Accepting(preceding, Offered(turns))
            && (!lagged && caughtUp ==> received == Expected(hub.sent, |preceding|))
            && (lagged ==> |hub.sent| - |Accepting(old(hub.sent), before)| > hub.capacity)
    ensures !lagged ==> Increasing(received)
  {
    PublishAll(hub, before);
    var subscriber := new Subscriber(hub);
    PublishAll(hub, between);
    subscriber.TakeReplay(hub);
    received, caughtUp, lagged := Listen(hub, subscriber, turns);
  }

  /** A first publication numbered zero passes a subscriber that joined before it. */
  method ZeroNeverArrives(hub: Hub, content: int) returns (reply: Reply)
    requires hub.Valid() && hub.sent == []
    modifies hub
    ensures hub.sent == [Publication(0, content)] && reply == Waiting
  {
    var subscriber := new Subscriber(hub);
    subscriber.TakeReplay(hub);
    var ok := hub.Publish(Publication(0, content));
    subscriber.StillFollows([], [Publication(0, content)]);
    reply := subscriber.Recv(hub);
  }

  lemma ExpectedIncreases(all: seq<Publication>, heard: nat, joined: nat)
    requires Increasing(all) && joined <= heard <= |all|
    ensures Increasing(Expected(all[..heard], joined))
  {
  }

  /** Nothing later is kept from a subscriber, except a first publication numbered zero. */
  lemma AllLaterOnesAreExpected(all: seq<Publication>, joined: nat)
    requires Increasing(all) && joined <= |all|
    ensures (forall i :: joined <= i < |all| ==> all[i] in Expected(all, joined))
            <==> !(joined == 0 && all != [] && all[0].sequence == 0)
  {
    if joined > 0 {
      forall i | joined <= i < |all| ensures all[i] in Expected(all, joined) {
        assert Expected(all, joined)[i - (joined - 1)] == all[i];
      }
    } else if all != [] && all[0].sequence == 0 {
      assert all[0] !in all[1..];
    }
  }
}
