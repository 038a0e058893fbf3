/**
  The bounded overview event channel.  A full channel drops its oldest event and remembers how far
  it dropped, so that a reader whose next event is gone is told that it lagged.
 */
module OverviewChannel {
  import opened Wrappers

  datatype Event = Event(sequence: nat, content: int)

  predicate Increasing(s: seq<Event>) {
    && (forall i :: 0 <= i < |s| ==> 0 < s[i].sequence)
    && (forall i, j :: 0 <= i < j < |s| ==> s[i].sequence < s[j].sequence)
  }

  function Latest(s: seq<Event>): nat {
    if s == [] then 0 else s[|s| - 1].sequence
  }

  /** The published events that were new when they arrived: each one is above all before it. */
  function Accepted(published: seq<Event>): seq<Event> {
    if published == [] then []
    else
      var before := Accepted(published[..|published| - 1]);
      var event := published[|published| - 1];
      if event.sequence <= Latest(before) then before else before + [event]
  }

  lemma {:induction false} AcceptedIncreases(published: seq<Event>)
    ensures Increasing(Accepted(published))
  {
    if published != [] {
      AcceptedIncreases(published[..|published| - 1]);
    }
  }

  lemma AcceptedStep(published: seq<Event>, event: Event)
    ensures Accepted(published + [event]) ==
            if event.sequence <= Latest(Accepted(published)) then Accepted(published) else Accepted(published) + [event]
  {
    assert (published + [event])[..|published|] == published;
  }

  /** How many of the events a reader with this cursor is past. */
  function Position(s: seq<Event>, cursor: nat): (r: nat)
    ensures r <= |s|
  {
    if s == [] || s[|s| - 1].sequence <= cursor then |s| else Position(s[..|s| - 1], cursor)
  }

  lemma {:induction false} PositionSplits(s: seq<Event>, cursor: nat)
    requires Increasing(s)
    ensures forall i :: 0 <= i < |s| ==> (i < Position(s, cursor) <==> s[i].sequence <= cursor)
  {
    if s != [] && s[|s| - 1].sequence > cursor {
      PositionSplits(s[..|s| - 1], cursor);
    }
  }

  lemma PositionIs(s: seq<Event>, cursor: nat, p: nat)
    requires Increasing(s) && p <= |s|
    requires p > 0 ==> s[p - 1].sequence <= cursor
    requires p < |s| ==> cursor < s[p].sequence
    ensures Position(s, cursor) == p
  {
    PositionSplits(s, cursor);
  }

  /** A reader that is past all of `a` counts on in `b`; one that is not is nowhere in `b`. */
  lemma {:induction false} PositionInConcat(a: seq<Event>, b: seq<Event>, cursor: nat)
    requires Increasing(a + b)
    ensures Latest(a) <= cursor ==> Position(a + b, cursor) == |a| + Position(b, cursor)
    ensures cursor < Latest(a) ==> Position(a + b, cursor) < |a|
  {
    var s := a + b;
    if b == [] {
      assert s == a;
    } else if b[|b| - 1].sequence <= cursor {
      assert s[|s| - 1] == b[|b| - 1];
      if a != [] {
        assert s[|a| - 1] == a[|a| - 1];
      }
    } else {
      assert s[|s| - 1] == b[|b| - 1] && s[..|s| - 1] == a + b[..|b| - 1];
      PositionInConcat(a, b[..|b| - 1], cursor);
    }
  }

  /** Accepting another event does not move a reader that is no further than the latest one. */
  lemma PositionStays(s: seq<Event>, event: Event, cursor: nat)
    requires Increasing(s + [event]) && Increasing(s) && cursor <= Latest(s)
    ensures Position(s + [event], cursor) == Position(s, cursor)
  {
    var more := s + [event];
    assert more[..|more| - 1] == s;
    assert s != [] ==> more[|s| - 1] == s[|s| - 1];
    assert more[|s|].sequence > cursor;
  }

  class Channel {
    var events: seq<Event>
    const capacity: nat
    var latestSequence: nat
    var droppedThrough: nat
    ghost var published: seq<Event>
    ghost var dropped: seq<Event>

    /** Every accepted event: the dropped ones followed by the retained queue. */
    ghost function History(): seq<Event>
      reads this
    {
      dropped + events
    }

    ghost predicate Valid()
      reads this
    {
      && 1 <= capacity && |events| <= capacity
      && History() == Accepted(published)
      && (dropped != [] ==> events != [])
      && latestSequence == Latest(History())
      && droppedThrough == Latest(dropped)
    }

    /** Events are dropped only to make room. */
    ghost predicate DropsWhenFull()
      reads this
    {
      dropped != [] ==> |events| == capacity
    }

    constructor (capacity: nat)
      ensures Valid() && DropsWhenFull() && fresh(this)
      ensures published == [] && this.capacity == (if capacity == 0 then 1 else capacity)
    {
      this.capacity := if capacity == 0 then 1 else capacity;
      events, latestSequence, droppedThrough := [], 0, 0;
      published, dropped := [], [];
    }

    /** Refuses an event that is not new; otherwise makes room for it by dropping the oldest. */
    method Publish(event: Event)
      requires Valid()
      modifies this
      ensures Valid()
      ensures old(DropsWhenFull()) ==> DropsWhenFull()
      ensures published == old(published) + [event]
      ensures event.sequence <= old(latestSequence) ==> History() == old(History()) && dropped == old(dropped)
      ensures event.sequence > old(latestSequence) ==>
                && History() == old(History()) + [event]
                && dropped == if old(|events|) == capacity then old(dropped) + [old(events)[0]] else old(dropped)
    {
      AcceptedStep(published, event);
      published := published + [event];
      if event.sequence > latestSequence {
        Append(event);
      }
    }

    method Append(event: Event)
      requires 1 <= capacity && |events| <= capacity
      modifies this`events, this`latestSequence, this`droppedThrough, this`dropped
      ensures |events| <= capacity && events != []
      ensures History() == old(History()) + [event] && latestSequence == Latest(History()) == event.sequence
      ensures old(|events|) == capacity ==>
                dropped == old(dropped) + [old(events)[0]] && droppedThrough == Latest(dropped)
      ensures old(|events|) < capacity ==> dropped == old(dropped) && droppedThrough == old(droppedThrough)
      ensures old(DropsWhenFull()) ==> DropsWhenFull()
    {
      OneMore(dropped, events, event);
      if |events| == capacity {
        droppedThrough := events[0].sequence;
        dropped := dropped + [events[0]];
        events := events[1..];
      }
      latestSequence := event.sequence;
      events := events + [event];
    }
  }

  lemma OneMore(dropped: seq<Event>, events: seq<Event>, event: Event)
    ensures dropped + (events + [event]) == dropped + events + [event]
    ensures events != [] ==> (dropped + [events[0]]) + (events[1..] + [event]) == dropped + events + [event]
    ensures Latest(dropped + events + [event]) == event.sequence
    ensures events != [] ==> Latest(dropped + [events[0]]) == events[0].sequence
  {
  }

  datatype Reply = Lagged | Nothing | Received(event: Event)
  datatype Batch = LaggedBatch | Events(sequence: nat, events: seq<Event>)

  function Above(events: seq<Event>, cursor: nat): seq<Event> {
    if events == [] then []
    else if events[0].sequence > cursor then [events[0]] + Above(events[1..], cursor)
    else Above(events[1..], cursor)
  }

  lemma {:induction false} NoneAbove(s: seq<Event>, cursor: nat)
    requires forall i :: 0 <= i < |s| ==> s[i].sequence <= cursor
    ensures Above(s, cursor) == []
  {
    if s != [] {
      NoneAbove(s[1..], cursor);
    }
  }

  lemma {:induction false} AboveOfConcat(a: seq<Event>, b: seq<Event>, cursor: nat)
    ensures Above(a + b, cursor) == Above(a, cursor) + Above(b, cursor)
  {
    if a == [] {
      assert a + b == b;
    } else {
      assert (a + b)[1..] == a[1..] + b;
      AboveOfConcat(a[1..], b, cursor);
    }
  }

  lemma AboveOfLast(s: seq<Event>, last: Event, cursor: nat)
    requires last.sequence > cursor
    ensures Above(s + [last], cursor) == Above(s, cursor) + [last]
  {
    AboveOfConcat(s, [last], cursor);
    assert [last][1..] == [] && Above([], cursor) == [];
  }

  lemma {:induction false} AboveIsSuffix(s: seq<Event>, cursor: nat)
    requires Increasing(s)
    ensures Above(s, cursor) == s[Position(s, cursor)..]
  {
    if s == [] {
    } else if s[|s| - 1].sequence <= cursor {
      NoneAbove(s, cursor);
    } else {
      var before, last := s[..|s| - 1], s[|s| - 1];
      assert Increasing(before);
      AboveIsSuffix(before, cursor);
      AboveOfLast(before, last, cursor);
      assert s == before + [last];
      var p := Position(before, cursor);
      assert s[p..] == before[p..] + [last];
    }
  }

  lemma UnseenAreRetained(dropped: seq<Event>, events: seq<Event>, cursor: nat)
    requires Increasing(dropped + events) && Latest(dropped) <= cursor
    ensures Above(events, cursor) == (dropped + events)[Position(dropped + events, cursor)..]
    ensures Position(dropped + events, Latest(dropped + events)) == |dropped + events|
  {
    PositionInConcat(dropped, events, cursor);
    SuffixIncreases(dropped, events);
    AboveIsSuffix(events, cursor);
  }

  lemma BehindTheDropped(dropped: seq<Event>, events: seq<Event>)
    requires Increasing(dropped + events) && dropped != [] && events != []
    ensures Position(dropped + events, Latest(dropped)) == |dropped|
    ensures Latest(dropped) <= Latest(dropped + events)
  {
    var all, gone := dropped + events, |dropped|;
    assert all[gone - 1] == dropped[gone - 1] && all[gone] == events[0];
    PositionIs(all, Latest(dropped), gone);
  }

  class Reader {
    const channel: Channel
    var cursor: nat

    ghost predicate Valid()
      reads this, channel
    {
      channel.Valid() && cursor <= channel.latestSequence
    }

    /** How many of the accepted events this reader is past. */
    ghost function Past(): (r: nat)
      reads this, channel
    {
      Position(channel.History(), cursor)
    }

    constructor (channel: Channel)
      requires channel.Valid() && channel.published == []
      ensures Valid() && fresh(this) && this.channel == channel && Past() == 0
    {
      this.channel := channel;
      cursor := 0;
    }

    /** The reader misses a dropped event exactly when its cursor is below the dropped mark. */
    lemma LagIsLoss()
      requires Valid()
      ensures cursor < channel.droppedThrough <==> Past() < |channel.dropped|
      ensures cursor >= channel.droppedThrough ==> Past() == |channel.dropped| + Position(channel.events, cursor)
    {
      AcceptedIncreases(channel.published);
      PositionInConcat(channel.dropped, channel.events, cursor);
    }

    /** Moves behind the dropped prefix. */
    method CatchUp()
      requires Valid() && cursor < channel.droppedThrough
      modifies this
      ensures Valid() && Past() == |channel.dropped| > old(Past())
    {
      LagIsLoss();
      AcceptedIncreases(channel.published);
      BehindTheDropped(channel.dropped, channel.events);
      cursor := channel.droppedThrough;
    }

    /** Returns the next accepted event, or reports a lag exactly when that event was dropped. */
    method NextChannelEvent() returns (reply: Reply)
      requires Valid()
      modifies this
      ensures Valid()
      ensures var all, past := channel.History(), old(Past());
              match reply
              case Lagged => past < |channel.dropped| == Past()
              case Nothing => |channel.dropped| <= past == |all| == Past()
              case Received(event) => |channel.dropped| <= past < |all| && event == all[past] && Past() == past + 1
    {
      LagIsLoss();
      AcceptedIncreases(channel.published);
      if cursor < channel.droppedThrough {
        CatchUp();
        return Lagged;
      }
      var i := Find();
      if i == |channel.events| {
        return Nothing;
      }
      ghost var all, past := channel.History(), Past();
      assert all[past] == channel.events[i];
      cursor := channel.events[i].sequence;
      PositionIs(all, cursor, past + 1);
      return Received(channel.events[i]);
    }

    /** The index of the first retained event above the cursor. */
    method Find() returns (i: nat)
      requires Valid()
      ensures i == Position(channel.events, cursor) <= |channel.events|
    {
      ghost var events := channel.events;
      i := 0;
      while i < |channel.events| && channel.events[i].sequence <= cursor
        invariant i <= |events| && (i > 0 ==> events[i - 1].sequence <= cursor)
      {
        i := i + 1;
      }
      AcceptedIncreases(channel.published);
      SuffixIncreases(channel.dropped, events);
      PositionIs(events, cursor, i);
    }

    /** Hands over every accepted event the reader has not seen, unless one of them was dropped. */
    method PrepareRequest(currentSequence: nat) returns (batch: Batch)
      requires Valid()
      modifies this
      ensures Valid()
      ensures var all, past := channel.History(), old(Past());
              match batch
              case LaggedBatch => past < |channel.dropped| == Past()
              case Events(sequence, events) =>
                && |channel.dropped| <= past && events == all[past..] && Past() == |all|
                && sequence == if currentSequence > Latest(all) then currentSequence else Latest(all)
    {
      LagIsLoss();
      AcceptedIncreases(channel.published);
      if cursor < channel.droppedThrough {
        CatchUp();
        return LaggedBatch;
      }
      var retained := Above(channel.events, cursor);
      UnseenAreRetained(channel.dropped, channel.events, cursor);
      cursor := channel.latestSequence;
      var sequence := if currentSequence > channel.latestSequence then currentSequence else channel.latestSequence;
      return Events(sequence, retained);
    }
  }

  lemma SuffixIncreases(a: seq<Event>, b: seq<Event>)
    requires Increasing(a + b)
    ensures Increasing(b)
  {
    assert forall i :: 0 <= i < |b| ==> b[i] == (a + b)[|a| + i];
  }

  // ---- Whole runs --------------------------------------------------------------------------------

  datatype Action = Publishing(event: Event) | Reading | Preparing(sequence: nat)

  datatype Delivery = Gap | Got(event: Event)

  function Published(schedule: seq<Action>): seq<Event> {
    if schedule == [] then []
    else
      var before := Published(schedule[..|schedule| - 1]);
      var action := schedule[|schedule| - 1];
      if action.Publishing? then before + [action.event] else before
  }

  /**
    The deliveries account for the first `n` accepted events: each event is the one after the
    previous delivery, and only a reported gap skips any.
   */
  ghost predicate Accounts(all: seq<Event>, deliveries: seq<Delivery>, n: nat)
    decreases |deliveries|
  {
    if deliveries == [] then n == 0
    else
      var before := deliveries[..|deliveries| - 1];
      match deliveries[|deliveries| - 1]
      case Got(event) => 0 < n <= |all| && all[n - 1] == event && Accounts(all, before, n - 1)
      case Gap => exists p: nat :: p < n && Accounts(all, before, p)
  }

  predicate NoGap(deliveries: seq<Delivery>) {
    deliveries == [] || (deliveries[|deliveries| - 1].Got? && NoGap(deliveries[..|deliveries| - 1]))
  }

  lemma {:induction false} AccountsExtends(all: seq<Event>, event: Event, deliveries: seq<Delivery>, n: nat)
    requires Accounts(all, deliveries, n)
    ensures Accounts(all + [event], deliveries, n)
    decreases |deliveries|
  {
    if deliveries != [] {
      var before := deliveries[..|deliveries| - 1];
      match deliveries[|deliveries| - 1]
      case Got(_) =>
        AccountsExtends(all, event, before, n - 1);
      case Gap =>
        var p: nat :| p < n && Accounts(all, before, p);
        AccountsExtends(all, event, before, p);
    }
  }

  lemma AccountsOne(all: seq<Event>, deliveries: seq<Delivery>, n: nat)
    requires Accounts(all, deliveries, n) && n < |all|
    ensures Accounts(all, deliveries + [Got(all[n])], n + 1)
    ensures NoGap(deliveries) ==> NoGap(deliveries + [Got(all[n])])
  {
    var more := deliveries + [Got(all[n])];
    assert more[..|more| - 1] == deliveries;
  }

  lemma AccountsGap(all: seq<Event>, deliveries: seq<Delivery>, n: nat, m: nat)
    requires Accounts(all, deliveries, n) && n < m
    ensures Accounts(all, deliveries + [Gap], m)
  {
    var more := deliveries + [Gap];
    assert more[..|more| - 1] == deliveries;
  }

  function Gots(s: seq<Event>): seq<Delivery> {
    if s == [] then [] else Gots(s[..|s| - 1]) + [Got(s[|s| - 1])]
  }

  lemma {:induction false} AccountsMany(all: seq<Event>, deliveries: seq<Delivery>, n: nat, m: nat)
    requires Accounts(all, deliveries, n) && n <= m <= |all|
    ensures Accounts(all, deliveries + Gots(all[n..m]), m)
    ensures NoGap(deliveries) ==> NoGap(deliveries + Gots(all[n..m]))
    decreases m - n
  {
    if n == m {
      assert deliveries + Gots(all[n..m]) == deliveries;
    } else {
      AccountsMany(all, deliveries, n, m - 1);
      assert all[n..m][..m - n - 1] == all[n..m - 1];
      AccountsOne(all, deliveries + Gots(all[n..m - 1]), m - 1);
      assert deliveries + Gots(all[n..m]) == deliveries + Gots(all[n..m - 1]) + [Got(all[m - 1])];
    }
  }

  lemma AccountsRest(all: seq<Event>, deliveries: seq<Delivery>, n: nat)
    requires Accounts(all, deliveries, n) && n <= |all|
    ensures Accounts(all, deliveries + Gots(all[n..]), |all|)
    ensures NoGap(deliveries) ==> NoGap(deliveries + Gots(all[n..]))
  {
    AccountsMany(all, deliveries, n, |all|);
    assert all[n..|all|] == all[n..];
  }

  /** Without a reported gap, the deliveries are exactly the first accepted events, in order. */
  lemma {:induction false} NoGapMeansNoLoss(all: seq<Event>, deliveries: seq<Delivery>, n: nat)
    requires Accounts(all, deliveries, n) && NoGap(deliveries)
    ensures n <= |all| && deliveries == Gots(all[..n])
    decreases |deliveries|
  {
    if deliveries != [] {
      var before := deliveries[..|deliveries| - 1];
      NoGapMeansNoLoss(all, before, n - 1);
      assert all[..n][..n - 1] == all[..n - 1];
      assert deliveries == before + [deliveries[|deliveries| - 1]];
    }
  }

  /** The deliveries so far account for what the reader is past; a gap needs a dropped event. */
  ghost predicate Told(channel: Channel, reader: Reader, deliveries: seq<Delivery>)
    reads channel, reader
  {
    && reader.channel == channel && reader.Valid() && channel.DropsWhenFull()
    && Accounts(channel.History(), deliveries, reader.Past())
    && (channel.dropped == [] ==> NoGap(deliveries))
  }

  /** Any interleaving of publishing, reading and preparing, followed by reading to the end. */
  method Run(capacity: nat, schedule: seq<Action>) returns (deliveries: seq<Delivery>)
    ensures var all := Accepted(Published(schedule));
            && Accounts(all, deliveries, |all|)
            && (NoGap(deliveries) ==> deliveries == Gots(all))
            && (|all| <= capacity ==> NoGap(deliveries))
  {
    var channel := new Channel(capacity);
    var reader := new Reader(channel);
    deliveries := [];
    for i := 0 to |schedule|
      invariant Told(channel, reader, deliveries)
      invariant channel.published == Published(schedule[..i])
    {
      assert schedule[..i + 1][..i] == schedule[..i];
      deliveries := Perform(channel, reader, schedule[i], deliveries);
    }
    assert schedule[..|schedule|] == schedule;
    deliveries := ReadAll(channel, reader, deliveries);
    ghost var all := channel.History();
    if NoGap(deliveries) {
      NoGapMeansNoLoss(all, deliveries, |all|);
      assert all[..|all|] == all;
    }
  }

  method ReadAll(channel: Channel, reader: Reader, deliveries: seq<Delivery>) returns (more: seq<Delivery>)
    requires Told(channel, reader, deliveries)
    modifies reader
    ensures Told(channel, reader, more) && reader.Past() == |channel.History()|
  {
    more := deliveries;
    var done := false;
    while !done
      invariant Told(channel, reader, more)
      invariant done ==> reader.Past() == |channel.History()|
      decreases |channel.History()| - reader.Past(), !done
    {
      more, done := ReadOne(channel, reader, more);
    }
  }

  method ReadOne(channel: Channel, reader: Reader, deliveries: seq<Delivery>) returns (more: seq<Delivery>, done: bool)
    requires Told(channel, reader, deliveries)
    modifies reader
    ensures Told(channel, reader, more)
    ensures if done then reader.Past() == |channel.History()| == old(reader.Past())
            else reader.Past() > old(reader.Past())
  {
    ghost var all, past := channel.History(), reader.Past();
    var reply := reader.NextChannelEvent();
    match reply {
      case Lagged =>
        AccountsGap(all, deliveries, past, reader.Past());
        more, done := deliveries + [Gap], false;
      case Nothing =>
        more, done := deliveries, true;
      case Received(event) =>
        AccountsOne(all, deliveries, past);
        more, done := deliveries + [Got(event)], false;
    }
  }

  method PrepareOne(channel: Channel, reader: Reader, sequence: nat, deliveries: seq<Delivery>)
    returns (more: seq<Delivery>)
    requires Told(channel, reader, deliveries)
    modifies reader
    ensures Told(channel, reader, more)
  {
    ghost var all, past := channel.History(), reader.Past();
    var batch := reader.PrepareRequest(sequence);
    match batch {
      case LaggedBatch =>
        AccountsGap(all, deliveries, past, reader.Past());
        more := deliveries + [Gap];
      case Events(_, events) =>
        AccountsRest(all, deliveries, past);
        more := deliveries + Gots(events);
    }
  }

  /** Publishing moves no reader and takes nothing back. */
  method PublishOne(channel: Channel, reader: Reader, event: Event, ghost deliveries: seq<Delivery>)
    requires Told(channel, reader, deliveries)
    modifies channel
    ensures Told(channel, reader, deliveries)
    ensures channel.published == old(channel.published) + [event]
  {
    ghost var all, past := channel.History(), reader.Past();
    AcceptedStep(channel.published, event);
    AcceptedIncreases(channel.published);
    AcceptedIncreases(channel.published + [event]);
    if event.sequence > Latest(all) {
      PositionStays(all, event, reader.cursor);
      AccountsExtends(all, event, deliveries, past);
    }
    channel.Publish(event);
  }

  method Perform(channel: Channel, reader: Reader, action: Action, deliveries: seq<Delivery>)
    returns (more: seq<Delivery>)
    requires Told(channel, reader, deliveries)
    modifies reader, channel
    ensures Told(channel, reader, more)
    ensures channel.published ==
            if action.Publishing? then old(channel.published) + [action.event] else old(channel.published)
  {
    match action {
      case Publishing(event) =>
        PublishOne(channel, reader, event, deliveries);
        more := deliveries;
      case Reading =>
        var done;
        more, done := ReadOne(channel, reader, deliveries);
      case Preparing(sequence) =>
        more := PrepareOne(channel, reader, sequence, deliveries);
    }
  }
}
