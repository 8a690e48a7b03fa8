/** The live feed: traces fanned out to subscriber channels without blocking. */
module Hub {

  datatype Trace = Trace(userId: string, body: string)

  /** A subscriber's channel, with what its reader has taken from it so far. */
  datatype Channel = Channel(buffer: seq<Trace>, received: seq<Trace>, closed: bool)

  const BUFFER: nat := 64

  /** Channels are numbered in the order they are made. Sending on a closed channel and
      closing one twice are panics. */
  datatype State = State(
    clients: set<nat>,
    users: map<nat, string>,
    chans: seq<Channel>,
    panicked: bool)

  const START: State := State({}, map[], [], false)

  /** unsubscribe is two steps: Remove under the lock, then Close. */
  datatype Event =
    | Subscribe(userId: string)
    | Record(trace: Trace)
    | Receive(ch: nat)
    | Remove(ch: nat)
    | Close(ch: nat)

  // ----- Steps

  predicate Wants(userId: string, t: Trace)
  {
    userId == "" || userId == t.userId
  }

  /** Whether Record tries to send t on channel ch. */
  predicate Targets(s: State, ch: nat, t: Trace)
  {
    ch in s.clients && !(ch in s.users && s.users[ch] != "" && s.users[ch] != t.userId)
  }

  /** A non-blocking send: a full buffer drops the trace. */
  function Sent(c: Channel, t: Trace): Channel
  {
    if |c.buffer| < BUFFER then c.(buffer := c.buffer + [t]) else c
  }

  function Recorded(s: State, t: Trace): State
  {
    s.(chans := seq(|s.chans|, i requires 0 <= i < |s.chans| =>
         if Targets(s, i, t) && !s.chans[i].closed then Sent(s.chans[i], t) else s.chans[i]),
       panicked := s.panicked || exists ch :: 0 <= ch < |s.chans| && Targets(s, ch, t) && s.chans[ch].closed)
  }

  function Step(s: State, e: Event): State
  {
    match e
    case Subscribe(u) =>
      s.(clients := s.clients + {|s.chans|}, users := s.users[|s.chans| := u],
         chans := s.chans + [Channel([], [], false)])
    case Record(t) => Recorded(s, t)
    case Receive(ch) =>
      if ch < |s.chans| && s.chans[ch].buffer != []
      then var c := s.chans[ch];
           s.(chans := s.chans[ch := c.(buffer := c.buffer[1..], received := c.received + [c.buffer[0]])])
      else s
    case Remove(ch) => s.(clients := s.clients - {ch}, users := s.users - {ch})
    case Close(ch) =>
      if ch >= |s.chans| then s
      else if s.chans[ch].closed then s.(panicked := true)
      else s.(chans := s.chans[ch := s.chans[ch].(closed := true)])
  }

  function After(events: seq<Event>): State
  {
    if events == [] then START else Step(After(events[..|events|-1]), events[|events|-1])
  }

  // ----- What a channel was offered, read off the events alone

  function Subscriptions(events: seq<Event>): nat
  {
    if events == [] then 0
    else Subscriptions(events[..|events|-1]) + (if events[|events|-1].Subscribe? then 1 else 0)
  }

  /** The user id of channel ch while it is subscribed. */
  datatype Listener = Nobody | Listener(userId: string)

  function ListenerOf(events: seq<Event>, ch: nat): Listener
  {
    if events == [] then Nobody
    else
      var before, e := events[..|events|-1], events[|events|-1];
      if e.Subscribe? && Subscriptions(before) == ch then Listener(e.userId)
      else if e == Remove(ch) then Nobody
      else ListenerOf(before, ch)
  }

  predicate Offers(events: seq<Event>, ch: nat, t: Trace)
  {
    ListenerOf(events, ch).Listener? && Wants(ListenerOf(events, ch).userId, t)
  }

  /** The traces recorded while ch was subscribed that its user may see. */
  function Offered(events: seq<Event>, ch: nat): seq<Trace>
  {
    if events == [] then []
    else
      var before, e := events[..|events|-1], events[|events|-1];
      Offered(before, ch) + (if e.Record? && Offers(before, ch, e.trace) then [e.trace] else [])
  }

  /** What reached ch: taken by its reader, or still waiting. */
  function Delivered(events: seq<Event>, ch: nat): seq<Trace>
  {
    Reached(After(events), ch)
  }

  function Reached(s: State, ch: nat): seq<Trace>
  {
    if ch < |s.chans| then s.chans[ch].received + s.chans[ch].buffer else []
  }

  /** No trace offered to ch found its buffer full. */
  predicate NeverFull(events: seq<Event>, ch: nat)
  {
    events == [] ||
    (var before, e := events[..|events|-1], events[|events|-1];
     && NeverFull(before, ch)
     && (e.Record? && Offers(before, ch, e.trace) ==>
           ch < |After(before).chans| && |After(before).chans[ch].buffer| < 64))
  }

  // ----- Well-formed histories

  function Count(events: seq<Event>, e: Event): nat
  {
    if events == [] then 0
    else Count(events[..|events|-1], e) + (if events[|events|-1] == e then 1 else 0)
  }

  /** Only channels that were handed out are used, and a channel is closed only by an
      unsubscribe that has already removed it. */
  predicate Lawful(events: seq<Event>)
  {
    events == [] ||
    (var before, e := events[..|events|-1], events[|events|-1];
     && Lawful(before)
     && (e.Receive? || e.Remove? || e.Close? ==> e.ch < Subscriptions(before))
     && (e.Close? ==> Count(before, e) < Count(before, Remove(e.ch))))
  }

  /** Every unsubscribe is made once per channel. */
  ghost predicate ClosedOnce(events: seq<Event>)
  {
    forall ch: nat :: Count(events, Close(ch)) <= 1
  }

  // ----- The invariant

  lemma Snoc(events: seq<Event>, e: Event)
    ensures var all := events + [e];
            && After(all) == Step(After(events), e)
            && Subscriptions(all) == Subscriptions(events) + (if e.Subscribe? then 1 else 0)
            && (forall x: Event :: Count(all, x) == Count(events, x) + (if e == x then 1 else 0))
            && (forall ch: nat :: ListenerOf(all, ch) ==
                  if e.Subscribe? && Subscriptions(events) == ch then Listener(e.userId)
                  else if e == Remove(ch) then Nobody else ListenerOf(events, ch))
  {
    hide Step;
    assert (events + [e])[..|events|] == events;
  }

  /** The two maps hold the same channels, each listening for its own user, and a channel
      that was removed never listens again. */
  ghost predicate ListensOk(events: seq<Event>, s: State)
  {
    && |s.chans| == Subscriptions(events)
    && s.clients == s.users.Keys
    && (forall ch: nat :: ch in s.clients <==> ListenerOf(events, ch).Listener?)
    && (forall ch :: ch in s.clients ==> ListenerOf(events, ch) == Listener(s.users[ch]))
    && (forall ch :: ch in s.clients ==> ch < |s.chans| && Count(events, Remove(ch)) == 0)
    && (forall ch: nat :: ch >= |s.chans| ==> Count(events, Remove(ch)) == 0)
  }

  /** Buffers fit, and the closed channels are those that were closed after a removal. */
  ghost predicate ClosesOk(events: seq<Event>, s: State)
  {
    && (forall ch :: 0 <= ch < |s.chans| ==> |s.chans[ch].buffer| <= 64)
    && (forall ch :: 0 <= ch < |s.chans| ==> (s.chans[ch].closed <==> Count(events, Close(ch)) >= 1))
    && (forall ch: nat :: Count(events, Close(ch)) >= 1 ==> ch < |s.chans| && Count(events, Remove(ch)) >= 1)
  }

  ghost predicate Inv(events: seq<Event>, s: State)
  {
    ListensOk(events, s) && ClosesOk(events, s)
  }

  lemma StepListens(events: seq<Event>, s: State, e: Event)
    requires s == After(events) && ListensOk(events, s)
    requires e.Remove? ==> e.ch < |s.chans|
    ensures ListensOk(events + [e], Step(s, e))
  {
    hide After, Count, ListenerOf, Subscriptions, Recorded;
    Snoc(events, e);
    if e.Record? {
      RecordedFrame(s, e.trace);
    }
  }

  lemma RecordedFrame(s: State, t: Trace)
    ensures var s2 := Recorded(s, t);
            s2.clients == s.clients && s2.users == s.users && |s2.chans| == |s.chans|
  {
  }

  lemma StepCloses(events: seq<Event>, s: State, e: Event)
    requires s == After(events) && Inv(events, s)
    requires e.Close? ==> e.ch < |s.chans| && Count(events, Remove(e.ch)) >= 1
    ensures ClosesOk(events + [e], Step(s, e))
  {
    hide After, Count, ListenerOf, Subscriptions, Targets, ListensOk;
    Snoc(events, e);
    assert e.Subscribe? ==> Count(events, Close(|s.chans|)) == 0;
  }

  lemma LawfulLast(events: seq<Event>)
    requires events != [] && Lawful(events)
    ensures var before, e := events[..|events|-1], events[|events|-1];
            && events == before + [e] && Lawful(before)
            && (e.Receive? || e.Remove? || e.Close? ==> e.ch < Subscriptions(before))
            && (e.Close? ==> Count(before, e) < Count(before, Remove(e.ch)))
  {
  }

  /** Over every lawful history the two maps agree, and no removed channel is a client. */
  lemma {:induction false} HistoryInv(events: seq<Event>)
    requires Lawful(events)
    ensures Inv(events, After(events))
  {
    hide Step, Count, ListenerOf, Subscriptions, Lawful;
    if events == [] {
      StartInv();
    } else {
      var before, e := events[..|events|-1], events[|events|-1];
      LawfulLast(events);
      HistoryInv(before);
      StepListens(before, After(before), e);
      StepCloses(before, After(before), e);
    }
  }

  lemma StartInv()
    ensures Inv([], START)
  {
  }

  // ----- Panics

  lemma StepPanics(events: seq<Event>, e: Event)
    requires Inv(events, After(events))
    ensures Step(After(events), e).panicked <==>
            After(events).panicked || (e.Close? && Count(events, e) >= 1)
  {
    hide After, Count, ListenerOf, Subscriptions;
    var s := After(events);
    assert forall ch :: ch in s.clients && ch < |s.chans| ==> !s.chans[ch].closed;
  }

  lemma ClosedOnceLast(events: seq<Event>, e: Event)
    ensures ClosedOnce(events + [e]) <==> ClosedOnce(events) && (e.Close? ==> Count(events, e) == 0)
  {
    hide Count, ListenerOf, After, Subscriptions;
    Snoc(events, e);
    if e.Close? && ClosedOnce(events + [e]) {
      assert Count(events + [e], Close(e.ch)) <= 1;
    }
    if ClosedOnce(events + [e]) {
      forall ch: nat ensures Count(events, Close(ch)) <= 1 {
        assert Count(events + [e], Close(ch)) <= 1;
      }
    }
  }

  /** Although Close comes after the lock is released, nothing is ever sent on a closed
      channel: a history panics exactly when some channel is unsubscribed twice. */
  lemma {:induction false} PanicsIffClosedTwice(events: seq<Event>)
    requires Lawful(events)
    ensures After(events).panicked <==> !ClosedOnce(events)
  {
    hide Step, Count, Lawful, ClosedOnce;
    if events == [] {
      NothingClosed();
    } else {
      var before, e := events[..|events|-1], events[|events|-1];
      LawfulLast(events);
      PanicsIffClosedTwice(before);
      HistoryInv(before);
      StepPanics(before, e);
      ClosedOnceLast(before, e);
    }
  }

  lemma NothingClosed()
    ensures ClosedOnce([])
  {
  }

  // ----- Delivery

  /** a is b with some elements left out. */
  predicate IsSubsequence(a: seq<Trace>, b: seq<Trace>)
  {
    a == [] || (b != [] &&
      ((a[|a|-1] == b[|b|-1] && IsSubsequence(a[..|a|-1], b[..|b|-1])) || IsSubsequence(a, b[..|b|-1])))
  }

  lemma SubsequenceSnoc(a: seq<Trace>, b: seq<Trace>, t: Trace)
    requires IsSubsequence(a, b)
    ensures IsSubsequence(a, b + [t]) && IsSubsequence(a + [t], b + [t])
  {
    assert (b + [t])[..|b|] == b && (a + [t])[..|a|] == a;
  }

  lemma {:induction false} SubsequenceLength(a: seq<Trace>, b: seq<Trace>)
    requires IsSubsequence(a, b)
    ensures |a| <= |b|
  {
    if a != [] {
      if a[|a|-1] == b[|b|-1] && IsSubsequence(a[..|a|-1], b[..|b|-1]) {
        SubsequenceLength(a[..|a|-1], b[..|b|-1]);
      } else {
        SubsequenceLength(a, b[..|b|-1]);
      }
    }
  }

  lemma RecordDelivers(events: seq<Event>, t: Trace, ch: nat)
    requires Inv(events, After(events))
    ensures Offers(events, ch, t) ==> ch < |After(events).chans|
    ensures Delivered(events + [Record(t)], ch) == Delivered(events, ch)
              + (if Offers(events, ch, t) && |After(events).chans[ch].buffer| < BUFFER then [t] else [])
  {
    hide After, Count, Subscriptions, ListenerOf;
    var s := After(events);
    Snoc(events, Record(t));
    assert Offers(events, ch, t) <==> Targets(s, ch, t);
    assert ch in s.clients ==> !s.chans[ch].closed;
  }

  lemma OtherDelivers(events: seq<Event>, e: Event, ch: nat)
    requires Inv(events, After(events)) && !e.Record?
    ensures Delivered(events + [e], ch) == Delivered(events, ch)
  {
    hide After, Count, Subscriptions, ListenerOf, Step, Inv, Reached;
    Snoc(events, e);
    OtherReaches(After(events), e, ch);
  }

  lemma OtherReaches(s: State, e: Event, ch: nat)
    requires !e.Record?
    ensures Reached(Step(s, e), ch) == Reached(s, ch)
  {
    hide Recorded;
    match e
    case Receive(x) =>
      if x < |s.chans| && s.chans[x].buffer != [] {
        var c := s.chans[x];
        assert c.buffer == [c.buffer[0]] + c.buffer[1..];
        assert (c.received + [c.buffer[0]]) + c.buffer[1..] == c.received + c.buffer;
      }
    case _ =>
  }

  /** What one event adds to a channel: the offered trace, if its buffer has room. */
  lemma StepDelivers(events: seq<Event>, e: Event, ch: nat)
    requires Inv(events, After(events))
    ensures e.Record? && Offers(events, ch, e.trace) ==> ch < |After(events).chans|
    ensures Delivered(events + [e], ch) == Delivered(events, ch)
              + (if e.Record? && Offers(events, ch, e.trace) && |After(events).chans[ch].buffer| < BUFFER
                 then [e.trace] else [])
  {
    hide After, Inv, Delivered, Offers;
    if e.Record? {
      RecordDelivers(events, e.trace, ch);
    } else {
      OtherDelivers(events, e, ch);
    }
  }

  lemma OfferedSnoc(events: seq<Event>, e: Event, ch: nat)
    ensures Offered(events + [e], ch) ==
            Offered(events, ch) + (if e.Record? && Offers(events, ch, e.trace) then [e.trace] else [])
  {
    assert (events + [e])[..|events|] == events;
  }

  lemma NeverFullSnoc(events: seq<Event>, e: Event, ch: nat)
    ensures NeverFull(events + [e], ch) <==>
            NeverFull(events, ch) && (e.Record? && Offers(events, ch, e.trace) ==>
              ch < |After(events).chans| && |After(events).chans[ch].buffer| < BUFFER)
  {
    assert (events + [e])[..|events|] == events;
  }

  /** What a subscriber gets is what it was offered, in order, possibly with gaps; and it
      gets everything exactly when its buffer was never full at a send. */
  lemma {:induction false} DeliveryIsSubsequence(events: seq<Event>, ch: nat)
    requires Lawful(events)
    ensures IsSubsequence(Delivered(events, ch), Offered(events, ch))
    ensures Delivered(events, ch) == Offered(events, ch) <==> NeverFull(events, ch)
  {
    hide Step, Count, Lawful, After, Delivered, Offered, NeverFull, Offers, IsSubsequence;
    if events == [] {
      NothingDelivered(ch);
    } else {
      var before, e := events[..|events|-1], events[|events|-1];
      LawfulLast(events);
      DeliveryIsSubsequence(before, ch);
      HistoryInv(before);
      StepDelivers(before, e, ch);
      OfferedSnoc(before, e, ch);
      NeverFullSnoc(before, e, ch);
      SubsequenceLength(Delivered(before, ch), Offered(before, ch));
      assert Delivered(before, ch) + [] == Delivered(before, ch);
      assert Offered(before, ch) + [] == Offered(before, ch);
      if e.Record? && Offers(before, ch, e.trace) {
        SubsequenceSnoc(Delivered(before, ch), Offered(before, ch), e.trace);
      }
    }
  }

  lemma NothingDelivered(ch: nat)
    ensures Delivered([], ch) == [] && Offered([], ch) == [] && NeverFull([], ch)
    ensures IsSubsequence([], [])
  {
  }

  lemma {:induction false} SubsequencePrefix(a: seq<Trace>, b: seq<Trace>, k: nat)
    requires IsSubsequence(a, b) && k <= |a|
    ensures IsSubsequence(a[..k], b)
    decreases |b|
  {
    if a != [] && k > 0 {
      var a', b' := a[..|a|-1], b[..|b|-1];
      if k == |a| {
        assert a[..k] == a;
      } else if IsSubsequence(a, b') {
        SubsequencePrefix(a, b', k);
      } else {
        SubsequencePrefix(a', b', k);
        assert a'[..k] == a[..k];
      }
    }
  }

  /** What the reader has taken so far is offered to it, in order. */
  lemma ReceivedIsSubsequence(events: seq<Event>, ch: nat)
    requires Lawful(events) && ch < |After(events).chans|
    ensures IsSubsequence(After(events).chans[ch].received, Offered(events, ch))
  {
    hide After, Lawful, Offered, IsSubsequence;
    DeliveryIsSubsequence(events, ch);
    var c := After(events).chans[ch];
    SubsequencePrefix(Delivered(events, ch), Offered(events, ch), |c.received|);
    assert Delivered(events, ch)[..|c.received|] == c.received;
  }

  // ----- The hub object

  class Hub {
    var clients: set<nat>
    var users: map<nat, string>
    var chans: seq<Channel>
    var panicked: bool

    constructor ()
      ensures View() == START
    {
      clients, users, chans, panicked := {}, map[], [], false;
    }

    ghost function View(): State
      reads this
    {
      State(clients, users, chans, panicked)
    }

    method Subscribe(userId: string) returns (ch: nat)
      modifies this
      ensures View() == Step(old(View()), Event.Subscribe(userId))
      ensures ch == |old(chans)|
    {
      ch := |chans|;
      chans := chans + [Channel([], [], false)];
      clients := clients + {ch};
      users := users[ch := userId];
    }

    /** Sends to the clients in any order; each send is independent of the others. */
    method Record(t: Trace)
      requires forall ch :: ch in clients ==> ch < |chans| && !chans[ch].closed
      modifies this`chans
      ensures View() == Step(old(View()), Event.Record(t))
    {
      ghost var s := View();
      var todo := clients;
      while todo != {}
        invariant todo <= clients && |chans| == |s.chans|
        invariant forall i :: 0 <= i < |chans| ==>
                    chans[i] == if i !in todo && Targets(s, i, t) then Sent(s.chans[i], t) else s.chans[i]
        decreases todo
      {
        var ch :| ch in todo;
        todo := todo - {ch};
        if ch in users && users[ch] != "" && users[ch] != t.userId {
          continue;
        }
        if |chans[ch].buffer| < BUFFER {
          chans := chans[ch := chans[ch].(buffer := chans[ch].buffer + [t])];
        }
      }
    }

    method Unsubscribe(ch: nat)
      requires ch < |chans|
      modifies this
      ensures View() == Step(Step(old(View()), Remove(ch)), Close(ch))
      ensures panicked <==> old(panicked) || old(chans)[ch].closed
    {
      clients := clients - {ch};
      users := users - {ch};
      if chans[ch].closed {
        panicked := true;
      } else {
        chans := chans[ch := chans[ch].(closed := true)];
      }
    }
  }
}
