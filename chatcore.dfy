/**
  The chat broker of lab02 (`chatcore.Broker`) as a sequential state
  machine. Goroutines, locks and blocking channel operations are left
  out: each public operation, and each iteration of the run loop, is
  one atomic step. Subscriber channels are caller-owned handles
  (`ChanId`); the broker records what it pushed into each channel and
  how many times it closed it.
*/
module ChatCore {
  import opened Wrappers

  /** A handle for a caller-owned outbound channel. */
  type ChanId = nat

  datatype Message = Message(
    sender: string, recipient: string, content: string, broadcast: bool, timestamp: int)

  /** Capacity of the inbound queue. */
  const InputCapacity: nat := 100

  /** Result of a submit: accepted, would block on a full queue, or failed. */
  datatype SendOutcome = Accepted | Blocked | Failed(error: string)

  /** `n` copies of `m`. */
  function Copies(m: Message, n: nat): (r: seq<Message>)
    ensures |r| == n
    ensures forall i :: 0 <= i < n ==> r[i] == m
  {
    if n == 0 then [] else Copies(m, n - 1) + [m]
  }

  /** The IDs among `ids` that are registered with channel `c`. */
  function IdsOn(users: map<string, ChanId>, ids: set<string>, c: ChanId): set<string>
  {
    set k | k in ids && k in users && users[k] == c
  }

  /**
    What channel `c` receives when `m` is routed through registry
    `users`: a broadcast reaches every registered ID (so a channel
    registered under several IDs gets one copy per ID), a unicast
    reaches the recipient's channel when the recipient is registered.
  */
  function Routed(users: map<string, ChanId>, m: Message, c: ChanId): (r: seq<Message>)
    ensures forall i :: 0 <= i < |r| ==> r[i] == m
    ensures !m.broadcast ==> |r| <= 1
    ensures c !in users.Values ==> r == []
  {
    assert c !in users.Values ==> IdsOn(users, users.Keys, c) == {} by {
      if k :| k in IdsOn(users, users.Keys, c) {
        assert users[k] in users.Values;
      }
    }
    if m.broadcast then Copies(m, |IdsOn(users, users.Keys, c)|)
    else if m.recipient in users && users[m.recipient] == c then [m]
    else []
  }

  /** What channel `c` receives when the queue `q` is routed in order. */
  function RoutedAll(users: map<string, ChanId>, q: seq<Message>, c: ChanId): (r: seq<Message>)
    ensures forall i :: 0 <= i < |r| ==> r[i] in q
    ensures c !in users.Values ==> r == []
  {
    if q == [] then []
    else
      var head, rest := Routed(users, q[0], c), RoutedAll(users, q[1..], c);
      assert forall i :: 0 <= i < |rest| ==> rest[i] in q by {
        forall i | 0 <= i < |rest| ensures rest[i] in q {
          assert rest[i] in q[1..];
        }
      }
      head + rest
  }

  /** No two registered IDs share a channel. */
  predicate OneChannelEach(users: map<string, ChanId>)
  {
    forall a, b :: a in users && b in users && a != b ==> users[a] != users[b]
  }

  /** The messages of `q` addressed to subscriber `id`: broadcasts and unicasts to `id`. */
  function AddressedTo(q: seq<Message>, id: string): seq<Message>
  {
    if q == [] then []
    else (if q[0].broadcast || q[0].recipient == id then [q[0]] else []) + AddressedTo(q[1..], id)
  }

  /** With one channel per ID, a registered subscriber receives exactly the messages addressed to it. */
  lemma RoutedToSubscriber(users: map<string, ChanId>, m: Message, id: string)
    requires OneChannelEach(users) && id in users
    ensures Routed(users, m, users[id]) == if m.broadcast || m.recipient == id then [m] else []
  {
    assert IdsOn(users, users.Keys, users[id]) == {id};
  }

  /** Routing a queue that grew by one message at the back. */
  lemma {:induction false} RoutedAllSnoc(users: map<string, ChanId>, q: seq<Message>, m: Message, c: ChanId)
    ensures RoutedAll(users, q + [m], c) == RoutedAll(users, q, c) + Routed(users, m, c)
  {
    if q == [] {
      assert [] + [m] == [m];
    } else {
      assert (q + [m])[1..] == q[1..] + [m];
      RoutedAllSnoc(users, q[1..], m, c);
    }
  }

  /**
    Per-subscriber FIFO: with one channel per ID, draining a queue
    delivers to each registered subscriber exactly the messages
    addressed to it, in queue order.
  */
  lemma {:induction false} RoutedAllToSubscriber(users: map<string, ChanId>, q: seq<Message>, id: string)
    requires OneChannelEach(users) && id in users
    ensures RoutedAll(users, q, users[id]) == AddressedTo(q, id)
  {
    if q != [] {
      RoutedToSubscriber(users, q[0], id);
      RoutedAllToSubscriber(users, q[1..], id);
    }
  }

  /**
    The run loop's bookkeeping: if `mid` holds what routing the first `n`
    queued messages added to `start`, and `next` adds what routing
    message `n` gives, then `next` holds the first `n + 1`.
  */
  lemma DeliveredPrefix(users: map<string, ChanId>, start: map<ChanId, seq<Message>>,
                        mid: map<ChanId, seq<Message>>, next: map<ChanId, seq<Message>>, q: seq<Message>, n: nat)
    requires n < |q|
    requires forall c :: ReceivedIn(mid, c) == ReceivedIn(start, c) + RoutedAll(users, q[..n], c)
    requires forall c :: ReceivedIn(next, c) == ReceivedIn(mid, c) + Routed(users, q[n], c)
    ensures forall c :: ReceivedIn(next, c) == ReceivedIn(start, c) + RoutedAll(users, q[..n + 1], c)
  {
    var grown := q[..n + 1];
    assert grown == q[..n] + [q[n]];
    forall c ensures ReceivedIn(next, c) == ReceivedIn(start, c) + RoutedAll(users, grown, c) {
      RoutedAllSnoc(users, q[..n], q[n], c);
      assert RoutedAll(users, q[..n] + [q[n]], c) == RoutedAll(users, q[..n], c) + Routed(users, q[n], c);
      assert ReceivedIn(mid, c) == ReceivedIn(start, c) + RoutedAll(users, q[..n], c);
      assert ReceivedIn(next, c) == ReceivedIn(mid, c) + Routed(users, q[n], c);
      calc {
        ReceivedIn(next, c);
        ReceivedIn(mid, c) + Routed(users, q[n], c);
        ReceivedIn(start, c) + RoutedAll(users, q[..n], c) + Routed(users, q[n], c);
        ReceivedIn(start, c) + RoutedAll(users, grown, c);
      }
    }
  }

  /**
    The broadcast loop's bookkeeping: pushing `m` to the channel of one
    more ID `k` adds one copy for that channel and none elsewhere.
  */
  lemma PushedOneMore(users: map<string, ChanId>, start: map<ChanId, seq<Message>>,
                      prev: map<ChanId, seq<Message>>, done: set<string>, k: string, m: Message)
    requires k in users && k !in done
    requires forall c :: ReceivedIn(prev, c) == ReceivedIn(start, c) + Copies(m, |IdsOn(users, done, c)|)
    ensures var next := prev[users[k] := ReceivedIn(prev, users[k]) + [m]];
      forall c :: ReceivedIn(next, c) == ReceivedIn(start, c) + Copies(m, |IdsOn(users, done + {k}, c)|)
  {
    var next := prev[users[k] := ReceivedIn(prev, users[k]) + [m]];
    forall c ensures ReceivedIn(next, c) == ReceivedIn(start, c) + Copies(m, |IdsOn(users, done + {k}, c)|) {
      IdsOnStep(users, done, k, c);
      if c != users[k] {
        assert ReceivedIn(next, c) == ReceivedIn(prev, c);
      }
    }
  }

  /** Adding one more ID `k`, registered with `users[k]`, to the IDs already served. */
  lemma IdsOnStep(users: map<string, ChanId>, done: set<string>, k: string, c: ChanId)
    requires k in users && k !in done
    ensures |IdsOn(users, done + {k}, c)| == |IdsOn(users, done, c)| + (if users[k] == c then 1 else 0)
  {
    if users[k] == c {
      assert IdsOn(users, done + {k}, c) == IdsOn(users, done, c) + {k};
    } else {
      assert IdsOn(users, done + {k}, c) == IdsOn(users, done, c);
    }
  }

  /** The messages a channel has received, given the broker's record `sent`. */
  function ReceivedIn(sent: map<ChanId, seq<Message>>, c: ChanId): seq<Message>
  {
    if c in sent then sent[c] else []
  }

  /** The channels registered under the keys listed in `order`. */
  function ChannelsOf(users: map<string, ChanId>, order: seq<string>): set<ChanId>
    requires forall i :: 0 <= i < |order| ==> order[i] in users
  {
    set i | 0 <= i < |order| :: users[order[i]]
  }

  /** The channels of a non-empty key list: the first key's, then the rest's. */
  lemma ChannelsOfCons(users: map<string, ChanId>, order: seq<string>)
    requires order != [] && forall i :: 0 <= i < |order| ==> order[i] in users
    ensures ChannelsOf(users, order) == {users[order[0]]} + ChannelsOf(users, order[1..])
  {
    var rest := order[1..];
    forall c | c in ChannelsOf(users, order) ensures c in {users[order[0]]} + ChannelsOf(users, rest) {
      var i :| 0 <= i < |order| && users[order[i]] == c;
      if i > 0 {
        assert users[rest[i - 1]] == c;
      }
    }
    forall c | c in ChannelsOf(users, rest) ensures c in ChannelsOf(users, order) {
      var i :| 0 <= i < |rest| && users[rest[i]] == c;
      assert users[order[i + 1]] == c;
    }
  }

  /**
    The shutdown loop as written: it closes `users[k]` for each key `k`
    in the map's iteration order `order`; closing a channel that is
    already closed panics, which yields `None`.
  */
  function CloseInOrder(users: map<string, ChanId>, order: seq<string>, closed: set<ChanId>): (r: Option<set<ChanId>>)
    requires forall i :: 0 <= i < |order| ==> order[i] in users
    ensures r.Some? ==> r.value == closed + ChannelsOf(users, order)
    ensures r.Some? ==> forall i :: 0 <= i < |order| ==> users[order[i]] !in closed
  {
    if order == [] then Some(closed)
    else
      var c := users[order[0]];
      if c in closed then None
      else
        ChannelsOfCons(users, order);
        var r := CloseInOrder(users, order[1..], closed + {c});
        assert r.Some? ==> forall i :: 1 <= i < |order| ==> users[order[i]] !in closed by {
          if r.Some? {
            forall i | 1 <= i < |order| ensures users[order[i]] !in closed {
              assert users[order[1..][i - 1]] !in closed + {c};
            }
          }
        }
        r
  }

  /**
    The shutdown loop panics exactly when some key's channel is already
    closed or two keys share a channel.
  */
  lemma {:induction false} CloseInOrderPanics(users: map<string, ChanId>, order: seq<string>, closed: set<ChanId>)
    requires forall i :: 0 <= i < |order| ==> order[i] in users
    ensures CloseInOrder(users, order, closed) == None <==>
      (|| (exists i :: 0 <= i < |order| && users[order[i]] in closed)
       || (exists i, j :: 0 <= i < j < |order| && users[order[i]] == users[order[j]]))
  {
    if order != [] {
      var c := users[order[0]];
      if c !in closed {
        var rest := order[1..];
        CloseInOrderPanics(users, rest, closed + {c});
        if exists i :: 0 <= i < |rest| && users[rest[i]] in closed + {c} {
          var i :| 0 <= i < |rest| && users[rest[i]] in closed + {c};
          if users[rest[i]] in closed {
            assert users[order[i + 1]] in closed;
          } else {
            assert users[order[0]] == users[order[i + 1]];
          }
        }
        if exists i, j :: 0 <= i < j < |rest| && users[rest[i]] == users[rest[j]] {
          var i, j :| 0 <= i < j < |rest| && users[rest[i]] == users[rest[j]];
          assert users[order[i + 1]] == users[order[j + 1]];
        }
        if exists i :: 0 <= i < |order| && users[order[i]] in closed {
          var i :| 0 <= i < |order| && users[order[i]] in closed;
          assert users[rest[i - 1]] in closed + {c};
        }
        if exists i, j :: 0 <= i < j < |order| && users[order[i]] == users[order[j]] {
          var i, j :| 0 <= i < j < |order| && users[order[i]] == users[order[j]];
          if i == 0 {
            assert users[rest[j - 1]] in closed + {c};
          } else {
            assert users[rest[i - 1]] == users[rest[j - 1]];
          }
        }
      }
    }
  }

  /** Visiting every key of the registry reaches every registered channel, and only those. */
  lemma ChannelsOfAllKeys(users: map<string, ChanId>, order: seq<string>)
    requires forall i :: 0 <= i < |order| ==> order[i] in users
    requires forall k :: k in users ==> k in order
    ensures ChannelsOf(users, order) == users.Values
  {
    forall c | c in users.Values ensures c in ChannelsOf(users, order) {
      var k :| k in users && users[k] == c;
      var i :| 0 <= i < |order| && order[i] == k;
      assert users[order[i]] == c;
    }
    forall c | c in ChannelsOf(users, order) ensures c in users.Values {
      var i :| 0 <= i < |order| && users[order[i]] == c;
      assert order[i] in users;
    }
  }

  /**
    On a registry with one channel per ID, the shutdown loop as written,
    visiting every key once in any order, does not panic and closes
    exactly the registered channels, as `Broker.ShutdownStep` does.
  */
  lemma CloseInOrderAgreesWithShutdown(users: map<string, ChanId>, order: seq<string>)
    requires OneChannelEach(users)
    requires forall i :: 0 <= i < |order| ==> order[i] in users
    requires forall k :: k in users ==> k in order
    requires forall i, j :: 0 <= i < j < |order| ==> order[i] != order[j]
    ensures CloseInOrder(users, order, {}) == Some(users.Values)
  {
    CloseInOrderPanics(users, order, {});
    forall i, j | 0 <= i < j < |order| ensures users[order[i]] != users[order[j]] {
      assert order[i] != order[j];
    }
    assert !exists i :: 0 <= i < |order| && users[order[i]] in {};
    var r := CloseInOrder(users, order, {});
    assert r.Some?;
    ChannelsOfAllKeys(users, order);
    var closedAll: set<ChanId> := users.Values;
    assert r.value == closedAll;
  }

  /** Two IDs registered with the same channel make the shutdown loop as written panic. */
  lemma SharedChannelPanics()
    ensures CloseInOrder(map["alice" := 7, "bob" := 7], ["alice", "bob"], {}) == None
    ensures CloseInOrder(map["alice" := 7, "bob" := 7], ["bob", "alice"], {}) == None
  {
  }

  class Broker {
    /** Whether the broker's context has been cancelled. */
    var cancelled: bool
    /** Whether the run loop has completed its shutdown (the `done` channel is closed). */
    var stopped: bool
    /** The registry: subscriber ID to outbound channel. */
    var users: map<string, ChanId>
    /** The inbound queue, head first. */
    var input: seq<Message>
    /** What the broker has pushed into each channel, oldest first. */
    var sent: map<ChanId, seq<Message>>
    /** How many times the broker has closed each channel. */
    var closes: multiset<ChanId>

    /**
      The queue is bounded; stop follows cancellation; no channel is
      closed before shutdown, none twice, and after shutdown every
      registered channel is closed.
    */
    ghost predicate Valid()
      reads this
    {
      && |input| <= InputCapacity
      && (stopped ==> cancelled)
      && (!stopped ==> closes == multiset{})
      && (stopped ==> forall id :: id in users ==> closes[users[id]] == 1)
      && (forall c :: closes[c] <= 1)
    }

    /** A running broker with an empty registry and an empty queue. */
    constructor (ctxCancelled: bool)
      ensures Valid() && cancelled == ctxCancelled && !stopped
      ensures users == map[] && input == [] && sent == map[] && closes == multiset{}
    {
      cancelled := ctxCancelled;
      stopped := false;
      users := map[];
      input := [];
      sent := map[];
      closes := multiset{};
    }

    /** The outside context is cancelled; this cannot be undone. */
    method Cancel()
      requires Valid()
      modifies this
      ensures Valid() && cancelled
      ensures stopped == old(stopped) && users == old(users) && input == old(input)
      ensures sent == old(sent) && closes == old(closes)
    {
      cancelled := true;
    }

    /**
      Registers `ch` under `userID`, replacing any earlier channel for
      that ID (which is not closed). Fails when cancelled.
    */
    method RegisterUser(userID: string, ch: ChanId) returns (err: Option<string>)
      requires Valid()
      modifies this
      ensures Valid()
      ensures old(cancelled) ==> err == Some("broker context canceled") && users == old(users)
      ensures !old(cancelled) ==> err == None && users == old(users)[userID := ch]
      ensures cancelled == old(cancelled) && stopped == old(stopped) && input == old(input)
      ensures sent == old(sent) && closes == old(closes)
    {
      if cancelled {
        return Some("broker context canceled");
      }
      users := users[userID := ch];
      err := None;
    }

    /** Removes `userID` from the registry if present; always allowed, even after stop. */
    method UnregisterUser(userID: string)
      requires Valid()
      modifies this
      ensures Valid()
      ensures users == old(users) - {userID}
      ensures cancelled == old(cancelled) && stopped == old(stopped) && input == old(input)
      ensures sent == old(sent) && closes == old(closes)
    {
      users := users - {userID};
    }

    /**
      Submits `msg`. Fails when cancelled or stopped; when both hold,
      `pickStopped` is the choice Go's `select` makes between the two.
      On a full queue the call would block and nothing changes.
    */
    method SendMessage(msg: Message, pickStopped: bool) returns (r: SendOutcome)
      requires Valid()
      modifies this
      ensures Valid()
      ensures r.Failed? <==> old(cancelled) || old(stopped)
      ensures r.Failed? ==> r.error in {"broker context canceled", "broker is stopped"}
      ensures r == Failed("broker is stopped") ==> old(stopped)
      ensures r == Failed("broker context canceled") ==> old(cancelled)
      ensures r == Blocked <==> !old(cancelled) && !old(stopped) && |old(input)| == InputCapacity
      ensures input == if r == Accepted then old(input) + [msg] else old(input)
      ensures cancelled == old(cancelled) && stopped == old(stopped) && users == old(users)
      ensures sent == old(sent) && closes == old(closes)
    {
      if cancelled && !(stopped && pickStopped) {
        return Failed("broker context canceled");
      }
      if stopped {
        return Failed("broker is stopped");
      }
      if |input| == InputCapacity {
        return Blocked;
      }
      input := input + [msg];
      r := Accepted;
    }

    /** Pushes `m` once to the channel of every registered ID. */
    method PushToAll(m: Message)
      requires !stopped
      modifies this
      ensures forall c :: ReceivedIn(sent, c) == ReceivedIn(old(sent), c) + Copies(m, |IdsOn(users, users.Keys, c)|)
      ensures cancelled == old(cancelled) && stopped == old(stopped) && users == old(users)
      ensures input == old(input) && closes == old(closes)
    {
      var todo := users.Keys;
      while todo != {}
        invariant todo <= users.Keys
        invariant users == old(users) && input == old(input)
        invariant cancelled == old(cancelled) && stopped == old(stopped) && closes == old(closes)
        invariant forall c ::
          ReceivedIn(sent, c) == ReceivedIn(old(sent), c) + Copies(m, |IdsOn(users, users.Keys - todo, c)|)
        decreases todo
      {
        var k :| k in todo;
        var ch := users[k];
        PushedOneMore(users, old(sent), sent, users.Keys - todo, k, m);
        assert users.Keys - (todo - {k}) == (users.Keys - todo) + {k};
        sent := sent[ch := ReceivedIn(sent, ch) + [m]];
        todo := todo - {k};
      }
      assert users.Keys - todo == users.Keys;
    }

    /**
      One delivering iteration of the run loop: takes the head of the
      queue and pushes it to every registered channel when it is a
      broadcast, or to the recipient's channel when it is a unicast to a
      registered ID. Go's `select` may take this branch even after
      cancellation, as long as shutdown has not happened.
    */
    method DeliverStep() returns (m: Message)
      requires Valid() && !stopped && input != []
      modifies this
      ensures Valid()
      ensures m == old(input)[0] && input == old(input)[1..]
      ensures forall c :: ReceivedIn(sent, c) == ReceivedIn(old(sent), c) + Routed(users, m, c)
      ensures cancelled == old(cancelled) && stopped == old(stopped) && users == old(users)
      ensures closes == old(closes)
    {
      m := input[0];
      input := input[1..];
      if m.broadcast {
        PushToAll(m);
      } else if m.recipient in users {
        var ch := users[m.recipient];
        sent := sent[ch := ReceivedIn(sent, ch) + [m]];
      }
    }

    /**
      The shutdown iteration of the run loop, taken once the context is
      cancelled: marks the broker stopped and closes every channel
      currently in the registry, each distinct channel exactly once.
      Queued messages stay undelivered.
    */
    method ShutdownStep()
      requires Valid() && cancelled && !stopped
      modifies this
      ensures Valid() && stopped
      ensures closes == multiset(users.Values)
      ensures cancelled == old(cancelled) && users == old(users) && input == old(input)
      ensures sent == old(sent)
    {
      stopped := true;
      var todo := users.Values;
      while todo != {}
        invariant todo <= users.Values
        invariant closes == multiset(users.Values - todo)
        invariant stopped && cancelled == old(cancelled) && users == old(users)
        invariant input == old(input) && sent == old(sent)
        decreases todo
      {
        var ch :| ch in todo;
        assert users.Values - (todo - {ch}) == (users.Values - todo) + {ch};
        closes := closes + multiset{ch};
        todo := todo - {ch};
      }
      assert users.Values - todo == users.Values;
      forall id | id in users ensures closes[users[id]] == 1 {
        assert users[id] in users.Values;
      }
    }

    /**
      The run loop while the context is live and no other caller acts:
      it delivers the whole queue in FIFO order and then waits.
    */
    method RunUntilIdle()
      requires Valid() && !cancelled && !stopped
      modifies this
      ensures Valid() && input == []
      ensures forall c :: ReceivedIn(sent, c) == ReceivedIn(old(sent), c) + RoutedAll(users, old(input), c)
      ensures cancelled == old(cancelled) && stopped == old(stopped) && users == old(users)
      ensures closes == old(closes)
    {
      ghost var q := input;
      ghost var n := 0;
      assert q[..0] == [];
      while input != []
        invariant Valid() && !stopped && users == old(users) && closes == old(closes)
        invariant cancelled == old(cancelled)
        invariant 0 <= n <= |q| && input == q[n..]
        invariant forall c :: ReceivedIn(sent, c) == ReceivedIn(old(sent), c) + RoutedAll(users, q[..n], c)
        decreases |input|
      {
        ghost var before := sent;
        var m := DeliverStep();
        DeliveredPrefix(users, old(sent), before, sent, q, n);
        n := n + 1;
      }
      assert q[..n] == q;
    }
  }

  /** First half of the scenario below: `alice` and `bob` join, then a broadcast and a private message. */
  method GreetAliceAndBob(b: Broker)
    requires b.Valid() && !b.cancelled && !b.stopped && b.users == map[] && b.input == [] && b.sent == map[]
    modifies b
    ensures b.Valid() && !b.cancelled && !b.stopped && b.input == [] && b.closes == old(b.closes)
    ensures b.users == map["alice" := 1, "bob" := 2]
    ensures ReceivedIn(b.sent, 1) == [Message("carol", "", "hi", true, 1), Message("carol", "alice", "private", false, 2)]
    ensures ReceivedIn(b.sent, 2) == [Message("carol", "", "hi", true, 1)]
  {
    var hi := Message("carol", "", "hi", true, 1);
    var private := Message("carol", "alice", "private", false, 2);
    var err := b.RegisterUser("alice", 1);
    err := b.RegisterUser("bob", 2);
    assert b.users == map["alice" := 1, "bob" := 2];
    var r := b.SendMessage(hi, false);
    var m := b.DeliverStep();
    RoutedToSubscriber(b.users, m, "alice");
    RoutedToSubscriber(b.users, m, "bob");
    assert ReceivedIn(b.sent, 1) == [hi] && ReceivedIn(b.sent, 2) == [hi];
    r := b.SendMessage(private, false);
    m := b.DeliverStep();
    RoutedToSubscriber(b.users, m, "alice");
    RoutedToSubscriber(b.users, m, "bob");
  }

  /**
    Two subscribers on their own channels: a broadcast reaches both, a
    private message only its recipient, a broadcast after `bob` leaves
    only `alice`; cancellation then closes `alice`'s channel once.
  */
  method AliceBobScenario() returns (toAlice: seq<Message>, toBob: seq<Message>, aliceCloses: nat, bobCloses: nat)
    ensures toAlice == [
      Message("carol", "", "hi", true, 1),
      Message("carol", "alice", "private", false, 2),
      Message("carol", "", "bye", true, 3)]
    ensures toBob == [Message("carol", "", "hi", true, 1)]
    ensures aliceCloses == 1 && bobCloses == 0
  {
    var bye := Message("carol", "", "bye", true, 3);
    var b := new Broker(false);
    GreetAliceAndBob(b);
    b.UnregisterUser("bob");
    assert b.users == map["alice" := 1];
    var r := b.SendMessage(bye, false);
    var m := b.DeliverStep();
    RoutedToSubscriber(b.users, m, "alice");
    assert 2 !in b.users.Values;
    b.Cancel();
    b.ShutdownStep();
    assert b.users.Values == {1};
    toAlice, toBob := ReceivedIn(b.sent, 1), ReceivedIn(b.sent, 2);
    aliceCloses, bobCloses := b.closes[1], b.closes[2];
  }
}
