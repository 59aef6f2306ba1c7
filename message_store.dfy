/**
  The in-memory chat message log of lab02 (`message.MessageStore`):
  an append-only list of messages that can be listed whole or filtered
  by sender. The read-write mutex around the list is left out: every
  operation is one atomic step.
*/
module MessageLog {

  /** A chat message; `timestamp` is assigned by the producer. */
  datatype Message = Message(sender: string, content: string, timestamp: int)

  /** The messages of `log` sent by `user`, in log order. */
  function FromSender(log: seq<Message>, user: string): (r: seq<Message>)
    ensures |r| <= |log|
    ensures forall i :: 0 <= i < |r| ==> r[i] in log
  {
    if log == [] then []
    else
      var rest := FromSender(log[1..], user);
      assert forall i :: 0 <= i < |rest| ==> rest[i] in log by {
        forall i | 0 <= i < |rest| ensures rest[i] in log {
          assert rest[i] in log[1..];
        }
      }
      (if log[0].sender == user then [log[0]] else []) + rest
  }

  /** `a` occurs in `b` in order, possibly with gaps. */
  predicate IsSubsequence<T(==)>(a: seq<T>, b: seq<T>)
    decreases |b|
  {
    if a == [] then true
    else if b == [] then false
    else if a[0] == b[0] then IsSubsequence(a[1..], b[1..])
    else IsSubsequence(a, b[1..])
  }

  /** Filtering a log that grew by one message at the back. */
  lemma {:induction false} FromSenderSnoc(log: seq<Message>, m: Message, user: string)
    ensures FromSender(log + [m], user)
         == FromSender(log, user) + (if m.sender == user then [m] else [])
  {
    var tail := if m.sender == user then [m] else [];
    if log == [] {
      assert log + [m] == [m];
      assert FromSender([m], user) == tail + FromSender([], user);
    } else {
      var s := log + [m];
      var head := if log[0].sender == user then [log[0]] else [];
      assert s[0] == log[0] && s[1..] == log[1..] + [m];
      calc {
        FromSender(s, user);
        head + FromSender(log[1..] + [m], user);
        { FromSenderSnoc(log[1..], m, user); }
        head + (FromSender(log[1..], user) + tail);
        (head + FromSender(log[1..], user)) + tail;
      }
    }
  }

  /** Only messages from `user` are returned. */
  lemma {:induction false} FromSenderOnlyFromUser(log: seq<Message>, user: string)
    ensures forall i :: 0 <= i < |FromSender(log, user)| ==> FromSender(log, user)[i].sender == user
  {
    if log != [] {
      FromSenderOnlyFromUser(log[1..], user);
    }
  }

  /** Every message from `user` is returned, as often as it was logged. */
  lemma {:induction false} FromSenderComplete(log: seq<Message>, user: string, m: Message)
    ensures multiset(FromSender(log, user))[m] == if m.sender == user then multiset(log)[m] else 0
  {
    if log != [] {
      FromSenderComplete(log[1..], user, m);
      assert log == [log[0]] + log[1..];
    }
  }

  /** The filter keeps the log order: its result is a subsequence of the log. */
  lemma {:induction false} FromSenderKeepsOrder(log: seq<Message>, user: string)
    ensures IsSubsequence(FromSender(log, user), log)
  {
    if log != [] {
      FromSenderKeepsOrder(log[1..], user);
      var rest := FromSender(log[1..], user);
      if log[0].sender != user && rest != [] {
        FromSenderOnlyFromUser(log[1..], user);
        assert rest[0].sender == user;
        assert FromSender(log, user) == rest;
      }
    }
  }

  class MessageStore {
    /** The stored messages, oldest first. */
    var messages: seq<Message>

    /** A new store holds no messages. */
    constructor ()
      ensures messages == []
    {
      messages := [];
    }

    /** Appends `msg` at the end of the log; it never fails. */
    method AddMessage(msg: Message)
      modifies this
      ensures messages == old(messages) + [msg]
    {
      messages := messages + [msg];
    }

    /**
      Lists the log: all of it when `user` is empty, otherwise the
      messages whose sender is `user`, in log order. Never fails and
      leaves the log unchanged.
    */
    method GetMessages(user: string) returns (result: seq<Message>)
      ensures user == "" ==> result == messages
      ensures user != "" ==> result == FromSender(messages, user)
      ensures user != "" ==> forall i :: 0 <= i < |result| ==> result[i].sender == user
    {
      if user == "" {
        result := messages;
        return;
      }
      result := [];
      var i := 0;
      while i < |messages|
        invariant 0 <= i <= |messages|
        invariant result == FromSender(messages[..i], user)
      {
        FromSenderSnoc(messages[..i], messages[i], user);
        assert messages[..i + 1] == messages[..i] + [messages[i]];
        if messages[i].sender == user {
          result := result + [messages[i]];
        }
        i := i + 1;
      }
      assert messages[..i] == messages;
      FromSenderOnlyFromUser(messages, user);
    }
  }
}
