/**
  User records of lab02 (`user.User`, `user.UserManager`): field
  validation in a fixed order, the email shape check, and a registry
  of users keyed by ID. The registry's mutex is left out (each
  operation is one atomic step) and its context is reduced to a
  `cancelled` flag that, once set, stays set.
*/
module Users {
  import opened Wrappers

  datatype User = User(name: string, email: string, id: string)

  /** The empty user returned alongside a lookup error. */
  const NoUser := User("", "", "")

  /** Number of occurrences of `ch` in `s`. */
  function CountChar(s: string, ch: char): nat
  {
    if s == [] then 0 else (if s[0] == ch then 1 else 0) + CountChar(s[1..], ch)
  }

  /** `ch` does not occur in `s`. */
  predicate Lacks(s: string, ch: char)
  {
    forall i :: 0 <= i < |s| ==> s[i] != ch
  }

  /** Position of the first `ch` in `s`, or `|s|` when there is none. */
  function IndexOf(s: string, ch: char): (i: nat)
    ensures i <= |s|
    ensures i < |s| ==> s[i] == ch
    ensures Lacks(s[..i], ch)
  {
    if s == [] then 0
    else if s[0] == ch then 0
    else
      var j := IndexOf(s[1..], ch);
      assert s[..j + 1] == [s[0]] + s[1..][..j];
      1 + j
  }

  /**
    The email check stated directly: exactly one '@', something before
    it, and a '.' after it that is neither the first nor the last
    character of the part after the '@'.
  */
  predicate IsValidEmail(email: string)
    ensures IsValidEmail(email) ==>
      var at := IndexOf(email, '@');
      0 < at < |email| - 3 && email[at] == '@' && Lacks(email[..at], '@')
  {
    && CountChar(email, '@') == 1
    && var at := IndexOf(email, '@');
       0 < at && exists k :: at + 1 < k < |email| - 1 && email[k] == '.'
  }

  /**
    The language of the regular expression `^[^@]+@[^@]+\.[^@]+$`:
    three non-empty runs without '@', joined by '@' and by '.'.
  */
  ghost predicate MatchesEmailPattern(s: string)
  {
    exists at, dot ::
      && 0 < at && at + 1 < dot && dot + 1 < |s|
      && s[at] == '@' && s[dot] == '.'
      && Lacks(s[..at], '@') && Lacks(s[at + 1..dot], '@') && Lacks(s[dot + 1..], '@')
  }

  lemma {:induction false} CountZeroIffLacks(s: string, ch: char)
    ensures CountChar(s, ch) == 0 <==> Lacks(s, ch)
  {
    if s != [] {
      CountZeroIffLacks(s[1..], ch);
      if Lacks(s[1..], ch) && s[0] != ch {
        forall i | 0 <= i < |s| ensures s[i] != ch {
          if i > 0 { assert s[i] == s[1..][i - 1]; }
        }
      }
    }
  }

  lemma {:induction false} CountSplit(s: string, i: nat, ch: char)
    requires i <= |s|
    ensures CountChar(s, ch) == CountChar(s[..i], ch) + CountChar(s[i..], ch)
  {
    if i > 0 {
      CountSplit(s[1..], i - 1, ch);
      assert s[1..][..i - 1] == s[..i][1..];
      assert s[1..][i - 1..] == s[i..];
    }
  }

  /** A string whose only '@' is at `at` has one '@', and it is the first. */
  lemma SingleAt(s: string, at: nat)
    requires at < |s| && s[at] == '@'
    requires Lacks(s[..at], '@') && Lacks(s[at + 1..], '@')
    ensures CountChar(s, '@') == 1 && IndexOf(s, '@') == at
  {
    CountSplit(s, at, '@');
    CountZeroIffLacks(s[..at], '@');
    CountZeroIffLacks(s[at + 1..], '@');
    assert s[at..] == [s[at]] + s[at + 1..];
  }

  lemma LacksJoin(a: string, c: char, b: string, ch: char)
    requires Lacks(a, ch) && c != ch && Lacks(b, ch)
    ensures Lacks(a + [c] + b, ch)
  {
    var s := a + [c] + b;
    forall i | 0 <= i < |s| ensures s[i] != ch {
      if i > |a| { assert s[i] == b[i - |a| - 1]; }
    }
  }

  /** Every string the direct check accepts matches the regular expression. */
  lemma EmailCheckSound(s: string)
    requires IsValidEmail(s)
    ensures MatchesEmailPattern(s)
  {
    var at := IndexOf(s, '@');
    var k :| at + 1 < k < |s| - 1 && s[k] == '.';
    CountSplit(s, at, '@');
    CountZeroIffLacks(s[..at], '@');
    assert s[at..] == [s[at]] + s[at + 1..];
    CountZeroIffLacks(s[at + 1..], '@');
    var domain, host, top := s[at + 1..], s[at + 1..k], s[k + 1..];
    assert Lacks(host, '@') by {
      forall i | 0 <= i < |host| ensures host[i] != '@' {
        assert host[i] == domain[i];
      }
    }
    assert Lacks(top, '@') by {
      forall i | 0 <= i < |top| ensures top[i] != '@' {
        assert top[i] == domain[i + k - at];
      }
    }
  }

  /** Every string matching the regular expression passes the direct check. */
  lemma EmailCheckComplete(s: string)
    requires MatchesEmailPattern(s)
    ensures IsValidEmail(s)
  {
    var at, dot :|
      && 0 < at && at + 1 < dot && dot + 1 < |s|
      && s[at] == '@' && s[dot] == '.'
      && Lacks(s[..at], '@') && Lacks(s[at + 1..dot], '@') && Lacks(s[dot + 1..], '@');
    LacksJoin(s[at + 1..dot], s[dot], s[dot + 1..], '@');
    assert s[at + 1..] == s[at + 1..dot] + [s[dot]] + s[dot + 1..];
    SingleAt(s, at);
    assert at + 1 < dot < |s| - 1 && s[dot] == '.';
  }

  /** The direct statement of the email check agrees with the regular expression. */
  lemma EmailCheckMatchesPattern(s: string)
    ensures IsValidEmail(s) <==> MatchesEmailPattern(s)
  {
    if IsValidEmail(s) { EmailCheckSound(s); }
    if MatchesEmailPattern(s) { EmailCheckComplete(s); }
  }

  /**
    Checks the fields in order: name, then ID, then email; the first
    failing check decides the error.
  */
  function Validate(u: User): (err: Option<string>)
    ensures u.name == "" ==> err == Some("name cannot be empty")
    ensures u.name != "" && u.id == "" ==> err == Some("id cannot be empty")
    ensures u.name != "" && u.id != "" && !MatchesEmailPattern(u.email) ==> err == Some("invalid email")
    ensures err == None <==> u.name != "" && u.id != "" && MatchesEmailPattern(u.email)
  {
    EmailCheckMatchesPattern(u.email);
    if u.name == "" then Some("name cannot be empty")
    else if u.id == "" then Some("id cannot be empty")
    else if !IsValidEmail(u.email) then Some("invalid email")
    else None
  }

  class UserManager {
    /** Whether the manager's context has been cancelled. */
    var cancelled: bool
    var users: map<string, User>

    /** Every stored user is valid and stored under its own ID. */
    ghost predicate Valid()
      reads this
    {
      forall id :: id in users ==> users[id].id == id && Validate(users[id]) == None
    }

    /** A manager with a context that is never cancelled. */
    constructor ()
      ensures Valid() && !cancelled && users == map[]
    {
      cancelled := false;
      users := map[];
    }

    /** A manager bound to an outside context, possibly already cancelled. */
    constructor WithContext(ctxCancelled: bool)
      ensures Valid() && cancelled == ctxCancelled && users == map[]
    {
      cancelled := ctxCancelled;
      users := map[];
    }

    /** The outside context is cancelled; this cannot be undone. */
    method Cancel()
      modifies this
      ensures cancelled && users == old(users)
    {
      cancelled := true;
    }

    /**
      Stores `u` under its ID, replacing any earlier entry. Fails with
      "context canceled" before validation when cancelled, and with the
      validation error on an invalid user; a failure changes nothing.
    */
    method AddUser(u: User) returns (err: Option<string>)
      requires Valid()
      modifies this
      ensures Valid() && cancelled == old(cancelled)
      ensures old(cancelled) ==> err == Some("context canceled")
      ensures !old(cancelled) ==> err == Validate(u)
      ensures users == if err == None then old(users)[u.id := u] else old(users)
    {
      if cancelled {
        return Some("context canceled");
      }
      err := Validate(u);
      if err != None {
        return;
      }
      users := users[u.id := u];
    }

    /** Removes the user with ID `id`, if any; it never fails. */
    method RemoveUser(id: string) returns (err: Option<string>)
      requires Valid()
      modifies this
      ensures Valid() && cancelled == old(cancelled)
      ensures err == None && users == old(users) - {id}
    {
      users := users - {id};
      err := None;
    }

    /** Looks up the user with ID `id`; fails with "not found" when absent. */
    method GetUser(id: string) returns (u: User, err: Option<string>)
      requires Valid()
      ensures id in users ==> err == None && u == users[id]
      ensures id !in users ==> err == Some("not found") && u == NoUser
      ensures err == None ==> u.id == id && Validate(u) == None
    {
      if id !in users {
        return NoUser, Some("not found");
      }
      u, err := users[id], None;
    }
  }
}
