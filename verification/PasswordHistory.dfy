/** Changing a password without reusing recent ones (api/services/auth_service.py). A bcrypt hash is
    taken as the password it was made from. */
module PasswordHistory {
  import opened Options

  type Password = string

  const CHECKED := 5
  const KEPT := 10
  const MIN_LENGTH := 8

  datatype Outcome = Changed | PolicyViolation | AccountNotFound | WrongPassword | UsedRecently

  /** The last `n` elements, Python's `xs[-n:]`. */
  function LastOf(xs: seq<Password>, n: nat): seq<Password> {
    if |xs| <= n then xs else xs[|xs| - n..]
  }

  /** Python's character classes, which the source takes from Unicode tables. */
  datatype Classes = Classes(upper: char -> bool, lower: char -> bool, digit: char -> bool)

  predicate Acceptable(classes: Classes, p: Password) {
    && |p| >= MIN_LENGTH
    && (exists i | 0 <= i < |p| :: classes.upper(p[i]))
    && (exists i | 0 <= i < |p| :: classes.lower(p[i]))
    && (exists i | 0 <= i < |p| :: classes.digit(p[i]))
  }

  class Credentials {
    const classes: Classes
    var password: Password
    /** A nullable JSON column. */
    var history: Option<seq<Password>>

    constructor (classes: Classes, initial: Password)
      ensures this.classes == classes && password == initial && history.None?
    {
      this.classes, this.password, this.history := classes, initial, None;
    }

    function Past(): seq<Password>
      reads this
    {
      if history.Some? then history.value else []
    }

    /** The loop over the last five stored hashes. */
    method RecentlyUsed(candidate: Password) returns (used: bool)
      ensures used <==> candidate in LastOf(Past(), CHECKED)
    {
      var recent := LastOf(if history.Some? then history.value else [], CHECKED);
      var i := 0;
      while i < |recent|
        invariant 0 <= i <= |recent|
        invariant candidate !in recent[..i]
      {
        if candidate == recent[i] {
          return true;
        }
        i := i + 1;
      }
      return false;
    }

    method Store(candidate: Password)
      modifies this
      ensures password == candidate && history == Some(LastOf(old(Past()) + [old(password)], KEPT))
    {
      var past := (if history.Some? then history.value else []) + [password];
      password := candidate;
      history := Some(LastOf(past, KEPT));
    }

    /** The change with the current password given. */
    method ResetPassword(current: Password, candidate: Password) returns (outcome: Outcome)
      modifies this
      ensures outcome == PolicyViolation <==> !Acceptable(classes, candidate)
      ensures outcome == PolicyViolation <==>
        || |candidate| < 8
        || (forall c :: c in candidate ==> !classes.upper(c))
        || (forall c :: c in candidate ==> !classes.lower(c))
        || (forall c :: c in candidate ==> !classes.digit(c))
      ensures outcome == WrongPassword <==> Acceptable(classes, candidate) && current != old(password)
      ensures outcome == UsedRecently <==>
        Acceptable(classes, candidate) && current == old(password) && candidate in LastOf(old(Past()), CHECKED)
      ensures outcome == Changed ==> password == candidate
      ensures outcome == Changed ==> history == Some(LastOf(old(Past()) + [old(password)], KEPT))
      ensures outcome != Changed ==> password == old(password) && history == old(history)
      ensures outcome != AccountNotFound
    {
      if !Acceptable(classes, candidate) {
        return PolicyViolation;
      }
      if current != password {
        return WrongPassword;
      }
      var used := RecentlyUsed(candidate);
      if used {
        return UsedRecently;
      }
      Store(candidate);
      return Changed;
    }

    /** The change with a reset token, `tokenValid` once it has been looked up and consumed. */
    method CompleteReset(tokenValid: bool, candidate: Password) returns (outcome: Outcome)
      modifies this
      ensures outcome == PolicyViolation <==> !Acceptable(classes, candidate)
      ensures outcome == PolicyViolation <==>
        || |candidate| < 8
        || (forall c :: c in candidate ==> !classes.upper(c))
        || (forall c :: c in candidate ==> !classes.lower(c))
        || (forall c :: c in candidate ==> !classes.digit(c))
      ensures outcome == AccountNotFound <==> Acceptable(classes, candidate) && !tokenValid
      ensures outcome == UsedRecently <==>
        Acceptable(classes, candidate) && tokenValid && candidate in LastOf(old(Past()), CHECKED)
      ensures outcome == Changed ==> password == candidate
      ensures outcome == Changed ==> history == Some(LastOf(old(Past()) + [old(password)], KEPT))
      ensures outcome != Changed ==> password == old(password) && history == old(history)
      ensures outcome != WrongPassword
    {
      if !Acceptable(classes, candidate) {
        return PolicyViolation;
      }
      if !tokenValid {
        return AccountNotFound;
      }
      var used := RecentlyUsed(candidate);
      if used {
        return UsedRecently;
      }
      Store(candidate);
      return Changed;
    }
  }

  // ---------------------------------------------------------------- runs of changes

  /** The stored state both kinds of change work on. */
  datatype Stored = Stored(password: Password, history: seq<Password>)

  /** Whether the reuse check lets a candidate through, and the state after the change. */
  predicate Allowed(s: Stored, candidate: Password) {
    candidate !in LastOf(s.history, CHECKED)
  }

  function Change(s: Stored, candidate: Password): Stored {
    Stored(candidate, LastOf(s.history + [s.password], KEPT))
  }

  /** `ps` is the sequence of passwords in use, each change accepted: the state at its end. */
  function After(ps: seq<Password>): Stored
    requires ps != []
  {
    if |ps| == 1 then Stored(ps[0], []) else Change(After(ps[..|ps| - 1]), ps[|ps| - 1])
  }

  predicate Accepted(ps: seq<Password>)
    requires ps != []
  {
    |ps| == 1 || (Accepted(ps[..|ps| - 1]) && Allowed(After(ps[..|ps| - 1]), ps[|ps| - 1]))
  }

  lemma LastOfLonger(xs: seq<Password>, x: Password, n: nat)
    requires n > 0
    ensures LastOf(LastOf(xs, n) + [x], n) == LastOf(xs + [x], n)
  {
  }

  lemma LastOfShorter(xs: seq<Password>, m: nat, n: nat)
    requires m <= n
    ensures LastOf(LastOf(xs, n), m) == LastOf(xs, m)
  {
  }

  /** The stored history is the replaced passwords, the last ten of them, in order. */
  lemma {:induction false} HistoryKept(ps: seq<Password>)
    requires ps != []
    ensures After(ps) == Stored(ps[|ps| - 1], LastOf(ps[..|ps| - 1], KEPT))
  {
    if |ps| > 1 {
      var front := ps[..|ps| - 1];
      HistoryKept(front);
      assert front == front[..|front| - 1] + [front[|front| - 1]];
      LastOfLonger(front[..|front| - 1], front[|front| - 1], KEPT);
    }
  }

  /** Entry by entry: at most ten, ending with the password before the current one. */
  lemma HistoryEntries(ps: seq<Password>)
    requires ps != []
    ensures var history := After(ps).history;
      && |history| == (if |ps| - 1 < 10 then |ps| - 1 else 10)
      && forall k :: 0 <= k < |history| ==> history[k] == ps[|ps| - 1 - |history| + k]
  {
    HistoryKept(ps);
  }

  /** Membership in the last `n` by position. */
  lemma InLastOf(xs: seq<Password>, n: nat, x: Password)
    ensures x in LastOf(xs, n) <==> exists i :: 0 <= i < |xs| && |xs| - i <= n && xs[i] == x
  {
    var recent := LastOf(xs, n);
    var offset := |xs| - |recent|;
    if x in recent {
      var k :| 0 <= k < |recent| && recent[k] == x;
      assert xs[offset + k] == x;
    }
    if i :| 0 <= i < |xs| && |xs| - i <= n && xs[i] == x {
      assert recent[i - offset] == x;
    }
  }

  /** Keeping ten entries checks exactly what keeping all of them would: a candidate passes just when
      it is none of the five passwords before the current one. */
  lemma KeepingTenSuffices(ps: seq<Password>, candidate: Password)
    requires ps != []
    ensures Allowed(After(ps), candidate) <==>
      forall i :: 0 <= i < |ps| - 1 && |ps| - 1 - i <= 5 ==> ps[i] != candidate
  {
    var replaced := ps[..|ps| - 1];
    AllowedIs(ps, candidate);
    if i :| 0 <= i < |replaced| && |replaced| - i <= CHECKED && replaced[i] == candidate {
      assert ps[i] == candidate;
    }
    forall i | 0 <= i < |ps| - 1 && |ps| - 1 - i <= CHECKED && ps[i] == candidate
      ensures !Allowed(After(ps), candidate)
    {
      assert replaced[i] == candidate;
    }
  }

  lemma AllowedIs(ps: seq<Password>, candidate: Password)
    requires ps != []
    ensures var replaced := ps[..|ps| - 1];
      Allowed(After(ps), candidate) <==>
        !exists i :: 0 <= i < |replaced| && |replaced| - i <= CHECKED && replaced[i] == candidate
  {
    HistoryKept(ps);
    LastOfShorter(ps[..|ps| - 1], CHECKED, KEPT);
    InLastOf(ps[..|ps| - 1], CHECKED, candidate);
  }

  /** Over any sequence of accepted changes each password differs from the second to the sixth before
      it; nothing is promised of the one just before. */
  lemma {:induction false} NoRecentReuse(ps: seq<Password>, i: nat, j: nat)
    requires ps != [] && Accepted(ps) && j < |ps| && i < j && 2 <= j - i <= 6
    ensures ps[i] != ps[j]
  {
    if j == |ps| - 1 {
      var front := ps[..|ps| - 1];
      KeepingTenSuffices(front, ps[j]);
      assert front[i] == ps[i];
    } else {
      NoRecentReuse(ps[..|ps| - 1], i, j);
    }
  }

  /** The current password itself is not checked: it can be set again exactly when it is none of the
      five before it, so an accepted change need not change anything. */
  lemma CurrentReusable(ps: seq<Password>)
    requires ps != []
    ensures Allowed(After(ps), ps[|ps| - 1]) <==>
      forall i :: 0 <= i < |ps| - 1 && |ps| - 1 - i <= 5 ==> ps[i] != ps[|ps| - 1]
    ensures |ps| == 1 ==> Accepted(ps + ps)
  {
    KeepingTenSuffices(ps, ps[|ps| - 1]);
    if |ps| == 1 {
      assert (ps + ps)[..1] == ps && (ps + ps)[1] == ps[0];
    }
  }
}
