/**
 The organization-configuration lease: one row per (organization, key), taken by
 an insert, taken over by a conditional update when stale, and closed by
 updates guarded with the owner token.

 `Table` and `Statement` model the committed SQL statements one by one;
 `OrganizationConfigurationClient` issues them; `System` adds the callers and the
 shared clock, so that every interleaving of their statements is a run.
 */
module ConfigurationLease {
  import opened Common

  type Token = string
  datatype Key = Key(organizationId: int, name: string)
  datatype LeaseValue = Pending(owner: Token) | Completed
  datatype Row = Row(value: LeaseValue, updatedAt: int)
  type Table = map<Key, Row>

  // ---------- Committed statements ----------

  datatype Statement =
    | InsertClaim(key: Key, token: Token, now: int)
    | TakeoverClaim(key: Key, token: Token, now: int, staleAfter: int)
    | CompleteLease(key: Key, token: Token, now: int)
    | ReleaseLease(key: Key, token: Token)

  predicate Owns(t: Table, key: Key, token: Token) {
    key in t && t[key].value == Pending(token)
  }

  /** The statement's row count is positive. */
  predicate Matches(t: Table, st: Statement) {
    match st
    case InsertClaim(key, _, _) => key !in t
    case TakeoverClaim(key, _, now, staleAfter) =>
      key in t && t[key].value.Pending? && t[key].updatedAt < now - staleAfter
    case CompleteLease(key, token, _) => Owns(t, key, token)
    case ReleaseLease(key, token) => Owns(t, key, token)
  }

  function Commit(t: Table, st: Statement): Table {
    if !Matches(t, st) then t
    else match st
      case InsertClaim(key, token, now) => t[key := Row(Pending(token), now)]
      case TakeoverClaim(key, token, now, _) => t[key := Row(Pending(token), now)]
      case CompleteLease(key, _, now) => t[key := Row(Completed, now)]
      case ReleaseLease(key, _) => t - {key}
  }

  function CommitAll(t: Table, sts: seq<Statement>): Table
    decreases |sts|
  {
    if sts == [] then t else CommitAll(Commit(t, sts[0]), sts[1..])
  }

  /** The client. `now` and `ownerToken` are the clock reading and the UUID that
      the call draws; `between` holds the statements that other sessions commit
      between the two statements of a claim. */
  class OrganizationConfigurationClient {
    var rows: Table

    method ClaimConfigurationLease(key: Key, staleAfter: int, now: int, ownerToken: Token,
                                   between: seq<Statement>)
      returns (owner: Option<Token>)
      modifies this
      ensures key !in old(rows) ==>
        owner == Some(ownerToken) && rows == old(rows)[key := Row(Pending(ownerToken), now)]
      ensures key in old(rows) ==>
        var seen := CommitAll(old(rows), between);
        if key in seen && seen[key].value.Pending? && seen[key].updatedAt < now - staleAfter
        then owner == Some(ownerToken) && rows == seen[key := Row(Pending(ownerToken), now)]
        else owner == None && rows == seen
    {
      if key !in rows {
        rows := rows[key := Row(Pending(ownerToken), now)];
        return Some(ownerToken);
      }
      var i := 0;
      while i < |between|
        invariant 0 <= i <= |between|
        invariant CommitAll(rows, between[i..]) == CommitAll(old(rows), between)
      {
        rows := Commit(rows, between[i]);
        i := i + 1;
      }
      if key in rows && rows[key].value.Pending? && rows[key].updatedAt < now - staleAfter {
        rows := rows[key := Row(Pending(ownerToken), now)];
        return Some(ownerToken);
      }
      return None;
    }

    method CompleteConfigurationLease(key: Key, ownerToken: Token, now: int)
      modifies this
      ensures rows == Commit(old(rows), CompleteLease(key, ownerToken, now))
      ensures rows == if key in old(rows) && old(rows)[key].value == Pending(ownerToken)
                      then old(rows)[key := Row(Completed, now)] else old(rows)
    {
      if key in rows && rows[key].value.Pending? && rows[key].value.owner == ownerToken {
        rows := rows[key := Row(Completed, now)];
      }
    }

    method ReleaseConfigurationLease(key: Key, ownerToken: Token)
      modifies this
      ensures rows == Commit(old(rows), ReleaseLease(key, ownerToken))
      ensures rows == if key in old(rows) && old(rows)[key].value == Pending(ownerToken)
                      then old(rows) - {key} else old(rows)
    {
      if key in rows && rows[key].value.Pending? && rows[key].value.owner == ownerToken {
        rows := map k | k in rows && k != key :: rows[k];
      }
    }
  }

  // ---------- Callers, clock and runs ----------

  /** A claim call: started (clock read, token drawn), insert missed, or answered. */
  datatype Phase = Started | Missed | Won | Refused
  datatype Caller = Caller(key: Key, readAt: int, staleAfter: int, phase: Phase)

  datatype System = System(clock: int, table: Table, callers: map<Token, Caller>)

  datatype Event =
    | Tick(to: int)
    | Start(token: Token, key: Key, staleAfter: int)
    | Insert(token: Token)
    | Takeover(token: Token)
    | Complete(key: Key, token: Token)
    | Release(key: Key, token: Token)

  predicate Enabled(s: System, e: Event) {
    match e
    case Tick(to) => s.clock <= to
    case Start(token, _, _) => token !in s.callers
    case Insert(token) => token in s.callers && s.callers[token].phase == Started
    case Takeover(token) => token in s.callers && s.callers[token].phase == Missed
    case Complete(_, _) => true
    case Release(_, _) => true
  }

  /** The statement an event commits, if it commits one. */
  function StatementOf(s: System, e: Event): Option<Statement>
    requires Enabled(s, e)
  {
    match e
    case Tick(_) => None
    case Start(_, _, _) => None
    case Insert(token) => var c := s.callers[token]; Some(InsertClaim(c.key, token, c.readAt))
    case Takeover(token) =>
      var c := s.callers[token]; Some(TakeoverClaim(c.key, token, c.readAt, c.staleAfter))
    case Complete(key, token) => Some(CompleteLease(key, token, s.clock))
    case Release(key, token) => Some(ReleaseLease(key, token))
  }

  function Next(s: System, e: Event): System
    requires Enabled(s, e)
  {
    match e
    case Tick(to) => s.(clock := to)
    case Start(token, key, staleAfter) =>
      s.(callers := s.callers[token := Caller(key, s.clock, staleAfter, Started)])
    case Insert(token) =>
      var st := StatementOf(s, e).value;
      var phase := if Matches(s.table, st) then Won else Missed;
      s.(table := Commit(s.table, st), callers := s.callers[token := s.callers[token].(phase := phase)])
    case Takeover(token) =>
      var st := StatementOf(s, e).value;
      var phase := if Matches(s.table, st) then Won else Refused;
      s.(table := Commit(s.table, st), callers := s.callers[token := s.callers[token].(phase := phase)])
    case Complete(_, _) => s.(table := Commit(s.table, StatementOf(s, e).value))
    case Release(_, _) => s.(table := Commit(s.table, StatementOf(s, e).value))
  }

  /** The state after the events `es`, or None if one of them was not enabled. */
  function Run(s: System, es: seq<Event>): Option<System>
    decreases |es|
  {
    if es == [] then Some(s)
    else match Run(s, Front(es))
      case None => None
      case Some(before) => if Enabled(before, Last(es)) then Some(Next(before, Last(es))) else None
  }

  predicate Legal(s: System, es: seq<Event>) {
    Run(s, es).Some?
  }

  function Exec(s: System, es: seq<Event>): System
    requires Legal(s, es)
  {
    Run(s, es).value
  }

  lemma ExtendRun(s: System, es: seq<Event>, e: Event)
    requires Legal(s, es) && Enabled(Exec(s, es), e)
    ensures Legal(s, es + [e]) && Exec(s, es + [e]) == Next(Exec(s, es), e)
  {
    assert Front(es + [e]) == es;
  }

  /** Nobody has called yet; finished leases may already exist. */
  ghost predicate Initial(s: System) {
    s.callers == map[] && forall k :: k in s.table ==> s.table[k].value == Completed
  }

  ghost predicate Inv(s: System) {
    && (forall t :: t in s.callers ==> s.callers[t].readAt <= s.clock)
    && (forall k :: k in s.table && s.table[k].value.Pending? ==>
          var owner := s.table[k].value.owner;
          owner in s.callers && s.callers[owner].phase == Won &&
          s.callers[owner].key == k && s.callers[owner].readAt == s.table[k].updatedAt)
  }

  // ---------- The abstract lock ----------

  datatype Lock = Free | Held(owner: Token) | Done

  function Abs(s: System, k: Key): Lock {
    if k !in s.table then Free
    else match s.table[k].value
      case Pending(owner) => Held(owner)
      case Completed => Done
  }

  /** The key an event is about. */
  function Target(s: System, e: Event): Option<Key>
    requires Enabled(s, e)
  {
    match e
    case Tick(_) => None
    case Start(_, key, _) => Some(key)
    case Insert(token) => Some(s.callers[token].key)
    case Takeover(token) => Some(s.callers[token].key)
    case Complete(key, _) => Some(key)
    case Release(key, _) => Some(key)
  }

  /** What one event does to the abstract lock of `k`. Only a takeover leaves a
      choice, because the lock does not know how old its holder's claim is. */
  ghost predicate LockAllows(l: Lock, e: Event, target: Option<Key>, k: Key, l': Lock) {
    if target != Some(k) then l' == l
    else match e
      case Tick(_) => l' == l
      case Start(_, _, _) => l' == l
      case Insert(token) => l' == if l == Free then Held(token) else l
      case Takeover(token) => l' == l || (l.Held? && l.owner != token && l' == Held(token))
      case Complete(_, token) => l' == if l == Held(token) then Done else l
      case Release(_, token) => l' == if l == Held(token) then Free else l
  }

  /** The holder of `k` claimed longer ago than caller `token` is willing to wait. */
  predicate StaleFor(s: System, token: Token, k: Key)
    requires token in s.callers
  {
    k in s.table && s.table[k].value.Pending?
    && s.table[k].updatedAt < s.callers[token].readAt - s.callers[token].staleAfter
  }

  lemma StepKeepsInvariant(s: System, e: Event)
    requires Inv(s) && Enabled(s, e)
    ensures Inv(Next(s, e))
  {
    var s' := Next(s, e);
    forall k | k in s'.table && s'.table[k].value.Pending?
      ensures s'.table[k].value.owner in s'.callers
    {
      if k in s.table && s.table[k].value.Pending? {
        assert s.table[k].value.owner in s.callers;
      }
    }
  }

  /** A claim is answered with its token exactly when the lock is then held by it,
      and a takeover succeeds exactly on a stale holder. */
  lemma StepRefinesLock(s: System, e: Event, k: Key)
    requires Inv(s) && Enabled(s, e)
    ensures LockAllows(Abs(s, k), e, Target(s, e), k, Abs(Next(s, e), k))
    ensures (e.Insert? || e.Takeover?) && Target(s, e) == Some(k) ==>
              (Next(s, e).callers[e.token].phase == Won <==> Abs(Next(s, e), k) == Held(e.token))
    ensures e.Takeover? && Target(s, e) == Some(k) ==>
              (Next(s, e).callers[e.token].phase == Won <==> StaleFor(s, e.token, k))
  {
  }

  // ---------- Properties of whole runs ----------

  /** Every run keeps the invariant, moves the clock forward and never forgets or
      re-keys a caller; a caller that has won stays a winner. */
  lemma {:induction false} RunKeepsInvariant(s: System, es: seq<Event>)
    requires Inv(s) && Legal(s, es)
    ensures Inv(Exec(s, es))
    ensures s.clock <= Exec(s, es).clock
    ensures forall t :: t in s.callers ==>
      t in Exec(s, es).callers && Exec(s, es).callers[t].key == s.callers[t].key
      && Exec(s, es).callers[t].staleAfter == s.callers[t].staleAfter
      && Exec(s, es).callers[t].readAt == s.callers[t].readAt
      && (s.callers[t].phase == Won ==> Exec(s, es).callers[t].phase == Won)
    decreases |es|
  {
    if es != [] {
      RunKeepsInvariant(s, Front(es));
      StepKeepsInvariant(Exec(s, Front(es)), Last(es));
    }
  }

  lemma {:induction false} PrefixLegal(s: System, es: seq<Event>, i: nat)
    requires Legal(s, es) && i <= |es|
    ensures Legal(s, es[..i])
    decreases |es|
  {
    if i == |es| {
      assert es[..i] == es;
    } else {
      PrefixLegal(s, Front(es), i);
      assert Front(es)[..i] == es[..i];
    }
  }

  /** Every step of every run is a step of the abstract lock. */
  lemma RunRefinesLock(s: System, es: seq<Event>, i: nat, k: Key)
    requires Initial(s) && Legal(s, es) && i < |es|
    ensures Legal(s, es[..i]) && Legal(s, es[..i + 1]) && Enabled(Exec(s, es[..i]), es[i])
    ensures var before := Exec(s, es[..i]);
      && LockAllows(Abs(before, k), es[i], Target(before, es[i]), k, Abs(Exec(s, es[..i + 1]), k))
      && (es[i].Takeover? && Target(before, es[i]) == Some(k) ==>
            Abs(Exec(s, es[..i + 1]), k)
            == if StaleFor(before, es[i].token, k) then Held(es[i].token) else Abs(before, k))
  {
    PrefixLegal(s, es, i);
    PrefixLegal(s, es, i + 1);
    RunKeepsInvariant(s, es[..i]);
    assert Front(es[..i + 1]) == es[..i] && Last(es[..i + 1]) == es[i];
    StepRefinesLock(Exec(s, es[..i]), es[i], k);
  }

  /** `t` was the current holder of `k` at some moment of the run. */
  ghost predicate HeldDuring(s: System, es: seq<Event>, t: Token, k: Key) {
    exists i :: 0 <= i <= |es| && Legal(s, es[..i]) && Abs(Exec(s, es[..i]), k) == Held(t)
  }

  lemma HeldEarlier(s: System, es: seq<Event>, t: Token, k: Key)
    requires es != [] && HeldDuring(s, Front(es), t, k)
    ensures HeldDuring(s, es, t, k)
  {
    var i :| 0 <= i <= |Front(es)| && Legal(s, Front(es)[..i]) && Abs(Exec(s, Front(es)[..i]), k) == Held(t);
    assert Front(es)[..i] == es[..i];
  }

  lemma HeldNow(s: System, es: seq<Event>, t: Token, k: Key)
    requires Legal(s, es) && Abs(Exec(s, es), k) == Held(t)
    ensures HeldDuring(s, es, t, k)
  {
    assert es[..|es|] == es;
  }

  lemma NewWinnerIsHolder(s: System, e: Event, t: Token)
    requires Inv(s) && Enabled(s, e) && t in Next(s, e).callers && Next(s, e).callers[t].phase == Won
    requires t in s.callers ==> s.callers[t].phase != Won
    ensures Abs(Next(s, e), Next(s, e).callers[t].key) == Held(t)
  {
    StepRefinesLock(s, e, Next(s, e).callers[t].key);
  }

  lemma {:induction false} WinnersHeld(s: System, es: seq<Event>, t: Token)
    requires Initial(s) && Legal(s, es) && t in Exec(s, es).callers && Exec(s, es).callers[t].phase == Won
    ensures HeldDuring(s, es, t, Exec(s, es).callers[t].key)
    decreases |es|
  {
    var mid, k := Exec(s, Front(es)), Exec(s, es).callers[t].key;
    RunKeepsInvariant(s, Front(es));
    if t in mid.callers && mid.callers[t].phase == Won {
      WinnersHeld(s, Front(es), t);
      HeldEarlier(s, es, t, k);
    } else {
      NewWinnerIsHolder(mid, Last(es), t);
      HeldNow(s, es, t, k);
    }
  }

  /** A caller is answered with its token exactly when it was, at some moment of
      the run, the current holder of its key. */
  lemma {:induction false} WinnersAreHolders(s: System, es: seq<Event>, t: Token)
    requires Initial(s) && Legal(s, es) && t in Exec(s, es).callers
    ensures Exec(s, es).callers[t].phase == Won <==> HeldDuring(s, es, t, Exec(s, es).callers[t].key)
  {
    var k := Exec(s, es).callers[t].key;
    if Exec(s, es).callers[t].phase == Won {
      WinnersHeld(s, es, t);
    } else if i :| 0 <= i <= |es| && Legal(s, es[..i]) && Abs(Exec(s, es[..i]), k) == Held(t) {
      NeverHeldBeforeWinning(s, es, i, t, k);
      assert false;
    }
  }

  /** A token that held a key at some moment belongs to a winner at the end. */
  lemma {:induction false} NeverHeldBeforeWinning(s: System, es: seq<Event>, i: nat, t: Token, k: Key)
    requires Initial(s) && Legal(s, es) && i <= |es| && Legal(s, es[..i])
    requires Abs(Exec(s, es[..i]), k) == Held(t)
    ensures t in Exec(s, es).callers && Exec(s, es).callers[t].phase == Won
    ensures Exec(s, es).callers[t].key == k
    decreases |es|
  {
    RunKeepsInvariant(s, es[..i]);
    if i == |es| {
      assert es[..i] == es;
    } else {
      assert Front(es)[..i] == es[..i];
      NeverHeldBeforeWinning(s, Front(es), i, t, k);
    }
  }

  /** Done is absorbing: a completed row is never written again. */
  lemma {:induction false} CompletedForever(s: System, es: seq<Event>, k: Key)
    requires Legal(s, es) && Abs(s, k) == Done
    ensures k in Exec(s, es).table && Exec(s, es).table[k] == s.table[k]
    decreases |es|
  {
    if es != [] {
      CompletedForever(s, Front(es), k);
    }
  }

  /** Once a winner is no longer current it never is again. */
  lemma {:induction false} DisplacedForever(s: System, es: seq<Event>, t: Token, k: Key)
    requires Inv(s) && Legal(s, es)
    requires t in s.callers && s.callers[t].phase == Won && Abs(s, k) != Held(t)
    ensures Abs(Exec(s, es), k) != Held(t)
    decreases |es|
  {
    if es != [] {
      DisplacedForever(s, Front(es), t, k);
      RunKeepsInvariant(s, Front(es));
    }
  }

  /** So whatever a displaced winner later completes or releases changes nothing. */
  lemma DisplacedHolderIsFenced(s: System, es: seq<Event>, t: Token, k: Key)
    requires Inv(s) && Legal(s, es)
    requires t in s.callers && s.callers[t].phase == Won && Abs(s, k) != Held(t)
    ensures Next(Exec(s, es), Complete(k, t)) == Exec(s, es)
    ensures Next(Exec(s, es), Release(k, t)) == Exec(s, es)
  {
    DisplacedForever(s, es, t, k);
  }

  /** Every contender for `k` waits at least `window` before taking over. */
  ghost predicate ContendersWait(s: System, k: Key, window: int) {
    forall t :: t in s.callers && s.callers[t].key == k ==> s.callers[t].staleAfter >= window
  }

  lemma HolderKeepsLeaseInStep(s: System, e: Event, k: Key, t: Token, window: int)
    requires Inv(s) && Enabled(s, e) && Abs(s, k) == Held(t)
    requires e != Complete(k, t) && e != Release(k, t)
    requires ContendersWait(s, k, window)
    requires s.clock <= s.table[k].updatedAt + window
    ensures k in Next(s, e).table && Next(s, e).table[k] == s.table[k]
  {
  }

  /** While the clock is within `window` of the holder's claim timestamp, nobody
      displaces it, although contenders read the clock before either commit. */
  lemma {:induction false} HolderKeepsLeaseWithinWindow(
    s: System, es: seq<Event>, k: Key, t: Token, window: int)
    requires Inv(s) && Legal(s, es) && Abs(s, k) == Held(t)
    requires Complete(k, t) !in es && Release(k, t) !in es
    requires ContendersWait(Exec(s, es), k, window)
    requires Exec(s, es).clock <= s.table[k].updatedAt + window
    ensures k in Exec(s, es).table && Exec(s, es).table[k] == s.table[k]
    decreases |es|
  {
    if es != [] {
      var mid := Exec(s, Front(es));
      RunKeepsInvariant(s, Front(es));
      CallersPersist(mid, Last(es), k, window);
      HolderKeepsLeaseWithinWindow(s, Front(es), k, t, window);
      HolderKeepsLeaseInStep(mid, Last(es), k, t, window);
    }
  }

  lemma CallersPersist(s: System, e: Event, k: Key, window: int)
    requires Inv(s) && Enabled(s, e) && ContendersWait(Next(s, e), k, window)
    ensures ContendersWait(s, k, window) && s.clock <= Next(s, e).clock
  {
    forall t | t in s.callers && s.callers[t].key == k
      ensures s.callers[t].staleAfter >= window
    {
      assert t in Next(s, e).callers && Next(s, e).callers[t].key == k;
    }
  }

  /** A holder that completes within the window: its completion takes effect, and
      from then on the row never changes. */
  lemma TimelyCompletionTakesEffectOnce(
    s: System, es: seq<Event>, later: seq<Event>, k: Key, t: Token, window: int)
    requires Inv(s) && Legal(s, es) && Abs(s, k) == Held(t)
    requires Complete(k, t) !in es && Release(k, t) !in es
    requires ContendersWait(Exec(s, es), k, window)
    requires Exec(s, es).clock <= s.table[k].updatedAt + window
    requires Legal(Next(Exec(s, es), Complete(k, t)), later)
    ensures k in Exec(Next(Exec(s, es), Complete(k, t)), later).table
    ensures Exec(Next(Exec(s, es), Complete(k, t)), later).table[k]
            == Row(Completed, Exec(s, es).clock)
  {
    HolderKeepsLeaseWithinWindow(s, es, k, t, window);
    CompletedForever(Next(Exec(s, es), Complete(k, t)), later, k);
  }

  predicate WonOn(s: System, t: Token, k: Key) {
    t in s.callers && s.callers[t].key == k && s.callers[t].phase == Won
  }

  /** At most one caller has won `k`, one has as soon as anybody is past its insert,
      the row is the winner's, and it was claimed no earlier than `from`. */
  ghost predicate OneWinner(s: System, k: Key, from: int) {
    && (forall t, u :: WonOn(s, t, k) && WonOn(s, u, k) ==> t == u)
    && (k in s.table <==> exists t :: WonOn(s, t, k))
    && (forall c :: c in s.callers && s.callers[c].key == k && s.callers[c].phase != Started ==> k in s.table)
    && (k in s.table && s.table[k].value.Pending? ==> s.table[k].updatedAt >= from)
  }

  /** With patient contenders no takeover succeeds, so only an insert wins. */
  lemma OnlyInsertWins(s: System, e: Event, k: Key, window: int, from: int, t: Token)
    requires Inv(s) && Enabled(s, e) && OneWinner(s, k, from)
    requires ContendersWait(s, k, window) && s.clock <= from + window
    ensures WonOn(Next(s, e), t, k) <==>
      WonOn(s, t, k) || (e == Insert(t) && Target(s, e) == Some(k) && k !in s.table)
  {
    if e.Takeover? && Target(s, e) == Some(k) {
      assert !StaleFor(s, e.token, k);
    }
  }

  lemma StampsStayRecent(s: System, e: Event, k: Key, window: int, from: int)
    requires Inv(s) && Enabled(s, e) && OneWinner(s, k, from) && from <= s.clock
    requires ContendersWait(s, k, window) && s.clock <= from + window
    requires forall t :: t in s.callers ==> s.callers[t].readAt >= from
    requires !(e.Release? && e.key == k)
    ensures k in s.table ==> k in Next(s, e).table
    ensures k in Next(s, e).table && k !in s.table ==> e.Insert? && Target(s, e) == Some(k)
    ensures k in Next(s, e).table && Next(s, e).table[k].value.Pending? ==> Next(s, e).table[k].updatedAt >= from
  {
    if e.Takeover? && Target(s, e) == Some(k) {
      assert !StaleFor(s, e.token, k);
    }
  }

  lemma StepKeepsOneWinner(s: System, e: Event, k: Key, window: int, from: int)
    requires Inv(s) && Enabled(s, e) && OneWinner(s, k, from) && from <= s.clock
    requires ContendersWait(s, k, window) && s.clock <= from + window
    requires forall t :: t in s.callers ==> s.callers[t].readAt >= from
    requires !(e.Release? && e.key == k)
    ensures OneWinner(Next(s, e), k, from)
  {
    var s' := Next(s, e);
    StampsStayRecent(s, e, k, window, from);
    forall t ensures WonOn(s', t, k) <==>
      WonOn(s, t, k) || (e == Insert(t) && Target(s, e) == Some(k) && k !in s.table)
    {
      OnlyInsertWins(s, e, k, window, from, t);
    }
    if k in s.table {
      var t :| WonOn(s, t, k);
      assert WonOn(s', t, k);
    } else if k in s'.table {
      assert WonOn(s', e.token, k);
    }
  }

  /** With nothing released and every contender patient, one burst of concurrent
      callers on a free key has exactly one winner once anybody is past its insert. */
  lemma {:induction false} ExactlyOneWinner(s: System, es: seq<Event>, k: Key, window: int)
    requires Initial(s) && k !in s.table && Legal(s, es)
    requires forall e :: e in es ==> !(e.Release? && e.key == k)
    requires ContendersWait(Exec(s, es), k, window) && Exec(s, es).clock <= s.clock + window
    ensures OneWinner(Exec(s, es), k, s.clock)
    decreases |es|
  {
    if es != [] {
      var mid := Exec(s, Front(es));
      RunKeepsInvariant(s, Front(es));
      CallersPersist(mid, Last(es), k, window);
      ExactlyOneWinner(s, Front(es), k, window);
      ReadsAfterStart(s, Front(es));
      assert Last(es) in es;
      StepKeepsOneWinner(mid, Last(es), k, window, s.clock);
    }
  }

  lemma {:induction false} ReadsAfterStart(s: System, es: seq<Event>)
    requires Initial(s) && Legal(s, es)
    ensures forall t :: t in Exec(s, es).callers ==> Exec(s, es).callers[t].readAt >= s.clock
    decreases |es|
  {
    if es != [] {
      ReadsAfterStart(s, Front(es));
      RunKeepsInvariant(s, Front(es));
    }
  }

  // ---------- Claims within one life of a row ----------

  datatype Claim = Claim(token: Token, at: int, staleAfter: int)

  /** The claims that succeeded on `k` since the row last appeared. */
  ghost function ClaimsInLife(s: System, es: seq<Event>, k: Key): seq<Claim>
    requires Legal(s, es)
    decreases |es|
  {
    if es == [] then []
    else
      var before, e := Exec(s, Front(es)), Last(es);
      var claims := ClaimsInLife(s, Front(es), k);
      if (e.Insert? || e.Takeover?) && before.callers[e.token].key == k
         && Matches(before.table, StatementOf(before, e).value)
      then claims + [Claim(e.token, before.callers[e.token].readAt, before.callers[e.token].staleAfter)]
      else if e.Release? && e.key == k && Owns(before.table, k, e.token) then []
      else claims
  }

  predicate Spaced(claims: seq<Claim>) {
    forall i :: 0 < i < |claims| ==> claims[i].at - claims[i - 1].at > claims[i].staleAfter
  }

  /** While the lease is held, the last claim is the holder's. */
  ghost predicate EndsWithHolder(s: System, k: Key, claims: seq<Claim>) {
    match Abs(s, k)
    case Free => claims == []
    case Held(t) => claims != [] && Last(claims).token == t && Last(claims).at == s.table[k].updatedAt
    case Done => true
  }

  /** Successive claims within one life are further apart than the later
      claimant's `staleAfter`, and the last one is the current holder. */
  lemma {:induction false} ClaimsAreSpaced(s: System, es: seq<Event>, k: Key)
    requires Initial(s) && Legal(s, es)
    ensures Spaced(ClaimsInLife(s, es, k)) && EndsWithHolder(Exec(s, es), k, ClaimsInLife(s, es, k))
    decreases |es|
  {
    if es != [] {
      ClaimsAreSpaced(s, Front(es), k);
      RunKeepsInvariant(s, Front(es));
      ClaimIsSpaced(Exec(s, Front(es)), Last(es), k, ClaimsInLife(s, Front(es), k));
    }
  }

  predicate Claims(s: System, e: Event, k: Key) {
    Enabled(s, e) && (e.Insert? || e.Takeover?) && s.callers[e.token].key == k
    && Matches(s.table, StatementOf(s, e).value)
  }

  lemma ClaimIsSpaced(s: System, e: Event, k: Key, claims: seq<Claim>)
    requires Inv(s) && Enabled(s, e) && Spaced(claims) && EndsWithHolder(s, k, claims)
    ensures Claims(s, e, k) ==>
      var more := claims + [Claim(e.token, s.callers[e.token].readAt, s.callers[e.token].staleAfter)];
      Spaced(more) && EndsWithHolder(Next(s, e), k, more)
    ensures !Claims(s, e, k) && e.Release? && e.key == k && Owns(s.table, k, e.token) ==>
      EndsWithHolder(Next(s, e), k, [])
    ensures !Claims(s, e, k) && !(e.Release? && e.key == k && Owns(s.table, k, e.token)) ==>
      EndsWithHolder(Next(s, e), k, claims)
  {
  }

  /** The window runs from the clock reading, not from the commit: a winner whose
      insert landed late can be displaced at the very instant it won. */
  lemma LateInsertIsDisplacedAtOnce()
    ensures exists s, es, k ::
      Initial(s) && Legal(s, es) && |es| == 6 && Legal(s, es[..4]) &&
      Abs(Exec(s, es[..4]), k) == Held("a") && Abs(Exec(s, es), k) == Held("b") &&
      Exec(s, es[..4]).clock == Exec(s, es).clock
  {
    var k := Key(1, "bootstrap");
    var s := System(0, map[], map[]);
    var e := [Start("a", k, 10), Tick(11), Start("b", k, 10), Insert("a"), Insert("b"), Takeover("b")];
    assert Legal(s, []);
    assert e[..1] == [] + [e[0]] && e[..2] == e[..1] + [e[1]] && e[..3] == e[..2] + [e[2]];
    assert e[..4] == e[..3] + [e[3]] && e[..5] == e[..4] + [e[4]] && e == e[..5] + [e[5]];
    ExtendRun(s, [], e[0]);
    ExtendRun(s, e[..1], e[1]);
    ExtendRun(s, e[..2], e[2]);
    ExtendRun(s, e[..3], e[3]);
    ExtendRun(s, e[..4], e[4]);
    ExtendRun(s, e[..5], e[5]);
    assert Abs(Exec(s, e[..4]), k) == Held("a") && Abs(Exec(s, e), k) == Held("b");
  }
}
