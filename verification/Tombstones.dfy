// Delete tombstones: a pruned map of just-deleted emails against the full list of
// deletions. Times are nanoseconds. Single deletions and queries read the clock under
// the lock; a batch reads it before it takes the lock, so its reading may be older
// than one already stored.
module Tombstones {
  import opened Text

  const SECOND := 1_000_000_000
  const TTL := 90 * SECOND

  datatype Deletion = Deletion(emails: set<string>, at: int)

  // The stamp of the email's deletion logged last.
  function LastStamp(log: seq<Deletion>, email: string): Option<int> {
    if log == [] then None
    else
      var n := |log| - 1;
      if email in log[n].emails then Some(log[n].at) else LastStamp(log[..n], email)
  }

  // Deleted, with the TTL since the last stamp not passed.
  predicate Tombstoned(log: seq<Deletion>, email: string, now: int) {
    email != "" &&
    var stamp := LastStamp(log, email);
    stamp.Some? && now - stamp.value <= TTL
  }

  function Later(a: int, b: int): int {
    if a < b then b else a
  }

  function SetOf(emails: seq<string>): set<string> {
    set e | e in emails && e != ""
  }

  class RecentlyDeleted {
    var stamps: map<string, int>
    ghost var log: seq<Deletion>
    ghost var clock: int

    ghost predicate Valid()
      reads this
    {
      && "" !in stamps
      && (forall e :: e in stamps ==> LastStamp(log, e) == Some(stamps[e]))
      && (forall e :: e !in stamps ==> !Tombstoned(log, e, clock))
    }

    constructor (start: int)
      ensures Valid() && log == [] && clock == start
    {
      stamps, log, clock := map[], [], start;
    }

    // Drops every stamp more than the TTL older than the reading.
    method Prune(now: int)
      requires Valid()
      modifies this
      ensures Valid() && log == old(log) && clock == Later(old(clock), now)
      ensures stamps == map e | e in old(stamps) && now - old(stamps)[e] <= TTL :: old(stamps)[e]
    {
      var cutoff := now - TTL;
      stamps := map e | e in stamps && !(stamps[e] < cutoff) :: stamps[e];
      clock := Later(clock, now);
    }

    // now is the reading stored, later the one the cutoff is taken from.
    method TombstoneEmail(email: string, now: int, later: int)
      requires Valid() && clock <= now <= later
      modifies this
      ensures Valid()
      ensures email == "" ==> stamps == old(stamps) && log == old(log) && clock == old(clock)
      ensures email != "" ==> log == old(log) + [Deletion({email}, now)] && clock == later
      ensures email != "" ==> forall e :: e in stamps ==> later - stamps[e] <= TTL
    {
      if email == "" {
        return;
      }
      stamps := stamps[email := now];
      Log({email}, now);
      Prune(later);
    }

    // now may lie before readings already taken.
    method TombstoneEmails(emails: seq<string>, now: int)
      requires Valid()
      modifies this
      ensures Valid()
      ensures emails == [] ==> stamps == old(stamps) && log == old(log) && clock == old(clock)
      ensures emails != [] ==> log == old(log) + [Deletion(SetOf(emails), now)] && clock == Later(old(clock), now)
      ensures emails != [] ==> forall e :: e in stamps ==> now - stamps[e] <= TTL
    {
      if |emails| == 0 {
        return;
      }
      var updated := stamps;
      for i := 0 to |emails|
        invariant updated.Keys == stamps.Keys + SetOf(emails[..i])
        invariant forall e :: e in updated ==> updated[e] == if e in SetOf(emails[..i]) then now else stamps[e]
      {
        assert emails[..i + 1] == emails[..i] + [emails[i]];
        if emails[i] != "" {
          updated := updated[emails[i] := now];
        }
      }
      assert emails[..|emails|] == emails;
      stamps := updated;
      Log(SetOf(emails), now);
      Prune(now);
    }

    ghost method Log(emails: set<string>, now: int)
      requires "" !in emails && "" !in stamps
      requires forall e :: e in emails ==> e in stamps && stamps[e] == now
      requires forall e :: e in stamps && e !in emails ==> LastStamp(log, e) == Some(stamps[e])
      requires forall e :: e !in stamps ==> !Tombstoned(log, e, clock)
      modifies this`log, this`clock
      ensures Valid() && log == old(log) + [Deletion(emails, now)] && clock == Later(old(clock), now)
    {
      log, clock := log + [Deletion(emails, now)], Later(clock, now);
      assert log[..|log| - 1] == old(log);
    }

    // A query may drop a stamp but never changes what any later query answers.
    method IsTombstoned(email: string, now: int) returns (deleted: bool)
      requires Valid() && clock <= now
      modifies this
      ensures Valid() && log == old(log) && clock == now
      ensures deleted <==> Tombstoned(log, email, now)
    {
      clock := now;
      if email == "" {
        return false;
      }
      if email !in stamps {
        return false;
      }
      if now - stamps[email] > TTL {
        stamps := stamps - {email};
        return false;
      }
      return true;
    }
  }

  // Some deletion of the email is at most the TTL old.
  ghost predicate RecentlyDeletedIn(log: seq<Deletion>, email: string, now: int) {
    exists i :: 0 <= i < |log| && email in log[i].emails && now - log[i].at <= TTL
  }

  // No deletion of the email carries a later stamp than the one logged last.
  predicate LastIsLatest(log: seq<Deletion>, email: string) {
    forall i :: 0 <= i < |log| && email in log[i].emails ==>
                  LastStamp(log, email).Some? && log[i].at <= LastStamp(log, email).value
  }

  lemma {:induction false} LastStampLogged(log: seq<Deletion>, email: string)
    ensures LastStamp(log, email).Some? ==>
              exists i :: 0 <= i < |log| && email in log[i].emails && log[i].at == LastStamp(log, email).value
    ensures forall i :: 0 <= i < |log| && email in log[i].emails ==> LastStamp(log, email).Some?
  {
    if log != [] {
      var n := |log| - 1;
      LastStampLogged(log[..n], email);
      if email !in log[n].emails {
        if LastStamp(log, email).Some? {
          var i :| 0 <= i < n && email in log[..n][i].emails && log[..n][i].at == LastStamp(log, email).value;
          assert email in log[i].emails && log[i].at == LastStamp(log, email).value;
        }
        forall i | 0 <= i < |log| && email in log[i].emails ensures LastStamp(log, email).Some? {
          assert log[..n][i] == log[i];
        }
      }
    }
  }

  // At every moment the answer is the one the whole history gives, exactly when the
  // deletion logged last is the latest. A tombstone is never kept too long, but an
  // out-of-date batch reading can end one early.
  lemma TombstonedExactly(log: seq<Deletion>, email: string)
    requires email != ""
    ensures forall now :: Tombstoned(log, email, now) ==> RecentlyDeletedIn(log, email, now)
    ensures (forall now :: Tombstoned(log, email, now) <==> RecentlyDeletedIn(log, email, now)) <==> LastIsLatest(log, email)
  {
    LastStampLogged(log, email);
    var last := LastStamp(log, email);
    if last.Some? {
      var i :| 0 <= i < |log| && email in log[i].emails && log[i].at == last.value;
      forall now | Tombstoned(log, email, now) ensures RecentlyDeletedIn(log, email, now) {
        assert now - log[i].at <= TTL;
      }
    }
    if !LastIsLatest(log, email) {
      var i :| 0 <= i < |log| && email in log[i].emails && log[i].at > last.value;
      var now := log[i].at + TTL;
      assert RecentlyDeletedIn(log, email, now) && !Tombstoned(log, email, now);
    }
  }

  predicate InOrder(log: seq<Deletion>) {
    forall i, j :: 0 <= i < j < |log| ==> log[i].at <= log[j].at
  }

  // As when all readings were taken in order.
  lemma {:induction false} InOrderIsLatest(log: seq<Deletion>, email: string)
    requires InOrder(log)
    ensures LastIsLatest(log, email)
  {
    LastStampLogged(log, email);
    if log != [] {
      var n := |log| - 1;
      if email !in log[n].emails {
        InOrderIsLatest(log[..n], email);
        forall i | 0 <= i < |log| && email in log[i].emails ensures log[i].at <= LastStamp(log, email).value {
          assert log[..n][i] == log[i];
        }
      }
    }
  }

  // As when an email deleted at a is deleted again by a batch with the older reading b:
  // in the time between the two ends the answer is wrong. With 11 s and 10 s, at 101 s.
  lemma TombstoneEndsEarly(e: string, a: int, b: int, now: int)
    requires e != "" && b < a && b + TTL < now <= a + TTL
    ensures var log := [Deletion({e}, a), Deletion({e}, b)];
            RecentlyDeletedIn(log, e, now) && !Tombstoned(log, e, now) && !LastIsLatest(log, e)
  {
    var log := [Deletion({e}, a), Deletion({e}, b)];
    assert LastStamp(log, e) == Some(b);
    assert log[0].at == a && e in log[0].emails;
  }
}
