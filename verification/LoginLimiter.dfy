// The login limiter: failures pruned to a sliding window, blocks with a cooldown,
// against a specification that never forgets a failure.
module LoginLimiter {
  import opened Text

  // ---------- the limiter key ----------

  const NUL := 0 as char

  function LoginLimitKey(ip: string, username: string): string {
    Trim(ip) + [NUL] + Lower(Trim(username))
  }

  // Addresses hold no NUL, so two attempts share a key only when their trimmed
  // addresses and their folded user names agree.
  lemma KeyInjective(ip: string, user: string, ip2: string, user2: string)
    requires NUL !in Trim(ip) && NUL !in Trim(ip2)
    ensures LoginLimitKey(ip, user) == LoginLimitKey(ip2, user2) <==>
            Trim(ip) == Trim(ip2) && Lower(Trim(user)) == Lower(Trim(user2))
  {
    var a, b := Trim(ip), Trim(ip2);
    var k, l := LoginLimitKey(ip, user), LoginLimitKey(ip2, user2);
    if k == l {
      assert k[|a|] == NUL && l[|b|] == NUL;
      assert forall i :: 0 <= i < |a| ==> k[i] == a[i] != NUL;
      assert forall i :: 0 <= i < |b| ==> l[i] == b[i] != NUL;
      assert |a| == |b|;
      assert a == k[..|a|] && b == l[..|b|];
      assert Lower(Trim(user)) == k[|a| + 1..] && Lower(Trim(user2)) == l[|b| + 1..];
    }
  }

  // ---------- the full-history specification ----------

  datatype Event = Allow(key: string, now: int) | Failure(key: string, now: int) | Success(key: string)

  datatype Policy = Policy(maxFailures: int, window: nat, cooldown: nat)

  // history: every failure since the last success or block; until: the end of the
  // last block.
  datatype State = State(history: seq<int>, until: Option<int>)

  function CountSince(times: seq<int>, cutoff: int): nat {
    if times == [] then 0
    else CountSince(times[..|times| - 1], cutoff) + (if times[|times| - 1] >= cutoff then 1 else 0)
  }

  predicate Blocks(p: Policy, s: State, now: int) {
    CountSince(s.history + [now], now - p.window) >= p.maxFailures
  }

  function After(p: Policy, s: State, key: string, e: Event): State {
    if e.key != key then s else
      match e
      case Allow(_, _) => s
      case Success(_) => State([], None)
      case Failure(_, now) =>
        if Blocks(p, s, now) then State([], Some(now + p.cooldown)) else State(s.history + [now], s.until)
  }

  function StateOf(p: Policy, log: seq<Event>, key: string): State {
    if log == [] then State([], None)
    else After(p, StateOf(p, log[..|log| - 1], key), key, log[|log| - 1])
  }

  predicate Refused(s: State, now: int) {
    s.until.Some? && now < s.until.value
  }

  // ---------- pruning ----------

  predicate Sorted(times: seq<int>) {
    forall i, j :: 0 <= i < j < |times| ==> times[i] <= times[j]
  }

  lemma {:induction false} CountConcat(a: seq<int>, b: seq<int>, cutoff: int)
    ensures CountSince(a + b, cutoff) == CountSince(a, cutoff) + CountSince(b, cutoff)
  {
    if b == [] {
      assert a + b == a;
    } else {
      assert (a + b)[..|a + b| - 1] == a + b[..|b| - 1];
      CountConcat(a, b[..|b| - 1], cutoff);
    }
  }

  lemma {:induction false} CountNone(times: seq<int>, cutoff: int)
    requires forall i :: 0 <= i < |times| ==> times[i] < cutoff
    ensures CountSince(times, cutoff) == 0
  {
    if times != [] { CountNone(times[..|times| - 1], cutoff); }
  }

  lemma {:induction false} CountAll(times: seq<int>, cutoff: int)
    requires forall i :: 0 <= i < |times| ==> times[i] >= cutoff
    ensures CountSince(times, cutoff) == |times|
  {
    if times != [] { CountAll(times[..|times| - 1], cutoff); }
  }

  // kept is history without some failures that are out of the window for good.
  ghost predicate PrunedTo(history: seq<int>, kept: seq<int>, cutoff: int) {
    && |kept| <= |history| && kept == history[|history| - |kept|..]
    && forall i :: 0 <= i < |history| - |kept| ==> history[i] < cutoff
  }

  // ---------- the limiter ----------

  // blockedUntil is None for the zero time.
  datatype Record = Record(failures: seq<int>, blockedUntil: Option<int>)

  const NO_RECORD := Record([], None)

  function RecordOf(attempts: map<string, Record>, key: string): Record {
    if key in attempts then attempts[key] else NO_RECORD
  }

  // The stored record stands for the specification's state at any time from `last` on.
  ghost predicate Stands(p: Policy, r: Record, s: State, last: int) {
    && Sorted(s.history) && (forall i :: 0 <= i < |s.history| ==> s.history[i] <= last)
    && PrunedTo(s.history, r.failures, last - p.window)
    && (r.blockedUntil == s.until || (r.blockedUntil.None? && !Refused(s, last)))
  }

  lemma StandsLater(p: Policy, r: Record, s: State, last: int, now: int)
    requires Stands(p, r, s, last) && last <= now
    ensures Stands(p, r, s, now)
  {}

  method PruneLoginFailures(failures: seq<int>, cutoff: int) returns (kept: seq<int>)
    ensures |kept| <= |failures| && kept == failures[|failures| - |kept|..]
    ensures forall i :: 0 <= i < |failures| - |kept| ==> failures[i] < cutoff
    ensures kept != [] ==> kept[0] >= cutoff
  {
    var keepFrom := 0;
    while keepFrom < |failures| && failures[keepFrom] < cutoff
      invariant 0 <= keepFrom <= |failures|
      invariant forall i :: 0 <= i < keepFrom ==> failures[i] < cutoff
    {
      keepFrom := keepFrom + 1;
    }
    return failures[keepFrom..];
  }

  lemma SortedCount(history: seq<int>, n: nat, cutoff: int)
    requires Sorted(history) && n <= |history|
    requires forall i :: 0 <= i < n ==> history[i] < cutoff
    requires n < |history| ==> history[n] >= cutoff
    ensures CountSince(history, cutoff) == |history| - n
  {
    assert history == history[..n] + history[n..];
    CountConcat(history[..n], history[n..], cutoff);
    CountNone(history[..n], cutoff);
    CountAll(history[n..], cutoff);
  }

  // What is left after pruning is exactly what the full history counts.
  lemma PrunedCounts(history: seq<int>, failures: seq<int>, kept: seq<int>, earlier: int, cutoff: int)
    requires Sorted(history) && earlier <= cutoff && PrunedTo(history, failures, earlier)
    requires |kept| <= |failures| && kept == failures[|failures| - |kept|..]
    requires forall i :: 0 <= i < |failures| - |kept| ==> failures[i] < cutoff
    requires kept != [] ==> kept[0] >= cutoff
    ensures PrunedTo(history, kept, cutoff)
    ensures CountSince(history, cutoff) == |kept|
  {
    var n := |history| - |kept|;
    assert kept == history[n..];
    forall i | 0 <= i < n ensures history[i] < cutoff {
      var d := |history| - |failures|;
      if i >= d {
        assert failures[i - d] == history[i];
      }
    }
    SortedCount(history, n, cutoff);
  }

  // ---------- one event each, on values ----------

  ghost predicate AllStand(p: Policy, attempts: map<string, Record>, log: seq<Event>, clock: int) {
    forall key :: Stands(p, RecordOf(attempts, key), StateOf(p, log, key), clock)
  }

  // An event that changes its own key's record only.
  lemma AllStandAfter(p: Policy, attempts: map<string, Record>, attempts': map<string, Record>, log: seq<Event>, e: Event, clock: int, now: int)
    requires AllStand(p, attempts, log, clock) && clock <= now
    requires forall k :: k != e.key ==> RecordOf(attempts', k) == RecordOf(attempts, k)
    requires Stands(p, RecordOf(attempts', e.key), After(p, StateOf(p, log, e.key), e.key, e), now)
    ensures AllStand(p, attempts', log + [e], now)
  {
    hide Stands;
    assert (log + [e])[..|log|] == log;
    forall k ensures Stands(p, RecordOf(attempts', k), StateOf(p, log + [e], k), now) {
      if k != e.key {
        StandsLater(p, RecordOf(attempts, k), StateOf(p, log, k), clock, now);
      }
    }
  }

  // The record after its failures were pruned to `kept` at `now`.
  ghost predicate Pruned(p: Policy, r: Record, kept: seq<int>, now: int) {
    && |kept| <= |r.failures| && kept == r.failures[|r.failures| - |kept|..]
    && (forall i :: 0 <= i < |r.failures| - |kept| ==> r.failures[i] < now - p.window)
    && (kept != [] ==> kept[0] >= now - p.window)
  }

  lemma PrunedSound(p: Policy, r: Record, s: State, kept: seq<int>, last: int, now: int)
    requires Stands(p, r, s, last) && last <= now && Pruned(p, r, kept, now)
    ensures PrunedTo(s.history, kept, now - p.window)
    ensures CountSince(s.history + [now], now - p.window) == |kept| + 1
  {
    hide PrunedTo;
    CountAll([now], now - p.window);
    PrunedCounts(s.history, r.failures, kept, last - p.window, now - p.window);
    CountConcat(s.history, [now], now - p.window);
  }

  lemma AfterAllow(p: Policy, r: Record, s: State, kept: seq<int>, last: int, now: int)
    requires Stands(p, r, s, last) && last <= now && Pruned(p, r, kept, now)
    requires r.blockedUntil.Some? ==> now >= r.blockedUntil.value
    ensures Stands(p, Record(kept, None), s, now) && !Refused(s, now)
  {
    PrunedCounts(s.history, r.failures, kept, last - p.window, now - p.window);
  }

  lemma AfterBlock(p: Policy, s: State, key: string, now: int)
    requires Blocks(p, s, now)
    ensures Stands(p, Record([], Some(now + p.cooldown)), After(p, s, key, Failure(key, now)), now)
  {
    hide Blocks;
  }

  lemma AfterFailure(p: Policy, r: Record, s: State, kept: seq<int>, key: string, last: int, now: int)
    requires Stands(p, r, s, last) && last <= now && PrunedTo(s.history, kept, now - p.window) && !Blocks(p, s, now)
    ensures Stands(p, Record(kept + [now], r.blockedUntil), After(p, s, key, Failure(key, now)), now)
  {
    hide Blocks;
    hide PrunedTo;
    PrunedExtends(s.history, kept, now - p.window, now);
  }

  // The pruned failures count as the full history does.
  lemma FailureCounts(p: Policy, attempts: map<string, Record>, log: seq<Event>, key: string, kept: seq<int>, last: int, now: int)
    requires AllStand(p, attempts, log, last) && last <= now && Pruned(p, RecordOf(attempts, key), kept, now)
    ensures Blocks(p, StateOf(p, log, key), now) <==> |kept| + 1 >= p.maxFailures
    ensures PrunedTo(StateOf(p, log, key).history, kept, now - p.window)
  {
    hide PrunedTo, Pruned;
    assert Stands(p, RecordOf(attempts, key), StateOf(p, log, key), last);
    PrunedSound(p, RecordOf(attempts, key), StateOf(p, log, key), kept, last, now);
  }

  // What a failure leaves stored stands for the state after it.
  lemma FailureStands(p: Policy, attempts: map<string, Record>, log: seq<Event>, key: string, kept: seq<int>, last: int, now: int)
    requires AllStand(p, attempts, log, last) && last <= now && Pruned(p, RecordOf(attempts, key), kept, now)
    ensures var r := RecordOf(attempts, key);
            AllStand(p, attempts[key := if |kept| + 1 >= p.maxFailures then Record([], Some(now + p.cooldown)) else Record(kept + [now], r.blockedUntil)],
                     log + [Failure(key, now)], now)
  {
    hide PrunedTo, Pruned, Blocks, AllStand, Stands;
    var r, s := RecordOf(attempts, key), StateOf(p, log, key);
    FailureCounts(p, attempts, log, key, kept, last, now);
    RecordStands(p, attempts, log, key, last);
    if |kept| + 1 >= p.maxFailures {
      AfterBlock(p, s, key, now);
    } else {
      AfterFailure(p, r, s, kept, key, last, now);
    }
    var stored := if |kept| + 1 >= p.maxFailures then Record([], Some(now + p.cooldown)) else Record(kept + [now], r.blockedUntil);
    AllStandAfter(p, attempts, attempts[key := stored], log, Failure(key, now), last, now);
  }

  lemma RecordStands(p: Policy, attempts: map<string, Record>, log: seq<Event>, key: string, last: int)
    requires AllStand(p, attempts, log, last)
    ensures Stands(p, RecordOf(attempts, key), StateOf(p, log, key), last)
  {}

  // ---------- the limiter itself ----------

  class Limiter {
    const policy: Policy
    var attempts: map<string, Record>
    ghost var log: seq<Event>
    ghost var clock: int

    ghost predicate Valid()
      reads this
    {
      AllStand(policy, attempts, log, clock)
    }

    constructor (policy: Policy, start: int)
      ensures Valid() && this.policy == policy && log == [] && clock == start && attempts == map[]
    {
      this.policy := policy;
      attempts, log, clock := map[], [], start;
    }

    method Allow(ip: string, username: string, now: int) returns (until: Option<int>, ok: bool)
      requires Valid() && clock <= now
      modifies this
      ensures Valid() && clock == now && log == old(log) + [Event.Allow(LoginLimitKey(ip, username), now)]
      ensures var s := StateOf(policy, old(log), LoginLimitKey(ip, username));
              (ok <==> !Refused(s, now)) && until == if ok then None else s.until
    {
      hide PrunedTo;
      hide LoginLimitKey;
      var key := LoginLimitKey(ip, username);
      ghost var before, s, last, earlier := attempts, StateOf(policy, log, key), clock, log;
      ghost var e := Event.Allow(key, now);
      assert Stands(policy, RecordOf(before, key), s, last);
      StandsLater(policy, RecordOf(before, key), s, last, now);
      log, clock := log + [e], now;
      if key !in attempts {
        AllStandAfter(policy, before, before, earlier, e, last, now);
        return None, true;
      }
      var record := attempts[key];
      if record.blockedUntil.Some? && now < record.blockedUntil.value {
        AllStandAfter(policy, before, before, earlier, e, last, now);
        return record.blockedUntil, false;
      }
      var kept := PruneLoginFailures(record.failures, now - policy.window);
      AfterAllow(policy, record, s, kept, last, now);
      var pruned := if |kept| == 0 then attempts - {key} else attempts[key := Record(kept, None)];
      AllStandAfter(policy, before, pruned, earlier, e, last, now);
      attempts := pruned;
      return None, true;
    }

    method RegisterFailure(ip: string, username: string, now: int) returns (until: Option<int>, blocked: bool)
      requires Valid() && clock <= now
      modifies this
      ensures Valid() && clock == now && log == old(log) + [Failure(LoginLimitKey(ip, username), now)]
      ensures blocked <==> Blocks(policy, StateOf(policy, old(log), LoginLimitKey(ip, username)), now)
      ensures until == if blocked then Some(now + policy.cooldown) else None
    {
      hide LoginLimitKey, StateOf, Blocks, AllStand;
      var key := LoginLimitKey(ip, username);
      var record := if key in attempts then attempts[key] else NO_RECORD;
      var kept := PruneLoginFailures(record.failures, now - policy.window);
      FailureCounts(policy, attempts, log, key, kept, clock, now);
      FailureStands(policy, attempts, log, key, kept, clock, now);
      var failures := kept + [now];
      log, clock := log + [Failure(key, now)], now;
      if |failures| >= policy.maxFailures {
        attempts := attempts[key := Record([], Some(now + policy.cooldown))];
        return Some(now + policy.cooldown), true;
      }
      attempts := attempts[key := Record(failures, record.blockedUntil)];
      return None, false;
    }

    method RegisterSuccess(ip: string, username: string)
      requires Valid()
      modifies this
      ensures Valid() && clock == old(clock) && log == old(log) + [Success(LoginLimitKey(ip, username))]
      ensures LoginLimitKey(ip, username) !in attempts
    {
      var key := LoginLimitKey(ip, username);
      ghost var before, earlier := attempts, log;
      log := log + [Success(key)];
      attempts := attempts - {key};
      AllStandAfter(policy, before, attempts, earlier, Success(key), clock, clock);
    }
  }

  lemma PrunedExtends(history: seq<int>, kept: seq<int>, cutoff: int, now: int)
    requires PrunedTo(history, kept, cutoff)
    ensures PrunedTo(history + [now], kept + [now], cutoff)
  {}

  // ---------- what the specification says ----------

  function WithoutAllows(log: seq<Event>): seq<Event> {
    if log == [] then [] else
      var n := |log| - 1;
      if log[n].Allow? then WithoutAllows(log[..n]) else WithoutAllows(log[..n]) + [log[n]]
  }

  // Interleaved allow calls never change any later answer.
  lemma {:induction false} AllowsInvisible(p: Policy, log: seq<Event>, key: string)
    ensures StateOf(p, WithoutAllows(log), key) == StateOf(p, log, key)
  {
    if log != [] {
      var n := |log| - 1;
      AllowsInvisible(p, log[..n], key);
      var rest := WithoutAllows(log[..n]);
      assert (rest + [log[n]])[..|rest|] == rest;
    }
  }

  function OnlyKey(log: seq<Event>, key: string): seq<Event> {
    if log == [] then [] else
      var n := |log| - 1;
      if log[n].key == key then OnlyKey(log[..n], key) + [log[n]] else OnlyKey(log[..n], key)
  }

  // Keys do not affect each other: a key's answers depend on its own events only.
  lemma {:induction false} KeysIndependent(p: Policy, log: seq<Event>, key: string)
    ensures StateOf(p, OnlyKey(log, key), key) == StateOf(p, log, key)
  {
    if log != [] {
      var n := |log| - 1;
      KeysIndependent(p, log[..n], key);
      var rest := OnlyKey(log[..n], key);
      assert (rest + [log[n]])[..|rest|] == rest;
    }
  }

  // No success for the key and no new block in the events from index n on.
  ghost predicate Undisturbed(p: Policy, log: seq<Event>, n: nat, key: string) {
    forall i :: n <= i < |log| && log[i].key == key ==>
      !log[i].Success? && (log[i].Failure? ==> !Blocks(p, StateOf(p, log[..i], key), log[i].now))
  }

  // A block lasts exactly the cooldown unless a success or a new block intervenes.
  lemma {:induction false} BlockLastsCooldown(p: Policy, log: seq<Event>, n: nat, key: string, now: int)
    requires n < |log| && log[n].Failure? && log[n].key == key && Blocks(p, StateOf(p, log[..n], key), log[n].now)
    requires Undisturbed(p, log, n + 1, key)
    ensures Refused(StateOf(p, log, key), now) <==> now < log[n].now + p.cooldown
  {
    var last := |log| - 1;
    if n < last {
      var prior := log[..last];
      assert prior[..n] == log[..n];
      forall i | n + 1 <= i < |prior| && prior[i].key == key
        ensures !prior[i].Success? && (prior[i].Failure? ==> !Blocks(p, StateOf(p, prior[..i], key), prior[i].now))
      {
        assert prior[..i] == log[..i] && prior[i] == log[i];
      }
      BlockLastsCooldown(p, prior, n, key, now);
    }
  }

  // ---------- what blocks, without the counting ----------

  lemma {:induction false} SortedCounts(s: seq<int>, cutoff: int, m: nat)
    requires Sorted(s)
    ensures CountSince(s, cutoff) >= m <==> m == 0 || (m <= |s| && s[|s| - m] >= cutoff)
    decreases |s|
  {
    if s != [] && m > 0 {
      var n := |s| - 1;
      SortedCounts(s[..n], cutoff, m - 1);
      CountAtMost(s, cutoff);
      if s[n] < cutoff { CountNone(s, cutoff); }
    }
  }

  lemma {:induction false} CountAtMost(s: seq<int>, cutoff: int)
    ensures CountSince(s, cutoff) <= |s|
  {
    if s != [] { CountAtMost(s[..|s| - 1], cutoff); }
  }

  // The failures ts[..i + 1] end with maxFailures of them within one window.
  predicate Crowded(p: Policy, ts: seq<int>, i: int) {
    0 <= i < |ts| && (p.maxFailures <= 1 || (p.maxFailures <= i + 1 && ts[i + 1 - p.maxFailures] >= ts[i] - p.window))
  }

  function Failures(key: string, ts: seq<int>): (log: seq<Event>)
    ensures |log| == |ts| && forall i :: 0 <= i < |ts| ==> log[i] == Failure(key, ts[i])
  {
    seq(|ts|, i requires 0 <= i < |ts| => Failure(key, ts[i]))
  }

  lemma BlocksIsCrowded(p: Policy, ts: seq<int>, until: Option<int>)
    requires Sorted(ts) && ts != []
    ensures Blocks(p, State(ts[..|ts| - 1], until), ts[|ts| - 1]) <==> Crowded(p, ts, |ts| - 1)
  {
    var n := |ts| - 1;
    assert ts[..n] + [ts[n]] == ts;
    if p.maxFailures > 0 {
      SortedCounts(ts, ts[n] - p.window, p.maxFailures);
      assert p.maxFailures == 1 ==> ts[|ts| - 1] >= ts[n] - p.window;
    }
  }

  lemma FrontQuiet(p: Policy, ts: seq<int>)
    requires ts != [] && Sorted(ts) && forall i :: 0 <= i < |ts| - 1 ==> !Crowded(p, ts, i)
    ensures var front := ts[..|ts| - 1]; Sorted(front) && forall i :: 0 <= i < |front| ==> !Crowded(p, front, i)
  {
    var front := ts[..|ts| - 1];
    assert forall i :: 0 <= i < |front| ==> (Crowded(p, front, i) <==> Crowded(p, ts, i));
  }

  lemma FailuresMore(key: string, ts: seq<int>)
    requires ts != []
    ensures var n := |ts| - 1; Failures(key, ts) == Failures(key, ts[..n]) + [Failure(key, ts[n])]
  {}

  lemma StateAfter(p: Policy, log: seq<Event>, key: string, now: int)
    ensures var s := StateOf(p, log, key);
      StateOf(p, log + [Failure(key, now)], key) ==
      if Blocks(p, s, now) then State([], Some(now + p.cooldown)) else State(s.history + [now], s.until)
  {
    hide Blocks;
    assert (log + [Failure(key, now)])[..|log|] == log;
  }

  // Failures in order, none of which completes maxFailures of them within one window,
  // block nothing; the first that does blocks for the cooldown and starts afresh.
  lemma {:induction false} FirstCrowdBlocks(p: Policy, key: string, ts: seq<int>)
    requires Sorted(ts) && forall i :: 0 <= i < |ts| - 1 ==> !Crowded(p, ts, i)
    ensures StateOf(p, Failures(key, ts), key) ==
            if Crowded(p, ts, |ts| - 1) then State([], Some(ts[|ts| - 1] + p.cooldown)) else State(ts, None)
  {
    hide Blocks;
    if ts == [] {
      assert Failures(key, ts) == [];
    } else {
      var n := |ts| - 1;
      var front := ts[..n];
      FrontQuiet(p, ts);
      FirstCrowdBlocks(p, key, front);
      BlocksIsCrowded(p, ts, None);
      FailuresMore(key, ts);
      StateAfter(p, Failures(key, front), key, ts[n]);
      InRange(p, front);
      hide StateOf, Crowded, Failures, Sorted;
      assert front + [ts[n]] == ts;
    }
  }

  lemma InRange(p: Policy, ts: seq<int>)
    requires forall i :: 0 <= i < |ts| ==> !Crowded(p, ts, i)
    ensures !Crowded(p, ts, |ts| - 1)
  {}

  // A success clears the key's history and its block.
  lemma SuccessClears(p: Policy, log: seq<Event>, key: string, now: int)
    ensures var s := StateOf(p, log + [Success(key)], key); s == State([], None) && !Refused(s, now)
  {
    assert (log + [Success(key)])[..|log|] == log;
  }
}
