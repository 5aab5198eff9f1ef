// The client IP limit: each scan merges what the access log shows into the stored
// list, keeps the newest live addresses and hands the rest to the ban log.
module ClientIps {
  import opened Text

  datatype Sighting = Sighting(ip: string, at: int)

  datatype Limited = Limited(email: string, limitIp: int)

  // The inbound of the scanned client; its settings may be blank.
  datatype Inbound = Inbound(enable: bool, blank: bool, clients: seq<Limited>)

  const STALE_AFTER := 1800

  predicate DistinctIps(s: seq<Sighting>) {
    forall i, j :: 0 <= i < j < |s| ==> s[i].ip != s[j].ip
  }

  predicate Sorted(s: seq<Sighting>) {
    forall i, j :: 0 <= i < j < |s| ==> s[i].at <= s[j].at
  }

  // ---------- merging ----------

  function Kept(old_: seq<Sighting>, cutoff: int): map<string, int> {
    if old_ == [] then map[]
    else
      var n := |old_| - 1;
      var m := Kept(old_[..n], cutoff);
      if old_[n].at < cutoff then m else m[old_[n].ip := old_[n].at]
  }

  function Merged(old_: seq<Sighting>, seen: seq<Sighting>, cutoff: int): map<string, int> {
    if seen == [] then Kept(old_, cutoff)
    else
      var n := |seen| - 1;
      var m, s := Merged(old_, seen[..n], cutoff), seen[n];
      if s.at >= cutoff && (s.ip !in m || s.at > m[s.ip]) then m[s.ip := s.at] else m
  }

  method MergeClientIps(old_: seq<Sighting>, seen: seq<Sighting>, staleCutoff: int) returns (ipMap: map<string, int>)
    ensures ipMap == Merged(old_, seen, staleCutoff)
  {
    ipMap := map[];
    for i := 0 to |old_|
      invariant ipMap == Kept(old_[..i], staleCutoff)
    {
      assert old_[..i + 1][..i] == old_[..i];
      if old_[i].at >= staleCutoff {
        ipMap := ipMap[old_[i].ip := old_[i].at];
      }
    }
    assert old_[..|old_|] == old_;
    for i := 0 to |seen|
      invariant ipMap == Merged(old_, seen[..i], staleCutoff)
    {
      assert seen[..i + 1][..i] == seen[..i];
      if seen[i].at >= staleCutoff && (seen[i].ip !in ipMap || seen[i].at > ipMap[seen[i].ip]) {
        ipMap := ipMap[seen[i].ip := seen[i].at];
      }
    }
    assert seen[..|seen|] == seen;
  }

  // The latest time a list gives for an address.
  function LatestIn(s: seq<Sighting>, ip: string): Option<int> {
    if s == [] then None
    else
      var n := |s| - 1;
      if s[n].ip == ip then Later(LatestIn(s[..n], ip), Some(s[n].at)) else LatestIn(s[..n], ip)
  }

  function Later(a: Option<int>, b: Option<int>): Option<int> {
    if a.None? then b else if b.None? || b.value <= a.value then a else b
  }

  // What survives the cutoff.
  function Since(a: Option<int>, cutoff: int): Option<int> {
    if a.Some? && a.value >= cutoff then a else None
  }

  function Lookup(m: map<string, int>, ip: string): Option<int> {
    if ip in m then Some(m[ip]) else None
  }

  lemma {:induction false} LatestInHolds(s: seq<Sighting>, ip: string)
    ensures var l := LatestIn(s, ip);
            (l.Some? ==> Sighting(ip, l.value) in s) && forall e :: e in s && e.ip == ip ==> l.Some? && e.at <= l.value
  {
    if s != [] {
      LatestInHolds(s[..|s| - 1], ip);
      assert s == s[..|s| - 1] + [s[|s| - 1]];
    }
  }

  lemma {:induction false} KeptHolds(old_: seq<Sighting>, cutoff: int, ip: string)
    requires DistinctIps(old_)
    ensures Lookup(Kept(old_, cutoff), ip) == Since(LatestIn(old_, ip), cutoff)
  {
    if old_ != [] {
      var n := |old_| - 1;
      KeptHolds(old_[..n], cutoff, ip);
      LatestInHolds(old_[..n], ip);
      assert old_[n].ip == ip ==> forall i :: 0 <= i < n ==> old_[..n][i].ip != ip;
    }
  }

  // Each merged time is the latest one on either side that is not stale.
  lemma {:induction false} MergedHolds(old_: seq<Sighting>, seen: seq<Sighting>, cutoff: int, ip: string)
    requires DistinctIps(old_)
    ensures Lookup(Merged(old_, seen, cutoff), ip) == Since(Later(LatestIn(old_, ip), LatestIn(seen, ip)), cutoff)
  {
    if seen == [] {
      KeptHolds(old_, cutoff, ip);
    } else {
      MergedHolds(old_, seen[..|seen| - 1], cutoff, ip);
    }
  }

  // ---------- sorting and splitting ----------

  function Insert(s: seq<Sighting>, x: Sighting): (r: seq<Sighting>)
    requires Sorted(s)
    ensures Sorted(r) && multiset(r) == multiset(s) + multiset{x}
  {
    if s == [] || s[|s| - 1].at <= x.at then s + [x]
    else
      var front := Insert(s[..|s| - 1], x);
      InsertedBefore(front, s, x);
      front + [s[|s| - 1]]
  }

  lemma InsertedBefore(front: seq<Sighting>, s: seq<Sighting>, x: Sighting)
    requires s != [] && Sorted(s) && Sorted(front) && x.at <= s[|s| - 1].at
    requires multiset(front) == multiset(s[..|s| - 1]) + multiset{x}
    ensures var r := front + [s[|s| - 1]];
            Sorted(r) && multiset(r) == multiset(s) + multiset{x}
  {
    SplitLast(s);
    BoundedBy(front, s[..|s| - 1], x, s[|s| - 1].at);
  }

  lemma SplitLast(s: seq<Sighting>)
    requires s != []
    ensures multiset(s) == multiset(s[..|s| - 1]) + multiset{s[|s| - 1]}
  {
    assert s == s[..|s| - 1] + [s[|s| - 1]];
  }

  lemma BoundedBy(r: seq<Sighting>, s: seq<Sighting>, x: Sighting, bound: int)
    requires multiset(r) == multiset(s) + multiset{x}
    requires x.at <= bound && forall i :: 0 <= i < |s| ==> s[i].at <= bound
    ensures forall i :: 0 <= i < |r| ==> r[i].at <= bound
  {
    forall i | 0 <= i < |r| ensures r[i].at <= bound {
      assert r[i] in multiset(r);
      assert r[i] in multiset(s) || r[i] == x;
    }
  }

  method SortByTime(s: seq<Sighting>) returns (r: seq<Sighting>)
    ensures Sorted(r) && multiset(r) == multiset(s)
  {
    r := [];
    for i := 0 to |s|
      invariant Sorted(r) && multiset(r) == multiset(s[..i])
    {
      assert s[..i + 1] == s[..i] + [s[i]];
      r := Insert(r, s[i]);
    }
    assert s[..|s|] == s;
  }

  // One entry for each address of the map that was, or was not, in this scan,
  // oldest first.
  ghost predicate Lists(r: seq<Sighting>, m: map<string, int>, observed: set<string>, live: bool) {
    && Sorted(r) && DistinctIps(r)
    && forall e :: e in r <==> e.ip in m && m[e.ip] == e.at && (e.ip in observed <==> live)
  }

  predicate NoRepeats(s: seq<Sighting>) {
    forall i, j :: 0 <= i < j < |s| ==> s[i] != s[j]
  }

  lemma {:induction false} Counts(s: seq<Sighting>, x: Sighting)
    requires NoRepeats(s)
    ensures multiset(s)[x] == if x in s then 1 else 0
  {
    if s != [] {
      var n := |s| - 1;
      Counts(s[..n], x);
      assert s == s[..n] + [s[n]];
    }
  }

  lemma {:induction false} CountedOnce(s: seq<Sighting>)
    requires forall x :: multiset(s)[x] <= 1
    ensures NoRepeats(s)
  {
    if s != [] {
      var n := |s| - 1;
      assert s == s[..n] + [s[n]];
      assert forall x :: multiset(s[..n])[x] <= multiset(s)[x];
      CountedOnce(s[..n]);
      assert multiset(s)[s[n]] == multiset(s[..n])[s[n]] + 1;
      assert s[n] !in s[..n];
    }
  }

  // A sorted permutation of one entry per address still has one entry per address.
  lemma Resorted(s: seq<Sighting>, r: seq<Sighting>)
    requires DistinctIps(s) && multiset(r) == multiset(s)
    ensures DistinctIps(r) && forall e :: e in r <==> e in s
  {
    assert forall e :: e in r <==> e in multiset(r);
    assert forall e :: e in s <==> e in multiset(s);
    forall x | true ensures multiset(s)[x] <= 1 { Counts(s, x); }
    CountedOnce(r);
    forall i, j | 0 <= i < j < |r| ensures r[i].ip != r[j].ip {
      assert r[i] in s && r[j] in s;
    }
  }

  method PartitionLiveIps(ipMap: map<string, int>, observed: set<string>) returns (live: seq<Sighting>, historical: seq<Sighting>)
    ensures Lists(live, ipMap, observed, true) && Lists(historical, ipMap, observed, false)
  {
    var on, off := [], [];
    var left := ipMap.Keys;
    while left != {}
      invariant left <= ipMap.Keys && DistinctIps(on) && DistinctIps(off)
      invariant forall e :: e in on <==> e.ip in ipMap && ipMap[e.ip] == e.at && e.ip in observed && e.ip !in left
      invariant forall e :: e in off <==> e.ip in ipMap && ipMap[e.ip] == e.at && e.ip !in observed && e.ip !in left
      decreases left
    {
      var ip :| ip in left;
      var entry := Sighting(ip, ipMap[ip]);
      assert forall i :: 0 <= i < |on| ==> on[i] in on && on[i].ip != ip;
      assert forall i :: 0 <= i < |off| ==> off[i] in off && off[i].ip != ip;
      if ip in observed {
        on := on + [entry];
      } else {
        off := off + [entry];
      }
      left := left - {ip};
    }
    live := SortByTime(on);
    historical := SortByTime(off);
    Resorted(on, live);
    Resorted(off, historical);
  }

  // ---------- one scan ----------

  function LimitOf(clients: seq<Limited>, email: string): Option<int> {
    if clients == [] then None
    else if clients[0].email == email then Some(clients[0].limitIp)
    else LimitOf(clients[1..], email)
  }

  function Observed(seen: seq<Sighting>): (r: set<string>)
    ensures forall ip :: ip in r <==> exists e :: e in seen && e.ip == ip
  {
    set e | e in seen :: e.ip
  }

  function Excess(live: seq<Sighting>, limit: int): (n: nat)
    requires limit > 0
    ensures n <= |live|
  {
    if |live| > limit then |live| - limit else 0
  }

  function Ips(s: seq<Sighting>): (r: seq<string>)
    ensures |r| == |s| && forall i :: 0 <= i < |s| ==> r[i] == s[i].ip
  {
    seq(|s|, i requires 0 <= i < |s| => s[i].ip)
  }

  // The client's stored row.
  class ClientIpsRow {
    var ips: seq<Sighting>

    // A client seen for the first time is stored as scanned.
    constructor (seen: seq<Sighting>)
      ensures ips == seen
    {
      ips := seen;
    }
  }

  // The first client with the email has the limit.
  predicate FirstLimit(clients: seq<Limited>, email: string, i: int, limit: int) {
    0 <= i < |clients| && clients[i] == Limited(email, limit) && forall j :: 0 <= j < i ==> clients[j].email != email
  }

  lemma {:induction false} LimitIs(clients: seq<Limited>, email: string)
    ensures var l := LimitOf(clients, email);
      if l.Some? then exists i :: FirstLimit(clients, email, i, l.value) else forall c :: c in clients ==> c.email != email
  {
    if clients != [] {
      LimitIs(clients[1..], email);
      assert clients == [clients[0]] + clients[1..];
      var l := LimitOf(clients[1..], email);
      if clients[0].email == email {
        assert FirstLimit(clients, email, 0, clients[0].limitIp);
      } else if l.Some? {
        var i :| FirstLimit(clients[1..], email, i, l.value);
        forall j | 0 <= j < i + 1 ensures clients[j].email != email {
          if j > 0 { assert clients[j] == clients[1..][j - 1]; }
        }
        assert FirstLimit(clients, email, i + 1, l.value);
      }
    }
  }

  method FindLimit(clients: seq<Limited>, email: string) returns (limitIp: int, found: bool)
    ensures found == LimitOf(clients, email).Some?
    ensures found ==> limitIp == LimitOf(clients, email).value
    ensures if found then exists i :: FirstLimit(clients, email, i, limitIp) else forall c :: c in clients ==> c.email != email
  {
    LimitIs(clients, email);
    limitIp, found := 0, false;
    var i := 0;
    while i < |clients| && !found
      invariant i <= |clients|
      invariant !found ==> LimitOf(clients, email) == LimitOf(clients[i..], email)
      invariant found ==> LimitOf(clients, email) == Some(limitIp)
    {
      if clients[i].email == email {
        limitIp, found := clients[i].limitIp, true;
      }
      i := i + 1;
    }
  }

  class CheckClientIpJob {
    var disAllowedIps: seq<string>

    // live and historical are the two sides of this scan when it enforces.
    method UpdateInboundClientIps(row: ClientIpsRow, inbound: Option<Inbound>, email: string, seen: seq<Sighting>,
                                  enforce: bool, now: int, logOpens: bool, saves: bool)
      returns (cleanLog: bool, ghost live: seq<Sighting>, ghost historical: seq<Sighting>)
      modifies this, row
      ensures inbound.None? || inbound.value.blank ==>
                !cleanLog && row.ips == old(row.ips) && disAllowedIps == old(disAllowedIps)
      ensures inbound.Some? && !inbound.value.blank &&
              !(enforce && inbound.value.enable && LimitOf(inbound.value.clients, email).Some? && LimitOf(inbound.value.clients, email).value > 0) ==>
                !cleanLog && row.ips == (if saves then seen else old(row.ips)) && disAllowedIps == old(disAllowedIps)
      ensures inbound.Some? && !inbound.value.blank &&
              enforce && inbound.value.enable && LimitOf(inbound.value.clients, email).Some? && LimitOf(inbound.value.clients, email).value > 0 ==>
                var limit := LimitOf(inbound.value.clients, email).value;
                var m := Merged(old(row.ips), seen, now - STALE_AFTER);
                var cut := Excess(live, limit);
                && Lists(live, m, Observed(seen), true) && Lists(historical, m, Observed(seen), false)
                && cleanLog == (|live| > limit && logOpens && saves)
                && disAllowedIps == (if logOpens then Ips(live[..cut]) else [])
                && row.ips == (if saves && (logOpens || |live| <= limit) then live[cut..] + historical else old(row.ips))
    {
      cleanLog, live, historical := false, [], [];
      if inbound.None? || inbound.value.blank {
        return;
      }
      var limitIp, found := FindLimit(inbound.value.clients, email);
      if !enforce || !found || limitIp <= 0 || !inbound.value.enable {
        if saves {
          row.ips := seen;
        }
        return;
      }
      var ipMap := MergeClientIps(row.ips, seen, now - STALE_AFTER);
      var observedThisScan := Observed(seen);
      var liveIps, historicalIps := PartitionLiveIps(ipMap, observedThisScan);
      live, historical := liveIps, historicalIps;
      disAllowedIps := [];
      var keptLive := liveIps;
      var shouldCleanLog := false;
      if |liveIps| > limitIp {
        shouldCleanLog := true;
        var cutoff := |liveIps| - limitIp;
        keptLive := liveIps[cutoff..];
        var bannedLive := liveIps[..cutoff];
        if !logOpens {
          return;
        }
        for i := 0 to |bannedLive|
          invariant disAllowedIps == Ips(bannedLive[..i])
          invariant row.ips == old(row.ips)
        {
          disAllowedIps := disAllowedIps + [bannedLive[i].ip];
        }
        assert bannedLive[..|bannedLive|] == bannedLive;
      }
      if !saves {
        return;
      }
      row.ips := keptLive + historicalIps;
      cleanLog := shouldCleanLog;
    }
  }

  // ---------- what an enforcing scan does ----------

  function Everything(m: map<string, int>): set<Sighting> {
    set ip | ip in m :: Sighting(ip, m[ip])
  }

  // Kept, banned and historical addresses are a permutation of the merged map; the
  // kept ones are the newest, as many as the limit allows; nothing unseen in this
  // scan is banned; the stored list has one entry per address.
  lemma ScanSplits(old_: seq<Sighting>, seen: seq<Sighting>, cutoff: int, limit: int, live: seq<Sighting>, historical: seq<Sighting>)
    requires limit > 0
    requires Lists(live, Merged(old_, seen, cutoff), Observed(seen), true)
    requires Lists(historical, Merged(old_, seen, cutoff), Observed(seen), false)
    ensures var cut := Excess(live, limit);
            var kept, banned := live[cut..], live[..cut];
            multiset(kept + banned + historical) == multiset(Everything(Merged(old_, seen, cutoff))) &&
            |kept| == (if |live| <= limit then |live| else limit) &&
            (forall k, b :: k in kept && b in banned ==> b.at <= k.at) &&
            (forall b :: b in banned ==> b.ip in Observed(seen)) &&
            DistinctIps(kept + historical)
  {
    var m, cut := Merged(old_, seen, cutoff), Excess(live, limit);
    var kept, banned := live[cut..], live[..cut];
    assert live == banned + kept;
    SidesPermute(m, Observed(seen), live, historical);
    forall b | b in banned ensures b.ip in Observed(seen) { assert b in live; }
    StoredDistinct(m, Observed(seen), live, historical, cut);
  }

  lemma SidesPermute(m: map<string, int>, observed: set<string>, live: seq<Sighting>, historical: seq<Sighting>)
    requires Lists(live, m, observed, true) && Lists(historical, m, observed, false)
    ensures multiset(live) + multiset(historical) == multiset(Everything(m))
  {
    var all, flat := Everything(m), live + historical;
    forall i, j | 0 <= i < j < |flat| ensures flat[i] != flat[j] {
      assert i < |live| ==> flat[i] in live;
      assert j >= |live| ==> flat[j] in historical;
    }
    forall x | true ensures multiset(flat)[x] == multiset(all)[x] {
      Counts(flat, x);
      assert x in flat <==> x in all;
    }
    assert multiset(flat) == multiset(all);
  }

  lemma StoredDistinct(m: map<string, int>, observed: set<string>, live: seq<Sighting>, historical: seq<Sighting>, cut: nat)
    requires cut <= |live| && Lists(live, m, observed, true) && Lists(historical, m, observed, false)
    ensures DistinctIps(live[cut..] + historical)
  {
    var kept := live[cut..];
    forall i, j | 0 <= i < j < |kept + historical| ensures (kept + historical)[i].ip != (kept + historical)[j].ip {
      if i < |kept| <= j {
        assert kept[i] in live && historical[j - |kept|] in historical;
      }
    }
  }

  // A collecting scan stores what it saw and nothing else; that still holds the
  // latest times exactly when it saw every fresh stored address again, no earlier.
  lemma CollectingForgets(old_: seq<Sighting>, seen: seq<Sighting>, cutoff: int)
    requires DistinctIps(old_)
    ensures (forall ip :: ip in Merged(old_, seen, cutoff) ==> LatestIn(seen, ip) == Some(Merged(old_, seen, cutoff)[ip]))
            <==> (forall e :: e in old_ && e.at >= cutoff ==> exists n :: n in seen && n.ip == e.ip && n.at >= e.at)
  {
    var m := Merged(old_, seen, cutoff);
    if forall ip :: ip in m ==> LatestIn(seen, ip) == Some(m[ip]) {
      forall e | e in old_ && e.at >= cutoff ensures exists n :: n in seen && n.ip == e.ip && n.at >= e.at {
        MergedHolds(old_, seen, cutoff, e.ip);
        LatestInHolds(old_, e.ip);
        LatestInHolds(seen, e.ip);
        assert Lookup(m, e.ip) == Some(m[e.ip]);
        assert Sighting(e.ip, m[e.ip]) in seen;
      }
    }
    if forall e :: e in old_ && e.at >= cutoff ==> exists n :: n in seen && n.ip == e.ip && n.at >= e.at {
      forall ip | ip in m ensures LatestIn(seen, ip) == Some(m[ip]) {
        MergedHolds(old_, seen, cutoff, ip);
        LatestInHolds(old_, ip);
        LatestInHolds(seen, ip);
        assert Lookup(m, ip) == Some(m[ip]);
      }
    }
  }

  // An address seen a second before a collecting scan that missed it is gone.
  lemma CollectingForgetsExample()
    ensures var old_, seen := [Sighting("a", 100)], [Sighting("b", 101)];
            Lookup(Merged(old_, seen, 50), "a") == Some(100) && LatestIn(seen, "a") == None
  {
    MergedHolds([Sighting("a", 100)], [Sighting("b", 101)], 50, "a");
    assert [Sighting("a", 100)][..0] == [] && [Sighting("b", 101)][..0] == [];
  }

  // ---------- runs ----------

  // What one scan did to a client's row: stored it afresh, enforced the limit, or
  // left it alone.
  datatype Scan =
    | Stored(seen: seq<Sighting>)
    | Enforced(seen: seq<Sighting>, cutoff: int, limit: int, live: seq<Sighting>, historical: seq<Sighting>)
    | Untouched

  ghost function RowAfter(scans: seq<Scan>): seq<Sighting> {
    if scans == [] then []
    else
      var n := |scans| - 1;
      match scans[n]
      case Stored(seen) => seen
      case Enforced(_, _, limit, live, historical) =>
        if limit <= 0 then [] else live[Excess(live, limit)..] + historical
      case Untouched => RowAfter(scans[..n])
  }

  function LastCutoff(scans: seq<Scan>): Option<int> {
    if scans == [] then None
    else
      var n := |scans| - 1;
      if scans[n].Enforced? then Some(scans[n].cutoff) else LastCutoff(scans[..n])
  }

  // Scans list each address once, and the clock does not run backwards.
  ghost predicate Legal(scans: seq<Scan>) {
    scans == [] ||
    (var n := |scans| - 1;
     && Legal(scans[..n])
     && (scans[n].Stored? ==> DistinctIps(scans[n].seen))
     && (scans[n].Enforced? ==>
           && scans[n].limit > 0
           && (LastCutoff(scans[..n]).Some? ==> LastCutoff(scans[..n]).value <= scans[n].cutoff)
           && Lists(scans[n].live, Merged(RowAfter(scans[..n]), scans[n].seen, scans[n].cutoff), Observed(scans[n].seen), true)
           && Lists(scans[n].historical, Merged(RowAfter(scans[..n]), scans[n].seen, scans[n].cutoff), Observed(scans[n].seen), false)))
  }

  ghost predicate Bans(s: Scan, ip: string) {
    s.Enforced? && s.limit > 0 && exists b :: b in s.live[..Excess(s.live, s.limit)] && b.ip == ip
  }

  // The latest sighting of an address since it was last banned or the row was last
  // stored afresh.
  ghost function LatestSince(scans: seq<Scan>, ip: string): Option<int> {
    if scans == [] then None
    else
      var n := |scans| - 1;
      match scans[n]
      case Stored(seen) => LatestIn(seen, ip)
      case Enforced(seen, _, _, _, _) =>
        if Bans(scans[n], ip) then None else Later(LatestSince(scans[..n], ip), LatestIn(seen, ip))
      case Untouched => LatestSince(scans[..n], ip)
  }

  // After any run the row lists each address once with its latest sighting, and it
  // misses none that is not stale.
  lemma {:induction false} RowIsLatest(scans: seq<Scan>, ip: string)
    requires Legal(scans)
    ensures DistinctIps(RowAfter(scans))
    ensures var stored, latest, floor := LatestIn(RowAfter(scans), ip), LatestSince(scans, ip), LastCutoff(scans);
            (stored.Some? ==> stored == latest) &&
            (latest.Some? && (floor.None? || latest.value >= floor.value) ==> stored == latest)
  {
    if scans != [] {
      var n := |scans| - 1;
      RowIsLatest(scans[..n], ip);
      if scans[n].Enforced? {
        EnforcedRow(RowAfter(scans[..n]), scans[n], ip);
      }
    }
  }

  lemma EnforcedRow(old_: seq<Sighting>, s: Scan, ip: string)
    requires s.Enforced? && s.limit > 0 && DistinctIps(old_)
    requires Lists(s.live, Merged(old_, s.seen, s.cutoff), Observed(s.seen), true)
    requires Lists(s.historical, Merged(old_, s.seen, s.cutoff), Observed(s.seen), false)
    ensures var row := s.live[Excess(s.live, s.limit)..] + s.historical;
            DistinctIps(row) &&
            LatestIn(row, ip) == if Bans(s, ip) then None else Since(Later(LatestIn(old_, ip), LatestIn(s.seen, ip)), s.cutoff)
  {
    var m, cut := Merged(old_, s.seen, s.cutoff), Excess(s.live, s.limit);
    var row := s.live[cut..] + s.historical;
    ScanSplits(old_, s.seen, s.cutoff, s.limit, s.live, s.historical);
    MergedHolds(old_, s.seen, s.cutoff, ip);
    LatestInHolds(row, ip);
    RowEntries(m, Observed(s.seen), s.live, s.historical, cut, ip);
  }

  lemma RowEntries(m: map<string, int>, observed: set<string>, live: seq<Sighting>, historical: seq<Sighting>, cut: nat, ip: string)
    requires cut <= |live| && Lists(live, m, observed, true) && Lists(historical, m, observed, false)
    ensures var row := live[cut..] + historical;
            var banned := exists b :: b in live[..cut] && b.ip == ip;
            (forall e :: e in row && e.ip == ip ==> !banned && ip in m && e.at == m[ip]) &&
            (!banned && ip in m ==> Sighting(ip, m[ip]) in row)
  {
    var row := live[cut..] + historical;
    assert live == live[..cut] + live[cut..];
    forall e, b | e in row && b in live[..cut] ensures e.ip != b.ip {
      var j :| 0 <= j < cut && live[j] == b;
      assert b in live;
      if e in live[cut..] {
        var i :| 0 <= i < |live[cut..]| && live[cut..][i] == e;
        assert live[cut + i] == e;
      } else {
        assert e in historical;
      }
    }
    if ip in m {
      var e := Sighting(ip, m[ip]);
      assert e in live || e in historical;
    }
  }
}
