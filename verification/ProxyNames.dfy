// Unique proxy names for a Clash profile: a clash gets a counter, counted up until
// the name is free.
module ProxyNames {
  import opened Text

  // name, type and server are empty when the key is missing or not a string.
  datatype Proxy = Proxy(name: string, typ: string, server: string, port: Option<int>)

  function FallbackProxyName(p: Proxy, idx: nat): (s: string)
    ensures s != ""
    ensures p.typ != "" && p.server != "" ==> p.typ + "-" + p.server + "-" <= s
  {
    if p.typ != "" && p.server != "" then
      p.typ + "-" + p.server + "-" + (if p.port.Some? then FormatInt(p.port.value) else "<nil>")
    else "proxy-" + FormatNat(idx + 1)
  }

  // A proxy without a type or a server is named by its place, so two of them differ.
  lemma FallbackTells(p: Proxy, i: nat, q: Proxy, j: nat)
    requires p.typ == "" || p.server == ""
    requires q.typ == "" || q.server == ""
    ensures FallbackProxyName(p, i) == FallbackProxyName(q, j) <==> i == j
    ensures "proxy-" <= FallbackProxyName(p, i)
  {
    var a, b := FallbackProxyName(p, i), FallbackProxyName(q, j);
    assert a[6..] == FormatNat(i + 1) && b[6..] == FormatNat(j + 1);
    if a == b { FormatNatInjective(i + 1, j + 1); }
  }

  // The name a proxy asks for.
  function Base(p: Proxy, idx: nat): (s: string)
    ensures s != ""
  {
    if p.name == "" then FallbackProxyName(p, idx) else p.name
  }

  // The base itself, then base-2, base-3 and so on.
  function Candidate(base: string, k: nat): (s: string)
    ensures base != "" ==> s != ""
  {
    if k < 2 then base else base + "-" + FormatNat(k)
  }

  lemma CandidatesDiffer(base: string, j: nat, k: nat)
    requires 1 <= j < k
    ensures Candidate(base, j) != Candidate(base, k)
  {
    if j >= 2 {
      var s, t := Candidate(base, j), Candidate(base, k);
      assert s[|base| + 1..] == FormatNat(j) && t[|base| + 1..] == FormatNat(k);
      if FormatNat(j) == FormatNat(k) { FormatNatInjective(j, k); }
    }
  }

  // Only finitely many names are taken, so the counter stops.
  lemma {:induction false} CounterBounded(base: string, seen: set<string>, m: nat)
    requires forall k :: 1 <= k <= m ==> Candidate(base, k) in seen
    ensures m <= |seen|
  {
    var taken := TakenUpTo(base, m);
    assert taken <= seen;
    SubsetSize(taken, seen);
  }

  lemma {:induction false} TakenUpTo(base: string, m: nat) returns (s: set<string>)
    ensures |s| == m && forall x :: x in s <==> exists k :: 1 <= k <= m && Candidate(base, k) == x
  {
    if m == 0 {
      s := {};
    } else {
      var rest := TakenUpTo(base, m - 1);
      forall k | 1 <= k < m ensures Candidate(base, k) != Candidate(base, m) { CandidatesDiffer(base, k, m); }
      assert Candidate(base, m) !in rest;
      s := rest + {Candidate(base, m)};
    }
  }

  lemma {:induction false} SubsetSize(a: set<string>, b: set<string>)
    requires a <= b
    ensures |a| <= |b|
  {
    assert b == a + (b - a);
  }

  // The free candidate with the smallest counter.
  ghost predicate Chosen(name: string, base: string, seen: set<string>) {
    exists k :: FirstFree(name, base, seen, k)
  }

  predicate FirstFree(name: string, base: string, seen: set<string>, k: nat) {
    && 1 <= k && name == Candidate(base, k) && name !in seen
    && forall j :: 1 <= j < k ==> Candidate(base, j) in seen
  }

  function NamesOf(ps: seq<Proxy>): set<string> {
    set p | p in ps :: p.name
  }

  // Each proxy in turn takes its first free candidate; nothing else changes.
  ghost predicate Renamed(before: seq<Proxy>, after: seq<Proxy>) {
    && |before| == |after|
    && forall i :: 0 <= i < |before| ==>
         after[i] == before[i].(name := after[i].name) &&
         Chosen(after[i].name, Base(before[i], i), NamesOf(after[..i]))
  }

  method FreeName(base: string, seen: set<string>) returns (name: string)
    ensures Chosen(name, base, seen)
  {
    name := base;
    var n := 2;
    while name in seen
      invariant n >= 2 && name == Candidate(base, n - 1)
      invariant forall k :: 1 <= k < n - 1 ==> Candidate(base, k) in seen
      decreases |seen| + 2 - n
    {
      CounterBounded(base, seen, n - 1);
      name := base + "-" + FormatNat(n);
      n := n + 1;
    }
    assert FirstFree(name, base, seen, n - 1);
  }

  method EnsureUniqueProxyNames(proxies: array<Proxy>)
    modifies proxies
    ensures Renamed(old(proxies[..]), proxies[..])
  {
    hide Renamed, NamesOf, Chosen;
    var seen: set<string> := {};
    ghost var before := proxies[..];
    RenamedNone();
    for i := 0 to proxies.Length
      invariant seen == NamesOf(proxies[..i])
      invariant proxies[i..] == before[i..]
      invariant Renamed(before[..i], proxies[..i])
    {
      ghost var done := proxies[..i];
      var name := RenameAt(proxies, i, seen);
      NamesGrow(done, proxies[i]);
      RenamedGrows(before[..i], done, before[i], proxies[i]);
      assert before[..i + 1] == before[..i] + [before[i]];
      seen := seen + {name};
    }
    assert before[..proxies.Length] == before && proxies[..proxies.Length] == proxies[..];
  }

  // The proxy takes the first free candidate of its base.
  method RenameAt(proxies: array<Proxy>, i: nat, seen: set<string>) returns (name: string)
    requires i < proxies.Length
    modifies proxies
    ensures proxies[..] == old(proxies[..])[i := old(proxies[i]).(name := name)]
    ensures proxies[..i + 1] == old(proxies[..i]) + [old(proxies[i]).(name := name)] && proxies[i + 1..] == old(proxies[i + 1..])
    ensures Chosen(name, Base(old(proxies[i]), i), seen)
  {
    hide Chosen;
    var base := proxies[i].name;
    if base == "" {
      base := FallbackProxyName(proxies[i], i);
    }
    name := FreeName(base, seen);
    proxies[i] := proxies[i].(name := name);
  }

  lemma RenamedNone()
    ensures Renamed([], []) && NamesOf([]) == {}
  {}

  lemma NamesGrow(ps: seq<Proxy>, p: Proxy)
    ensures NamesOf(ps + [p]) == NamesOf(ps) + {p.name}
  {}

  lemma RenamedGrows(before: seq<Proxy>, after: seq<Proxy>, p: Proxy, q: Proxy)
    requires Renamed(before, after) && q == p.(name := q.name)
    requires Chosen(q.name, Base(p, |before|), NamesOf(after))
    ensures Renamed(before + [p], after + [q])
  {
    hide Base, Chosen;
    var b, a := before + [p], after + [q];
    forall i | 0 <= i < |b| ensures a[i] == b[i].(name := a[i].name) && Chosen(a[i].name, Base(b[i], i), NamesOf(a[..i])) {
      assert i < |after| ==> a[..i] == after[..i];
      assert i == |after| ==> a[..i] == after;
    }
  }

  predicate DistinctNames(ps: seq<Proxy>) {
    forall i, j :: 0 <= i < j < |ps| ==> ps[i].name != ps[j].name
  }

  predicate Named(ps: seq<Proxy>) {
    forall i :: 0 <= i < |ps| ==> ps[i].name != ""
  }

  // A base or a base with a counter of at least 2.
  ghost predicate FromBase(name: string, base: string) {
    exists k :: k >= 1 && name == Candidate(base, k)
  }

  // Afterwards every name is there, none occurs twice, and each comes from its base.
  lemma NamesAreUnique(before: seq<Proxy>, after: seq<Proxy>)
    requires Renamed(before, after)
    ensures Named(after) && DistinctNames(after)
    ensures forall i :: 0 <= i < |after| ==> FromBase(after[i].name, Base(before[i], i))
  {
    hide Base, Candidate;
    forall i | 0 <= i < |after|
      ensures after[i].name != "" && FromBase(after[i].name, Base(before[i], i)) && after[i].name !in NamesOf(after[..i])
    {
      var base := Base(before[i], i);
      var k :| FirstFree(after[i].name, base, NamesOf(after[..i]), k);
    }
    forall i, j | 0 <= i < j < |after| ensures after[i].name != after[j].name {
      assert after[..j][i] == after[i] && after[i] in after[..j];
    }
  }

  // The outcome is determined by the list.
  lemma {:induction false} OneOutcome(before: seq<Proxy>, a: seq<Proxy>, b: seq<Proxy>)
    requires Renamed(before, a) && Renamed(before, b)
    ensures a == b
  {
    hide Base, Candidate;
    if before != [] {
      var n := |before| - 1;
      RenamedShrinks(before, a);
      RenamedShrinks(before, b);
      OneOutcome(before[..n], a[..n], b[..n]);
      var base := Base(before[n], n);
      var j :| FirstFree(a[n].name, base, NamesOf(a[..n]), j);
      var k :| FirstFree(b[n].name, base, NamesOf(b[..n]), k);
      assert j == k;
      assert a == a[..n] + [a[n]] && b == b[..n] + [b[n]];
    }
  }

  lemma RenamedShrinks(before: seq<Proxy>, after: seq<Proxy>)
    requires before != [] && Renamed(before, after)
    ensures Renamed(before[..|before| - 1], after[..|before| - 1])
  {
    hide Base, Chosen;
    var n := |before| - 1;
    assert forall i :: 0 <= i < n ==> after[..n][..i] == after[..i];
  }

  lemma OwnNameChosen(ps: seq<Proxy>, i: nat)
    requires i < |ps| && Named(ps) && DistinctNames(ps)
    ensures Chosen(ps[i].name, Base(ps[i], i), NamesOf(ps[..i]))
  {
    forall p | p in ps[..i] ensures p.name != ps[i].name {
      var j :| 0 <= j < i && ps[..i][j] == p;
      assert ps[j] == p;
    }
    assert FirstFree(ps[i].name, ps[i].name, NamesOf(ps[..i]), 1);
  }

  // A list is left as it is exactly when its names are there and distinct already.
  lemma DistinctStay(ps: seq<Proxy>, after: seq<Proxy>)
    requires Renamed(ps, after)
    ensures after == ps <==> Named(ps) && DistinctNames(ps)
  {
    hide Base, Chosen;
    if after == ps { NamesAreUnique(ps, after); }
    if Named(ps) && DistinctNames(ps) {
      forall i | 0 <= i < |ps| ensures Chosen(ps[i].name, Base(ps[i], i), NamesOf(ps[..i])) {
        OwnNameChosen(ps, i);
      }
      OneOutcome(ps, ps, after);
    }
  }
}
