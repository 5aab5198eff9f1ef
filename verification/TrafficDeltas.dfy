// Cumulative xray counters turned into per-poll deltas, and the outbound rows that
// add those deltas up until they are reset.
module TrafficDeltas {
  import opened Text

  // A parsed counter name: traffic of an inbound or outbound tag, of a client
  // email, or a name neither pattern matches.
  datatype Counter =
    | Link(inbound: bool, tag: string, down: bool)
    | User(email: string, down: bool)
    | Unmatched(name: string)

  datatype Stat = Stat(counter: Counter, value: int)

  datatype Delta = Delta(counter: Counter, amount: int)

  datatype Traffic = Traffic(outbound: bool, tag: string, up: int, down: int)

  datatype ClientTraffic = ClientTraffic(email: string, up: int, down: int)

  datatype Row = Row(up: int, down: int, total: int)

  const API_TAG := "api"
  const ALL_TAGS := "-alltags-"
  const FRESH_ROW := Row(0, 0, 0)

  // ---------- the deltas of one poll ----------

  // The last values after a poll.
  function Noted(last: map<Counter, int>, stats: seq<Stat>): map<Counter, int> {
    if stats == [] then last
    else
      var n := |stats| - 1;
      Noted(last, stats[..n])[stats[n].counter := stats[n].value]
  }

  // A first sighting and a drop are only noted; every other value emits a delta.
  function Emitted(last: map<Counter, int>, stats: seq<Stat>): (ds: seq<Delta>)
    ensures forall d :: d in ds ==> d.amount >= 0
  {
    if stats == [] then []
    else
      var n := |stats| - 1;
      var rest, prev, s := Emitted(last, stats[..n]), Noted(last, stats[..n]), stats[n];
      if s.counter in prev && s.value >= prev[s.counter]
      then rest + [Delta(s.counter, s.value - prev[s.counter])]
      else rest
  }

  function Assign(t: Traffic, down: bool, value: int): Traffic {
    if down then t.(down := value) else t.(up := value)
  }

  function AssignClient(t: ClientTraffic, down: bool, value: int): ClientTraffic {
    if down then t.(down := value) else t.(up := value)
  }

  // The tag's entry takes the amount; its side is set by whichever counter comes first.
  function PutTraffic(m: map<string, Traffic>, d: Delta): map<string, Traffic> {
    if d.counter.Link? && d.counter.tag != API_TAG then
      var tag := d.counter.tag;
      m[tag := Assign(if tag in m then m[tag] else Traffic(!d.counter.inbound, tag, 0, 0), d.counter.down, d.amount)]
    else m
  }

  function PutClient(m: map<string, ClientTraffic>, d: Delta): map<string, ClientTraffic> {
    if d.counter.User? then
      var email := d.counter.email;
      m[email := AssignClient(if email in m then m[email] else ClientTraffic(email, 0, 0), d.counter.down, d.amount)]
    else m
  }

  function ByTag(ds: seq<Delta>): map<string, Traffic> {
    if ds == [] then map[] else PutTraffic(ByTag(ds[..|ds| - 1]), ds[|ds| - 1])
  }

  function ByEmail(ds: seq<Delta>): map<string, ClientTraffic> {
    if ds == [] then map[] else PutClient(ByEmail(ds[..|ds| - 1]), ds[|ds| - 1])
  }

  method ProcessTraffic(d: Delta, m: map<string, Traffic>) returns (r: map<string, Traffic>)
    requires d.counter.Link?
    ensures r == PutTraffic(m, d)
  {
    r := m;
    var tag := d.counter.tag;
    if tag == API_TAG {
      return;
    }
    if tag !in r {
      r := r[tag := Traffic(!d.counter.inbound, tag, 0, 0)];
    }
    if d.counter.down {
      r := r[tag := r[tag].(down := d.amount)];
    } else {
      r := r[tag := r[tag].(up := d.amount)];
    }
  }

  method ProcessClientTraffic(d: Delta, m: map<string, ClientTraffic>) returns (r: map<string, ClientTraffic>)
    requires d.counter.User?
    ensures r == PutClient(m, d)
  {
    r := m;
    var email := d.counter.email;
    if email !in r {
      r := r[email := ClientTraffic(email, 0, 0)];
    }
    if d.counter.down {
      r := r[email := r[email].(down := d.amount)];
    } else {
      r := r[email := r[email].(up := d.amount)];
    }
  }

  lemma Appended(ds: seq<Delta>, d: Delta)
    ensures ByTag(ds + [d]) == PutTraffic(ByTag(ds), d)
    ensures ByEmail(ds + [d]) == PutClient(ByEmail(ds), d)
    ensures !d.counter.Link? ==> PutTraffic(ByTag(ds), d) == ByTag(ds)
    ensures !d.counter.User? ==> PutClient(ByEmail(ds), d) == ByEmail(ds)
  {
    assert (ds + [d])[..|ds|] == ds;
  }

  ghost predicate Listing<T(!new)>(s: seq<T>, m: map<string, T>) {
    exists keys :: Lists(s, keys, m)
  }

  // A slice listing every value of the map once, in some order of its keys.
  ghost predicate Lists<T>(s: seq<T>, keys: seq<string>, m: map<string, T>) {
    && |s| == |keys|
    && (forall i :: 0 <= i < |keys| ==> keys[i] in m && s[i] == m[keys[i]])
    && (forall i, j :: 0 <= i < j < |keys| ==> keys[i] != keys[j])
    && (forall k :: k in m ==> k in keys)
  }

  method MapToSlice<T(!new)>(m: map<string, T>) returns (result: seq<T>)
    ensures Listing(result, m)
  {
    result := [];
    ghost var keys: seq<string> := [];
    var left := m.Keys;
    while left != {}
      invariant left <= m.Keys && |result| == |keys|
      invariant forall i :: 0 <= i < |keys| ==> keys[i] in m && keys[i] !in left && result[i] == m[keys[i]]
      invariant forall i, j :: 0 <= i < j < |keys| ==> keys[i] != keys[j]
      invariant forall k :: k in m ==> k in left || k in keys
      decreases left
    {
      var k :| k in left;
      result, keys, left := result + [m[k]], keys + [k], left - {k};
    }
    assert Lists(result, keys, m);
  }

  class XrayApi {
    var statsLastValues: map<Counter, int>

    constructor ()
      ensures statsLastValues == map[]
    {
      statsLastValues := map[];
    }

    method GetTraffic(stats: seq<Stat>) returns (traffics: seq<Traffic>, clients: seq<ClientTraffic>)
      modifies this
      ensures statsLastValues == Noted(old(statsLastValues), stats)
      ensures Listing(traffics, ByTag(Emitted(old(statsLastValues), stats)))
      ensures Listing(clients, ByEmail(Emitted(old(statsLastValues), stats)))
    {
      hide Listing, PutTraffic, PutClient, ByTag, ByEmail;
      var tagTraffic, emailTraffic := map[], map[];
      ghost var last := statsLastValues;
      NothingEmitted();
      for i := 0 to |stats|
        invariant statsLastValues == Noted(last, stats[..i])
        invariant tagTraffic == ByTag(Emitted(last, stats[..i]))
        invariant emailTraffic == ByEmail(Emitted(last, stats[..i]))
      {
        assert stats[..i + 1][..i] == stats[..i];
        var stat := stats[i];
        var seen := stat.counter in statsLastValues;
        var lastValue := if seen then statsLastValues[stat.counter] else 0;
        statsLastValues := statsLastValues[stat.counter := stat.value];
        if seen && stat.value >= lastValue {
          var d := Delta(stat.counter, stat.value - lastValue);
          Appended(Emitted(last, stats[..i]), d);
          if stat.counter.Link? {
            tagTraffic := ProcessTraffic(d, tagTraffic);
          } else if stat.counter.User? {
            emailTraffic := ProcessClientTraffic(d, emailTraffic);
          }
        }
      }
      assert stats[..|stats|] == stats;
      traffics := MapToSlice(tagTraffic);
      clients := MapToSlice(emailTraffic);
    }
  }

  lemma NothingEmitted()
    ensures ByTag([]) == map[] && ByEmail([]) == map[]
  {
  }

  // ---------- what one entry holds ----------

  // The amount a counter emitted, 0 when it emitted none.
  function AmountOf(ds: seq<Delta>, c: Counter): int {
    if ds == [] then 0
    else
      var n := |ds| - 1;
      if ds[n].counter == c then ds[n].amount else AmountOf(ds[..n], c)
  }

  function Way(t: Traffic, down: bool): int {
    if down then t.down else t.up
  }

  // What a poll adds to the tag's outbound row in one direction.
  function Gain(ds: seq<Delta>, tag: string, down: bool): int {
    var m := ByTag(ds);
    if tag in m && m[tag].outbound then Way(m[tag], down) else 0
  }

  // What it should add: the outbound counter's own delta.
  function Due(ds: seq<Delta>, tag: string, down: bool): int {
    if tag == API_TAG then 0 else AmountOf(ds, Link(false, tag, down))
  }

  function First(cs: seq<Counter>, tag: string): Option<Counter> {
    if cs == [] then None
    else
      var n := |cs| - 1;
      var first := First(cs[..n], tag);
      if first.None? && cs[n].Link? && cs[n].tag == tag then Some(cs[n]) else first
  }

  function Last(cs: seq<Counter>, tag: string, down: bool): Option<Counter> {
    if cs == [] then None
    else
      var n := |cs| - 1;
      if cs[n].Link? && cs[n].tag == tag && cs[n].down == down then Some(cs[n]) else Last(cs[..n], tag, down)
  }

  predicate NoRepeats<T(==)>(s: seq<T>) {
    forall i, j :: 0 <= i < j < |s| ==> s[i] != s[j]
  }

  function Counters(ds: seq<Delta>): (cs: seq<Counter>)
    ensures |cs| == |ds| && forall i :: 0 <= i < |ds| ==> cs[i] == ds[i].counter
  {
    seq(|ds|, i requires 0 <= i < |ds| => ds[i].counter)
  }

  // An entry's side is that of the first counter with its tag.
  lemma {:induction false} EntrySide(ds: seq<Delta>, tag: string)
    requires tag != API_TAG
    ensures var m := ByTag(ds);
            var first := First(Counters(ds), tag);
            (tag in m <==> first.Some?) &&
            (tag in m ==> m[tag].tag == tag && first.value.Link? && m[tag].outbound == !first.value.inbound)
  {
    if ds != [] {
      var n := |ds| - 1;
      EntrySide(ds[..n], tag);
      assert Counters(ds)[..n] == Counters(ds[..n]);
    }
  }

  // Each direction of an entry holds what the last counter of that direction emitted.
  lemma {:induction false} EntryHolds(ds: seq<Delta>, tag: string, down: bool)
    requires tag != API_TAG
    ensures var m := ByTag(ds);
            var last := Last(Counters(ds), tag, down);
            (tag !in m ==> last.None?) &&
            (tag in m ==> Way(m[tag], down) == if last.Some? then AmountOf(ds, last.value) else 0)
  {
    if ds != [] {
      var n := |ds| - 1;
      EntryHolds(ds[..n], tag, down);
      var cs := Counters(ds);
      assert cs[..n] == Counters(ds[..n]);
      LastFound(cs[..n], tag, down);
      assert cs[n] == ds[n].counter;
    }
  }

  lemma {:induction false} ClientEntryHolds(ds: seq<Delta>, email: string)
    ensures var m := ByEmail(ds);
            (email in m <==> User(email, true) in Counters(ds) || User(email, false) in Counters(ds)) &&
            (email in m ==> m[email] == ClientTraffic(email, AmountOf(ds, User(email, false)), AmountOf(ds, User(email, true))))
            && (email !in m ==> AmountOf(ds, User(email, false)) == 0 == AmountOf(ds, User(email, true)))
  {
    if ds != [] {
      var n := |ds| - 1;
      ClientEntryHolds(ds[..n], email);
      assert Counters(ds) == Counters(ds[..n]) + [ds[n].counter];
    }
  }

  // ---------- when the outbound rows get their own deltas ----------

  function Zip(cs: seq<Counter>, amounts: seq<nat>): (ds: seq<Delta>)
    requires |cs| == |amounts|
    ensures Counters(ds) == cs
  {
    seq(|cs|, i requires 0 <= i < |cs| => Delta(cs[i], amounts[i]))
  }

  ghost predicate Rightly(ds: seq<Delta>, tag: string) {
    Gain(ds, tag, true) == Due(ds, tag, true) && Gain(ds, tag, false) == Due(ds, tag, false)
  }

  // The tag has no outbound counter in the list; or an outbound counter comes
  // first and each direction ends on one.
  predicate OutboundSettles(cs: seq<Counter>, tag: string) {
    || tag == API_TAG
    || (Link(false, tag, true) !in cs && Link(false, tag, false) !in cs)
    || (&& First(cs, tag).Some? && First(cs, tag).value.Link? && !First(cs, tag).value.inbound
        && Last(cs, tag, true) != Some(Link(true, tag, true))
        && Last(cs, tag, false) != Some(Link(true, tag, false)))
  }

  lemma {:induction false} FirstFound(cs: seq<Counter>, tag: string)
    ensures First(cs, tag).Some? ==> First(cs, tag).value in cs && First(cs, tag).value.Link? && First(cs, tag).value.tag == tag
    ensures First(cs, tag).None? ==> forall i, d :: Link(i, tag, d) !in cs
  {
    if cs != [] {
      var n := |cs| - 1;
      FirstFound(cs[..n], tag);
      assert cs == cs[..n] + [cs[n]];
    }
  }

  lemma {:induction false} LastFound(cs: seq<Counter>, tag: string, down: bool)
    ensures Last(cs, tag, down) in {None, Some(Link(true, tag, down)), Some(Link(false, tag, down))}
    ensures Last(cs, tag, down).Some? ==> Last(cs, tag, down).value in cs
    ensures Last(cs, tag, down).None? ==> Link(true, tag, down) !in cs && Link(false, tag, down) !in cs
  {
    if cs != [] {
      var n := |cs| - 1;
      LastFound(cs[..n], tag, down);
      assert cs == cs[..n] + [cs[n]];
    }
  }

  lemma FirstAndLast(cs: seq<Counter>, tag: string, down: bool)
    ensures First(cs, tag).Some? ==> First(cs, tag).value in cs && First(cs, tag).value.Link? && First(cs, tag).value.tag == tag
    ensures First(cs, tag).None? ==> forall i, d :: Link(i, tag, d) !in cs
    ensures Last(cs, tag, down) in {None, Some(Link(true, tag, down)), Some(Link(false, tag, down))}
    ensures Last(cs, tag, down).Some? ==> Last(cs, tag, down).value in cs
    ensures Last(cs, tag, down).None? ==> Link(true, tag, down) !in cs && Link(false, tag, down) !in cs
  {
    FirstFound(cs, tag);
    LastFound(cs, tag, down);
  }

  lemma {:induction false} AbsentEmitsNothing(ds: seq<Delta>, c: Counter)
    requires c !in Counters(ds)
    ensures AmountOf(ds, c) == 0
  {
    if ds != [] {
      var n := |ds| - 1;
      assert Counters(ds)[n] == ds[n].counter;
      assert forall x :: x in Counters(ds[..n]) ==> x in Counters(ds) by {
        assert Counters(ds) == Counters(ds[..n]) + [ds[n].counter];
      }
      AbsentEmitsNothing(ds[..n], c);
    }
  }

  lemma ApiNeverListed(ds: seq<Delta>)
    ensures API_TAG !in ByTag(ds)
  {
    if ds != [] { ApiNeverListed(ds[..|ds| - 1]); }
  }

  lemma SettledIsRight(ds: seq<Delta>, tag: string)
    requires OutboundSettles(Counters(ds), tag)
    ensures Rightly(ds, tag)
  {
    var cs := Counters(ds);
    if tag == API_TAG {
      ApiNeverListed(ds);
    } else {
      EntrySide(ds, tag);
      forall down | true ensures Gain(ds, tag, down) == Due(ds, tag, down) {
        EntryHolds(ds, tag, down);
        FirstAndLast(cs, tag, down);
        if Link(false, tag, down) !in cs { AbsentEmitsNothing(ds, Link(false, tag, down)); }
      }
    }
  }

  function Unit(n: nat, k: nat): (u: seq<nat>)
    ensures |u| == n && forall i :: 0 <= i < n ==> u[i] == if i == k then 1 else 0
  {
    seq(n, i => if i == k then 1 else 0)
  }

  lemma {:induction false} UnitAmount(cs: seq<Counter>, k: nat, c: Counter)
    requires NoRepeats(cs) && k < |cs|
    ensures AmountOf(Zip(cs, Unit(|cs|, k)), c) == if cs[k] == c then 1 else 0
  {
    OnlyOwnAmount(Zip(cs, Unit(|cs|, k)), c);
  }

  lemma {:induction false} OnlyOwnAmount(ds: seq<Delta>, c: Counter)
    requires NoRepeats(Counters(ds))
    ensures forall i :: 0 <= i < |ds| && ds[i].counter == c ==> AmountOf(ds, c) == ds[i].amount
    ensures c !in Counters(ds) ==> AmountOf(ds, c) == 0
  {
    if c !in Counters(ds) { AbsentEmitsNothing(ds, c); }
    if ds != [] {
      var n := |ds| - 1;
      assert Counters(ds)[..n] == Counters(ds[..n]);
      OnlyOwnAmount(ds[..n], c);
      forall i | 0 <= i < |ds| && ds[i].counter == c ensures AmountOf(ds, c) == ds[i].amount {
        assert Counters(ds)[i] == c;
        if i < n {
          assert ds[..n][i] == ds[i];
          assert Counters(ds)[n] != c;
        }
      }
    }
  }

  // For every amount the counters of one poll may emit, the outbound row gains its
  // own deltas, exactly when no inbound counter of the tag gets in the way.
  lemma RightWhateverTheAmounts(cs: seq<Counter>, tag: string)
    requires NoRepeats(cs)
    ensures (forall amounts: seq<nat> | |amounts| == |cs| :: Rightly(Zip(cs, amounts), tag)) <==> OutboundSettles(cs, tag)
  {
    if OutboundSettles(cs, tag) {
      forall amounts: seq<nat> | |amounts| == |cs| ensures Rightly(Zip(cs, amounts), tag) {
        SettledIsRight(Zip(cs, amounts), tag);
      }
    } else {
      var amounts := MisledAmounts(cs, tag);
    }
  }

  lemma MisledAmounts(cs: seq<Counter>, tag: string) returns (amounts: seq<nat>)
    requires NoRepeats(cs) && !OutboundSettles(cs, tag)
    ensures |amounts| == |cs| && !Rightly(Zip(cs, amounts), tag)
  {
    FirstAndLast(cs, tag, true);
    FirstAndLast(cs, tag, false);
    if First(cs, tag).value.inbound {
      var down := Link(false, tag, true) in cs;
      var k :| 0 <= k < |cs| && cs[k] == Link(false, tag, down);
      amounts := Unit(|cs|, k);
      UnitAmount(cs, k, Link(false, tag, down));
      EntrySide(Zip(cs, amounts), tag);
      EntryHolds(Zip(cs, amounts), tag, down);
    } else {
      var down := Last(cs, tag, true) == Some(Link(true, tag, true));
      var k :| 0 <= k < |cs| && cs[k] == Link(true, tag, down);
      amounts := Unit(|cs|, k);
      UnitAmount(cs, k, Link(true, tag, down));
      UnitAmount(cs, k, Link(false, tag, down));
      EntrySide(Zip(cs, amounts), tag);
      EntryHolds(Zip(cs, amounts), tag, down);
    }
  }

  // An inbound and an outbound that share a tag: the inbound's traffic lands in the
  // outbound's row, or the outbound's is dropped.
  lemma SharedTagMisleads()
    ensures Gain([Delta(Link(false, "x", false), 0), Delta(Link(true, "x", false), 5)], "x", false) == 5
    ensures Gain([Delta(Link(true, "x", true), 5), Delta(Link(false, "x", true), 7)], "x", true) == 0
  {
    var a := [Delta(Link(false, "x", false), 0), Delta(Link(true, "x", false), 5)];
    var b := [Delta(Link(true, "x", true), 5), Delta(Link(false, "x", true), 7)];
    EntrySide(a, "x");
    EntryHolds(a, "x", false);
    EntrySide(b, "x");
    assert Counters(a)[..1][..0] == [] && Counters(b)[..1][..0] == [];
    assert Counters(a)[..1] == [Link(false, "x", false)] && Counters(b)[..1] == [Link(true, "x", true)];
  }

  // ---------- stored outbound rows ----------

  function Held(rows: map<string, Row>, tag: string): Row {
    if tag in rows then rows[tag] else FRESH_ROW
  }

  predicate Clears(target: string, tag: string) {
    if target == ALL_TAGS then tag != ALL_TAGS else tag == target
  }

  function Bumped(row: Row, t: Traffic): Row {
    Row(row.up + t.up, row.down + t.down, row.up + t.up + (row.down + t.down))
  }

  function Added(rows: map<string, Row>, ts: seq<Traffic>): map<string, Row> {
    if ts == [] then rows
    else
      var n := |ts| - 1;
      var prev := Added(rows, ts[..n]);
      if ts[n].outbound then prev[ts[n].tag := Bumped(Held(prev, ts[n].tag), ts[n])] else prev
  }

  function Reset(rows: map<string, Row>, target: string): (r: map<string, Row>)
    ensures target != ALL_TAGS && target !in rows ==> r == rows
    ensures r.Keys == rows.Keys
  {
    if target != ALL_TAGS then if target in rows then rows[target := FRESH_ROW] else rows
    else map tag | tag in rows :: if tag == ALL_TAGS then rows[tag] else FRESH_ROW
  }

  // A reset reads as zeroing what it clears, whether or not the row is there.
  lemma ResetHolds(rows: map<string, Row>, target: string, tag: string)
    ensures Held(Reset(rows, target), tag) == if Clears(target, tag) then FRESH_ROW else Held(rows, tag)
  {}

  // Whatever order the slice came in, a row gains exactly its own entry.
  lemma {:induction false} AddedHolds(rows: map<string, Row>, ts: seq<Traffic>, keys: seq<string>, m: map<string, Traffic>, tag: string)
    requires Lists(ts, keys, m) && forall k :: k in m ==> m[k].tag == k
    ensures Held(Added(rows, ts), tag) == if tag in m && m[tag].outbound then Bumped(Held(rows, tag), m[tag]) else Held(rows, tag)
  {
    forall i | 0 <= i < |ts| ensures ts[i].tag == keys[i] && ts[i] == m[keys[i]] {
    }
    if tag in m {
      var i :| 0 <= i < |keys| && keys[i] == tag;
      PrefixHolds(rows, ts, |ts|, tag, i);
    } else {
      PrefixHolds(rows, ts, |ts|, tag, |ts|);
    }
    assert ts[..|ts|] == ts;
  }

  lemma {:induction false} PrefixHolds(rows: map<string, Row>, ts: seq<Traffic>, n: nat, tag: string, i: nat)
    requires n <= |ts| && i <= |ts|
    requires forall j :: 0 <= j < |ts| ==> (ts[j].tag == tag <==> j == i)
    ensures Held(Added(rows, ts[..n]), tag) == if i < n && ts[i].outbound then Bumped(Held(rows, tag), ts[i]) else Held(rows, tag)
  {
    if n > 0 {
      assert ts[..n][..n - 1] == ts[..n - 1];
      PrefixHolds(rows, ts, n - 1, tag, i);
    }
  }

  class OutboundService {
    var rows: map<string, Row>

    constructor ()
      ensures rows == map[]
    {
      rows := map[];
    }

    method AddOutboundTraffic(traffics: seq<Traffic>)
      modifies this
      ensures rows == Added(old(rows), traffics)
    {
      ghost var was := rows;
      for i := 0 to |traffics|
        invariant rows == Added(was, traffics[..i])
      {
        assert traffics[..i + 1][..i] == traffics[..i];
        var traffic := traffics[i];
        if traffic.outbound {
          if traffic.tag !in rows {
            rows := rows[traffic.tag := FRESH_ROW];
          }
          var outbound := rows[traffic.tag];
          outbound := outbound.(up := outbound.up + traffic.up);
          outbound := outbound.(down := outbound.down + traffic.down);
          outbound := outbound.(total := outbound.up + outbound.down);
          rows := rows[traffic.tag := outbound];
        }
      }
      assert traffics[..|traffics|] == traffics;
    }

    // One UPDATE with its where clause: the rows it matches are zeroed, no row comes
    // or goes, and a name without a row changes nothing.
    method ResetOutboundTraffic(target: string)
      modifies this
      ensures rows == Reset(old(rows), target)
      ensures forall tag :: tag in old(rows) && Clears(target, tag) ==> tag in rows && rows[tag] == FRESH_ROW
      ensures forall tag :: tag in old(rows) && !Clears(target, tag) ==> tag in rows && rows[tag] == old(rows)[tag]
      ensures forall tag :: tag in rows ==> tag in old(rows)
      ensures (forall tag :: tag in old(rows) ==> !Clears(target, tag)) ==> rows == old(rows)
    {
      rows := map tag | tag in rows :: if Clears(target, tag) then FRESH_ROW else rows[tag];
    }
  }

  // ---------- runs ----------

  // A poll carries what xray reported and the slice the counters were listed in.
  datatype Event = Poll(stats: seq<Stat>, traffics: seq<Traffic>) | ResetOutbound(target: string)

  datatype State = State(last: map<Counter, int>, rows: map<string, Row>)

  const START := State(map[], map[])

  function Step(s: State, e: Event): State {
    match e
    case Poll(stats, traffics) => State(Noted(s.last, stats), Added(s.rows, traffics))
    case ResetOutbound(target) => s.(rows := Reset(s.rows, target))
  }

  function RunEvents(events: seq<Event>): State {
    if events == [] then START else Step(RunEvents(events[..|events| - 1]), events[|events| - 1])
  }

  // One value per counter in a report.
  predicate OnePerCounter(stats: seq<Stat>) {
    forall i, j :: 0 <= i < j < |stats| ==> stats[i].counter != stats[j].counter
  }

  predicate SameTag(c: Counter, d: Counter) {
    c.Link? && d.Link? && c.tag == d.tag
  }

  // No tag is carried by an inbound and an outbound of the same report.
  predicate TagsApart(stats: seq<Stat>) {
    forall i, j :: 0 <= i < |stats| && 0 <= j < |stats| && SameTag(stats[i].counter, stats[j].counter) ==>
                     stats[i].counter.inbound == stats[j].counter.inbound
  }

  ghost predicate Legal(events: seq<Event>) {
    events == [] ||
    (var n := |events| - 1;
     Legal(events[..n]) &&
     (events[n].Poll? ==>
        OnePerCounter(events[n].stats) && TagsApart(events[n].stats) &&
        Listing(events[n].traffics, ByTag(Emitted(RunEvents(events[..n]).last, events[n].stats)))))
  }

  // The counter's value in a report.
  function Reported(stats: seq<Stat>, c: Counter): Option<int> {
    if stats == [] then None
    else
      var n := |stats| - 1;
      if stats[n].counter == c then Some(stats[n].value) else Reported(stats[..n], c)
  }

  // Every value the counter was reported with, in order.
  function Seen(events: seq<Event>, c: Counter): seq<int> {
    if events == [] then []
    else
      var n := |events| - 1;
      var rest := Seen(events[..n], c);
      if events[n].Poll? && Reported(events[n].stats, c).Some?
      then rest + [Reported(events[n].stats, c).value] else rest
  }

  // What the values grew by, a drop counting as a restart.
  function Growth(vs: seq<int>): (g: int)
    ensures g >= 0
  {
    if |vs| < 2 then 0
    else
      var n := |vs| - 1;
      Growth(vs[..n]) + if vs[n] >= vs[n - 1] then vs[n] - vs[n - 1] else 0
  }

  // Over a stretch without a drop the growth is the difference of its ends.
  lemma {:induction false} GrowthTelescopes(vs: seq<int>, i: nat, j: nat)
    requires i <= j < |vs| && forall k :: i <= k < j ==> vs[k] <= vs[k + 1]
    ensures Growth(vs[..j + 1]) - Growth(vs[..i + 1]) == vs[j] - vs[i]
  {
    if i < j {
      GrowthTelescopes(vs, i, j - 1);
      assert vs[..j + 1][..j] == vs[..j];
    }
  }

  lemma {:induction false} NotedHolds(last: map<Counter, int>, stats: seq<Stat>, c: Counter)
    ensures var r := Reported(stats, c);
            var noted := Noted(last, stats);
            if r.Some? then c in noted && noted[c] == r.value else (c in noted <==> c in last) && (c in last ==> noted[c] == last[c])
  {
    if stats != [] { NotedHolds(last, stats[..|stats| - 1], c); }
  }

  lemma {:induction false} EmittedCounters(last: map<Counter, int>, stats: seq<Stat>)
    ensures forall c :: c in Counters(Emitted(last, stats)) ==> exists i :: 0 <= i < |stats| && stats[i].counter == c
  {
    if stats != [] {
      var n := |stats| - 1;
      EmittedCounters(last, stats[..n]);
      var rest, ds := Emitted(last, stats[..n]), Emitted(last, stats);
      forall c | c in Counters(ds) ensures exists i :: 0 <= i < |stats| && stats[i].counter == c {
        var k :| 0 <= k < |ds| && Counters(ds)[k] == c;
        if k < |rest| {
          assert rest[k] == ds[k] && Counters(rest)[k] == c;
          assert c in Counters(rest);
          var i :| 0 <= i < n && stats[..n][i].counter == c;
          assert stats[i].counter == c;
        } else {
          assert stats[n].counter == c;
        }
      }
    }
  }

  // A counter's delta is its growth over the value noted before.
  lemma {:induction false} DeltaIsGrowth(last: map<Counter, int>, stats: seq<Stat>, c: Counter)
    requires OnePerCounter(stats)
    ensures var r := Reported(stats, c);
            AmountOf(Emitted(last, stats), c) == if r.Some? && c in last && r.value >= last[c] then r.value - last[c] else 0
  {
    if stats != [] {
      var n := |stats| - 1;
      var rest := Emitted(last, stats[..n]);
      DeltaIsGrowth(last, stats[..n], c);
      NotedHolds(last, stats[..n], c);
      if stats[n].counter == c {
        NeverReported(stats[..n], c);
      }
      assert forall d :: (rest + [d])[..|rest|] == rest;
    }
  }

  lemma {:induction false} NeverReported(stats: seq<Stat>, c: Counter)
    requires forall i :: 0 <= i < |stats| ==> stats[i].counter != c
    ensures Reported(stats, c).None?
  {
    if stats != [] { NeverReported(stats[..|stats| - 1], c); }
  }

  // Tags apart in the report leave the outbound counters undisturbed.
  lemma ApartSettles(last: map<Counter, int>, stats: seq<Stat>, tag: string)
    requires TagsApart(stats)
    ensures OutboundSettles(Counters(Emitted(last, stats)), tag)
  {
    var cs := Counters(Emitted(last, stats));
    EmittedCounters(last, stats);
    FirstAndLast(cs, tag, true);
    FirstAndLast(cs, tag, false);
    forall c, d | c in cs && d in cs && SameTag(c, d) ensures c.inbound == d.inbound {
      var i :| 0 <= i < |stats| && stats[i].counter == c;
      var j :| 0 <= j < |stats| && stats[j].counter == d;
    }
  }

  // After a poll every tag's row has gained the growth of its outbound counters.
  lemma PollCredits(s: State, stats: seq<Stat>, traffics: seq<Traffic>, keys: seq<string>, tag: string)
    requires OnePerCounter(stats) && TagsApart(stats)
    requires Lists(traffics, keys, ByTag(Emitted(s.last, stats)))
    ensures var ds := Emitted(s.last, stats);
            var before, after := Held(s.rows, tag), Held(Added(s.rows, traffics), tag);
            after.up == before.up + Due(ds, tag, false) && after.down == before.down + Due(ds, tag, true) &&
            (before.total == before.up + before.down ==> after.total == after.up + after.down)
  {
    var ds := Emitted(s.last, stats);
    ApartSettles(s.last, stats, tag);
    SettledIsRight(ds, tag);
    ApiNeverListed(ds);
    forall k | k in ByTag(ds) ensures ByTag(ds)[k].tag == k {
      EntrySide(ds, k);
    }
    AddedHolds(s.rows, traffics, keys, ByTag(ds), tag);
  }

  lemma {:induction false} LastIsLastSeen(events: seq<Event>, c: Counter)
    ensures var last, vs := RunEvents(events).last, Seen(events, c);
            (c in last <==> vs != []) && (c in last ==> last[c] == vs[|vs| - 1])
  {
    if events != [] {
      var n := |events| - 1;
      LastIsLastSeen(events[..n], c);
      if events[n].Poll? { NotedHolds(RunEvents(events[..n]).last, events[n].stats, c); }
    }
  }

  // The number of events up to the tag's latest reset.
  function LatestReset(events: seq<Event>, tag: string): (n: nat)
    ensures n <= |events|
  {
    if events == [] then 0
    else
      var n := |events| - 1;
      if events[n].ResetOutbound? && Clears(events[n].target, tag) then |events| else LatestReset(events[..n], tag)
  }

  function GrownSince(events: seq<Event>, start: nat, c: Counter): int
    requires start <= |events|
  {
    Growth(Seen(events, c)) - Growth(Seen(events[..start], c))
  }

  lemma GrowthStep(events: seq<Event>, c: Counter)
    requires events != [] && events[|events| - 1].Poll? && OnePerCounter(events[|events| - 1].stats)
    ensures var n := |events| - 1;
            Growth(Seen(events, c)) == Growth(Seen(events[..n], c)) +
                                       AmountOf(Emitted(RunEvents(events[..n]).last, events[n].stats), c)
  {
    var n := |events| - 1;
    var vs := Seen(events[..n], c);
    LastIsLastSeen(events[..n], c);
    DeltaIsGrowth(RunEvents(events[..n]).last, events[n].stats, c);
    assert forall v :: (vs + [v])[..|vs|] == vs;
  }

  // The row holds what its counters grew by since an earlier moment.
  predicate RowGrewSince(events: seq<Event>, start: nat, tag: string)
    requires start <= |events|
  {
    var row := Held(RunEvents(events).rows, tag);
    && (tag != API_TAG ==> row.up == GrownSince(events, start, Link(false, tag, false)) &&
                           row.down == GrownSince(events, start, Link(false, tag, true)))
    && (tag == API_TAG ==> row.up == 0 && row.down == 0)
    && row.total == row.up + row.down
  }

  lemma PollKeepsGrowth(events: seq<Event>, start: nat, tag: string)
    requires events != [] && events[|events| - 1].Poll? && Legal(events) && start < |events|
    requires RowGrewSince(events[..|events| - 1], start, tag)
    ensures RowGrewSince(events, start, tag)
  {
    hide Growth, Seen, Emitted, Noted, ByTag, AmountOf, OnePerCounter, TagsApart, Held, Added;
    var n := |events| - 1;
    var prev, e := RunEvents(events[..n]), events[n];
    assert events[..n][..start] == events[..start];
    var keys :| Lists(e.traffics, keys, ByTag(Emitted(prev.last, e.stats)));
    PollCredits(prev, e.stats, e.traffics, keys, tag);
    GrowthStep(events, Link(false, tag, false));
    GrowthStep(events, Link(false, tag, true));
  }

  // At any moment an outbound row holds what its two counters grew by since its
  // latest reset, and its total is their sum.
  lemma {:induction false} RowsAreGrowth(events: seq<Event>, tag: string)
    requires Legal(events)
    ensures RowGrewSince(events, LatestReset(events, tag), tag)
  {
    hide Growth, Seen, Lists, OnePerCounter, TagsApart;
    if events == [] {
      assert events[..0] == events;
    } else {
      var n := |events| - 1;
      RowsAreGrowth(events[..n], tag);
      if events[n].Poll? {
        PollKeepsGrowth(events, LatestReset(events, tag), tag);
      } else {
        assert events[..|events|] == events;
        assert events[..n][..LatestReset(events[..n], tag)] == events[..LatestReset(events[..n], tag)];
        ResetHolds(RunEvents(events[..n]).rows, events[n].target, tag);
        ResetKeepsSeen(events, Link(false, tag, false));
        ResetKeepsSeen(events, Link(false, tag, true));
      }
    }
  }

  lemma ResetKeepsSeen(events: seq<Event>, c: Counter)
    requires events != [] && events[|events| - 1].ResetOutbound?
    ensures Seen(events, c) == Seen(events[..|events| - 1], c)
  {
  }

  // A client's entry holds what its counters grew by in this poll, and a client
  // without an entry has not grown.
  lemma ClientEntryIsGrowth(last: map<Counter, int>, stats: seq<Stat>, email: string, down: bool)
    requires OnePerCounter(stats)
    ensures var m := ByEmail(Emitted(last, stats));
            var r := Reported(stats, User(email, down));
            var grown := if r.Some? && User(email, down) in last && r.value >= last[User(email, down)]
                         then r.value - last[User(email, down)] else 0;
            grown == if email !in m then 0 else if down then m[email].down else m[email].up
  {
    ClientEntryHolds(Emitted(last, stats), email);
    DeltaIsGrowth(last, stats, User(email, down));
  }
}
