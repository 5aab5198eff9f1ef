// The traffic summary of a subscription: many clients' rows folded into one header.
module SubTraffic {

  datatype TrafficRow = TrafficRow(email: string, up: int, down: int, total: int, expiry: int, lastOnline: int)

  datatype RecordRow = RecordRow(email: string, totalGB: int, expiry: int)

  datatype Limit = Limit(total: int, expiry: int)

  datatype Summary = Summary(up: int, down: int, total: int, expiry: int, lastOnline: int)

  const NOTHING := Summary(0, 0, 0, 0, 0)

  // A negative expiry is a duration counted from now.
  function SubscriptionExpiryFromClient(now: int, expiry: int): int {
    if expiry > 0 then expiry else if expiry < 0 then now + (-expiry) else 0
  }

  function LimitsOf(records: seq<RecordRow>): map<string, Limit> {
    if records == [] then map[]
    else
      var n := |records| - 1;
      LimitsOf(records[..n])[records[n].email := Limit(records[n].totalGB, records[n].expiry)]
  }

  // The row's own limits, or its client's where the row has none.
  function TotalOf(r: TrafficRow, limits: map<string, Limit>): int {
    if r.total == 0 && r.email in limits then limits[r.email].total else r.total
  }

  function ExpiryOf(r: TrafficRow, limits: map<string, Limit>, now: int): int {
    SubscriptionExpiryFromClient(now, if r.expiry == 0 && r.email in limits then limits[r.email].expiry else r.expiry)
  }

  function Fold(rows: seq<TrafficRow>, limits: map<string, Limit>, now: int): Summary {
    if rows == [] then NOTHING
    else
      var n := |rows| - 1;
      var r, agg := rows[n], Fold(rows[..n], limits, now);
      var total, expiry := TotalOf(r, limits), ExpiryOf(r, limits, now);
      var lastOnline := if r.lastOnline > agg.lastOnline then r.lastOnline else agg.lastOnline;
      if n == 0 then Summary(r.up, r.down, total, expiry, lastOnline)
      else Summary(agg.up + r.up, agg.down + r.down,
                   if agg.total == 0 || total == 0 then 0 else agg.total + total,
                   if expiry != agg.expiry then 0 else agg.expiry,
                   lastOnline)
  }

  method LoadLimits(records: seq<RecordRow>) returns (limits: map<string, Limit>)
    ensures limits == LimitsOf(records)
  {
    limits := map[];
    for i := 0 to |records|
      invariant limits == LimitsOf(records[..i])
    {
      assert records[..i + 1][..i] == records[..i];
      limits := limits[records[i].email := Limit(records[i].totalGB, records[i].expiry)];
    }
    assert records[..|records|] == records;
  }

  lemma NoClientsNoRows(emails: seq<string>, rows: seq<TrafficRow>)
    requires forall r :: r in rows ==> r.email in emails
    ensures emails == [] ==> rows == []
  {
    if rows != [] { assert rows[0].email in emails; }
  }

  method AggregateTrafficByEmails(emails: seq<string>, rows: seq<TrafficRow>, records: seq<RecordRow>, now: int)
    returns (agg: Summary)
    requires forall r :: r in rows ==> r.email in emails
    ensures agg == Fold(rows, LimitsOf(records), now)
  {
    hide LimitsOf;
    agg := NOTHING;
    NoClientsNoRows(emails, rows);
    if |emails| == 0 {
      return;
    }
    var limits := LoadLimits(records);
    var first := true;
    for i := 0 to |rows|
      invariant first == (i == 0)
      invariant agg == Fold(rows[..i], limits, now)
    {
      assert rows[..i + 1][..i] == rows[..i];
      var ct := rows[i];
      if ct.lastOnline > agg.lastOnline {
        agg := agg.(lastOnline := ct.lastOnline);
      }
      var total, expiry := ct.total, ct.expiry;
      if ct.email in limits {
        if total == 0 {
          total := limits[ct.email].total;
        }
        if expiry == 0 {
          expiry := limits[ct.email].expiry;
        }
      }
      var normalized := SubscriptionExpiryFromClient(now, expiry);
      if first {
        agg := agg.(up := ct.up, down := ct.down, total := total, expiry := normalized);
        first := false;
      } else {
        agg := agg.(up := agg.up + ct.up, down := agg.down + ct.down);
        if agg.total == 0 || total == 0 {
          agg := agg.(total := 0);
        } else {
          agg := agg.(total := agg.total + total);
        }
        if normalized != agg.expiry {
          agg := agg.(expiry := 0);
        }
      }
    }
    assert rows[..|rows|] == rows;
  }

  // ---------- what the fold means ----------

  // A client's limits are those of its last record.
  lemma {:induction false} LimitsHold(records: seq<RecordRow>, email: string)
    ensures var limits := LimitsOf(records);
      if email in limits then exists i :: LastRecord(records, email, i) && limits[email] == Limit(records[i].totalGB, records[i].expiry)
      else forall r :: r in records ==> r.email != email
  {
    if records != [] {
      var n := |records| - 1;
      LimitsHold(records[..n], email);
      assert records == records[..n] + [records[n]];
      if records[n].email == email {
        assert LastRecord(records, email, n);
      } else if email in LimitsOf(records[..n]) {
        var i :| LastRecord(records[..n], email, i) && LimitsOf(records[..n])[email] == Limit(records[..n][i].totalGB, records[..n][i].expiry);
        assert LastRecord(records, email, i);
      }
    }
  }

  predicate LastRecord(records: seq<RecordRow>, email: string, i: int) {
    0 <= i < |records| && records[i].email == email && forall j :: i < j < |records| ==> records[j].email != email
  }

  // One client's header: its own quota and expiry, or its record's where the row has
  // none; a negative expiry counts from now, and none stays none.
  lemma OneClient(r: TrafficRow, limits: map<string, Limit>, now: int)
    ensures var s := Fold([r], limits, now);
      && s.up == r.up && s.down == r.down && s.lastOnline == (if r.lastOnline > 0 then r.lastOnline else 0)
      && (r.total != 0 || r.email !in limits ==> s.total == r.total)
      && (r.total == 0 && r.email in limits ==> s.total == limits[r.email].total)
      && (r.expiry > 0 ==> s.expiry == r.expiry) && (r.expiry < 0 ==> s.expiry == now - r.expiry)
      && (r.expiry == 0 && r.email in limits && limits[r.email].expiry > 0 ==> s.expiry == limits[r.email].expiry)
      && (r.expiry == 0 && r.email in limits && limits[r.email].expiry < 0 ==> s.expiry == now - limits[r.email].expiry)
      && (r.expiry == 0 && (r.email in limits ==> limits[r.email].expiry == 0) ==> s.expiry == 0)
  {
    assert [r][..0] == [];
  }

  function Up(r: TrafficRow): int { r.up }

  function Down(r: TrafficRow): int { r.down }

  function Quota(limits: map<string, Limit>): (f: TrafficRow -> int)
    ensures forall r :: f(r) == TotalOf(r, limits)
  {
    r => TotalOf(r, limits)
  }

  function Sum(rows: seq<TrafficRow>, f: TrafficRow -> int): int {
    if rows == [] then 0 else Sum(rows[..|rows| - 1], f) + f(rows[|rows| - 1])
  }

  lemma {:induction false} SumsHold(rows: seq<TrafficRow>, limits: map<string, Limit>, now: int)
    ensures Fold(rows, limits, now).up == Sum(rows, Up) && Fold(rows, limits, now).down == Sum(rows, Down)
  {
    if rows != [] {
      SumsHold(rows[..|rows| - 1], limits, now);
    }
  }

  // The latest positive activity, or 0.
  lemma {:induction false} LastOnlineHolds(rows: seq<TrafficRow>, limits: map<string, Limit>, now: int)
    ensures var last := Fold(rows, limits, now).lastOnline;
            last >= 0 && (forall r :: r in rows ==> r.lastOnline <= last) &&
            (last > 0 ==> exists r :: r in rows && r.lastOnline == last)
  {
    if rows != [] {
      var n := |rows| - 1;
      LastOnlineHolds(rows[..n], limits, now);
      assert rows == rows[..n] + [rows[n]];
    }
  }

  lemma FoldedExpiry(rows: seq<TrafficRow>, limits: map<string, Limit>, now: int)
    requires rows != []
    ensures var n := |rows| - 1;
      var e, x := Fold(rows[..n], limits, now).expiry, ExpiryOf(rows[n], limits, now);
      Fold(rows, limits, now).expiry == if n == 0 || x == e then x else 0
  {}

  // The expiry every client shares, or 0 when two differ.
  lemma {:induction false} ExpiryHolds(rows: seq<TrafficRow>, limits: map<string, Limit>, now: int)
    ensures var e := Fold(rows, limits, now).expiry;
            (forall r :: r in rows ==> ExpiryOf(r, limits, now) == e) ||
            (e == 0 && exists r, q :: r in rows && q in rows && ExpiryOf(r, limits, now) != ExpiryOf(q, limits, now))
  {
    if rows != [] {
      var n := |rows| - 1;
      var front := rows[..n];
      ExpiryHolds(front, limits, now);
      assert rows == front + [rows[n]];
      FoldedExpiry(rows, limits, now);
      hide Fold, ExpiryOf;
      if n > 0 {
        assert front[0] in front && front[0] in rows && rows[n] in rows;
      } else {
        assert front == [];
      }
    }
  }

  ghost predicate SomeUnlimited(rows: seq<TrafficRow>, f: TrafficRow -> int) {
    exists i :: 0 <= i < |rows| && f(rows[i]) == 0
  }

  // 0 as soon as one client is unlimited, else the sum of the quotas.
  ghost function Intended(rows: seq<TrafficRow>, f: TrafficRow -> int): int {
    if SomeUnlimited(rows, f) then 0 else Sum(rows, f)
  }

  // The quotas of the first few rows add up to 0.
  ghost predicate CancelsEarly(rows: seq<TrafficRow>, f: TrafficRow -> int) {
    exists k :: 0 < k < |rows| && Sum(rows[..k], f) == 0
  }

  lemma PrefixCancels(rows: seq<TrafficRow>, f: TrafficRow -> int)
    requires |rows| > 1
    ensures var n := |rows| - 1;
            CancelsEarly(rows, f) <==> CancelsEarly(rows[..n], f) || Sum(rows[..n], f) == 0
  {
    var n := |rows| - 1;
    if CancelsEarly(rows[..n], f) {
      var k :| 0 < k < n && Sum(rows[..n][..k], f) == 0;
      assert rows[..n][..k] == rows[..k];
    }
    if CancelsEarly(rows, f) && Sum(rows[..n], f) != 0 {
      var k :| 0 < k < |rows| && Sum(rows[..k], f) == 0;
      assert rows[..n][..k] == rows[..k];
    }
  }

  lemma PrefixUnlimited(rows: seq<TrafficRow>, f: TrafficRow -> int)
    requires rows != []
    ensures var n := |rows| - 1;
            SomeUnlimited(rows, f) <==> SomeUnlimited(rows[..n], f) || f(rows[n]) == 0
  {
    var n := |rows| - 1;
    assert forall i :: 0 <= i < n ==> rows[..n][i] == rows[i];
  }

  // The running total is stuck at 0 from the first unlimited client or the first
  // cancellation on.
  lemma {:induction false} TotalHolds(rows: seq<TrafficRow>, limits: map<string, Limit>, now: int)
    ensures Fold(rows, limits, now).total == if CancelsEarly(rows, Quota(limits)) then 0 else Intended(rows, Quota(limits))
  {
    var f := Quota(limits);
    if rows != [] {
      var n := |rows| - 1;
      TotalHolds(rows[..n], limits, now);
      PrefixUnlimited(rows, f);
      if n > 0 { PrefixCancels(rows, f); }
    }
  }

  // The header carries the intended quota exactly when the quotas of no first few
  // rows cancel out, or the intended quota is 0 anyway.
  lemma TotalIsIntended(rows: seq<TrafficRow>, limits: map<string, Limit>, now: int)
    ensures var f := Quota(limits);
            Fold(rows, limits, now).total == Intended(rows, f) <==> !CancelsEarly(rows, f) || Intended(rows, f) == 0
  {
    TotalHolds(rows, limits, now);
  }

  lemma {:induction false} NonNegativeSums(rows: seq<TrafficRow>, f: TrafficRow -> int)
    requires forall i :: 0 <= i < |rows| ==> f(rows[i]) >= 0
    ensures Sum(rows, f) >= 0
    ensures rows != [] && Sum(rows, f) == 0 ==> f(rows[0]) == 0
  {
    if rows != [] {
      NonNegativeSums(rows[..|rows| - 1], f);
    }
  }

  lemma NonNegativeIsIntended(rows: seq<TrafficRow>, limits: map<string, Limit>, now: int)
    requires forall i :: 0 <= i < |rows| ==> TotalOf(rows[i], limits) >= 0
    ensures Fold(rows, limits, now).total == Intended(rows, Quota(limits))
  {
    var f := Quota(limits);
    TotalHolds(rows, limits, now);
    if CancelsEarly(rows, f) {
      var k :| 0 < k < |rows| && Sum(rows[..k], f) == 0;
      NonNegativeSums(rows[..k], f);
    }
  }

  // ---------- row order ----------

  lemma {:induction false} SumWithout(rows: seq<TrafficRow>, f: TrafficRow -> int, k: nat)
    requires k < |rows|
    ensures Sum(rows, f) == Sum(rows[..k] + rows[k + 1..], f) + f(rows[k])
  {
    var n := |rows| - 1;
    if k == n {
      assert rows[..k] + rows[k + 1..] == rows[..n];
    } else {
      SumWithout(rows[..n], f, k);
      assert (rows[..k] + rows[k + 1..])[..n - 1] == rows[..n][..k] + rows[..n][k + 1..];
    }
  }

  lemma {:induction false} SumOfPermutation(rows: seq<TrafficRow>, other: seq<TrafficRow>, f: TrafficRow -> int)
    requires multiset(rows) == multiset(other)
    ensures Sum(rows, f) == Sum(other, f)
  {
    if rows == [] {
      assert |other| == |multiset(other)| == 0;
    } else {
      var n := |rows| - 1;
      var r := rows[n];
      assert r in multiset(other);
      var k :| 0 <= k < |other| && other[k] == r;
      SameWithout(rows, other, k);
      SumOfPermutation(rows[..n], other[..k] + other[k + 1..], f);
      SumWithout(other, f, k);
    }
  }

  lemma SameWithout(rows: seq<TrafficRow>, other: seq<TrafficRow>, k: nat)
    requires multiset(rows) == multiset(other) && rows != [] && k < |other| && other[k] == rows[|rows| - 1]
    ensures multiset(rows[..|rows| - 1]) == multiset(other[..k] + other[k + 1..])
  {
    var r := other[k];
    assert rows == rows[..|rows| - 1] + [r];
    assert other == other[..k] + [r] + other[k + 1..];
    assert multiset(rows[..|rows| - 1]) == multiset(rows) - multiset{r};
  }

  lemma SameRows(rows: seq<TrafficRow>, other: seq<TrafficRow>)
    requires multiset(rows) == multiset(other)
    ensures forall r :: r in rows <==> r in other
  {
    assert forall r :: r in rows <==> r in multiset(rows);
    assert forall r :: r in other <==> r in multiset(other);
  }

  lemma SameIntended(rows: seq<TrafficRow>, other: seq<TrafficRow>, f: TrafficRow -> int)
    requires multiset(rows) == multiset(other)
    ensures Intended(rows, f) == Intended(other, f)
  {
    SameRows(rows, other);
    SumOfPermutation(rows, other, f);
    assert SomeUnlimited(rows, f) <==> exists r :: r in rows && f(r) == 0;
    assert SomeUnlimited(other, f) <==> exists r :: r in other && f(r) == 0;
  }

  // Two orders of the same rows give the same header exactly when the intended quota
  // is 0, or the quotas cancel early in both orders or in neither.
  lemma OrderExact(rows: seq<TrafficRow>, other: seq<TrafficRow>, limits: map<string, Limit>, now: int)
    requires multiset(rows) == multiset(other)
    ensures Fold(rows, limits, now) == Fold(other, limits, now) <==>
            Intended(rows, Quota(limits)) == 0 || (CancelsEarly(rows, Quota(limits)) <==> CancelsEarly(other, Quota(limits)))
  {
    hide Fold, Sum, Intended, CancelsEarly;
    SameRows(rows, other);
    SumsHold(rows, limits, now);
    SumsHold(other, limits, now);
    SumOfPermutation(rows, other, Up);
    SumOfPermutation(rows, other, Down);
    SameLastOnline(rows, other, limits, now);
    SameExpiry(rows, other, limits, now);
    SameIntended(rows, other, Quota(limits));
    TotalHolds(rows, limits, now);
    TotalHolds(other, limits, now);
  }

  // So for quotas that are never negative the header does not depend on row order.
  lemma OrderIrrelevant(rows: seq<TrafficRow>, other: seq<TrafficRow>, limits: map<string, Limit>, now: int)
    requires multiset(rows) == multiset(other)
    requires forall r :: r in rows ==> TotalOf(r, limits) >= 0
    ensures Fold(rows, limits, now) == Fold(other, limits, now)
  {
    hide Fold, Sum, Intended, CancelsEarly;
    SameRows(rows, other);
    NonNegativeIsIntended(rows, limits, now);
    NonNegativeIsIntended(other, limits, now);
    SameIntended(rows, other, Quota(limits));
    TotalHolds(rows, limits, now);
    TotalHolds(other, limits, now);
    OrderExact(rows, other, limits, now);
  }

  lemma SameLastOnline(rows: seq<TrafficRow>, other: seq<TrafficRow>, limits: map<string, Limit>, now: int)
    requires forall r :: r in rows <==> r in other
    ensures Fold(rows, limits, now).lastOnline == Fold(other, limits, now).lastOnline
  {
    LastOnlineHolds(rows, limits, now);
    LastOnlineHolds(other, limits, now);
  }

  lemma SameExpiry(rows: seq<TrafficRow>, other: seq<TrafficRow>, limits: map<string, Limit>, now: int)
    requires forall r :: r in rows <==> r in other
    ensures Fold(rows, limits, now).expiry == Fold(other, limits, now).expiry
  {
    ExpiryHolds(rows, limits, now);
    ExpiryHolds(other, limits, now);
    if rows == [] {
      assert other != [] ==> other[0] in other;
    } else {
      assert rows[0] in rows && rows[0] in other;
    }
  }

  // Quotas below 0 do make it depend on the order: these three clients are worth 3
  // in one order and 0, meaning unlimited, in the other.
  lemma OrderMattersBelowZero()
    ensures var a, b, c := TrafficRow("a", 0, 0, 5, 0, 0), TrafficRow("b", 0, 0, -5, 0, 0), TrafficRow("c", 0, 0, 3, 0, 0);
            Fold([a, b, c], map[], 0).total == 0 && Fold([c, a, b], map[], 0).total == 3
  {
    hide Fold;
    var a, b, c := TrafficRow("a", 0, 0, 5, 0, 0), TrafficRow("b", 0, 0, -5, 0, 0), TrafficRow("c", 0, 0, 3, 0, 0);
    ThreeRows(a, b, c, map[], 0);
    ThreeRows(c, a, b, map[], 0);
  }

  lemma ThreeRows(a: TrafficRow, b: TrafficRow, c: TrafficRow, limits: map<string, Limit>, now: int)
    requires TotalOf(a, limits) != 0 && TotalOf(b, limits) != 0 && TotalOf(c, limits) != 0
    ensures Fold([a, b, c], limits, now).total ==
            if TotalOf(a, limits) + TotalOf(b, limits) == 0 then 0 else TotalOf(a, limits) + TotalOf(b, limits) + TotalOf(c, limits)
  {
    hide Fold, TotalOf;
    FoldAppends([], a, limits, now);
    FoldAppends([a], b, limits, now);
    FoldAppends([a, b], c, limits, now);
    assert [] + [a] == [a] && [a] + [b] == [a, b] && [a, b] + [c] == [a, b, c];
  }

  lemma FoldAppends(rows: seq<TrafficRow>, r: TrafficRow, limits: map<string, Limit>, now: int)
    ensures var total, agg := TotalOf(r, limits), Fold(rows, limits, now).total;
            Fold(rows + [r], limits, now).total == if rows == [] then total else if agg == 0 || total == 0 then 0 else agg + total
  {
    assert (rows + [r])[..|rows|] == rows;
  }
}
