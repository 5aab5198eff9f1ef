// Which occurrence of a client decides a field of the merged row, and when the
// order of the occurrences can change it. The fields in question are those the
// merge takes over from the newer record: nine texts and two numbers.
module MergeOrder {
  import opened Text
  import opened ClientModel
  import opened RecordMerge

  datatype Field = SubId | Uuid | Password | Auth | Flow | Security | Reverse | Group | Comment | TgId | Reset

  datatype Cell = Words(s: string) | Number(n: int)

  predicate Blank(c: Cell) {
    c in {Words(""), Number(0)}
  }

  function ValueOf(f: Field, r: ClientRecord): Cell {
    match f
    case SubId => Words(r.subId)
    case Uuid => Words(r.uuid)
    case Password => Words(r.password)
    case Auth => Words(r.auth)
    case Flow => Words(r.flow)
    case Security => Words(r.security)
    case Reverse => Words(r.reverse)
    case Group => Words(r.group)
    case Comment => Words(r.comment)
    case TgId => Number(r.tgId)
    case Reset => Number(r.reset)
  }

  // What matters of a record for one field: its times and its value.
  datatype Mark = Mark(updated: int, created: int, value: Cell)

  function MarkOf(f: Field, r: ClientRecord): Mark {
    Mark(r.updatedAt, r.createdAt, ValueOf(f, r))
  }

  predicate Beats(e: Mark, i: Mark) {
    i.updated > e.updated || (i.updated == e.updated && i.created > e.created)
  }

  function Picked(e: Cell, i: Cell, newer: bool): Cell {
    if !Blank(i) && (newer || Blank(e)) then i else e
  }

  function Joined(e: Mark, i: Mark): Mark {
    Mark(Max(e.updated, i.updated), JoinMin(e.created, i.created), Picked(e.value, i.value, Beats(e, i)))
  }

  function FoldMarks(ms: seq<Mark>): Mark
    requires ms != []
  {
    if |ms| == 1 then ms[0] else Joined(FoldMarks(ms[..|ms| - 1]), ms[|ms| - 1])
  }

  function Marks(f: Field, rs: seq<ClientRecord>): (ms: seq<Mark>)
    ensures |ms| == |rs| && forall i :: 0 <= i < |rs| ==> ms[i] == MarkOf(f, rs[i])
  {
    seq(|rs|, i requires 0 <= i < |rs| => MarkOf(f, rs[i]))
  }

  // Merging records merges their marks.
  lemma {:induction false} MergedMark(f: Field, e: ClientRecord, i: ClientRecord)
    ensures MarkOf(f, Merged(e, i)) == Joined(MarkOf(f, e), MarkOf(f, i))
  {}

  lemma {:induction false} FoldOfMarks(f: Field, rs: seq<ClientRecord>)
    requires rs != []
    ensures MarkOf(f, Fold(rs)) == FoldMarks(Marks(f, rs))
  {
    hide Merged, MarkOf;
    var n := |rs| - 1;
    if n > 0 {
      FoldOfMarks(f, rs[..n]);
      MergedMark(f, Fold(rs[..n]), rs[n]);
      assert Marks(f, rs)[..n] == Marks(f, rs[..n]);
    }
  }

  // ---------- the joined times ----------

  lemma {:induction false} FoldUpdated(ms: seq<Mark>)
    requires ms != []
    ensures forall i :: 0 <= i < |ms| ==> ms[i].updated <= FoldMarks(ms).updated
    ensures exists i :: 0 <= i < |ms| && ms[i].updated == FoldMarks(ms).updated
  {
    var n := |ms| - 1;
    if n > 0 {
      FoldUpdated(ms[..n]);
      var i :| 0 <= i < n && ms[..n][i].updated == FoldMarks(ms[..n]).updated;
      assert ms[i].updated == FoldMarks(ms[..n]).updated;
      forall j | 0 <= j < |ms| ensures ms[j].updated <= FoldMarks(ms).updated {
        if j < n { assert ms[..n][j] == ms[j]; }
      }
      assert FoldMarks(ms).updated == ms[i].updated || FoldMarks(ms).updated == ms[n].updated;
    } else {
      assert FoldMarks(ms) == ms[0];
    }
  }

  // The earliest creation time given, 0 when none is.
  lemma {:induction false} FoldCreated(ms: seq<Mark>)
    requires ms != [] && forall i :: 0 <= i < |ms| ==> ms[i].created >= 0
    ensures FoldMarks(ms).created >= 0
    ensures forall i :: 0 <= i < |ms| && ms[i].created > 0 ==> 0 < FoldMarks(ms).created <= ms[i].created
    ensures FoldMarks(ms).created > 0 ==> exists i :: 0 <= i < |ms| && ms[i].created == FoldMarks(ms).created
  {
    var n := |ms| - 1;
    if n > 0 {
      var front := ms[..n];
      FoldCreated(front);
      forall j | 0 <= j < |ms| && ms[j].created > 0 ensures 0 < FoldMarks(ms).created <= ms[j].created {
        if j < n { assert front[j] == ms[j]; }
      }
      if FoldMarks(front).created > 0 {
        var i :| 0 <= i < n && front[i].created == FoldMarks(front).created;
        assert ms[i].created == FoldMarks(front).created;
      }
      assert FoldMarks(ms).created in {FoldMarks(front).created, ms[n].created};
    }
  }

  // ---------- two records ----------

  // Two records merge to one value in either order exactly when one of them has
  // none, both have the same, or their times differ.
  lemma {:induction false} PairOrder(f: Field, a: ClientRecord, b: ClientRecord)
    ensures ValueOf(f, Merged(a, b)) == ValueOf(f, Merged(b, a)) <==>
            Blank(ValueOf(f, a)) || Blank(ValueOf(f, b)) || ValueOf(f, a) == ValueOf(f, b) ||
            a.updatedAt != b.updatedAt || a.createdAt != b.createdAt
  {
    hide Merged;
    MergedMark(f, a, b);
    MergedMark(f, b, a);
    OneKind(f, a, b);
  }

  // The blank value of a field is one value.
  lemma {:induction false} OneKind(f: Field, a: ClientRecord, b: ClientRecord)
    ensures Blank(ValueOf(f, a)) && Blank(ValueOf(f, b)) ==> ValueOf(f, a) == ValueOf(f, b)
  {}

  // ---------- the newest records ----------

  lemma {:induction false} TopValue(ms: seq<Mark>, top: int, v: Cell)
    requires !Blank(v) && (forall i :: 0 <= i < |ms| ==> ms[i].updated <= top) && (exists i :: 0 <= i < |ms| && ms[i].updated == top)
    requires forall i :: 0 <= i < |ms| && ms[i].updated == top ==> ms[i].value == v
    ensures FoldMarks(ms).value == v && FoldMarks(ms).updated == top
  {
    var n := |ms| - 1;
    if n > 0 {
      var front := ms[..n];
      FoldUpdated(front);
      if i :| 0 <= i < n && front[i].updated == top {
        TopValue(front, top, v);
      } else {
        assert forall i :: 0 <= i < n ==> front[i] == ms[i];
        var i :| 0 <= i < |ms| && ms[i].updated == top;
        assert i == n;
      }
    }
  }

  // A non-blank value that every record with the latest update time holds is the
  // value of the merged row, whatever the order and the older records.
  lemma {:induction false} NewestAgree(f: Field, rs: seq<ClientRecord>, top: int, v: Cell)
    requires !Blank(v) && (forall i :: 0 <= i < |rs| ==> rs[i].updatedAt <= top) && (exists i :: 0 <= i < |rs| && rs[i].updatedAt == top)
    requires forall i :: 0 <= i < |rs| && rs[i].updatedAt == top ==> ValueOf(f, rs[i]) == v
    ensures ValueOf(f, Fold(rs)) == v
  {
    var i :| 0 <= i < |rs| && rs[i].updatedAt == top;
    assert Marks(f, rs)[i].updated == top;
    FoldOfMarks(f, rs);
    TopValue(Marks(f, rs), top, v);
  }

  // In particular a field ends as the newest record has it, if it has it, whatever
  // any record holds in other fields.
  lemma {:induction false} NewestWins(f: Field, rs: seq<ClientRecord>, m: nat)
    requires m < |rs| && !Blank(ValueOf(f, rs[m]))
    requires forall i :: 0 <= i < |rs| && i != m ==> rs[i].updatedAt < rs[m].updatedAt
    ensures ValueOf(f, Fold(rs)) == ValueOf(f, rs[m])
  {
    NewestAgree(f, rs, rs[m].updatedAt, ValueOf(f, rs[m]));
  }

  // ---------- orders ----------

  // Every order of the records gives the field the same value.
  ghost predicate OrderFree(f: Field, rs: seq<ClientRecord>)
    requires rs != []
  {
    forall qs: seq<ClientRecord> | qs != [] && multiset(qs) == multiset(rs) :: ValueOf(f, Fold(qs)) == ValueOf(f, Fold(rs))
  }

  ghost predicate MarksFree(ms: seq<Mark>)
    requires ms != []
  {
    forall ns: seq<Mark> | ns != [] && multiset(ns) == multiset(ms) :: FoldMarks(ns).value == FoldMarks(ms).value
  }

  function Pulled<T>(s: seq<T>, k: nat): (r: seq<T>)
    requires k < |s|
    ensures |r| == |s| - 1 && multiset(s) == multiset{s[k]} + multiset(r)
    ensures forall i :: 0 <= i < |r| ==> r[i] == if i < k then s[i] else s[i + 1]
  {
    assert s == s[..k] + [s[k]] + s[k + 1..];
    s[..k] + s[k + 1..]
  }

  lemma {:induction false} SameMembers<T>(a: seq<T>, b: seq<T>)
    requires multiset(a) == multiset(b)
    ensures (forall x :: x in a <==> x in b) && |a| == |b|
  {
    assert forall x :: x in a <==> x in multiset(a);
    assert forall x :: x in b <==> x in multiset(b);
    assert |a| == |multiset(a)| && |b| == |multiset(b)|;
  }

  lemma {:induction false} SplitLast<T>(s: seq<T>)
    requires s != []
    ensures multiset(s) == multiset{s[|s| - 1]} + multiset(s[..|s| - 1])
  {
    assert s == s[..|s| - 1] + [s[|s| - 1]];
  }

  lemma {:induction false} SameRest<T>(x: T, b: multiset<T>, c: multiset<T>)
    requires multiset{x} + b == multiset{x} + c
    ensures b == c
  {
    assert b == multiset{x} + b - multiset{x};
    assert c == multiset{x} + c - multiset{x};
  }

  lemma {:induction false} MarksPulled(f: Field, rs: seq<ClientRecord>, k: nat)
    requires k < |rs|
    ensures Marks(f, Pulled(rs, k)) == Pulled(Marks(f, rs), k)
  {
    hide MarkOf;
  }

  lemma {:induction false} MarksPermute(f: Field, rs: seq<ClientRecord>, qs: seq<ClientRecord>)
    requires multiset(rs) == multiset(qs)
    ensures multiset(Marks(f, rs)) == multiset(Marks(f, qs))
  {
    hide MarkOf, Pulled, Marks;
    SameMembers(rs, qs);
    if rs != [] {
      var n := |rs| - 1;
      assert rs[n] in qs;
      var k :| 0 <= k < |qs| && qs[k] == rs[n];
      SplitLast(rs);
      SameRest(rs[n], multiset(rs[..n]), multiset(Pulled(qs, k)));
      MarksPermute(f, rs[..n], Pulled(qs, k));
      SplitLast(Marks(f, rs));
      FrontMarks(f, rs);
      MarksPulled(f, qs, k);
    }
  }

  lemma {:induction false} FrontMarks(f: Field, rs: seq<ClientRecord>)
    requires rs != []
    ensures Marks(f, rs)[..|rs| - 1] == Marks(f, rs[..|rs| - 1])
  {
    hide MarkOf;
  }

  // Every order of the marks is the order of some arrangement of the records.
  lemma {:induction false} RecordsFollow(f: Field, rs: seq<ClientRecord>, ms: seq<Mark>) returns (qs: seq<ClientRecord>)
    requires multiset(ms) == multiset(Marks(f, rs))
    ensures multiset(qs) == multiset(rs) && Marks(f, qs) == ms
  {
    hide MarkOf;
    SameMembers(ms, Marks(f, rs));
    if ms == [] {
      assert rs == [];
      qs := [];
    } else {
      var n := |ms| - 1;
      assert ms[n] in Marks(f, rs);
      var k :| 0 <= k < |rs| && Marks(f, rs)[k] == ms[n];
      SplitLast(ms);
      var rest := Pulled(rs, k);
      MarksPulled(f, rs, k);
      SameRest(ms[n], multiset(ms[..n]), multiset(Marks(f, rest)));
      var front := RecordsFollow(f, rest, ms[..n]);
      qs := front + [rs[k]];
      LastAdded(f, front, rs[k], ms);
    }
  }

  lemma {:induction false} LastAdded(f: Field, front: seq<ClientRecord>, r: ClientRecord, ms: seq<Mark>)
    requires ms != [] && Marks(f, front) == ms[..|ms| - 1] && MarkOf(f, r) == ms[|ms| - 1]
    ensures Marks(f, front + [r]) == ms
  {
    hide MarkOf;
    var qs := front + [r];
    assert |front| == |ms| - 1;
    forall i | 0 <= i < |ms| ensures Marks(f, qs)[i] == ms[i] {
      if i < |front| { assert ms[i] == ms[..|ms| - 1][i]; }
    }
  }

  lemma {:induction false} FreeByMarks(f: Field, rs: seq<ClientRecord>)
    requires rs != []
    ensures OrderFree(f, rs) <==> MarksFree(Marks(f, rs))
  {
    hide Fold, FoldMarks, MarkOf;
    var ms := Marks(f, rs);
    FoldValue(f, rs);
    if OrderFree(f, rs) {
      forall ns: seq<Mark> | ns != [] && multiset(ns) == multiset(ms) ensures FoldMarks(ns).value == FoldMarks(ms).value {
        var qs := RecordsFollow(f, rs, ns);
        SameMembers(qs, rs);
        FoldValue(f, qs);
      }
    }
    if MarksFree(ms) {
      forall qs: seq<ClientRecord> | qs != [] && multiset(qs) == multiset(rs) ensures ValueOf(f, Fold(qs)) == ValueOf(f, Fold(rs)) {
        MarksPermute(f, qs, rs);
        FoldValue(f, qs);
      }
    }
  }

  lemma {:induction false} FoldValue(f: Field, rs: seq<ClientRecord>)
    requires rs != []
    ensures ValueOf(f, Fold(rs)) == FoldMarks(Marks(f, rs)).value
  {
    FoldOfMarks(f, rs);
  }

  // ---------- distinct update times ----------

  lemma {:induction false} FoldAmong(ms: seq<Mark>)
    requires ms != []
    ensures exists i :: 0 <= i < |ms| && ms[i].value == FoldMarks(ms).value
    ensures Blank(FoldMarks(ms).value) ==> forall i :: 0 <= i < |ms| ==> Blank(ms[i].value)
  {
    var n := |ms| - 1;
    if n > 0 {
      FoldAmong(ms[..n]);
      var i :| 0 <= i < n && ms[..n][i].value == FoldMarks(ms[..n]).value;
      assert ms[i].value == FoldMarks(ms[..n]).value;
      assert FoldMarks(ms).value == ms[i].value || FoldMarks(ms).value == ms[n].value;
      assert forall j :: 0 <= j < n ==> ms[..n][j] == ms[j];
    } else {
      assert FoldMarks(ms) == ms[0];
    }
  }

  // Once a blank newest record has come first, the next value given sticks.
  lemma {:induction false} FillSticks(newest: Mark, x: Mark, rest: seq<Mark>)
    requires Blank(newest.value) && !Blank(x.value) && x.updated < newest.updated
    requires forall i :: 0 <= i < |rest| ==> rest[i].updated < newest.updated
    ensures var r := FoldMarks([newest, x] + rest);
            r.value == x.value && r.updated == newest.updated
  {
    if rest == [] {
      assert [newest, x] + rest == [newest, x] && [newest, x][..1] == [newest];
      assert FoldMarks([newest]) == newest;
    } else {
      var n := |rest| - 1;
      FillSticks(newest, x, rest[..n]);
      assert ([newest, x] + rest)[..n + 2] == [newest, x] + rest[..n];
    }
  }

  ghost predicate OneValue(ms: seq<Mark>) {
    forall i, j :: 0 <= i < |ms| && 0 <= j < |ms| && !Blank(ms[i].value) && !Blank(ms[j].value) ==> ms[i].value == ms[j].value
  }

  // Blank values of one field are equal.
  ghost predicate OneBlank(ms: seq<Mark>) {
    forall i, j :: 0 <= i < |ms| && 0 <= j < |ms| && Blank(ms[i].value) && Blank(ms[j].value) ==> ms[i].value == ms[j].value
  }

  lemma {:induction false} FillFirst(ms: seq<Mark>, m: nat, a: nat) returns (ns: seq<Mark>)
    requires m < |ms| && a < |ms| && Blank(ms[m].value) && !Blank(ms[a].value)
    requires forall i :: 0 <= i < |ms| && i != m ==> ms[i].updated < ms[m].updated
    ensures ns != [] && multiset(ns) == multiset(ms) && FoldMarks(ns).value == ms[a].value
  {
    hide FoldMarks;
    var rest := Pulled(ms, m);
    var k := if a < m then a else a - 1;
    assert rest[k] == ms[a];
    var tail := Pulled(rest, k);
    forall i | 0 <= i < |tail| ensures tail[i].updated < ms[m].updated {
      var j := if i < k then i else i + 1;
      assert tail[i] == rest[j];
    }
    FillSticks(ms[m], ms[a], tail);
    ns := [ms[m], ms[a]] + tail;
    assert multiset(ns) == multiset{ms[m]} + (multiset{ms[a]} + multiset(tail));
  }

  lemma {:induction false} NewestMarkWins(ms: seq<Mark>, ns: seq<Mark>, m: nat)
    requires multiset(ns) == multiset(ms) && m < |ms| && !Blank(ms[m].value)
    requires forall i :: 0 <= i < |ms| && i != m ==> ms[i].updated < ms[m].updated
    ensures ns != [] && FoldMarks(ns).value == ms[m].value
  {
    SameMembers(ns, ms);
    assert ms[m] in ns;
    forall i | 0 <= i < |ns| ensures ns[i].updated <= ms[m].updated && (ns[i].updated == ms[m].updated ==> ns[i] == ms[m]) {
      assert ns[i] in ms;
    }
    TopValue(ns, ms[m].updated, ms[m].value);
  }

  lemma {:induction false} OneValueFree(ms: seq<Mark>, ns: seq<Mark>)
    requires ns != [] && multiset(ns) == multiset(ms) && OneValue(ms) && OneBlank(ms)
    ensures ms != [] && FoldMarks(ns).value == FoldMarks(ms).value
  {
    SameMembers(ns, ms);
    FoldAmong(ns);
    FoldAmong(ms);
    var i :| 0 <= i < |ns| && ns[i].value == FoldMarks(ns).value;
    var j :| 0 <= j < |ms| && ms[j].value == FoldMarks(ms).value;
    assert ns[i] in ms && ms[j] in ns;
  }

  lemma {:induction false} NewestDecides(ms: seq<Mark>, m: nat)
    requires m < |ms| && OneBlank(ms)
    requires forall i :: 0 <= i < |ms| && i != m ==> ms[i].updated < ms[m].updated
    ensures MarksFree(ms) <==> !Blank(ms[m].value) || OneValue(ms)
  {
    hide FoldMarks;
    if !Blank(ms[m].value) {
      NewestMarkWins(ms, ms, m);
      forall ns: seq<Mark> | ns != [] && multiset(ns) == multiset(ms) ensures FoldMarks(ns).value == FoldMarks(ms).value {
        NewestMarkWins(ms, ns, m);
      }
    } else if OneValue(ms) {
      forall ns: seq<Mark> | ns != [] && multiset(ns) == multiset(ms) ensures FoldMarks(ns).value == FoldMarks(ms).value {
        OneValueFree(ms, ns);
      }
    } else {
      var a, b :| 0 <= a < |ms| && 0 <= b < |ms| && !Blank(ms[a].value) && !Blank(ms[b].value) && ms[a].value != ms[b].value;
      var x := FillFirst(ms, m, a);
      var y := FillFirst(ms, m, b);
    }
  }

  // With one newest record the order cannot matter exactly when that record has the
  // field, or all records that have it agree; else an older value fills in, and the
  // order decides which.
  lemma {:induction false} NewestDecidesOrder(f: Field, rs: seq<ClientRecord>, m: nat)
    requires m < |rs| && forall i :: 0 <= i < |rs| && i != m ==> rs[i].updatedAt < rs[m].updatedAt
    ensures OrderFree(f, rs) <==>
            !Blank(ValueOf(f, rs[m])) ||
            forall i, j :: 0 <= i < |rs| && 0 <= j < |rs| && !Blank(ValueOf(f, rs[i])) && !Blank(ValueOf(f, rs[j])) ==>
                             ValueOf(f, rs[i]) == ValueOf(f, rs[j])
  {
    hide OrderFree, MarksFree;
    var ms := Marks(f, rs);
    FreeByMarks(f, rs);
    forall i, j | 0 <= i < |rs| && 0 <= j < |rs| ensures Blank(ms[i].value) && Blank(ms[j].value) ==> ms[i].value == ms[j].value {
      OneKind(f, rs[i], rs[j]);
    }
    assert OneValue(ms) <==> forall i, j :: 0 <= i < |rs| && 0 <= j < |rs| && !Blank(ValueOf(f, rs[i])) && !Blank(ValueOf(f, rs[j])) ==>
                                              ValueOf(f, rs[i]) == ValueOf(f, rs[j]);
    NewestDecides(ms, m);
  }

  // ---------- any records ----------

  predicate Newest(ms: seq<Mark>, x: Mark) {
    x in ms && forall y :: y in ms ==> y.updated <= x.updated
  }

  // A newest record that has the field.
  predicate Has(ms: seq<Mark>, x: Mark) {
    Newest(ms, x) && !Blank(x.value)
  }

  // No newest record that has the field was created after c.
  ghost predicate Capped(ms: seq<Mark>, c: int) {
    forall y :: Has(ms, y) ==> y.created <= c
  }

  // Another record was created no earlier than any of those.
  ghost predicate Screens(ms: seq<Mark>, s: Mark) {
    s in ms && !Has(ms, s) && s.created > 0 && Capped(ms, s.created)
  }

  ghost predicate Screened(ms: seq<Mark>) {
    exists s :: Screens(ms, s)
  }

  // Coming first, a value with the creation time c can stay: no newest record with the
  // field was created later, or c is not given and another record screens it.
  ghost predicate Holds(ms: seq<Mark>, c: int) {
    Capped(ms, c) || (c == 0 && Screened(ms))
  }

  ghost predicate CreatedAfter(ms: seq<Mark>, x: Mark) {
    exists r :: r in ms && 0 < r.created < x.created
  }

  // An older value can stay behind a newest record b that leaves the field blank.
  ghost predicate Behind(ms: seq<Mark>, x: Mark, b: Mark) {
    Newest(ms, b) && Blank(b.value) && Holds(ms, JoinMin(b.created, x.created))
  }

  // A record that decides the field in some order: a newest one that was created after
  // some record that says when it was, or that can stay once it came first; or an older
  // one behind a newest record that leaves the field blank.
  ghost predicate Contender(ms: seq<Mark>, x: Mark) {
    x in ms && !Blank(x.value) &&
    if Newest(ms, x) then CreatedAfter(ms, x) || Holds(ms, x.created) else exists b :: Behind(ms, x, b)
  }

  ghost predicate Dated(ms: seq<Mark>) {
    forall x :: x in ms ==> x.created >= 0
  }

  lemma {:induction false} FoldTimes(ms: seq<Mark>)
    requires ms != [] && forall x :: x in ms ==> x.created >= 0
    ensures (forall y :: y in ms ==> y.updated <= FoldMarks(ms).updated) && (exists x :: x in ms && x.updated == FoldMarks(ms).updated)
    ensures FoldMarks(ms).created >= 0
    ensures forall y :: y in ms && y.created > 0 ==> 0 < FoldMarks(ms).created <= y.created
    ensures FoldMarks(ms).created > 0 ==> exists y :: y in ms && y.created == FoldMarks(ms).created
  {
    hide FoldMarks;
    FoldUpdated(ms);
    FoldCreated(ms);
    var i :| 0 <= i < |ms| && ms[i].updated == FoldMarks(ms).updated;
    assert ms[i] in ms;
    if FoldMarks(ms).created > 0 {
      var j :| 0 <= j < |ms| && ms[j].created == FoldMarks(ms).created;
      assert ms[j] in ms;
    }
  }

  // ---------- the record that decided ----------

  // The record whose value the fold ends with: it came first, beat what was there or
  // filled a blank, and no later record with the field beat it.
  lemma {:induction false} Holder(ms: seq<Mark>) returns (h: nat)
    requires ms != [] && !Blank(FoldMarks(ms).value)
    ensures h < |ms| && ms[h].value == FoldMarks(ms).value
    ensures h > 0 ==> Beats(FoldMarks(ms[..h]), ms[h]) || Blank(FoldMarks(ms[..h]).value)
    ensures forall j :: h < j < |ms| && !Blank(ms[j].value) ==> !Beats(FoldMarks(ms[..j]), ms[j])
  {
    var n := |ms| - 1;
    if n == 0 {
      h := 0;
      assert FoldMarks(ms) == ms[0];
    } else {
      var e := FoldMarks(ms[..n]);
      if !Blank(ms[n].value) && (Beats(e, ms[n]) || Blank(e.value)) {
        h := n;
      } else {
        h := Holder(ms[..n]);
        forall j | 0 < j <= n ensures ms[..n][..j] == ms[..j] {}
      }
    }
  }

  // The record at h holds the field at the end.
  ghost predicate HolderAt(ms: seq<Mark>, h: nat) {
    && h < |ms| && !Blank(ms[h].value)
    && (h > 0 ==> Beats(FoldMarks(ms[..h]), ms[h]) || Blank(FoldMarks(ms[..h]).value))
    && (forall j :: h < j < |ms| && !Blank(ms[j].value) ==> !Beats(FoldMarks(ms[..j]), ms[j]))
  }

  lemma PrefixMember(ms: seq<Mark>, i: nat, j: nat)
    requires i < j <= |ms|
    ensures ms[i] in ms[..j]
  {
    assert ms[..j][i] == ms[i];
  }

  lemma PrefixDated(ms: seq<Mark>, j: nat)
    requires Dated(ms) && j <= |ms|
    ensures Dated(ms[..j]) && forall y :: y in ms[..j] ==> y in ms
  {}

  // A newest record with the field before the holder: the holder was created later than
  // the first given, or none before it says when it was.
  lemma HasBefore(ms: seq<Mark>, h: nat, i: nat)
    requires Dated(ms) && HolderAt(ms, h) && i < h && Has(ms, ms[i])
    ensures Has(ms, ms[h]) && ms[h].created > 0 && (CreatedAfter(ms, ms[h]) || ms[i].created == 0)
  {
    hide FoldMarks;
    var front := ms[..h];
    PrefixMember(ms, i, h);
    PrefixDated(ms, h);
    FoldAmong(front);
    FoldTimes(front);
    assert front[i] == ms[i];
    var e := FoldMarks(front);
    assert Beats(e, ms[h]);
    assert ms[h] in ms;
    if e.created > 0 {
      var o :| o in front && o.created == e.created;
      assert o in ms;
    }
  }

  // One after it was created no later than all given before.
  lemma HasAfter(ms: seq<Mark>, h: nat, j: nat)
    requires Dated(ms) && HolderAt(ms, h) && h < j < |ms| && Has(ms, ms[j])
    ensures ms[j].created <= FoldMarks(ms[..j]).created && FoldMarks(ms[..j]).updated == ms[j].updated
  {
    hide FoldMarks;
    PrefixDated(ms, j);
    FoldTimes(ms[..j]);
  }

  // The first of the newest records with the field, and the first of those created last.
  lemma FirstHas(ms: seq<Mark>) returns (j: nat)
    requires exists y :: Has(ms, y)
    ensures j < |ms| && Has(ms, ms[j]) && forall i :: 0 <= i < j ==> !Has(ms, ms[i])
  {
    var y :| Has(ms, y);
    j := 0;
    while !Has(ms, ms[j])
      invariant 0 <= j < |ms| && forall i :: 0 <= i < j ==> !Has(ms, ms[i])
      decreases |ms| - j
    {
      if j == |ms| - 1 {
        var k :| 0 <= k < |ms| && ms[k] == y;
        assert false;
      }
      j := j + 1;
    }
  }

  lemma LastCreatedFirst(ms: seq<Mark>) returns (j: nat)
    requires exists y :: Has(ms, y)
    ensures j < |ms| && Has(ms, ms[j]) && Capped(ms, ms[j].created)
    ensures forall i :: 0 <= i < j && Has(ms, ms[i]) ==> ms[i].created < ms[j].created
  {
    j := FirstHas(ms);
    for n := j + 1 to |ms|
      invariant j < n && Has(ms, ms[j])
      invariant forall i :: 0 <= i < n && Has(ms, ms[i]) ==> ms[i].created <= ms[j].created
      invariant forall i :: 0 <= i < j && Has(ms, ms[i]) ==> ms[i].created < ms[j].created
    {
      if Has(ms, ms[n]) && ms[n].created > ms[j].created { j := n; }
    }
    forall y | Has(ms, y) ensures y.created <= ms[j].created {
      var k :| 0 <= k < |ms| && ms[k] == y;
    }
  }

  // When every newest record with the field that says when it was created comes after
  // one created no earlier, the first of them came after one that screens.
  lemma ScreenedOrCapped(ms: seq<Mark>)
    requires Dated(ms)
    requires forall j :: 0 <= j < |ms| && Has(ms, ms[j]) && ms[j].created > 0 ==> j > 0 && ms[j].created <= FoldMarks(ms[..j]).created
    ensures Holds(ms, 0)
  {
    hide FoldMarks;
    if !Capped(ms, 0) {
      var j := LastCreatedFirst(ms);
      PrefixDated(ms, j);
      FoldTimes(ms[..j]);
      var s :| s in ms[..j] && s.created == FoldMarks(ms[..j]).created;
      var i :| 0 <= i < j && ms[..j][i] == s;
      assert ms[i] == s;
      assert Screens(ms, s);
    }
  }

  lemma NewestHolderContends(ms: seq<Mark>, h: nat)
    requires Dated(ms) && HolderAt(ms, h) && Newest(ms, ms[h])
    ensures Contender(ms, ms[h])
  {
    hide FoldMarks;
    var x := ms[h];
    if !CreatedAfter(ms, x) {
      if x.created > 0 {
        forall y | Has(ms, y) ensures y.created <= x.created {
          var j :| 0 <= j < |ms| && ms[j] == y;
          if j < h {
            HasBefore(ms, h, j);
          } else if j > h {
            HasAfter(ms, h, j);
            PrefixDated(ms, j);
            FoldTimes(ms[..j]);
            PrefixMember(ms, h, j);
          }
        }
      } else {
        forall j | 0 <= j < |ms| && Has(ms, ms[j]) && ms[j].created > 0 ensures j > 0 && ms[j].created <= FoldMarks(ms[..j]).created {
          if j < h {
            HasBefore(ms, h, j);
          } else if j > h {
            HasAfter(ms, h, j);
          }
        }
        ScreenedOrCapped(ms);
      }
    }
  }

  // An older holder has a blank newest record before all newest ones with the field.
  lemma BlankFirst(ms: seq<Mark>, h: nat) returns (p: nat)
    requires Dated(ms) && HolderAt(ms, h) && !Newest(ms, ms[h])
    ensures p < |ms| && Newest(ms, ms[p]) && Blank(ms[p].value) && forall j :: 0 <= j < |ms| && Has(ms, ms[j]) ==> j > h && j > p
  {
    hide FoldMarks;
    forall j | 0 <= j < |ms| && Has(ms, ms[j]) ensures j > h {
      if j < h { HasBefore(ms, h, j); }
    }
    if exists y :: Has(ms, y) {
      var j := FirstHas(ms);
      HasAfter(ms, h, j);
      PrefixDated(ms, j);
      FoldTimes(ms[..j]);
      var y :| y in ms[..j] && y.updated == ms[j].updated;
      p :| 0 <= p < j && ms[..j][p] == y;
      assert ms[p] == y;
    } else {
      FoldTimes(ms);
      var y :| y in ms && y.updated == FoldMarks(ms).updated;
      p :| 0 <= p < |ms| && ms[p] == y;
    }
  }

  lemma OlderHolderContends(ms: seq<Mark>, h: nat)
    requires Dated(ms) && HolderAt(ms, h) && !Newest(ms, ms[h])
    ensures Contender(ms, ms[h])
  {
    hide FoldMarks;
    var x := ms[h];
    var p := BlankFirst(ms, h);
    var b := ms[p];
    var m := JoinMin(b.created, x.created);
    forall j | 0 <= j < |ms| && Has(ms, ms[j]) ensures j > 0 && ms[j].created <= FoldMarks(ms[..j]).created && (m > 0 ==> ms[j].created <= m) {
      HasAfter(ms, h, j);
      PrefixDated(ms, j);
      FoldTimes(ms[..j]);
      PrefixMember(ms, h, j);
      PrefixMember(ms, p, j);
    }
    if m > 0 {
      forall y | Has(ms, y) ensures y.created <= m {
        var j :| 0 <= j < |ms| && ms[j] == y;
      }
    } else {
      ScreenedOrCapped(ms);
    }
    assert Behind(ms, x, b);
  }

  // Whatever the order, a contender decides the field, if any record has it.
  lemma WinnerContends(ms: seq<Mark>)
    requires ms != [] && Dated(ms) && exists x :: x in ms && !Blank(x.value)
    ensures exists x :: Contender(ms, x) && x.value == FoldMarks(ms).value
  {
    hide Contender;
    FoldAmong(ms);
    var x :| x in ms && !Blank(x.value);
    var k :| 0 <= k < |ms| && ms[k] == x;
    var h := Holder(ms);
    if Newest(ms, ms[h]) {
      NewestHolderContends(ms, h);
    } else {
      OlderHolderContends(ms, h);
    }
  }

  // ---------- orders in which a contender decides ----------

  lemma {:induction false} LastBeats(rest: seq<Mark>, x: Mark)
    requires rest != [] && !Blank(x.value) && forall y :: y in rest ==> y.created >= 0 && y.updated <= x.updated
    requires exists r :: r in rest && 0 < r.created < x.created
    ensures FoldMarks(rest + [x]).value == x.value
  {
    FoldTimes(rest);
    assert (rest + [x])[..|rest|] == rest;
  }

  predicate Descending(ms: seq<Mark>) {
    forall i, j :: 0 <= i < j < |ms| ==> ms[i].created >= ms[j].created
  }

  // What the first records leave stays, when the others come from the last created to
  // the first and none of the newest with the field was created later.
  lemma {:induction false} StaysOn(first: seq<Mark>, rest: seq<Mark>)
    requires first != [] && Descending(rest)
    requires var e := FoldMarks(first);
      !Blank(e.value) && e.created >= 0 &&
      forall i :: 0 <= i < |rest| ==>
        rest[i].updated <= e.updated && rest[i].created >= 0 &&
        (rest[i].updated == e.updated && !Blank(rest[i].value) ==> rest[i].created <= e.created)
    ensures var e, r := FoldMarks(first), FoldMarks(first + rest);
      r.value == e.value && r.updated == e.updated && r.created >= 0 && (e.created > 0 ==> r.created > 0) &&
      (r.created == e.created || exists i :: 0 <= i < |rest| && rest[i].created == r.created)
  {
    if rest == [] {
      assert first + rest == first;
    } else {
      var n := |rest| - 1;
      StaysOn(first, rest[..n]);
      assert (first + rest)[..|first| + n] == first + rest[..n];
      var e, r := FoldMarks(first), FoldMarks(first + rest[..n]);
      if r.created != e.created {
        var i :| 0 <= i < n && rest[..n][i].created == r.created;
        assert rest[i].created == r.created >= rest[n].created;
      }
      assert Blank(rest[n].value) || !Beats(r, rest[n]);
      assert JoinMin(r.created, rest[n].created) in {r.created, rest[n].created};
    }
  }

  lemma {:induction false} EarliestAt(ms: seq<Mark>) returns (k: nat)
    requires ms != []
    ensures k < |ms| && forall i :: 0 <= i < |ms| ==> ms[k].created <= ms[i].created
  {
    k := 0;
    for j := 1 to |ms|
      invariant 0 <= k < |ms| && forall i :: 0 <= i < j ==> ms[k].created <= ms[i].created
    {
      if ms[j].created < ms[k].created { k := j; }
    }
  }

  lemma {:induction false} SortedDown(ms: seq<Mark>) returns (ns: seq<Mark>)
    ensures multiset(ns) == multiset(ms) && Descending(ns)
    decreases |ms|
  {
    if ms == [] {
      ns := [];
    } else {
      var k := EarliestAt(ms);
      var front := SortedDown(Pulled(ms, k));
      SameMembers(front, Pulled(ms, k));
      forall i | 0 <= i < |front| ensures front[i].created >= ms[k].created {
        assert front[i] in Pulled(ms, k);
        var j :| 0 <= j < |Pulled(ms, k)| && Pulled(ms, k)[j] == front[i];
      }
      ns := front + [ms[k]];
    }
  }

  lemma {:induction false} PulledMembers(ms: seq<Mark>, k: nat)
    requires k < |ms|
    ensures forall y :: y in Pulled(ms, k) ==> y in ms
    ensures forall y :: y in ms && y != ms[k] ==> y in Pulled(ms, k)
  {
    forall y | y in ms && y != ms[k] ensures y in Pulled(ms, k) {
      var i :| 0 <= i < |ms| && ms[i] == y;
      var j := if i < k then i else i - 1;
      assert Pulled(ms, k)[j] == y;
    }
    forall y | y in Pulled(ms, k) ensures y in ms {
      var j :| 0 <= j < |Pulled(ms, k)| && Pulled(ms, k)[j] == y;
      assert ms[if j < k then j else j + 1] == y;
    }
  }

  // The records other than the one at k, from the last created to the first.
  lemma OthersDown(ms: seq<Mark>, k: nat) returns (rest: seq<Mark>)
    requires k < |ms|
    ensures multiset(ms) == multiset{ms[k]} + multiset(rest) && Descending(rest) && |rest| == |ms| - 1
    ensures (forall y :: y in rest ==> y in ms) && forall y :: y in ms && y != ms[k] ==> y in rest
  {
    PulledMembers(ms, k);
    rest := SortedDown(Pulled(ms, k));
    SameMembers(rest, Pulled(ms, k));
  }

  lemma AfterWins(ms: seq<Mark>, x: Mark) returns (ns: seq<Mark>)
    requires Dated(ms) && Has(ms, x) && CreatedAfter(ms, x)
    ensures ns != [] && multiset(ns) == multiset(ms) && FoldMarks(ns).value == x.value
  {
    hide FoldMarks;
    var k :| 0 <= k < |ms| && ms[k] == x;
    var rest := OthersDown(ms, k);
    var r :| r in ms && 0 < r.created < x.created;
    assert r in rest;
    LastBeats(rest, x);
    ns := rest + [x];
  }

  // A start of records taken from ms that leaves the newest time, a value, and a
  // creation time no newest record with the field exceeds, decides.
  lemma StartDecides(ms: seq<Mark>, first: seq<Mark>, rest: seq<Mark>, v: Cell) returns (ns: seq<Mark>)
    requires Dated(ms) && first != [] && multiset(ms) == multiset(first) + multiset(rest) && !Blank(v)
    requires var e := FoldMarks(first);
      e.value == v && e.created >= 0 && Capped(ms, e.created) && forall y :: y in ms ==> y.updated <= e.updated
    ensures ns != [] && multiset(ns) == multiset(ms) && FoldMarks(ns).value == v
  {
    hide FoldMarks;
    var tail := SortedDown(rest);
    SameMembers(tail, rest);
    SameMembers(ms, first + rest);
    var e := FoldMarks(first);
    forall i | 0 <= i < |tail|
      ensures tail[i].updated <= e.updated && tail[i].created >= 0 &&
              (tail[i].updated == e.updated && !Blank(tail[i].value) ==> tail[i].created <= e.created)
    {
      assert tail[i] in rest && tail[i] in first + rest;
      assert tail[i].updated == e.updated && !Blank(tail[i].value) ==> Has(ms, tail[i]);
    }
    StaysOn(first, tail);
    ns := first + tail;
  }

  lemma {:induction false} TwoMarks(a: Mark, b: Mark)
    ensures FoldMarks([a]) == a && FoldMarks([a, b]) == Joined(a, b)
  {
    assert [a, b][..1] == [a];
  }

  lemma ThreeMarks(a: Mark, b: Mark, c: Mark)
    ensures FoldMarks([a, b, c]) == Joined(Joined(a, b), c)
  {
    TwoMarks(a, b);
    assert [a, b, c][..2] == [a, b];
  }

  // A record apart, with the others.
  lemma TakeOut(ms: seq<Mark>, x: Mark) returns (rest: seq<Mark>)
    requires x in ms
    ensures multiset(ms) == multiset{x} + multiset(rest) && forall y :: y in ms && y != x ==> y in rest
  {
    var k :| 0 <= k < |ms| && ms[k] == x;
    PulledMembers(ms, k);
    rest := Pulled(ms, k);
  }

  lemma NewestWinsSome(ms: seq<Mark>, x: Mark) returns (ns: seq<Mark>)
    requires Dated(ms) && Has(ms, x) && Holds(ms, x.created)
    ensures ns != [] && multiset(ns) == multiset(ms) && FoldMarks(ns).value == x.value
  {
    hide FoldMarks;
    var rest := TakeOut(ms, x);
    if Capped(ms, x.created) {
      TwoMarks(x, x);
      ns := StartDecides(ms, [x], rest, x.value);
    } else {
      var s :| Screens(ms, s);
      var tail := TakeOut(rest, s);
      TwoMarks(s, x);
      assert multiset([s, x]) == multiset{s} + multiset{x};
      ns := StartDecides(ms, [s, x], tail, x.value);
    }
  }

  lemma OlderWinsSome(ms: seq<Mark>, x: Mark, b: Mark) returns (ns: seq<Mark>)
    requires Dated(ms) && x in ms && !Newest(ms, x) && !Blank(x.value) && Behind(ms, x, b)
    ensures ns != [] && multiset(ns) == multiset(ms) && FoldMarks(ns).value == x.value
  {
    hide FoldMarks;
    var rest := TakeOut(ms, x);
    var tail := TakeOut(rest, b);
    TwoMarks(x, b);
    assert x.updated < b.updated;
    if Capped(ms, JoinMin(b.created, x.created)) {
      assert multiset([x, b]) == multiset{x} + multiset{b};
      ns := StartDecides(ms, [x, b], tail, x.value);
    } else {
      var s :| Screens(ms, s);
      var last := TakeOut(tail, s);
      ThreeMarks(x, b, s);
      assert multiset([x, b, s]) == multiset{x} + multiset{b} + multiset{s};
      ns := StartDecides(ms, [x, b, s], last, x.value);
    }
  }

  // Every contender decides the field in some order.
  lemma ContenderWins(ms: seq<Mark>, x: Mark) returns (ns: seq<Mark>)
    requires Dated(ms) && Contender(ms, x)
    ensures ns != [] && multiset(ns) == multiset(ms) && FoldMarks(ns).value == x.value
  {
    if !Newest(ms, x) {
      var b :| Behind(ms, x, b);
      ns := OlderWinsSome(ms, x, b);
    } else if CreatedAfter(ms, x) {
      ns := AfterWins(ms, x);
    } else {
      ns := NewestWinsSome(ms, x);
    }
  }

  ghost predicate ContendersAgree(ms: seq<Mark>) {
    forall x, y :: Contender(ms, x) && Contender(ms, y) ==> x.value == y.value
  }

  lemma SameContenders(ms: seq<Mark>, ns: seq<Mark>, x: Mark)
    requires multiset(ms) == multiset(ns)
    ensures Contender(ms, x) <==> Contender(ns, x)
  {
    SameMembers(ms, ns);
    assert forall y :: Has(ms, y) <==> Has(ns, y);
    assert forall c :: Capped(ms, c) <==> Capped(ns, c);
    assert forall s :: Screens(ms, s) <==> Screens(ns, s);
    assert CreatedAfter(ms, x) <==> CreatedAfter(ns, x);
    assert forall b :: Behind(ms, x, b) <==> Behind(ns, x, b);
  }

  lemma ContendersDecide(ms: seq<Mark>)
    requires ms != [] && Dated(ms) && OneBlank(ms)
    ensures MarksFree(ms) <==> ContendersAgree(ms)
  {
    hide FoldMarks, Contender;
    if exists x :: x in ms && !Blank(x.value) {
      WinnerContends(ms);
      if ContendersAgree(ms) {
        var x :| Contender(ms, x) && x.value == FoldMarks(ms).value;
        forall ns: seq<Mark> | ns != [] && multiset(ns) == multiset(ms) ensures FoldMarks(ns).value == FoldMarks(ms).value {
          SameMembers(ns, ms);
          WinnerContends(ns);
          var y :| Contender(ns, y) && y.value == FoldMarks(ns).value;
          SameContenders(ns, ms, y);
        }
      } else {
        var x, y :| Contender(ms, x) && Contender(ms, y) && x.value != y.value;
        var a := ContenderWins(ms, x);
        var b := ContenderWins(ms, y);
      }
    } else {
      forall ns: seq<Mark> | ns != [] && multiset(ns) == multiset(ms) ensures FoldMarks(ns).value == FoldMarks(ms).value {
        assert forall i :: 0 <= i < |ms| ==> ms[i] in ms;
        OneValueFree(ms, ns);
      }
      forall x ensures !Contender(ms, x) { NotBlank(ms, x); }
    }
  }

  lemma NotBlank(ms: seq<Mark>, x: Mark)
    requires forall y :: y in ms ==> Blank(y.value)
    ensures !Contender(ms, x)
  {}

  // The same on records: with creation times from 0 on, the order of any records cannot
  // matter for a field exactly when all contenders agree.
  lemma ContendersDecideOrder(f: Field, rs: seq<ClientRecord>)
    requires rs != [] && forall i :: 0 <= i < |rs| ==> rs[i].createdAt >= 0
    ensures OrderFree(f, rs) <==> ContendersAgree(Marks(f, rs))
  {
    hide OrderFree, MarksFree, ContendersAgree;
    var ms := Marks(f, rs);
    forall x | x in ms ensures x.created >= 0 {
      var i :| 0 <= i < |ms| && ms[i] == x;
    }
    forall i, j | 0 <= i < |rs| && 0 <= j < |rs| ensures Blank(ms[i].value) && Blank(ms[j].value) ==> ms[i].value == ms[j].value {
      OneKind(f, rs[i], rs[j]);
    }
    FreeByMarks(f, rs);
    ContendersDecide(ms);
  }

  // Where every newest record has the field, no older one contends.
  lemma NoneBehind(ms: seq<Mark>, x: Mark)
    requires forall y :: Newest(ms, y) ==> !Blank(y.value)
    ensures Contender(ms, x) <==> Newest(ms, x) && (CreatedAfter(ms, x) || Holds(ms, x.created))
  {}

  // The entries of one addition have one update and one creation time, and some leave
  // the field blank. The order is free exactly when those that have it agree.
  lemma OneAddition(f: Field, rs: seq<ClientRecord>, top: int, created: int)
    requires rs != [] && created > 0
    requires forall i :: 0 <= i < |rs| ==> rs[i].updatedAt == top && rs[i].createdAt == created
    ensures OrderFree(f, rs) <==>
            forall i, j :: 0 <= i < |rs| && 0 <= j < |rs| && !Blank(ValueOf(f, rs[i])) && !Blank(ValueOf(f, rs[j])) ==>
                             ValueOf(f, rs[i]) == ValueOf(f, rs[j])
  {
    hide OrderFree;
    var ms := Marks(f, rs);
    ContendersDecideOrder(f, rs);
    forall x ensures Contender(ms, x) <==> x in ms && !Blank(x.value) {
      if x in ms && !Blank(x.value) {
        assert forall y :: y in ms ==> y.updated == top && y.created == created;
        assert Capped(ms, x.created);
      }
    }
    assert forall i :: 0 <= i < |rs| ==> ms[i] in ms;
  }

  // Two newest records that differ in the field, each created after some record that
  // says when: whoever comes last of the two can decide, so the order matters.
  lemma ThreeDisagree(f: Field, rs: seq<ClientRecord>, a: nat, b: nat, c: nat)
    requires a < |rs| && b < |rs| && c < |rs| && rs[b].updatedAt == rs[c].updatedAt
    requires forall i :: 0 <= i < |rs| ==> rs[i].createdAt >= 0 && rs[i].updatedAt <= rs[b].updatedAt
    requires !Blank(ValueOf(f, rs[b])) && !Blank(ValueOf(f, rs[c])) && ValueOf(f, rs[b]) != ValueOf(f, rs[c])
    requires 0 < rs[a].createdAt < Min(rs[b].createdAt, rs[c].createdAt)
    ensures !OrderFree(f, rs)
  {
    hide OrderFree;
    var ms := Marks(f, rs);
    ContendersDecideOrder(f, rs);
    assert ms[a] in ms && ms[b] in ms && ms[c] in ms;
    forall x | x in ms ensures x.updated <= ms[b].updated {
      var i :| 0 <= i < |ms| && ms[i] == x;
    }
    assert CreatedAfter(ms, ms[b]) && CreatedAfter(ms, ms[c]);
    assert Contender(ms, ms[b]) && Contender(ms, ms[c]);
  }
}
