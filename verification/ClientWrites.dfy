// What the mutations of a client list write, entry by entry and column by column, and
// exactly when they go through.
module ClientWrites {
  import opened Text
  import opened ClientModel
  import opened ClientIndex
  import opened ClientMutations

  // ---------- entries ----------

  // Two entries that agree in everything but the times and the subId.
  predicate SameSettings(a: Client, b: Client) {
    && a.email == b.email && a.id == b.id && a.password == b.password && a.auth == b.auth && a.flow == b.flow
    && a.security == b.security && a.reverse == b.reverse && a.limitIp == b.limitIp && a.totalGB == b.totalGB
    && a.expiryTime == b.expiryTime && a.enable == b.enable && a.tgId == b.tgId && a.group == b.group
    && a.comment == b.comment && a.reset == b.reset
  }

  // The entry of an addition: as submitted, dated, and with a subId of its own or the drawn one.
  predicate AddedAs(stored: Client, given: Client, random: string, now: int) {
    && SameSettings(stored, given)
    && stored.subId == (if given.subId == "" then random else given.subId)
    && stored.createdAt == (if given.createdAt == 0 then now else given.createdAt) && stored.updatedAt == now
  }

  // The entry of an update: as submitted, with the creation time of the old entry, and
  // the subId given, else the old one, else the drawn one.
  predicate UpdatedAs(stored: Client, old_: Client, given: Client, random: string, now: int) {
    && SameSettings(stored, given)
    && stored.createdAt == (if old_.createdAt == 0 then now else old_.createdAt) && stored.updatedAt == now
    && (given.subId != "" ==> stored.subId == given.subId)
    && (given.subId == "" && old_.subId != "" ==> stored.subId == old_.subId)
    && (given.subId == "" && old_.subId == "" ==> stored.subId == random)
  }

  // ---------- what goes and what stays ----------

  // The marked entries of a list, in order.
  function Sift(cs: seq<Client>, marks: seq<bool>): seq<Client>
    requires |marks| == |cs|
  {
    if cs == [] then [] else
      var n := |cs| - 1;
      Sift(cs[..n], marks[..n]) + if marks[n] then [cs[n]] else []
  }

  // Compacting leaves exactly the entries without an email or with a known one.
  lemma {:induction false} CompactSifts(cs: seq<Client>, known: set<string>, marks: seq<bool>)
    requires |marks| == |cs| && forall i :: 0 <= i < |cs| ==> (marks[i] <==> cs[i].email == "" || cs[i].email in known)
    ensures Compact(cs, known) == Sift(cs, marks)
  {
    if cs != [] {
      var n := |cs| - 1;
      CompactSifts(cs[..n], known, marks[..n]);
    }
  }

  // A removal leaves exactly the entries without one of the keys, and takes the others.
  lemma {:induction false} WithoutSifts(p: Protocol, cs: seq<Client>, keys: set<string>, marks: seq<bool>, out: seq<bool>)
    requires |marks| == |out| == |cs|
    requires forall i :: 0 <= i < |cs| ==> (marks[i] <==> KeyOf(p, cs[i]) !in keys) && (out[i] <==> KeyOf(p, cs[i]) in keys)
    ensures Without(p, cs, keys) == Sift(cs, marks) && TakenOut(p, cs, keys) == Sift(cs, out)
  {
    hide KeyOf;
    if cs != [] {
      var n := |cs| - 1;
      WithoutSifts(p, cs[..n], keys, marks[..n], out[..n]);
    }
  }

  // Both together.
  lemma {:induction false} RemainderSifts(p: Protocol, cs: seq<Client>, keys: set<string>, known: set<string>, marks: seq<bool>)
    requires |marks| == |cs|
    requires forall i :: 0 <= i < |cs| ==> (marks[i] <==> KeyOf(p, cs[i]) !in keys && (cs[i].email == "" || cs[i].email in known))
    ensures Compact(Without(p, cs, keys), known) == Sift(cs, marks)
  {
    hide KeyOf;
    if cs != [] {
      var n := |cs| - 1;
      RemainderSifts(p, cs[..n], keys, known, marks[..n]);
      var rest := Without(p, cs[..n], keys);
      assert (rest + [cs[n]])[..|rest|] == rest;
    }
  }

  // ---------- what each mutation writes ----------

  lemma StampedWrites(cs: seq<Client>, randoms: seq<string>, now: int)
    requires |randoms| == |cs|
    ensures forall i :: 0 <= i < |cs| ==> AddedAs(Stamped(cs, randoms, now)[i], cs[i], randoms[i], now)
  {}

  // An addition keeps the entries that have a record or no email, and adds the new ones in order.
  lemma AddWrites(db: Db, op: Op, marks: seq<bool>)
    requires op.Add? && WellFormed(op) && Decide(db, op).list.Some? && |marks| == |db.inbounds[op.ib].clients|
    requires forall i :: 0 <= i < |marks| ==>
               var e := db.inbounds[op.ib].clients[i].email; marks[i] <==> e == "" || e in Known(db.records)
    ensures var kept, after := Sift(db.inbounds[op.ib].clients, marks), Decide(db, op).list.value;
      && |after| == |kept| + |op.cs| && after[..|kept|] == kept
      && forall i :: 0 <= i < |op.cs| ==> AddedAs(after[|kept| + i], op.cs[i], op.randoms[i], op.now)
  {
    hide Known, Compact, Stamped, AddFailure, AddedAs, Sift;
    StampedWrites(op.cs, op.randoms, op.now);
    CompactSifts(db.inbounds[op.ib].clients, Known(db.records), marks);
  }

  // The entry an update addresses: the first with the key, or, when no entry has it, the
  // first with the email of the lowest-numbered record that has it.
  ghost predicate Addressed(db: Db, ib: int, key: string, at: int)
    requires ib in db.inbounds
  {
    var p, cs := db.inbounds[ib].protocol, db.inbounds[ib].clients;
    0 <= at < |cs| &&
    if exists i :: 0 <= i < |cs| && KeyOf(p, cs[i]) == key then
      KeyOf(p, cs[at]) == key && forall j :: 0 <= j < at ==> KeyOf(p, cs[j]) != key
    else
      exists id :: id in db.records && RecordKey(p, db.records[id]) == key && db.records[id].email == cs[at].email != "" &&
        (forall j :: j in db.records && RecordKey(p, db.records[j]) == key ==> id <= j) &&
        forall j :: 0 <= j < at ==> cs[j].email != cs[at].email
  }

  lemma {:induction false} FirstWithEmail(cs: seq<Client>, e: string)
    ensures var i := IndexOfEmail(cs, e);
      if i.Some? then i.value < |cs| && cs[i.value].email == e && forall j :: 0 <= j < i.value ==> cs[j].email != e
      else forall j :: 0 <= j < |cs| ==> cs[j].email != e
  {
    if cs != [] {
      FirstWithEmail(cs[1..], e);
      assert forall j :: 0 < j < |cs| ==> cs[j] == cs[1..][j - 1];
    }
  }

  lemma ByRecord(db: Db, ib: int, key: string, id: int)
    requires ib in db.inbounds && id in db.records && RecordKey(db.inbounds[ib].protocol, db.records[id]) == key
    requires forall j :: j in db.records && RecordKey(db.inbounds[ib].protocol, db.records[j]) == key ==> id <= j
    requires forall i :: 0 <= i < |db.inbounds[ib].clients| ==> KeyOf(db.inbounds[ib].protocol, db.inbounds[ib].clients[i]) != key
    ensures var e := db.records[id].email;
      var i := IndexOfEmail(db.inbounds[ib].clients, e);
      if e != "" && i.Some? then Addressed(db, ib, key, i.value) else forall at :: !Addressed(db, ib, key, at)
  {
    hide KeyOf, RecordKey, IndexOfEmail;
    FirstWithEmail(db.inbounds[ib].clients, db.records[id].email);
  }

  lemma AddressIs(db: Db, ib: int, key: string)
    requires ib in db.inbounds
    ensures var i := UpdateIndex(db, db.inbounds[ib].protocol, db.inbounds[ib].clients, key);
      if i.Some? then Addressed(db, ib, key, i.value) else forall at :: !Addressed(db, ib, key, at)
  {
    var p, cs := db.inbounds[ib].protocol, db.inbounds[ib].clients;
    var direct := IndexOfKey(p, cs, key);
    if direct.Some? {
      assert KeyOf(p, cs[direct.value]) == key;
    } else {
      var ids := set id | id in db.records && RecordKey(p, db.records[id]) == key;
      assert forall i :: 0 <= i < |cs| ==> KeyOf(p, cs[i]) != key;
      assert forall id :: id in db.records && RecordKey(p, db.records[id]) == key ==> id in ids;
      if ids != {} {
        ByRecord(db, ib, key, Lowest(ids));
      }
    }
  }

  lemma UpdateWrites(db: Db, op: Op) returns (at: nat)
    requires op.Update? && WellFormed(op) && Decide(db, op).list.Some?
    ensures var before, after := db.inbounds[op.ib].clients, Decide(db, op).list.value;
      && Addressed(db, op.ib, op.key, at) && |after| == |before|
      && (forall j :: 0 <= j < |before| && j != at ==> after[j] == before[j])
      && UpdatedAs(after[at], before[at], op.cs[0], op.random, op.now)
  {
    hide Addressed;
    AddressIs(db, op.ib, op.key);
    at := UpdateIndex(db, db.inbounds[op.ib].protocol, db.inbounds[op.ib].clients, op.key).value;
  }

  // A removal leaves, in order, the entries that have none of the keys, up to those
  // whose email has no record.
  lemma RemovalWrites(db: Db, op: Op, marks: seq<bool>)
    requires (op.Delete? || op.Detach?) && Decide(db, op).list.Some? && |marks| == |db.inbounds[op.ib].clients|
    requires var before := db.inbounds[op.ib].clients;
      var p, keys := db.inbounds[op.ib].protocol, if op.Delete? then {op.key} else op.keys - {""};
      forall i :: 0 <= i < |before| ==>
        (marks[i] <==> KeyOf(p, before[i]) !in keys && (before[i].email == "" || before[i].email in Known(db.records)))
    ensures Decide(db, op).list.value == Sift(db.inbounds[op.ib].clients, marks)
  {
    hide KeyOf, Known;
    var p, keys := db.inbounds[op.ib].protocol, if op.Delete? then {op.key} else op.keys - {""};
    RemainderSifts(p, db.inbounds[op.ib].clients, keys, Known(db.records), marks);
  }

  // ---------- when a mutation goes through ----------

  predicate SameEmail(a: Client, b: Client) {
    a.email != "" && b.email != "" && Lower(a.email) == Lower(b.email)
  }

  // The entry may come after those in front: it has no email, or one subId, not blank,
  // with every entry in front that has its email or, without one, with every stored one.
  ghost predicate Fits(inbounds: map<int, Inbound>, front: seq<Client>, c: Client) {
    c.email == "" ||
    if exists j :: 0 <= j < |front| && SameEmail(front[j], c)
    then forall j :: 0 <= j < |front| && SameEmail(front[j], c) ==> front[j].subId == c.subId != ""
    else forall ib, x :: ib in inbounds && x in inbounds[ib].clients && SameEmail(x, c) ==> x.subId == c.subId != ""
  }

  ghost predicate AllFit(inbounds: map<int, Inbound>, cs: seq<Client>) {
    forall i :: 0 <= i < |cs| ==> Fits(inbounds, cs[..i], cs[i])
  }

  lemma {:induction false} SeenFirst(cs: seq<Client>, c: Client)
    requires c.email != ""
    ensures var seen, key := SeenSubIds(cs), Lower(c.email);
      if key in seen then exists j :: 0 <= j < |cs| && SameEmail(cs[j], c) && cs[j].subId == seen[key]
      else forall j :: 0 <= j < |cs| ==> !SameEmail(cs[j], c)
  {
    if cs != [] {
      var n := |cs| - 1;
      SeenFirst(cs[..n], c);
      var seen, key := SeenSubIds(cs[..n]), Lower(c.email);
      if key in seen {
        var j :| 0 <= j < n && SameEmail(cs[..n][j], c) && cs[..n][j].subId == seen[key];
        assert SameEmail(cs[j], c) && cs[j].subId == seen[key];
      } else {
        assert forall j :: 0 <= j < n ==> !SameEmail(cs[..n][j], c) && cs[..n][j] == cs[j];
      }
    }
  }

  lemma StoredSubIds(inbounds: map<int, Inbound>, c: Client)
    requires c.email != ""
    ensures var taken, key := AllEmailSubIds(inbounds), Lower(c.email);
      (key in taken ==> c.subId != "" && taken[key] == c.subId) <==>
      forall ib, x :: ib in inbounds && x in inbounds[ib].clients && SameEmail(x, c) ==> x.subId == c.subId != ""
  {
    var key := Lower(c.email);
    var ids := SubIdsOf(inbounds, key);
    SubIdsAre(inbounds, c);
    hide SubIdsOf;
    if key in AllEmailSubIds(inbounds) {
      assert AllEmailSubIds(inbounds)[key] == Agreed(ids);
      hide AllEmailSubIds;
      if forall ib, x :: ib in inbounds && x in inbounds[ib].clients && SameEmail(x, c) ==> x.subId == c.subId != "" {
        assert ids == {c.subId};
      } else {
        var ib, x :| ib in inbounds && x in inbounds[ib].clients && SameEmail(x, c) && !(x.subId == c.subId != "");
        assert x.subId in ids;
      }
    }
  }

  lemma SubIdsAre(inbounds: map<int, Inbound>, c: Client)
    requires c.email != ""
    ensures forall s :: s in SubIdsOf(inbounds, Lower(c.email)) <==>
              exists ib, x :: ib in inbounds && x in inbounds[ib].clients && SameEmail(x, c) && x.subId == s
    ensures Lower(c.email) in AllEmailSubIds(inbounds) <==> exists ib, x :: ib in inbounds && x in inbounds[ib].clients && SameEmail(x, c)
    ensures Lower(c.email) in AllEmailSubIds(inbounds) ==> SubIdsOf(inbounds, Lower(c.email)) != {}
  {
    if Lower(c.email) in AllEmailSubIds(inbounds) {
      var ib, x :| ib in inbounds && x in inbounds[ib].clients && x.email != "" && Lower(x.email) == Lower(c.email);
      assert SameEmail(x, c) && x.subId in SubIdsOf(inbounds, Lower(c.email));
    }
  }

  // One entry is refused exactly when it does not fit.
  lemma ClashExactly(inbounds: map<int, Inbound>, front: seq<Client>, c: Client)
    requires AllFit(inbounds, front)
    ensures Clashes(c, SeenSubIds(front), AllEmailSubIds(inbounds)) <==> !Fits(inbounds, front, c)
  {
    hide AllEmailSubIds, SeenSubIds;
    if c.email != "" {
      SeenFirst(front, c);
      StoredSubIds(inbounds, c);
      var key := Lower(c.email);
      if key in SeenSubIds(front) {
        var j :| 0 <= j < |front| && SameEmail(front[j], c) && front[j].subId == SeenSubIds(front)[key];
        forall k | 0 <= k < |front| && SameEmail(front[k], c) ensures front[k].subId == front[j].subId {
          TwoFit(inbounds, front, if j < k then j else k, if j < k then k else j);
        }
      }
    }
  }

  lemma TwoFit(inbounds: map<int, Inbound>, cs: seq<Client>, j: nat, k: nat)
    requires AllFit(inbounds, cs) && j <= k < |cs| && SameEmail(cs[j], cs[k])
    ensures cs[j].subId == cs[k].subId
  {
    if j < k {
      assert Fits(inbounds, cs[..k], cs[k]) && cs[..k][j] == cs[j];
    }
  }

  lemma FitMore(inbounds: map<int, Inbound>, cs: seq<Client>)
    requires cs != []
    ensures AllFit(inbounds, cs) <==> AllFit(inbounds, cs[..|cs| - 1]) && Fits(inbounds, cs[..|cs| - 1], cs[|cs| - 1])
  {
    hide Fits;
    var front := cs[..|cs| - 1];
    forall i | 0 <= i < |front| ensures front[..i] == cs[..i] && front[i] == cs[i] {}
    if AllFit(inbounds, front) {
      forall i | 0 <= i < |front| ensures Fits(inbounds, cs[..i], cs[i]) {
        assert Fits(inbounds, front[..i], front[i]);
      }
    }
    if AllFit(inbounds, cs) {
      forall i | 0 <= i < |front| ensures Fits(inbounds, front[..i], front[i]) {
        assert Fits(inbounds, cs[..i], cs[i]);
      }
    }
  }

  // The first entry that does not fit.
  ghost predicate Misfit(inbounds: map<int, Inbound>, cs: seq<Client>, i: int) {
    0 <= i < |cs| && AllFit(inbounds, cs[..i]) && !Fits(inbounds, cs[..i], cs[i])
  }

  lemma MisfitMore(inbounds: map<int, Inbound>, cs: seq<Client>, i: int)
    requires cs != [] && Misfit(inbounds, cs[..|cs| - 1], i)
    ensures Misfit(inbounds, cs, i) && cs[i] == cs[..|cs| - 1][i]
  {
    hide AllFit, Fits;
    assert cs[..|cs| - 1][..i] == cs[..i];
  }

  // The email check passes exactly when all entries fit, else it names the first that
  // does not.
  lemma {:induction false} ConflictExactly(inbounds: map<int, Inbound>, cs: seq<Client>)
    ensures var e := EmailConflict(cs, AllEmailSubIds(inbounds));
      if e.None? then AllFit(inbounds, cs) else !AllFit(inbounds, cs) && exists i :: Misfit(inbounds, cs, i) && e.value == cs[i].email
  {
    if cs != [] {
      hide Fits, AllFit, Clashes, AllEmailSubIds, SeenSubIds;
      var n := |cs| - 1;
      ConflictExactly(inbounds, cs[..n]);
      FitMore(inbounds, cs);
      var e := EmailConflict(cs[..n], AllEmailSubIds(inbounds));
      if e.None? {
        ClashExactly(inbounds, cs[..n], cs[n]);
        assert !Fits(inbounds, cs[..n], cs[n]) ==> Misfit(inbounds, cs, n);
      } else {
        var i :| Misfit(inbounds, cs[..n], i) && e.value == cs[..n][i].email;
        MisfitMore(inbounds, cs, i);
      }
    }
  }

  lemma {:induction false} EntriesPass(p: Protocol, cs: seq<Client>)
    ensures var bad := EntryFailure(p, cs);
      if bad.None? then forall c :: c in cs ==> c.email != "" && KeyOf(p, c) != ""
      else exists i :: 0 <= i < |cs| && (forall j :: 0 <= j < i ==> cs[j].email != "" && KeyOf(p, cs[j]) != "") &&
             (if cs[i].email == "" then bad.value == EmailRequired else KeyOf(p, cs[i]) == "" && bad.value == EmptyKey)
  {
    hide KeyOf;
    if EntryFailure(p, cs).Some? {
      var i := FirstBad(p, cs);
    } else if cs != [] {
      EntriesPass(p, cs[1..]);
      assert cs == [cs[0]] + cs[1..];
    }
  }

  lemma {:induction false} FirstBad(p: Protocol, cs: seq<Client>) returns (i: nat)
    requires EntryFailure(p, cs).Some?
    ensures var why := EntryFailure(p, cs).value;
      i < |cs| && (forall j :: 0 <= j < i ==> cs[j].email != "" && KeyOf(p, cs[j]) != "") &&
      (if cs[i].email == "" then why == EmailRequired else KeyOf(p, cs[i]) == "" && why == EmptyKey)
  {
    hide KeyOf;
    i := 0;
    if cs[0].email != "" && KeyOf(p, cs[0]) != "" {
      var k := FirstBad(p, cs[1..]);
      forall j | 0 < j < k + 1 ensures cs[j].email != "" && KeyOf(p, cs[j]) != "" { assert cs[j] == cs[1..][j - 1]; }
      i := k + 1;
    }
  }

  // The inbound is on a node whose row cannot be read.
  predicate NodeUnknown(inbound: Inbound, plan: Plan) {
    inbound.nodeId.Some? && plan.PlanFails?
  }

  // An addition goes through exactly when its entries fit, the inbound is there, every
  // entry has an email and a key, and the node is known; each reason comes before the next.
  lemma AddAccepted(db: Db, op: Op)
    requires op.Add? && WellFormed(op) && op.snapshot.None?
    ensures var edit := Decide(db, op);
      if !AllFit(db.inbounds, op.cs) then
        exists i :: Misfit(db.inbounds, op.cs, i) && edit == Edit(None, Failed(DuplicateEmail(op.cs[i].email)))
      else if op.ib !in db.inbounds then edit == Edit(None, Failed(NoSuchInbound))
      else if exists c :: c in op.cs && (c.email == "" || KeyOf(db.inbounds[op.ib].protocol, c) == "") then
        edit.list.None? && edit.outcome in {Failed(EmailRequired), Failed(EmptyKey)}
      else if NodeUnknown(db.inbounds[op.ib], op.plan) then edit == Edit(None, Failed(NodeLookupFailed))
      else edit.list.Some? && edit.outcome.Done?
  {
    hide KeyOf, Compact, Stamped, AllEmailSubIds, Fits, AllFit;
    ConflictExactly(db.inbounds, op.cs);
    if op.ib in db.inbounds { EntriesPass(db.inbounds[op.ib].protocol, op.cs); }
  }

  // An update goes through exactly when the inbound is there, the entry has a key and an
  // email, some entry is addressed, a changed email fits, and the node, if it is asked, is
  // known.
  lemma UpdateAccepted(db: Db, op: Op)
    requires op.Update? && WellFormed(op)
    ensures Decide(db, op).list.Some? <==>
            op.ib in db.inbounds && KeyOf(db.inbounds[op.ib].protocol, op.cs[0]) != "" && op.cs[0].email != "" &&
            exists at :: Addressed(db, op.ib, op.key, at) &&
              var old_ := db.inbounds[op.ib].clients[at].email;
              (op.cs[0].email == old_ || AllFit(db.inbounds, op.cs)) && (old_ == "" || !NodeUnknown(db.inbounds[op.ib], op.plan))
  {
    hide KeyOf, AllEmailSubIds, Fits, Replacement, UpdateIndex;
    ConflictExactly(db.inbounds, op.cs);
    if op.ib in db.inbounds {
      AddressIs(db, op.ib, op.key);
      OneAddressed(db, op.ib, op.key);
    }
  }

  lemma OneAddressed(db: Db, ib: int, key: string)
    requires ib in db.inbounds
    ensures forall i, j :: Addressed(db, ib, key, i) && Addressed(db, ib, key, j) ==> i == j
  {
    hide KeyOf, RecordKey;
  }

  lemma {:induction false} HitIs(p: Protocol, cs: seq<Client>, keys: set<string>)
    ensures Hit(p, cs, keys) <==> exists i :: 0 <= i < |cs| && KeyOf(p, cs[i]) in keys
  {
    hide KeyOf;
    if cs != [] {
      var n := |cs| - 1;
      HitIs(p, cs[..n], keys);
      assert forall i :: 0 <= i < n ==> cs[..n][i] == cs[i];
    }
  }

  lemma {:induction false} LastTaken(p: Protocol, cs: seq<Client>, key: string) returns (i: nat)
    requires Hit(p, cs, {key})
    ensures i < |cs| && KeyOf(p, cs[i]) == key && LastEmail(p, cs, key) == cs[i].email
    ensures forall j :: i < j < |cs| ==> KeyOf(p, cs[j]) != key
  {
    hide KeyOf;
    var n := |cs| - 1;
    if KeyOf(p, cs[n]) == key {
      i := n;
    } else {
      i := LastTaken(p, cs[..n], key);
      assert forall j :: 0 <= j < n ==> cs[..n][j] == cs[j];
    }
  }

  // A removal goes through exactly when the inbound is there, some entry has the key, and
  // the node is known or the last such entry has no email to tell it.
  lemma DeleteAccepted(db: Db, op: Op)
    requires op.Delete?
    ensures Decide(db, op).list.Some? <==>
            op.ib in db.inbounds &&
            exists i :: 0 <= i < |db.inbounds[op.ib].clients| && KeyOf(db.inbounds[op.ib].protocol, db.inbounds[op.ib].clients[i]) == op.key &&
              (forall j :: i < j < |db.inbounds[op.ib].clients| ==> KeyOf(db.inbounds[op.ib].protocol, db.inbounds[op.ib].clients[j]) != op.key) &&
              (db.inbounds[op.ib].clients[i].email == "" || !NodeUnknown(db.inbounds[op.ib], op.plan))
    ensures op.ib !in db.inbounds ==> Decide(db, op).outcome == Failed(NoSuchInbound)
    ensures op.ib in db.inbounds && !Hit(db.inbounds[op.ib].protocol, db.inbounds[op.ib].clients, {op.key}) ==>
              Decide(db, op).outcome == Failed(ClientNotFound)
  {
    hide KeyOf, Remaining;
    if op.ib in db.inbounds {
      var p, cs := db.inbounds[op.ib].protocol, db.inbounds[op.ib].clients;
      HitIs(p, cs, {op.key});
      if Hit(p, cs, {op.key}) {
        var i := LastTaken(p, cs, op.key);
      }
    }
  }

  // A batch removal writes exactly when some entry has one of the keys and the node is
  // known or no such entry has an email to tell it.
  lemma DetachAccepted(db: Db, op: Op)
    requires op.Detach?
    ensures Decide(db, op).list.Some? <==>
            op.ib in db.inbounds &&
            var p, cs := db.inbounds[op.ib].protocol, db.inbounds[op.ib].clients;
            (exists i :: 0 <= i < |cs| && KeyOf(p, cs[i]) in op.keys - {""}) &&
            (NodeUnknown(db.inbounds[op.ib], op.plan) ==> forall i :: 0 <= i < |cs| && KeyOf(p, cs[i]) in op.keys - {""} ==> cs[i].email == "")
    ensures Decide(db, op).outcome.Failed? <==>
            op.keys != {} && (op.ib !in db.inbounds || (Decide(db, op).list.None? && Hit(db.inbounds[op.ib].protocol, db.inbounds[op.ib].clients, op.keys - {""})))
  {
    hide KeyOf, Remaining;
    if op.ib in db.inbounds {
      var p, cs := db.inbounds[op.ib].protocol, db.inbounds[op.ib].clients;
      HitIs(p, cs, op.keys - {""});
      NoEmailTaken(p, cs, op.keys - {""});
    }
  }

  lemma {:induction false} NoEmailTaken(p: Protocol, cs: seq<Client>, keys: set<string>)
    ensures Emails(TakenOut(p, cs, keys)) == {} <==> forall i :: 0 <= i < |cs| && KeyOf(p, cs[i]) in keys ==> cs[i].email == ""
  {
    hide KeyOf;
    if cs != [] {
      var n := |cs| - 1;
      NoEmailTaken(p, cs[..n], keys);
      assert forall i :: 0 <= i < n ==> cs[..n][i] == cs[i];
      var prior := TakenOut(p, cs[..n], keys);
      assert (prior + [cs[n]])[..|prior|] == prior;
      if cs[n].email != "" { assert cs[n].email in Emails(prior) + {cs[n].email}; }
    }
  }
}
