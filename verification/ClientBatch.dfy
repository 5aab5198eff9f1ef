// Removing a batch of clients in one pass against folding the single removal.
module ClientBatch {
  import opened Text
  import opened ClientModel
  import opened ClientIndex
  import opened ClientMutations

  function KeySet(keys: seq<string>): set<string> {
    set k | k in keys
  }

  function DeleteAll(db: Db, ib: int, keys: seq<string>, plan: Plan): Db
    requires TableKeys(db)
    decreases |keys|
  {
    if keys == [] then db else
      DeleteKeepsKeys(db, ib, keys[0], plan);
      DeleteAll(Apply(db, ib, DeleteEdit(db, ib, keys[0], plan)), ib, keys[1..], plan)
  }

  // Every call of the fold finds its client.
  ghost predicate AllFound(db: Db, ib: int, keys: seq<string>, plan: Plan)
    requires TableKeys(db)
    decreases |keys|
  {
    keys == [] ||
    (DeleteKeepsKeys(db, ib, keys[0], plan);
     DeleteEdit(db, ib, keys[0], plan).outcome.Done? &&
     AllFound(Apply(db, ib, DeleteEdit(db, ib, keys[0], plan)), ib, keys[1..], plan))
  }

  // The settings lists and the links agree, and so do the records' ids and emails.
  ghost predicate SameIndex(a: Db, b: Db) {
    && a.inbounds == b.inbounds && a.links == b.links
    && a.records.Keys == b.records.Keys
    && (forall id :: id in a.records ==> a.records[id].email == b.records[id].email)
  }

  // post is pre with ib's list replaced by cs, whose emails all have records.
  ghost predicate Reindexed(pre: Db, post: Db, ib: int, cs: seq<Client>) {
    && ib in pre.inbounds
    && post.inbounds == pre.inbounds[ib := pre.inbounds[ib].(clients := cs)]
    && LinksSynced(pre.links, post, ib, cs)
    && post.records.Keys == pre.records.Keys
    && (forall id :: id in pre.records ==> post.records[id].email == pre.records[id].email)
  }

  lemma ReindexedSame(pre: Db, a: Db, b: Db, ib: int, cs: seq<Client>)
    requires Reindexed(pre, a, ib, cs) && Reindexed(pre, b, ib, cs)
    ensures SameIndex(a, b)
  {
    assert forall k :: k in a.links <==> k in b.links;
    assert a.links == b.links;
  }

  lemma ReindexedTwice(pre: Db, mid: Db, post: Db, ib: int, cs: seq<Client>, ds: seq<Client>)
    requires Reindexed(pre, mid, ib, cs) && Reindexed(mid, post, ib, ds)
    ensures Reindexed(pre, post, ib, ds)
  {}

  lemma SameKnown(pre: Db, post: Db, ib: int, cs: seq<Client>)
    requires Reindexed(pre, post, ib, cs)
    ensures Known(post.records) == Known(pre.records)
  {
    forall e | e in Known(pre.records) ensures e in Known(post.records) {
      var id :| id in pre.records && pre.records[id].email == e;
      assert post.records[id].email == e;
    }
    forall e | e in Known(post.records) ensures e in Known(pre.records) {
      var id :| id in post.records && post.records[id].email == e;
      assert pre.records[id].email == e;
    }
  }

  lemma SyncedReindexes(pre: Db, mid: Db, post: Db, ib: int, cs: seq<Client>)
    requires TableKeys(pre) && ib in pre.inbounds && Emails(cs) <= Known(pre.records)
    requires mid == pre.(inbounds := pre.inbounds[ib := pre.inbounds[ib].(clients := cs)])
    requires post.inbounds == mid.inbounds && TableSynced(mid, post, cs) && LinksSynced(mid.links, post, ib, cs)
    ensures Reindexed(pre, post, ib, cs) && TableKeys(post)
  {
    hide ClientIndex.RefreshAll;
    hide ClientIndex.FirstOf;
    hide ClientIndex.Emails;
    SyncIndexes(mid, post, ib, cs);
    NoNewRows(mid.records, post.records, cs);
  }

  lemma NoNewRows(pre: map<int, ClientRecord>, post: map<int, ClientRecord>, cs: seq<Client>)
    requires forall id :: id in pre ==> id in post
    requires forall id :: id in post && id !in pre ==> post[id].email in Emails(cs) && post[id].email !in Known(pre)
    requires Emails(cs) <= Known(pre)
    ensures post.Keys == pre.Keys
  {
    forall id | id in post.Keys ensures id in pre.Keys {
      assert post[id].email in Emails(cs) ==> post[id].email in Known(pre);
    }
    forall id | id in pre.Keys ensures id in post.Keys {}
  }

  lemma RewriteReindexes(db: Db, ib: int, cs: seq<Client>)
    requires TableKeys(db) && ib in db.inbounds && Emails(cs) <= Known(db.records)
    ensures Reindexed(db, Rewrite(db, ib, cs), ib, cs) && TableKeys(Rewrite(db, ib, cs))
  {
    var mid := db.(inbounds := db.inbounds[ib := db.inbounds[ib].(clients := cs)]);
    SyncedTable(mid, ib, cs);
    SyncedLinkTable(mid, ib, cs);
    SyncedReindexes(db, mid, SyncDb(mid, ib, cs), ib, cs);
  }

  lemma DeleteKeepsKeys(db: Db, ib: int, key: string, plan: Plan)
    requires TableKeys(db)
    ensures TableKeys(Apply(db, ib, DeleteEdit(db, ib, key, plan)))
  {
    var edit := DeleteEdit(db, ib, key, plan);
    if edit.list.Some? {
      var m := Remaining(db, ib, {key});
      assert edit.list.value == m;
      RewriteReindexes(db, ib, m);
      assert Apply(db, ib, edit) == Rewrite(db, ib, m);
    }
  }

  // ---------- the filters commute ----------

  lemma {:induction false} HitUnion(p: Protocol, cs: seq<Client>, a: set<string>, b: set<string>)
    ensures Hit(p, cs, a + b) <==> Hit(p, cs, a) || Hit(p, cs, b)
  {
    if cs != [] {
      HitUnion(p, cs[..|cs| - 1], a, b);
    }
  }

  lemma {:induction false} NoKeysNoHit(p: Protocol, cs: seq<Client>)
    ensures !Hit(p, cs, {})
  {
    if cs != [] {
      NoKeysNoHit(p, cs[..|cs| - 1]);
    }
  }

  lemma {:induction false} TakenElsewhere(p: Protocol, cs: seq<Client>, a: set<string>, b: set<string>)
    requires a !! b
    ensures TakenOut(p, Without(p, cs, a), b) == TakenOut(p, cs, b)
  {
    if cs != [] {
      var n := |cs| - 1;
      TakenElsewhere(p, cs[..n], a, b);
      var prior := Without(p, cs[..n], a);
      assert (prior + [cs[n]])[..|prior|] == prior;
    }
  }

  lemma {:induction false} WithoutTwice(p: Protocol, cs: seq<Client>, a: set<string>, b: set<string>)
    ensures Without(p, Without(p, cs, a), b) == Without(p, cs, a + b)
  {
    if cs != [] {
      var n := |cs| - 1;
      WithoutTwice(p, cs[..n], a, b);
      var prior := Without(p, cs[..n], a);
      assert (prior + [cs[n]])[..|prior|] == prior;
    }
  }

  lemma AppendedFilters(p: Protocol, cs: seq<Client>, c: Client, keys: set<string>, known: set<string>)
    ensures Without(p, cs + [c], keys) == if KeyOf(p, c) in keys then Without(p, cs, keys) else Without(p, cs, keys) + [c]
    ensures Compact(cs + [c], known) == if c.email == "" || c.email in known then Compact(cs, known) + [c] else Compact(cs, known)
  {
    assert (cs + [c])[..|cs|] == cs;
  }

  lemma {:induction false} CompactWithout(p: Protocol, cs: seq<Client>, keys: set<string>, known: set<string>)
    ensures Compact(Without(p, cs, keys), known) == Without(p, Compact(cs, known), keys)
  {
    if cs != [] {
      var n := |cs| - 1;
      var front, c := cs[..n], cs[n];
      CompactWithout(p, front, keys, known);
      assert cs == front + [c];
      AppendedFilters(p, front, c, keys, known);
      AppendedFilters(p, Without(p, front, keys), c, keys, known);
      AppendedFilters(p, Compact(front, known), c, keys, known);
      hide Without, Compact;
    }
  }

  // Compacting between two removals drops nothing more than compacting once.
  lemma RemovalsCompose(p: Protocol, cs: seq<Client>, a: set<string>, b: set<string>, known: set<string>)
    ensures var m := Compact(Without(p, cs, a), known);
      && Compact(Without(p, m, b), known) == Compact(Without(p, cs, a + b), known)
      && Without(p, m, b) == Compact(Without(p, cs, a + b), known)
  {
    var m := Compact(Without(p, cs, a), known);
    WithoutTwice(p, cs, a, b);
    CompactWithout(p, Without(p, cs, a), b, known);
    assert Emails(Without(p, m, b)) <= Emails(m);
  }

  // ---------- the theorem ----------

  lemma {:induction false} FoldReindexes(db: Db, ib: int, keys: seq<string>, plan: Plan)
    requires TableKeys(db) && ib in db.inbounds && !plan.PlanFails?
    ensures var inbound := db.inbounds[ib];
      if Hit(inbound.protocol, inbound.clients, KeySet(keys))
      then Reindexed(db, DeleteAll(db, ib, keys, plan), ib, Remaining(db, ib, KeySet(keys)))
      else DeleteAll(db, ib, keys, plan) == db
    decreases |keys|
  {
    var p, cs, known := db.inbounds[ib].protocol, db.inbounds[ib].clients, Known(db.records);
    if keys == [] {
      assert KeySet(keys) == {};
      NoKeysNoHit(p, cs);
    } else {
      var key, rest := keys[0], KeySet(keys[1..]);
      KeySetSplit(keys);
      RemovalsCompose(p, cs, {key}, rest, known);
      HitUnion(p, cs, {key}, rest);
      DeleteKeepsKeys(db, ib, key, plan);
      if Hit(p, cs, {key}) {
        var m := Remaining(db, ib, {key});
        var mid := Rewrite(db, ib, m);
        assert Apply(db, ib, DeleteEdit(db, ib, key, plan)) == mid;
        RewriteReindexes(db, ib, m);
        SameKnown(db, mid, ib, m);
        FoldReindexes(mid, ib, keys[1..], plan);
        if Hit(p, m, rest) {
          ReindexedTwice(db, mid, DeleteAll(mid, ib, keys[1..], plan), ib, m, Remaining(mid, ib, rest));
        }
      } else {
        assert Apply(db, ib, DeleteEdit(db, ib, key, plan)) == db;
        FoldReindexes(db, ib, keys[1..], plan);
        WithoutTwice(p, cs, {key}, rest);
      }
    }
  }

  lemma KeySetSplit(keys: seq<string>)
    requires keys != []
    ensures KeySet(keys) == {keys[0]} + KeySet(keys[1..])
  {}

  // One pass and the fold leave the same settings lists and the same links.
  lemma BatchEqualsFold(db: Db, ib: int, keys: seq<string>, plan: Plan)
    requires TableKeys(db) && !plan.PlanFails? && "" !in keys
    ensures SameIndex(DeleteAll(db, ib, keys, plan), Apply(db, ib, DetachEdit(db, ib, KeySet(keys), plan)))
  {
    assert KeySet(keys) - {""} == KeySet(keys);
    if ib !in db.inbounds {
      FoldNowhere(db, ib, keys, plan);
    } else {
      FoldReindexes(db, ib, keys, plan);
      BatchReindexes(db, ib, KeySet(keys), plan);
      if Hit(db.inbounds[ib].protocol, db.inbounds[ib].clients, KeySet(keys)) {
        ReindexedSame(db, DeleteAll(db, ib, keys, plan), Apply(db, ib, DetachEdit(db, ib, KeySet(keys), plan)), ib,
                      Remaining(db, ib, KeySet(keys)));
      }
    }
  }

  lemma BatchReindexes(db: Db, ib: int, keys: set<string>, plan: Plan)
    requires TableKeys(db) && ib in db.inbounds && !plan.PlanFails? && keys - {""} == keys
    ensures var post := Apply(db, ib, DetachEdit(db, ib, keys, plan));
      if Hit(db.inbounds[ib].protocol, db.inbounds[ib].clients, keys)
      then Reindexed(db, post, ib, Remaining(db, ib, keys)) else post == db
  {
    var p, cs := db.inbounds[ib].protocol, db.inbounds[ib].clients;
    if keys == {} {
      NoKeysNoHit(p, cs);
    } else if Hit(p, cs, keys) {
      var m := Remaining(db, ib, keys);
      assert DetachEdit(db, ib, keys, plan).list == Some(m);
      RewriteReindexes(db, ib, m);
    }
  }

  lemma {:induction false} FoldNowhere(db: Db, ib: int, keys: seq<string>, plan: Plan)
    requires TableKeys(db) && ib !in db.inbounds
    ensures DeleteAll(db, ib, keys, plan) == db
    decreases |keys|
  {
    if keys != [] {
      FoldNowhere(db, ib, keys[1..], plan);
    }
  }

  predicate DistinctKeys(keys: seq<string>) {
    forall i, j :: 0 <= i < j < |keys| ==> keys[i] != keys[j]
  }

  // In a consistent database no removal is lost on the way: distinct keys that
  // are all present are each found by their own single call.
  lemma {:induction false} EveryKeyFound(db: Db, ib: int, keys: seq<string>, plan: Plan)
    requires Consistent(db) && ib in db.inbounds && !plan.PlanFails? && DistinctKeys(keys)
    requires forall k :: k in keys ==> Hit(db.inbounds[ib].protocol, db.inbounds[ib].clients, {k})
    ensures AllFound(db, ib, keys, plan)
    decreases |keys|
  {
    hide ClientIndex.SyncDb;
    if keys != [] {
      var p, cs := db.inbounds[ib].protocol, db.inbounds[ib].clients;
      var post := Apply(db, ib, DeleteEdit(db, ib, keys[0], plan));
      OneRemoved(db, ib, keys[0], plan);
      forall k | k in keys[1..] ensures Hit(p, post.inbounds[ib].clients, {k}) {
        TakenElsewhere(p, cs, {keys[0]}, {k});
      }
      EveryKeyFound(post, ib, keys[1..], plan);
    }
  }

  lemma OneRemoved(db: Db, ib: int, key: string, plan: Plan)
    requires Consistent(db) && ib in db.inbounds && !plan.PlanFails?
    requires Hit(db.inbounds[ib].protocol, db.inbounds[ib].clients, {key})
    ensures DeleteEdit(db, ib, key, plan).outcome.Done?
    ensures var post := Apply(db, ib, DeleteEdit(db, ib, key, plan));
      && Consistent(post) && ib in post.inbounds && post.inbounds[ib].protocol == db.inbounds[ib].protocol
      && post.inbounds[ib].clients == Without(db.inbounds[ib].protocol, db.inbounds[ib].clients, {key})
  {
    hide ClientIndex.SyncDb;
    RemovalKeepsKnown(db, ib, {key});
    RewriteConsistent(db, ib, Remaining(db, ib, {key}));
  }

  // In a consistent database there is nothing for the compaction to drop.
  lemma RemovalKeepsKnown(db: Db, ib: int, keys: set<string>)
    requires Consistent(db) && ib in db.inbounds
    ensures Remaining(db, ib, keys) == Without(db.inbounds[ib].protocol, db.inbounds[ib].clients, keys)
  {}

  // ---------- the other columns ----------

  // All entries of an email carry one key.
  predicate OneKeyEach(p: Protocol, cs: seq<Client>) {
    forall c, d :: c in cs && d in cs && c.email == d.email && c.email != "" ==> KeyOf(p, c) == KeyOf(p, d)
  }

  // The rows are what refreshing them from the inbound's list makes of them.
  predicate Fresh(db: Db, ib: int)
    requires ib in db.inbounds
  {
    RefreshRows(db.records, db.inbounds[ib].clients) == db.records
  }

  lemma {:induction false} WithoutMembers(p: Protocol, cs: seq<Client>, keys: set<string>)
    ensures forall c :: c in Without(p, cs, keys) ==> c in cs && KeyOf(p, c) !in keys
  {
    if cs != [] {
      WithoutMembers(p, cs[..|cs| - 1], keys);
    }
  }

  // An email that loses no entry refreshes its row as before.
  lemma {:induction false} UntouchedRow(p: Protocol, cs: seq<Client>, keys: set<string>, row: ClientRecord)
    requires forall c :: c in cs && c.email == row.email && c.email != "" ==> KeyOf(p, c) !in keys
    ensures RefreshAll(row, Without(p, cs, keys)) == RefreshAll(row, cs)
  {
    hide Refreshed;
    if cs != [] {
      var n := |cs| - 1;
      UntouchedRow(p, cs[..n], keys, row);
      var prior := Without(p, cs[..n], keys);
      assert (prior + [cs[n]])[..|prior|] == prior;
      assert cs[n] in cs;
    }
  }

  lemma {:induction false} CompactedRow(cs: seq<Client>, known: set<string>, row: ClientRecord)
    requires row.email in known
    ensures RefreshAll(row, Compact(cs, known)) == RefreshAll(row, cs)
  {
    hide Refreshed;
    if cs != [] {
      var n := |cs| - 1;
      CompactedRow(cs[..n], known, row);
      var prior := Compact(cs[..n], known);
      assert (prior + [cs[n]])[..|prior|] == prior;
    }
  }

  lemma {:induction false} EmailHasEntry(cs: seq<Client>, e: string)
    requires e in Emails(cs)
    ensures exists c :: c in cs && c.email == e && e != ""
  {
    var n := |cs| - 1;
    if cs[n].email == e && e != "" {
      assert cs[n] in cs;
    } else {
      EmailHasEntry(cs[..n], e);
    }
  }

  // A removal changes no row when all rows are fresh and each email has one key.
  lemma RemovalKeepsRow(p: Protocol, cs: seq<Client>, keys: set<string>, known: set<string>, row: ClientRecord)
    requires OneKeyEach(p, cs) && row.email in known && RefreshAll(row, cs) == row
    ensures RefreshAll(row, Compact(Without(p, cs, keys), known)) == row
  {
    var rest := Without(p, cs, keys);
    CompactedRow(rest, known, row);
    WithoutMembers(p, cs, keys);
    if row.email in Emails(rest) {
      EmailHasEntry(rest, row.email);
      UntouchedRow(p, cs, keys, row);
    }
  }

  lemma RewriteRows(db: Db, ib: int, cs: seq<Client>)
    requires ib in db.inbounds && Emails(cs) <= Known(db.records)
    ensures Rewrite(db, ib, cs).records == RefreshRows(db.records, cs) && Rewrite(db, ib, cs).nextId == db.nextId
  {
    NewRowsFacts(cs, Known(db.records));
    assert NewRows(cs, Known(db.records)) == [];
  }

  lemma RemovalKeepsRows(db: Db, ib: int, keys: set<string>)
    requires ib in db.inbounds && OneKeyEach(db.inbounds[ib].protocol, db.inbounds[ib].clients) && Fresh(db, ib)
    ensures var post := Rewrite(db, ib, Remaining(db, ib, keys));
      post.records == db.records && post.nextId == db.nextId && ib in post.inbounds && Fresh(post, ib) &&
      post.inbounds[ib].protocol == db.inbounds[ib].protocol && OneKeyEach(post.inbounds[ib].protocol, post.inbounds[ib].clients)
  {
    hide RefreshAll, Compact, Without;
    var p, cs := db.inbounds[ib].protocol, db.inbounds[ib].clients;
    var m := Remaining(db, ib, keys);
    forall id | id in db.records ensures RefreshAll(db.records[id], m) == db.records[id] {
      assert RefreshRows(db.records, cs)[id] == RefreshAll(db.records[id], cs);
      RemovalKeepsRow(p, cs, keys, Known(db.records), db.records[id]);
    }
    assert RefreshRows(db.records, m) == db.records;
    RewriteRows(db, ib, m);
    WithoutMembers(p, cs, keys);
    assert forall c :: c in m ==> c in cs;
  }

  lemma {:induction false} FoldKeepsRows(db: Db, ib: int, keys: seq<string>, plan: Plan)
    requires TableKeys(db) && ib in db.inbounds && OneKeyEach(db.inbounds[ib].protocol, db.inbounds[ib].clients) && Fresh(db, ib)
    ensures DeleteAll(db, ib, keys, plan).records == db.records && DeleteAll(db, ib, keys, plan).nextId == db.nextId
    decreases |keys|
  {
    hide Fresh, OneKeyEach, Rewrite, Remaining, TableKeys;
    if keys != [] {
      DeleteKeepsKeys(db, ib, keys[0], plan);
      RemovalKeepsRows(db, ib, {keys[0]});
      FoldKeepsRows(Apply(db, ib, DeleteEdit(db, ib, keys[0], plan)), ib, keys[1..], plan);
    }
  }

  // Where the rows are fresh and each email has one key, one pass and the fold leave
  // the same database, in every column.
  lemma BatchIsFold(db: Db, ib: int, keys: seq<string>, plan: Plan)
    requires TableKeys(db) && ib in db.inbounds && !plan.PlanFails? && "" !in keys
    requires OneKeyEach(db.inbounds[ib].protocol, db.inbounds[ib].clients) && Fresh(db, ib)
    ensures DeleteAll(db, ib, keys, plan) == Apply(db, ib, DetachEdit(db, ib, KeySet(keys), plan))
  {
    hide Fresh, OneKeyEach, Rewrite, TableKeys;
    BatchEqualsFold(db, ib, keys, plan);
    FoldKeepsRows(db, ib, keys, plan);
    assert KeySet(keys) - {""} == KeySet(keys);
    RemovalKeepsRows(db, ib, KeySet(keys));
  }

  lemma PairRemoved(c: Client, d: Client, known: set<string>)
    requires c.id != d.id && c.email in known
    ensures TakenOut(VLess, [c, d], {d.id}) == [d] && Compact(Without(VLess, [c, d], {d.id}), known) == [c]
    ensures TakenOut(VLess, [c], {c.id}) == [c] && Compact(Without(VLess, [c], {c.id}), known) == []
    ensures TakenOut(VLess, [c, d], {c.id, d.id}) == [c, d] && Compact(Without(VLess, [c, d], {c.id, d.id}), known) == []
  {
    assert [c, d][..1] == [c] && [c][..0] == [];
    assert Without(VLess, [c], {d.id}) == [c] && Without(VLess, [c], {c.id}) == [] && Without(VLess, [c], {c.id, d.id}) == [];
    assert TakenOut(VLess, [c], {d.id}) == [] && TakenOut(VLess, [c], {c.id}) == [c] && TakenOut(VLess, [c], {c.id, d.id}) == [c];
    assert Compact([c], known) == [c];
  }

  // What a single removal that finds its client makes of the lists and rows.
  lemma Removed(db: Db, ib: int, key: string, m: seq<Client>)
    requires ib in db.inbounds && m == Remaining(db, ib, {key}) && Hit(db.inbounds[ib].protocol, db.inbounds[ib].clients, {key})
    ensures var post := Apply(db, ib, DeleteEdit(db, ib, key, NoPush));
            post.inbounds == db.inbounds[ib := db.inbounds[ib].(clients := m)] && post.records == RefreshRows(db.records, m)
  {
    RewriteRows(db, ib, m);
  }

  lemma TwoEntryRow(row: ClientRecord, c: Client, d: Client)
    requires row.email == c.email == d.email && c.email != ""
    ensures RefreshAll(row, [c]) == Refreshed(row, c) && RefreshAll(row, [c, d]) == Refreshed(Refreshed(row, c), d)
    ensures Refreshed(row, c).email == row.email && Refreshed(row, c).limitIp == c.limitIp
  {
    assert [c, d][..1] == [c] && [c][..0] == [];
  }

  lemma OneAfterOther(db: Db, ib: int, a: string, b: string)
    requires TableKeys(db)
    ensures TableKeys(Apply(db, ib, DeleteEdit(db, ib, a, NoPush)))
    ensures var mid := Apply(db, ib, DeleteEdit(db, ib, a, NoPush));
            DeleteAll(db, ib, [a, b], NoPush) == Apply(mid, ib, DeleteEdit(mid, ib, b, NoPush))
  {
    hide Rewrite;
    DeleteKeepsKeys(db, ib, a, NoPush);
    var mid := Apply(db, ib, DeleteEdit(db, ib, a, NoPush));
    DeleteKeepsKeys(mid, ib, b, NoPush);
    var end := Apply(mid, ib, DeleteEdit(mid, ib, b, NoPush));
    assert [a, b][1..] == [b] && [b][1..] == [];
    assert DeleteAll(end, ib, [], NoPush) == end;
    assert DeleteAll(mid, ib, [b], NoPush) == DeleteAll(end, ib, [], NoPush);
  }

  // One inbound with the entries cs of one client, and its row.
  ghost predicate OneClient(db: Db, ib: int, cs: seq<Client>, id: int, row: ClientRecord) {
    && TableKeys(db) && db.inbounds == map[ib := Inbound(VLess, None, false, cs)] && db.records == map[id := row]
    && forall c :: c in cs ==> c.email == row.email && c.email != ""
  }

  lemma OneKnown(db: Db, id: int, row: ClientRecord)
    requires db.records == map[id := row]
    ensures Known(db.records) == {row.email}
  {
    assert db.records[id].email == row.email;
  }

  lemma SecondGoes(db: Db, ib: int, id: int, row: ClientRecord, c: Client, d: Client)
    requires OneClient(db, ib, [c, d], id, row) && c.id != d.id
    ensures OneClient(Apply(db, ib, DeleteEdit(db, ib, d.id, NoPush)), ib, [c], id, Refreshed(row, c))
  {
    hide TakenOut, Without, Compact, Rewrite, RefreshAll, Refreshed;
    assert c in [c, d];
    OneKnown(db, id, row);
    PairRemoved(c, d, {row.email});
    TwoEntryRow(row, c, d);
    DeleteKeepsKeys(db, ib, d.id, NoPush);
    Removed(db, ib, d.id, [c]);
  }

  lemma FirstGoes(db: Db, ib: int, id: int, row: ClientRecord, c: Client, d: Client)
    requires OneClient(db, ib, [c], id, row) && c.id != d.id
    ensures Apply(db, ib, DeleteEdit(db, ib, c.id, NoPush)).records == db.records
  {
    hide TakenOut, Without, Compact, Rewrite, Refreshed;
    assert c in [c];
    OneKnown(db, id, row);
    PairRemoved(c, d, {row.email});
    Removed(db, ib, c.id, []);
    assert RefreshRows(db.records, []) == db.records;
  }

  lemma BothGo(db: Db, ib: int, id: int, row: ClientRecord, c: Client, d: Client)
    requires OneClient(db, ib, [c, d], id, row) && c.id != d.id && c.id != "" && d.id != ""
    ensures Apply(db, ib, DetachEdit(db, ib, {c.id, d.id}, NoPush)).records == db.records
  {
    hide TakenOut, Without, Compact, Rewrite, Refreshed;
    assert c in [c, d];
    OneKnown(db, id, row);
    PairRemoved(c, d, {row.email});
    assert {c.id, d.id} - {""} == {c.id, d.id};
    RewriteRows(db, ib, []);
    assert RefreshRows(db.records, []) == db.records;
  }

  // Two keys of one email: removing the second entry first refreshes the row from the
  // first one, which one pass never does.
  lemma TwoKeysDiffer(db: Db, ib: int, id: int, c: Client, d: Client)
    requires OneClient(db, ib, [c, d], id, Refreshed(ToRecord(c), d))
    requires c.id != d.id && c.id != "" && d.id != "" && c.limitIp != d.limitIp
    ensures Fresh(db, ib)
    ensures DeleteAll(db, ib, [d.id, c.id], NoPush).records != Apply(db, ib, DetachEdit(db, ib, {c.id, d.id}, NoPush)).records
  {
    hide DeleteEdit, DetachEdit, Apply;
    var row := db.records[id];
    assert c in [c, d] && d in [c, d];
    RefreshTwice(ToRecord(c), [c, d]);
    TwoEntryRow(ToRecord(c), c, d);
    TwoEntryRow(row, c, d);
    SecondGoes(db, ib, id, row, c, d);
    FirstGoes(Apply(db, ib, DeleteEdit(db, ib, d.id, NoPush)), ib, id, Refreshed(row, c), c, d);
    OneAfterOther(db, ib, d.id, c.id);
    BothGo(db, ib, id, row, c, d);
  }
}
