// What a pull writes into the rows of the node's clients, column by column: they follow
// the node's entries as in a sync, with the comments of the panel, and a client that
// the node's statistics report as disabled is disabled.
module PulledRows {
  import opened Text
  import opened ClientModel
  import opened ClientIndex
  import opened ClientColumns
  import opened ClientMutations
  import opened NodePull

  // An entry of the node, with the emails its inbound's statistics report as disabled.
  datatype Listing = Listing(entry: Client, disabled: set<string>)

  function InboundListings(s: SnapInbound): (r: seq<Listing>)
    ensures |r| == |s.clients| && forall i :: 0 <= i < |r| ==> r[i] == Listing(s.clients[i], s.disabled)
  {
    seq(|s.clients|, i requires 0 <= i < |s.clients| => Listing(s.clients[i], s.disabled))
  }

  function Listings(snaps: seq<SnapInbound>): seq<Listing> {
    if snaps == [] then [] else Listings(snaps[..|snaps| - 1]) + InboundListings(snaps[|snaps| - 1])
  }

  // The entry as the tables take it.
  predicate TakenAs(c: Client, l: Listing, comment: string) {
    && c.email == l.entry.email && c.subId == l.entry.subId && c.id == l.entry.id && c.password == l.entry.password
    && c.auth == l.entry.auth && c.flow == l.entry.flow && c.security == l.entry.security && c.reverse == l.entry.reverse
    && c.limitIp == l.entry.limitIp && c.totalGB == l.entry.totalGB && c.expiryTime == l.entry.expiryTime && c.tgId == l.entry.tgId
    && c.group == l.entry.group && c.reset == l.entry.reset && c.createdAt == l.entry.createdAt && c.updatedAt == l.entry.updatedAt
    && c.enable == (l.entry.enable && l.entry.email !in l.disabled) && c.comment == comment
  }

  // cs are the listings as the tables take them, where the email is concerned.
  ghost predicate TakesFrom(cs: seq<Client>, ls: seq<Listing>, e: string, comment: string) {
    && |cs| == |ls|
    && forall i :: 0 <= i < |ls| ==> cs[i].email == ls[i].entry.email && (cs[i].email == e ==> TakenAs(cs[i], ls[i], comment))
  }

  lemma {:induction false} RefreshConcat(row: ClientRecord, a: seq<Client>, b: seq<Client>)
    ensures RefreshAll(row, a + b) == RefreshAll(RefreshAll(row, a), b)
  {
    hide Refreshed;
    if b == [] {
      assert a + b == a;
    } else {
      var n := |b| - 1;
      RefreshConcat(row, a, b[..n]);
      assert (a + b)[..|a| + n] == a + b[..n];
    }
  }

  lemma RetouchedMore(records: map<int, ClientRecord>, disabled: set<string>, cs: seq<Client>, c: Client)
    ensures AllRetouched(records, disabled, cs + [c]) == AllRetouched(records, disabled, cs) + [Retouched(records, disabled, c)]
  {
    hide Retouched;
  }

  lemma RefreshMore(row: ClientRecord, cs: seq<Client>, c: Client)
    ensures RefreshAll(row, cs + [c]) ==
            if c.email != "" && c.email == row.email then Refreshed(RefreshAll(row, cs), c) else RefreshAll(row, cs)
  {
    assert (cs + [c])[..|cs|] == cs;
  }

  lemma SurvivorsMore(cs: seq<Client>, c: Client, tombs: set<string>)
    ensures Survivors(cs + [c], tombs) ==
            if c.email != "" && c.email in tombs then Survivors(cs, tombs) else Survivors(cs, tombs) + [c]
  {
    assert (cs + [c])[..|cs|] == cs;
  }

  // The entries left out are not the row's.
  lemma {:induction false} SurvivorsSame(row: ClientRecord, records: map<int, ClientRecord>, tombs: set<string>, disabled: set<string>, cs: seq<Client>)
    requires row.email !in tombs
    ensures RefreshAll(row, AllRetouched(records, disabled, Survivors(cs, tombs))) == RefreshAll(row, AllRetouched(records, disabled, cs))
  {
    if cs != [] {
      hide Refreshed, Retouched, Emails, RefreshAll, AllRetouched, Survivors;
      var front, c := cs[..|cs| - 1], cs[|cs| - 1];
      SurvivorsSame(row, records, tombs, disabled, front);
      assert cs == front + [c];
      SurvivorsMore(front, c, tombs);
      RetouchedMore(records, disabled, front, c);
      RetouchedMore(records, disabled, Survivors(front, tombs), c);
      RefreshMore(row, AllRetouched(records, disabled, front), Retouched(records, disabled, c));
      RefreshMore(row, AllRetouched(records, disabled, Survivors(front, tombs)), Retouched(records, disabled, c));
    } else {
      assert Survivors(cs, tombs) == [];
    }
  }

  lemma TakesRetouched(records: map<int, ClientRecord>, s: SnapInbound, id: int)
    requires UniqueEmails(records) && id in records && records[id].email != ""
    ensures TakesFrom(AllRetouched(records, s.disabled, s.clients), InboundListings(s), records[id].email, records[id].comment)
  {
    forall i | 0 <= i < |s.clients| && s.clients[i].email == records[id].email
      ensures Retouched(records, s.disabled, s.clients[i]).comment == records[id].comment
    {
      var ids := set j | j in records && s.clients[i].email != "" && records[j].email == s.clients[i].email;
      assert id in ids;
      assert forall j :: j in ids ==> j == id;
    }
  }

  lemma {:induction false} CommentStays(row: ClientRecord, cs: seq<Client>, ls: seq<Listing>)
    requires TakesFrom(cs, ls, row.email, row.comment)
    ensures RefreshAll(row, cs).comment == row.comment
  {
    if cs != [] {
      var n := |cs| - 1;
      CommentStays(row, cs[..n], ls[..n]);
    }
  }

  lemma TakesMore(a: seq<Client>, b: seq<Client>, ls: seq<Listing>, ms: seq<Listing>, e: string, comment: string)
    requires TakesFrom(a, ls, e, comment) && TakesFrom(b, ms, e, comment)
    ensures TakesFrom(a + b, ls + ms, e, comment)
  {
    hide TakenAs;
  }

  // One more inbound synced.
  lemma RowStep(prior: Db, s: SnapInbound, tombs: set<string>, id: int) returns (cs: seq<Client>)
    requires TableKeys(prior) && id in prior.records && prior.records[id].email != "" && prior.records[id].email !in tombs
    ensures var row, post := prior.records[id], SyncDb(prior, s.ib, Adopted(prior.records, tombs, s));
      && TableKeys(post) && id in post.records && post.records[id] == RefreshAll(row, cs)
      && TakesFrom(cs, InboundListings(s), row.email, row.comment) && post.records[id].comment == row.comment
  {
    hide SyncDb, TakenAs, Retouched, Emails, TableKeys, RefreshAll;
    cs := AllRetouched(prior.records, s.disabled, s.clients);
    SyncStep(prior, s.ib, Adopted(prior.records, tombs, s));
    SurvivorsSame(prior.records[id], prior.records, tombs, s.disabled, s.clients);
    KeysUnique(prior);
    TakesRetouched(prior.records, s, id);
    CommentStays(prior.records[id], cs, InboundListings(s));
  }

  // A row that was there, after the syncs of a pull.
  lemma {:induction false} ResyncedRow(db: Db, snaps: seq<SnapInbound>, tombs: set<string>, id: int) returns (cs: seq<Client>)
    requires TableKeys(db) && id in db.records && db.records[id].email != "" && db.records[id].email !in tombs
    ensures TableKeys(Resynced(db, snaps, tombs)) && id in Resynced(db, snaps, tombs).records
    ensures var row, after := db.records[id], Resynced(db, snaps, tombs).records[id];
      TakesFrom(cs, Listings(snaps), row.email, row.comment) && after == RefreshAll(row, cs) && after.comment == row.comment
  {
    if snaps == [] {
      cs := [];
    } else {
      hide SyncDb, TakenAs, TakesFrom, TableKeys, RefreshAll;
      var row, n := db.records[id], |snaps| - 1;
      var front := ResyncedRow(db, snaps[..n], tombs, id);
      var taken := RowStep(Resynced(db, snaps[..n], tombs), snaps[n], tombs, id);
      RefreshConcat(row, front, taken);
      TakesMore(front, taken, Listings(snaps[..n]), InboundListings(snaps[n]), row.email, row.comment);
      cs := front + taken;
    }
  }

  lemma KeysUnique(db: Db)
    requires TableKeys(db)
    ensures UniqueEmails(db.records)
  {}

  // ---------- the rows after the pull ----------

  // The i-th listing is the email's last one.
  predicate LastListing(ls: seq<Listing>, e: string, i: int) {
    0 <= i < |ls| && ls[i].entry.email == e && forall j :: i < j < |ls| ==> ls[j].entry.email != e
  }

  lemma {:induction false} ListedBy(snaps: seq<SnapInbound>, i: nat) returns (s: SnapInbound)
    requires i < |Listings(snaps)| && Listings(snaps)[i].entry.email != ""
    ensures s in snaps && Listings(snaps)[i].entry.email in Emails(s.clients)
  {
    var n := |snaps| - 1;
    var front := Listings(snaps[..n]);
    assert snaps == snaps[..n] + [snaps[n]];
    if i < |front| {
      s := ListedBy(snaps[..n], i);
    } else {
      s := snaps[n];
      EntryListed(s.clients, i - |front|);
    }
  }

  // The rows of listed clients are not swept.
  lemma ListedStays(db: Db, node: int, snaps: seq<SnapInbound>, tombs: set<string>, s: SnapInbound, id: int)
    requires Consistent(db) && DistinctIds(snaps) && OwnIds(db.inbounds, node, snaps) && s in snaps
    requires var synced := Resynced(Relisted(db, node, snaps), snaps, tombs);
      id in synced.records && synced.records[id].email in Emails(s.clients) - tombs
    ensures var synced, post := Resynced(Relisted(db, node, snaps), snaps, tombs), PullDb(db, node, snaps, tombs);
      id in post.records && post.records[id] == synced.records[id]
  {
    hide Relisted, Resynced, Consistent;
    var relisted := Relisted(db, node, snaps);
    RelistedAt(db, node, snaps);
    RelistedIndex(db, node, snaps, tombs);
    ResyncedIndex(relisted, snaps, snaps, tombs);
    var synced := Resynced(relisted, snaps, tombs);
    assert Indexed(synced, s.ib, Survivors(s.clients, tombs));
    assert LinkKey(id, s.ib) in synced.links;
    assert Attached(synced, synced.records[id].email);
  }

  lemma RelistedRecords(db: Db, node: int, snaps: seq<SnapInbound>, tombs: set<string>)
    requires Consistent(db) && DistinctIds(snaps) && OwnIds(db.inbounds, node, snaps)
    ensures Relisted(db, node, snaps).records == db.records && TableKeys(Relisted(db, node, snaps))
  {
    RelistedIndex(db, node, snaps, tombs);
  }

  // The row of a listed client that the panel had: as after a sync with the node's
  // entries, its comment the panel's, and disabled where the node says so.
  lemma PulledRow(db: Db, node: int, snaps: seq<SnapInbound>, tombs: set<string>, id: int, i: int) returns (cs: seq<Client>)
    requires Consistent(db) && DistinctIds(snaps) && OwnIds(db.inbounds, node, snaps)
    requires id in db.records && db.records[id].email != "" && db.records[id].email !in tombs
    requires LastListing(Listings(snaps), db.records[id].email, i)
    ensures var row, post := db.records[id], PullDb(db, node, snaps, tombs).records;
      && TakesFrom(cs, Listings(snaps), row.email, row.comment) && id in post && Synced(row, post[id], cs)
    ensures var row, after, last := db.records[id], PullDb(db, node, snaps, tombs).records[id], Listings(snaps)[i];
      && after.enable == (last.entry.enable && row.email !in last.disabled) && after.comment == row.comment
      && after.flow == last.entry.flow && after.subId == last.entry.subId && after.limitIp == last.entry.limitIp
      && after.totalGB == last.entry.totalGB && after.expiryTime == last.entry.expiryTime && after.tgId == last.entry.tgId
      && after.reset == last.entry.reset
  {
    hide PullDb, Relisted, Resynced, Consistent, Emails, RefreshAll, TableKeys;
    var row, relisted := db.records[id], Relisted(db, node, snaps);
    RelistedRecords(db, node, snaps, tombs);
    cs := ResyncedRow(relisted, snaps, tombs, id);
    RowSynced(row, cs);
    var s := ListedBy(snaps, i);
    ListedStays(db, node, snaps, tombs, s, id);
    assert LastEntry(cs, row.email, i);
    hide Dates;
  }

  // ---------- rows the pull creates ----------

  lemma {:induction false} FirstSurvivor(cs: seq<Client>, tombs: set<string>, e: string, i: nat) returns (j: nat)
    requires e != "" && FirstEntry(Survivors(cs, tombs), e, i)
    ensures FirstEntry(cs, e, j) && cs[j] == Survivors(cs, tombs)[i] && e !in tombs
  {
    hide Emails;
    var n := |cs| - 1;
    var prior := Survivors(cs[..n], tombs);
    assert cs == cs[..n] + [cs[n]];
    SurvivorsMore(cs[..n], cs[n], tombs);
    forall k | 0 <= k < |prior| ensures Survivors(cs, tombs)[k] == prior[k] {}
    if i < |prior| {
      j := FirstSurvivor(cs[..n], tombs, e, i);
    } else {
      j := n;
      NoneBefore(cs[..n], tombs, e);
    }
  }

  lemma {:induction false} NoneBefore(cs: seq<Client>, tombs: set<string>, e: string)
    requires e !in tombs && forall i :: 0 <= i < |Survivors(cs, tombs)| ==> Survivors(cs, tombs)[i].email != e
    ensures forall i :: 0 <= i < |cs| ==> cs[i].email != e
  {
    hide Emails;
    if cs != [] {
      var n := |cs| - 1;
      var prior := Survivors(cs[..n], tombs);
      forall i | 0 <= i < |prior| ensures prior[i].email != e { assert Survivors(cs, tombs)[i] == prior[i]; }
      NoneBefore(cs[..n], tombs, e);
      if cs[n].email == e { assert Survivors(cs, tombs)[|prior|] == cs[n]; }
    }
  }

  // The row a sync of the pull creates: from the first entry of the inbound.
  lemma RowBegins(prior: Db, s: SnapInbound, tombs: set<string>, id: int) returns (j: nat, c: Client)
    requires TableKeys(prior) && id !in prior.records && id in SyncDb(prior, s.ib, Adopted(prior.records, tombs, s)).records
    ensures TableKeys(SyncDb(prior, s.ib, Adopted(prior.records, tombs, s)))
    ensures var row := SyncDb(prior, s.ib, Adopted(prior.records, tombs, s)).records[id];
      && FirstEntry(s.clients, row.email, j) && row.email != "" && row.email !in tombs && row == ToRecord(c)
      && TakenAs(c, Listing(s.clients[j], s.disabled), s.clients[j].comment)
  {
    hide SyncDb, Emails, Survivors, TableKeys, Dates;
    var cs := Adopted(prior.records, tombs, s);
    SyncStep(prior, s.ib, cs);
    var row := SyncDb(prior, s.ib, cs).records[id];
    var i := FirstOfList(cs, row.email);
    c := cs[i];
    var survivors := Survivors(s.clients, tombs);
    assert forall k :: 0 <= k < |cs| ==> cs[k].email == survivors[k].email;
    j := FirstSurvivor(s.clients, tombs, row.email, i);
    NoRowYet(prior.records, row.email);
  }

  lemma NoRowYet(records: map<int, ClientRecord>, e: string)
    requires e !in Known(records)
    ensures (set id | id in records && e != "" && records[id].email == e) == {}
  {
    forall id | id in records ensures records[id].email != e { assert records[id].email in Known(records); }
  }

  lemma ListingsAfter(snaps: seq<SnapInbound>, n: nat)
    requires n < |snaps| - 1
    ensures var m := |snaps| - 1;
            Listings(snaps[n + 1..]) == Listings(snaps[..m][n + 1..]) + InboundListings(snaps[m])
  {
    var m := |snaps| - 1;
    assert snaps[n + 1..][..m - n - 1] == snaps[..m][n + 1..] && snaps[n + 1..][m - n - 1] == snaps[m];
  }

  // A new row, after the syncs of a pull: created in the n-th inbound, synced with the rest.
  lemma {:induction false} ResyncedNew(db: Db, snaps: seq<SnapInbound>, tombs: set<string>, id: int)
    returns (n: nat, j: nat, c: Client, cs: seq<Client>)
    requires TableKeys(db) && id !in db.records && id in Resynced(db, snaps, tombs).records
    ensures TableKeys(Resynced(db, snaps, tombs)) && n < |snaps|
    ensures var row := Resynced(db, snaps, tombs).records[id];
      && FirstEntry(snaps[n].clients, row.email, j) && row.email != "" && row.email !in tombs
      && TakenAs(c, Listing(snaps[n].clients[j], snaps[n].disabled), snaps[n].clients[j].comment)
      && TakesFrom(cs, Listings(snaps[n + 1..]), c.email, c.comment) && row == RefreshAll(ToRecord(c), cs) && row.comment == c.comment
  {
    hide SyncDb, TakenAs, TakesFrom, TableKeys, RefreshAll, FirstEntry;
    var m := |snaps| - 1;
    var front, s := snaps[..m], snaps[m];
    var prior := Resynced(db, front, tombs);
    ResyncedTableKeys(db, front, tombs);
    if id in prior.records {
      var start;
      n, j, c, start := ResyncedNew(db, front, tombs, id);
      var taken := RowStep(prior, s, tombs, id);
      RefreshConcat(ToRecord(c), start, taken);
      ListingsAfter(snaps, n);
      TakesMore(start, taken, Listings(front[n + 1..]), InboundListings(s), c.email, c.comment);
      cs := start + taken;
    } else {
      n := m;
      j, c := RowBegins(prior, s, tombs, id);
      cs := [];
      TakesNone(c.email, c.comment);
      assert snaps[n + 1..] == [];
    }
  }

  lemma TakesNone(e: string, comment: string)
    ensures TakesFrom([], Listings([]), e, comment)
    ensures forall row :: RefreshAll(row, []) == row
  {}

  lemma {:induction false} ResyncedTableKeys(db: Db, snaps: seq<SnapInbound>, tombs: set<string>)
    requires TableKeys(db)
    ensures TableKeys(Resynced(db, snaps, tombs))
  {
    ResyncedKnown(db, snaps, tombs);
  }

  // A row the pull creates: from the first entry of the first inbound that lists the
  // client, then synced with the inbounds after it.
  lemma PulledNewRow(db: Db, node: int, snaps: seq<SnapInbound>, tombs: set<string>, id: int)
    returns (n: nat, j: nat, c: Client, first: ClientRecord, cs: seq<Client>)
    requires Consistent(db) && DistinctIds(snaps) && OwnIds(db.inbounds, node, snaps)
    requires id in PullDb(db, node, snaps, tombs).records && id !in db.records
    ensures var after := PullDb(db, node, snaps, tombs).records[id];
      && n < |snaps| && FirstEntry(snaps[n].clients, after.email, j) && after.email !in tombs
      && TakenAs(c, Listing(snaps[n].clients[j], snaps[n].disabled), snaps[n].clients[j].comment) && Created(first, c)
      && TakesFrom(cs, Listings(snaps[n + 1..]), c.email, c.comment) && Synced(first, after, cs) && after.comment == c.comment
  {
    hide Relisted, Resynced, Consistent, Emails, RefreshAll, TableKeys, TakenAs, TakesFrom, FirstEntry;
    var relisted := Relisted(db, node, snaps);
    RelistedRecords(db, node, snaps, tombs);
    n, j, c, cs := ResyncedNew(relisted, snaps, tombs, id);
    first := ToRecord(c);
    CreatedFrom(c);
    FirstEmail(snaps[n].clients, Resynced(relisted, snaps, tombs).records[id].email, j);
    TakenEmail(c, snaps[n], j);
    RowSynced(first, cs);
  }

  lemma TakenEmail(c: Client, s: SnapInbound, j: nat)
    requires j < |s.clients| && TakenAs(c, Listing(s.clients[j], s.disabled), s.clients[j].comment)
    ensures c.email == s.clients[j].email
  {}

  lemma FirstEmail(cs: seq<Client>, e: string, j: int)
    requires FirstEntry(cs, e, j)
    ensures 0 <= j < |cs| && cs[j].email == e
  {}
}
