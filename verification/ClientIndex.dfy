// The clients and client_inbounds tables as an index over the inbounds'
// settings lists: what each mutation of one inbound leaves behind, stated as
// functions on a database value, and the invariant every run of them keeps.
module ClientIndex {
  import opened Text
  import opened ClientModel

  datatype LinkKey = LinkKey(clientId: int, inboundId: int)

  datatype Db = Db(inbounds: map<int, Inbound>, records: map<int, ClientRecord>,
                   links: map<LinkKey, string>, nextId: int)

  // ---------- reading a settings list ----------

  // The distinct non-empty emails of a list.
  function Emails(cs: seq<Client>): set<string> {
    if cs == [] then {} else
      var n := |cs| - 1;
      if cs[n].email == "" then Emails(cs[..n]) else Emails(cs[..n]) + {cs[n].email}
  }

  function FirstOf(cs: seq<Client>, e: string): (c: Client)
    requires e in Emails(cs)
    ensures c.email == e && e != ""
  {
    var n := |cs| - 1;
    if e in Emails(cs[..n]) then FirstOf(cs[..n], e) else cs[n]
  }

  // The rows to create for the emails outside `known`: one per email, in order of
  // first occurrence, with the values of that occurrence.
  function NewRows(cs: seq<Client>, known: set<string>): seq<ClientRecord> {
    if cs == [] then [] else
      var n := |cs| - 1;
      var prior := NewRows(cs[..n], known);
      var e := cs[n].email;
      if e == "" || e in known || e in Emails(cs[..n]) then prior else prior + [ToRecord(cs[n])]
  }

  // ---------- syncing the tables with a list ----------

  function Known(records: map<int, ClientRecord>): set<string> {
    set id | id in records :: records[id].email
  }

  function RefreshAll(row: ClientRecord, cs: seq<Client>): (r: ClientRecord)
    ensures r.email == row.email
    ensures row.email !in Emails(cs) ==> r == row
  {
    if cs == [] then row else
      var n := |cs| - 1;
      var prev := RefreshAll(row, cs[..n]);
      if cs[n].email != "" && cs[n].email == row.email then Refreshed(prev, cs[n]) else prev
  }

  function RefreshRows(records: map<int, ClientRecord>, cs: seq<Client>): map<int, ClientRecord> {
    map id | id in records :: RefreshAll(records[id], cs)
  }

  // The table after inserting rows under consecutive new primary keys.
  function Inserted(records: map<int, ClientRecord>, nextId: int, rows: seq<ClientRecord>): map<int, ClientRecord> {
    if rows == [] then records else
      var n := |rows| - 1;
      Inserted(records, nextId, rows[..n])[nextId + n := rows[n]]
  }

  function SyncedRecords(records: map<int, ClientRecord>, nextId: int, cs: seq<Client>): map<int, ClientRecord> {
    Inserted(RefreshRows(records, cs), nextId, NewRows(cs, Known(records)))
  }

  // The link table without one inbound's links.
  function Cleared(links: map<LinkKey, string>, ib: int): map<LinkKey, string> {
    map k | k in links && k.inboundId != ib :: links[k]
  }

  // The links the inbound ib is to have: one per record with a listed email.
  function LinkKeys(records: map<int, ClientRecord>, ib: int, cs: seq<Client>): (r: set<LinkKey>)
    ensures forall k :: k in r <==> k.inboundId == ib && k.clientId in records && records[k.clientId].email in Emails(cs)
  {
    var r := set id | id in records && records[id].email in Emails(cs) :: LinkKey(id, ib);
    assert forall k: LinkKey :: k.inboundId == ib ==> k == LinkKey(k.clientId, ib);
    r
  }

  function SyncedLinks(links: map<LinkKey, string>, records: map<int, ClientRecord>, ib: int, cs: seq<Client>): map<LinkKey, string> {
    map k | k in Cleared(links, ib).Keys + LinkKeys(records, ib, cs) ::
      if k.inboundId == ib then FirstOf(cs, records[k.clientId].email).flow else links[k]
  }

  function SyncDb(db: Db, ib: int, cs: seq<Client>): (post: Db)
    ensures post.inbounds == db.inbounds
  {
    var records := SyncedRecords(db.records, db.nextId, cs);
    db.(records := records,
        links := SyncedLinks(db.links, records, ib, cs),
        nextId := db.nextId + |NewRows(cs, Known(db.records))|)
  }

  // Rewriting one inbound's list and syncing it, the tail of every mutation.
  function Rewrite(db: Db, ib: int, cs: seq<Client>): Db
    requires ib in db.inbounds
  {
    SyncDb(db.(inbounds := db.inbounds[ib := db.inbounds[ib].(clients := cs)]), ib, cs)
  }

  // ---------- the invariant ----------

  ghost predicate IdsBelow(db: Db) {
    forall id :: id in db.records ==> id < db.nextId
  }

  predicate UniqueEmails(records: map<int, ClientRecord>) {
    forall i, j :: i in records && j in records && records[i].email == records[j].email ==> i == j
  }

  ghost predicate TableKeys(db: Db) {
    && UniqueEmails(db.records)
    && IdsBelow(db)
    && (forall k :: k in db.links ==> k.clientId in db.records)
  }

  // Inbound ib's links are exactly one per distinct non-empty email of its list,
  // each carrying the flow of the email's first occurrence.
  ghost predicate Indexed(db: Db, ib: int, cs: seq<Client>) {
    && Emails(cs) <= Known(db.records)
    && (forall k: LinkKey :: k.inboundId == ib ==>
          (k in db.links <==> k.clientId in db.records && db.records[k.clientId].email in Emails(cs)))
    && (forall k: LinkKey :: k.inboundId == ib && k in db.links ==>
          k.clientId in db.records && db.records[k.clientId].email in Emails(cs) &&
          db.links[k] == FirstOf(cs, db.records[k.clientId].email).flow)
  }

  ghost predicate Consistent(db: Db) {
    && TableKeys(db)
    && (forall ib :: ib in db.inbounds ==> Indexed(db, ib, db.inbounds[ib].clients))
    && (forall k :: k in db.links ==> k.inboundId in db.inbounds)
  }

  // What a sync does to the clients table: no row is lost or renamed, the new
  // rows bring exactly the list's unknown emails, and emails stay unique.
  ghost predicate TableSynced(pre: Db, post: Db, cs: seq<Client>) {
    && IdsBelow(post) && UniqueEmails(post.records) && pre.nextId <= post.nextId
    && (forall id :: id in pre.records ==> id in post.records && post.records[id] == RefreshAll(pre.records[id], cs))
    && (forall id :: id in post.records && id !in pre.records ==>
          pre.nextId <= id && post.records[id].email in Emails(cs) && post.records[id].email !in Known(pre.records) &&
          post.records[id] == ToRecord(FirstOf(cs, post.records[id].email)))
    && Known(post.records) == Known(pre.records) + Emails(cs)
  }

  // What it does to the link table: the synced inbound gets one link per email
  // of its list, and the links of other inbounds are untouched.
  ghost predicate LinksSynced(links: map<LinkKey, string>, post: Db, ib: int, cs: seq<Client>) {
    && (forall k: LinkKey :: k.inboundId != ib ==> (k in post.links <==> k in links))
    && (forall k: LinkKey :: k.inboundId != ib && k in links ==> post.links[k] == links[k])
    && (forall k: LinkKey :: k.inboundId == ib ==>
          (k in post.links <==> k.clientId in post.records && post.records[k.clientId].email in Emails(cs)))
    && (forall k: LinkKey :: k.inboundId == ib && k in post.links ==>
          k.clientId in post.records && post.records[k.clientId].email in Emails(cs) &&
          post.links[k] == FirstOf(cs, post.records[k.clientId].email).flow)
  }

  function RowEmails(rows: seq<ClientRecord>): set<string> {
    if rows == [] then {} else RowEmails(rows[..|rows| - 1]) + {rows[|rows| - 1].email}
  }

  predicate DistinctRows(rows: seq<ClientRecord>) {
    rows == [] || (DistinctRows(rows[..|rows| - 1]) && rows[|rows| - 1].email !in RowEmails(rows[..|rows| - 1]))
  }

  // New rows have distinct emails, exactly the list's unknown ones, and the
  // values of the email's first entry.
  lemma {:induction false} NewRowsFacts(cs: seq<Client>, known: set<string>)
    ensures var rows := NewRows(cs, known);
      && DistinctRows(rows) && RowEmails(rows) == Emails(cs) - known
      && (forall row :: row in rows ==> row.email in Emails(cs) && row == ToRecord(FirstOf(cs, row.email)))
  {
    if cs != [] {
      var n := |cs| - 1;
      NewRowsFacts(cs[..n], known);
      var prior, e := NewRows(cs[..n], known), cs[n].email;
      if !(e == "" || e in known || e in Emails(cs[..n])) {
        RowsStep(prior, ToRecord(cs[n]));
      }
    }
  }

  lemma RowsStep(rows: seq<ClientRecord>, row: ClientRecord)
    ensures RowEmails(rows + [row]) == RowEmails(rows) + {row.email}
    ensures DistinctRows(rows + [row]) <==> DistinctRows(rows) && row.email !in RowEmails(rows)
  {
    assert (rows + [row])[..|rows|] == rows;
  }

  lemma {:induction false} InsertedRows(records: map<int, ClientRecord>, nextId: int, rows: seq<ClientRecord>)
    requires forall id :: id in records ==> id < nextId
    ensures var r := Inserted(records, nextId, rows);
      && (forall id :: id in records ==> id in r && r[id] == records[id])
      && (forall id :: id in r && id !in records ==> nextId <= id < nextId + |rows| && r[id] in rows)
  {
    if rows != [] {
      var n := |rows| - 1;
      assert rows == rows[..n] + [rows[n]];
      InsertedRows(records, nextId, rows[..n]);
    }
  }

  lemma {:induction false} InsertedEmails(records: map<int, ClientRecord>, nextId: int, rows: seq<ClientRecord>)
    requires forall id :: id in records ==> id < nextId
    requires UniqueEmails(records) && DistinctRows(rows) && RowEmails(rows) !! Known(records)
    ensures UniqueEmails(Inserted(records, nextId, rows))
    ensures Known(Inserted(records, nextId, rows)) == Known(records) + RowEmails(rows)
  {
    if rows != [] {
      var n := |rows| - 1;
      InsertedRows(records, nextId, rows[..n]);
      InsertedEmails(records, nextId, rows[..n]);
      InsertOne(Inserted(records, nextId, rows[..n]), nextId + n, rows[n]);
    }
  }

  lemma {:induction false} RowEmailIn(rows: seq<ClientRecord>, row: ClientRecord)
    requires row in rows
    ensures row.email in RowEmails(rows)
  {
    var n := |rows| - 1;
    assert rows == rows[..n] + [rows[n]];
    if row != rows[n] {
      RowEmailIn(rows[..n], row);
    }
  }

  lemma InsertOne(records: map<int, ClientRecord>, id: int, row: ClientRecord)
    requires UniqueEmails(records) && row.email !in Known(records) && id !in records
    ensures UniqueEmails(records[id := row])
    ensures Known(records[id := row]) == Known(records) + {row.email}
  {
    var r := records[id := row];
    forall j | j in records ensures r[j] == records[j] && records[j].email in Known(records) {}
    forall e | e in Known(records) + {row.email} ensures e in Known(r) {
      if e in Known(records) {
        var j :| j in records && records[j].email == e;
        assert r[j].email == e;
      } else {
        assert r[id].email == e;
      }
    }
  }

  lemma RefreshKnown(records: map<int, ClientRecord>, cs: seq<Client>)
    ensures Known(RefreshRows(records, cs)) == Known(records)
  {
    var r := RefreshRows(records, cs);
    forall e | e in Known(records) ensures e in Known(r) {
      var id :| id in records && records[id].email == e;
      assert r[id].email == e;
    }
    forall e | e in Known(r) ensures e in Known(records) {
      var id :| id in r && r[id].email == e;
      assert records[id].email == e;
    }
  }

  lemma SyncedTable(db: Db, ib: int, cs: seq<Client>)
    requires IdsBelow(db) && UniqueEmails(db.records)
    ensures TableSynced(db, SyncDb(db, ib, cs), cs)
  {
    var known := Known(db.records);
    var rows := NewRows(cs, known);
    var refreshed := RefreshRows(db.records, cs);
    NewRowsFacts(cs, known);
    RefreshKnown(db.records, cs);
    InsertedRows(refreshed, db.nextId, rows);
    InsertedEmails(refreshed, db.nextId, rows);
    RowsSynced(db.records, refreshed, rows, SyncDb(db, ib, cs).records, cs);
  }

  lemma RowsSynced(before: map<int, ClientRecord>, refreshed: map<int, ClientRecord>,
                   rows: seq<ClientRecord>, after: map<int, ClientRecord>, cs: seq<Client>)
    requires refreshed == RefreshRows(before, cs)
    requires RowEmails(rows) == Emails(cs) - Known(before)
    requires forall row :: row in rows ==> row.email in Emails(cs) && row == ToRecord(FirstOf(cs, row.email))
    requires forall id :: id in refreshed ==> id in after && after[id] == refreshed[id]
    requires forall id :: id in after && id !in refreshed ==> after[id] in rows
    ensures forall id :: id in before ==> id in after && after[id] == RefreshAll(before[id], cs)
    ensures forall id :: id in after && id !in before ==>
              after[id].email in Emails(cs) && after[id].email !in Known(before) &&
              after[id] == ToRecord(FirstOf(cs, after[id].email))
  {
    forall id | id in after && id !in before ensures after[id].email in Emails(cs) - Known(before) {
      assert after[id] in rows;
      RowEmailIn(rows, after[id]);
    }
  }

  lemma SyncedLinkTable(db: Db, ib: int, cs: seq<Client>)
    ensures LinksSynced(db.links, SyncDb(db, ib, cs), ib, cs)
  {
    hide SyncedRecords;
  }

  lemma SyncIndexes(pre: Db, post: Db, ib: int, cs: seq<Client>)
    requires TableKeys(pre) && TableSynced(pre, post, cs) && LinksSynced(pre.links, post, ib, cs)
    ensures Indexed(post, ib, cs) && TableKeys(post)
  {
  }

  // Syncing one inbound leaves every other inbound's index alone.
  lemma SyncKeepsOthers(pre: Db, post: Db, ib: int, cs: seq<Client>, j: int, other: seq<Client>)
    requires TableSynced(pre, post, cs) && LinksSynced(pre.links, post, ib, cs)
    requires j != ib && Indexed(pre, j, other)
    ensures Indexed(post, j, other)
  {
  }

  lemma SyncedConsistent(pre: Db, mid: Db, post: Db, ib: int, cs: seq<Client>)
    requires Consistent(pre) && ib in pre.inbounds
    requires mid == pre.(inbounds := pre.inbounds[ib := pre.inbounds[ib].(clients := cs)])
    requires post.inbounds == mid.inbounds && TableSynced(mid, post, cs) && LinksSynced(mid.links, post, ib, cs)
    ensures Consistent(post)
  {
    SyncIndexes(mid, post, ib, cs);
    forall j | j in post.inbounds ensures Indexed(post, j, post.inbounds[j].clients) {
      if j != ib {
        SyncKeepsOthers(mid, post, ib, cs, j, pre.inbounds[j].clients);
      }
    }
  }

  lemma RewriteConsistent(db: Db, ib: int, cs: seq<Client>)
    requires Consistent(db) && ib in db.inbounds
    ensures Consistent(Rewrite(db, ib, cs))
  {
    var mid := db.(inbounds := db.inbounds[ib := db.inbounds[ib].(clients := cs)]);
    SyncedTable(mid, ib, cs);
    SyncedLinkTable(mid, ib, cs);
    SyncedConsistent(db, mid, SyncDb(mid, ib, cs), ib, cs);
  }

  // ---------- syncing twice ----------

  // Two rows that come out the same after the entry c.
  predicate AgreeAfter(x: ClientRecord, y: ClientRecord, c: Client) {
    Refreshed(x, c) == Refreshed(y, c)
  }

  lemma AgreementStays(x: ClientRecord, y: ClientRecord, c: Client, d: Client)
    requires AgreeAfter(x, y, c)
    ensures AgreeAfter(Refreshed(x, d), Refreshed(y, d), c)
  {}

  lemma {:induction false} AgreementLasts(x: ClientRecord, y: ClientRecord, c: Client, cs: seq<Client>)
    requires AgreeAfter(x, y, c) && x.email == y.email
    ensures AgreeAfter(RefreshAll(x, cs), RefreshAll(y, cs), c)
  {
    hide AgreeAfter;
    if cs != [] {
      var n := |cs| - 1;
      AgreementLasts(x, y, c, cs[..n]);
      AgreementStays(RefreshAll(x, cs[..n]), RefreshAll(y, cs[..n]), c, cs[n]);
    }
  }

  lemma RefreshOnce(row: ClientRecord, c: Client)
    ensures AgreeAfter(row, Refreshed(row, c), c) && Refreshed(row, c).email == row.email
  {}

  // Refreshing a row from a list a second time changes nothing, repeats or not.
  lemma {:induction false} RefreshTwice(row: ClientRecord, cs: seq<Client>)
    ensures RefreshAll(RefreshAll(row, cs), cs) == RefreshAll(row, cs)
  {
    hide Refreshed;
    if cs != [] {
      var n := |cs| - 1;
      var c, before := cs[n], RefreshAll(row, cs[..n]);
      RefreshTwice(row, cs[..n]);
      if c.email != "" && c.email == row.email {
        RefreshOnce(before, c);
        AgreementLasts(before, Refreshed(before, c), c, cs[..n]);
        assert AgreeAfter(before, RefreshAll(Refreshed(before, c), cs[..n]), c);
        assert RefreshAll(row, cs) == Refreshed(before, c);
      }
    }
  }

  // The row an unknown email gets from its first entry is already what refreshing
  // it from the whole list would make of it.
  predicate FirstEntriesStand(known: set<string>, cs: seq<Client>) {
    forall e :: e in Emails(cs) && e !in known ==> RefreshAll(ToRecord(FirstOf(cs, e)), cs) == ToRecord(FirstOf(cs, e))
  }

  lemma ResyncIdle(pre: Db, post: Db, cs: seq<Client>)
    requires TableSynced(pre, post, cs) && FirstEntriesStand(Known(pre.records), cs)
    ensures NewRows(cs, Known(post.records)) == []
    ensures RefreshRows(post.records, cs) == post.records
  {
    NewRowsFacts(cs, Known(post.records));
    forall id | id in post.records ensures RefreshAll(post.records[id], cs) == post.records[id] {
      if id in pre.records {
        RefreshTwice(pre.records[id], cs);
      }
    }
  }

  lemma LinksIdle(pre: Db, db: Db, ib: int, cs: seq<Client>)
    requires LinksSynced(pre.links, db, ib, cs)
    ensures SyncedLinks(db.links, db.records, ib, cs) == db.links
  {
    var out := SyncedLinks(db.links, db.records, ib, cs);
    assert forall k :: k in out <==> k in db.links;
  }

  lemma IdleSync(pre: Db, db: Db, ib: int, cs: seq<Client>)
    requires LinksSynced(pre.links, db, ib, cs)
    requires NewRows(cs, Known(db.records)) == []
    requires RefreshRows(db.records, cs) == db.records
    ensures SyncDb(db, ib, cs) == db
  {
    LinksIdle(pre, db, ib, cs);
  }

  lemma NewRow(pre: Db, post: Db, cs: seq<Client>, e: string) returns (id: int)
    requires TableSynced(pre, post, cs) && e in Emails(cs) && e !in Known(pre.records)
    ensures id in post.records && post.records[id] == ToRecord(FirstOf(cs, e))
  {
    assert e in Known(post.records);
    id :| id in post.records && post.records[id].email == e;
  }

  lemma KeptRow(pre: Db, post: Db, cs: seq<Client>, id: int)
    requires TableSynced(pre, post, cs) && id in pre.records
    ensures id in post.records && post.records[id] == RefreshAll(pre.records[id], cs)
  {}

  lemma TableShape(pre: Db, post: Db, cs: seq<Client>)
    requires TableSynced(pre, post, cs)
    ensures IdsBelow(post) && UniqueEmails(post.records)
  {}

  // Re-running the sync changes nothing exactly when the first entry of every new
  // email stands; known emails may repeat as they like.
  lemma ResyncExactly(db: Db, ib: int, cs: seq<Client>)
    requires TableKeys(db)
    ensures SyncDb(SyncDb(db, ib, cs), ib, cs) == SyncDb(db, ib, cs) <==> FirstEntriesStand(Known(db.records), cs)
  {
    hide SyncDb, TableSynced, LinksSynced;
    var once := SyncDb(db, ib, cs);
    SyncedTable(db, ib, cs);
    SyncedLinkTable(db, ib, cs);
    TableShape(db, once, cs);
    SyncedTable(once, ib, cs);
    if FirstEntriesStand(Known(db.records), cs) {
      ResyncIdle(db, once, cs);
      IdleSync(db, once, ib, cs);
    } else {
      var e :| e in Emails(cs) && e !in Known(db.records) && RefreshAll(ToRecord(FirstOf(cs, e)), cs) != ToRecord(FirstOf(cs, e));
      var id := NewRow(db, once, cs, e);
      KeptRow(once, SyncDb(once, ib, cs), cs, id);
    }
  }

  predicate DistinctEmails(cs: seq<Client>) {
    cs == [] ||
    var n := |cs| - 1;
    DistinctEmails(cs[..n]) && cs[n].email !in Emails(cs[..n])
  }

  lemma {:induction false} RefreshOwn(cs: seq<Client>, e: string)
    requires DistinctEmails(cs) && e in Emails(cs)
    ensures RefreshAll(ToRecord(FirstOf(cs, e)), cs) == ToRecord(FirstOf(cs, e))
  {
    var n := |cs| - 1;
    if e in Emails(cs[..n]) {
      RefreshOwn(cs[..n], e);
    }
  }

  // In particular for every list without repeated emails.
  lemma SyncIdempotent(db: Db, ib: int, cs: seq<Client>)
    requires TableKeys(db) && DistinctEmails(cs)
    ensures SyncDb(SyncDb(db, ib, cs), ib, cs) == SyncDb(db, ib, cs)
  {
    hide SyncDb;
    forall e | e in Emails(cs) ensures RefreshAll(ToRecord(FirstOf(cs, e)), cs) == ToRecord(FirstOf(cs, e)) {
      RefreshOwn(cs, e);
    }
    ResyncExactly(db, ib, cs);
  }

  // And not for a new email given twice with two IP limits: its row is created from
  // the first entry and refreshed from the last.
  lemma RepeatedEmailDrifts(db: Db, ib: int, first: Client, second: Client)
    requires TableKeys(db) && first.email == second.email != "" && first.email !in Known(db.records)
    requires first.limitIp != second.limitIp
    ensures var cs := [first, second];
            SyncDb(SyncDb(db, ib, cs), ib, cs) != SyncDb(db, ib, cs)
  {
    hide SyncDb;
    TwoEntries(first, second);
    RefreshedTwice(first, second);
    ResyncExactly(db, ib, [first, second]);
  }

  lemma TwoEntries(first: Client, second: Client)
    requires first.email == second.email != ""
    ensures Emails([first, second]) == {first.email} && FirstOf([first, second], first.email) == first
  {
    assert [first, second][..1] == [first] && [first][..0] == [];
    assert Emails([first]) == {first.email};
  }

  lemma RefreshedTwice(first: Client, second: Client)
    requires first.email == second.email != ""
    ensures RefreshAll(ToRecord(first), [first, second]).limitIp == second.limitIp
  {}
}
