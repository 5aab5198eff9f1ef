// What a sync writes, column by column: the row of a listed client follows its last
// entry, keeps what no entry gives, and dates from the earliest time given.
module ClientColumns {
  import opened Text
  import opened ClientModel
  import opened ClientIndex

  // The columns a blank entry leaves alone.
  datatype Kept = Uuid | Password | Auth | Security | Reverse | Group

  function InEntry(k: Kept, c: Client): string {
    match k
    case Uuid => c.id
    case Password => c.password
    case Auth => c.auth
    case Security => c.security
    case Reverse => c.reverse
    case Group => c.group
  }

  function InRow(k: Kept, r: ClientRecord): string {
    match k
    case Uuid => r.uuid
    case Password => r.password
    case Auth => r.auth
    case Security => r.security
    case Reverse => r.reverse
    case Group => r.group
  }

  // The i-th entry is the email's last one.
  predicate LastEntry(cs: seq<Client>, e: string, i: int) {
    0 <= i < |cs| && cs[i].email == e && forall j :: i < j < |cs| ==> cs[j].email != e
  }

  predicate FirstEntry(cs: seq<Client>, e: string, i: int) {
    0 <= i < |cs| && cs[i].email == e && forall j :: 0 <= j < i ==> cs[j].email != e
  }

  // It is the last one of the email to give the column.
  predicate LastGiven(k: Kept, cs: seq<Client>, e: string, i: int) {
    && 0 <= i < |cs| && cs[i].email == e && InEntry(k, cs[i]) != ""
    && forall j :: i < j < |cs| && cs[j].email == e ==> InEntry(k, cs[j]) == ""
  }

  predicate NoneGives(k: Kept, cs: seq<Client>, e: string) {
    forall i :: 0 <= i < |cs| && cs[i].email == e ==> InEntry(k, cs[i]) == ""
  }

  // The columns a row takes from one entry, whatever the entry holds.
  predicate Follows(r: ClientRecord, c: Client) {
    && r.flow == c.flow && r.subId == c.subId && r.limitIp == c.limitIp && r.totalGB == c.totalGB
    && r.expiryTime == c.expiryTime && r.enable == c.enable && r.tgId == c.tgId && r.comment == c.comment && r.reset == c.reset
  }

  // The earliest creation time given by the row or an entry; a negative one of the row stays.
  ghost predicate Dates(before: ClientRecord, after: ClientRecord, cs: seq<Client>) {
    && (before.createdAt < 0 ==> after.createdAt == before.createdAt)
    && (before.createdAt > 0 ==> 0 < after.createdAt <= before.createdAt)
    && (before.createdAt >= 0 ==>
          (forall i :: 0 <= i < |cs| && cs[i].email == before.email && cs[i].createdAt > 0 ==> 0 < after.createdAt <= cs[i].createdAt))
    && (after.createdAt == before.createdAt ||
        exists i :: 0 <= i < |cs| && cs[i].email == before.email && cs[i].createdAt > 0 && after.createdAt == cs[i].createdAt)
    && before.updatedAt <= after.updatedAt
    && (forall i :: 0 <= i < |cs| && cs[i].email == before.email ==> cs[i].updatedAt <= after.updatedAt)
    && (after.updatedAt == before.updatedAt ||
        exists i :: 0 <= i < |cs| && cs[i].email == before.email && after.updatedAt == cs[i].updatedAt)
  }

  // A row before and after the entries cs.
  ghost predicate Synced(before: ClientRecord, after: ClientRecord, cs: seq<Client>) {
    && after.email == before.email
    && (forall i :: LastEntry(cs, before.email, i) ==> Follows(after, cs[i]))
    && (forall k, i :: LastGiven(k, cs, before.email, i) ==> InRow(k, after) == InEntry(k, cs[i]))
    && (forall k :: NoneGives(k, cs, before.email) ==> InRow(k, after) == InRow(k, before))
    && Dates(before, after, cs)
  }

  // A row created from an entry has all its columns.
  predicate Created(r: ClientRecord, c: Client) {
    && r.email == c.email && Follows(r, c) && r.uuid == c.id && r.password == c.password && r.auth == c.auth
    && r.security == c.security && r.reverse == c.reverse && r.group == c.group
    && r.createdAt == c.createdAt && r.updatedAt == c.updatedAt
  }

  // The table before and after a sync with the list cs: rows of emails not listed are
  // as they were, listed ones follow their entries, new ones come from the first entry.
  ghost predicate ColumnsSynced(before: map<int, ClientRecord>, after: map<int, ClientRecord>, cs: seq<Client>) {
    && (forall id :: id in before ==> id in after)
    && (forall id :: id in before && before[id].email !in Emails(cs) ==> after[id] == before[id])
    && (forall id :: id in before && before[id].email in Emails(cs) ==> Synced(before[id], after[id], cs))
    && (forall id :: id in after && id !in before ==>
          exists i :: FirstEntry(cs, after[id].email, i) && Created(after[id], cs[i]))
  }

  // ---------- one row ----------

  lemma {:induction false} LastFollows(row: ClientRecord, cs: seq<Client>, i: nat)
    requires row.email != "" && LastEntry(cs, row.email, i)
    ensures Follows(RefreshAll(row, cs), cs[i])
  {
    var n := |cs| - 1;
    if i < n {
      assert cs[n].email != row.email;
      assert LastEntry(cs[..n], row.email, i);
      LastFollows(row, cs[..n], i);
    }
  }

  lemma {:induction false} GivenIsKept(k: Kept, row: ClientRecord, cs: seq<Client>, i: nat)
    requires row.email != "" && LastGiven(k, cs, row.email, i)
    ensures InRow(k, RefreshAll(row, cs)) == InEntry(k, cs[i])
  {
    var n := |cs| - 1;
    if i < n {
      assert LastGiven(k, cs[..n], row.email, i);
      GivenIsKept(k, row, cs[..n], i);
    }
  }

  lemma {:induction false} BlankLeaves(k: Kept, row: ClientRecord, cs: seq<Client>)
    requires NoneGives(k, cs, row.email)
    ensures InRow(k, RefreshAll(row, cs)) == InRow(k, row)
  {
    if cs != [] {
      var n := |cs| - 1;
      assert NoneGives(k, cs[..n], row.email);
      BlankLeaves(k, row, cs[..n]);
    }
  }

  lemma {:induction false} DatesFollow(row: ClientRecord, cs: seq<Client>)
    requires row.email != ""
    ensures Dates(row, RefreshAll(row, cs), cs)
  {
    if cs != [] {
      var n := |cs| - 1;
      DatesFollow(row, cs[..n]);
      DateStep(row, RefreshAll(row, cs[..n]), RefreshAll(row, cs), cs[..n], cs[n]);
      assert cs == cs[..n] + [cs[n]];
    }
  }

  lemma DateStep(row: ClientRecord, mid: ClientRecord, after: ClientRecord, cs: seq<Client>, c: Client)
    requires Dates(row, mid, cs) && mid.email == row.email
    requires after == if c.email == row.email then Refreshed(mid, c) else mid
    ensures Dates(row, after, cs + [c])
  {
    var all := cs + [c];
    assert all[|cs|] == c && forall i :: 0 <= i < |cs| ==> all[i] == cs[i];
    if after.createdAt != row.createdAt && after.createdAt == mid.createdAt {
      var i :| 0 <= i < |cs| && cs[i].email == row.email && cs[i].createdAt > 0 && mid.createdAt == cs[i].createdAt;
      assert all[i] == cs[i];
    }
    if after.updatedAt != row.updatedAt && after.updatedAt == mid.updatedAt {
      var i :| 0 <= i < |cs| && cs[i].email == row.email && mid.updatedAt == cs[i].updatedAt;
      assert all[i] == cs[i];
    }
  }

  lemma RowSynced(row: ClientRecord, cs: seq<Client>)
    requires row.email != ""
    ensures Synced(row, RefreshAll(row, cs), cs)
  {
    hide Follows, Dates, InRow, InEntry;
    forall i | LastEntry(cs, row.email, i) ensures Follows(RefreshAll(row, cs), cs[i]) { LastFollows(row, cs, i); }
    forall k, i | LastGiven(k, cs, row.email, i) ensures InRow(k, RefreshAll(row, cs)) == InEntry(k, cs[i]) { GivenIsKept(k, row, cs, i); }
    forall k | NoneGives(k, cs, row.email) ensures InRow(k, RefreshAll(row, cs)) == InRow(k, row) { BlankLeaves(k, row, cs); }
    DatesFollow(row, cs);
  }

  lemma {:induction false} FirstOfList(cs: seq<Client>, e: string) returns (i: nat)
    requires e in Emails(cs)
    ensures e != "" && FirstEntry(cs, e, i) && cs[i] == FirstOf(cs, e)
  {
    var n := |cs| - 1;
    if e in Emails(cs[..n]) {
      i := FirstOfList(cs[..n], e);
    } else {
      i := n;
      forall j | 0 <= j < n ensures cs[j].email != e {
        if cs[j].email == e { EntryListed(cs[..n], j); }
      }
    }
  }

  lemma {:induction false} EntryListed(cs: seq<Client>, i: nat)
    requires i < |cs| && cs[i].email != ""
    ensures cs[i].email in Emails(cs)
  {
    if i < |cs| - 1 { EntryListed(cs[..|cs| - 1], i); }
  }

  // ---------- the table ----------

  lemma SyncColumns(db: Db, ib: int, cs: seq<Client>)
    requires IdsBelow(db) && UniqueEmails(db.records)
    ensures ColumnsSynced(db.records, SyncDb(db, ib, cs).records, cs)
  {
    hide SyncDb, Synced, Created;
    SyncedTable(db, ib, cs);
    var after := SyncDb(db, ib, cs).records;
    forall id | id in db.records && db.records[id].email in Emails(cs) ensures Synced(db.records[id], after[id], cs) {
      var i := FirstOfList(cs, db.records[id].email);
      RowSynced(db.records[id], cs);
    }
    forall id | id in after && id !in db.records ensures exists i :: FirstEntry(cs, after[id].email, i) && Created(after[id], cs[i]) {
      var i := FirstOfList(cs, after[id].email);
      CreatedFrom(cs[i]);
    }
  }

  lemma CreatedFrom(c: Client)
    ensures Created(ToRecord(c), c)
  {}
}
