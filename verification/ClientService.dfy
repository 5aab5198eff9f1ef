// ClientService over the panel's tables: the mutations as the service runs them,
// with their chunked lookups and early exits, against the database functions of
// ClientIndex and ClientMutations.
module ClientService {
  import opened Text
  import opened ClientModel
  import opened ClientIndex
  import opened ClientColumns
  import opened ClientMutations

  const LOOKUP_CHUNK := 400

  // The non-empty emails of a list, repeats included.
  function EmailList(cs: seq<Client>): seq<string> {
    if cs == [] then [] else
      var n := |cs| - 1;
      if cs[n].email == "" then EmailList(cs[..n]) else EmailList(cs[..n]) + [cs[n].email]
  }

  lemma {:induction false} EmailListSet(cs: seq<Client>)
    ensures SetOf(EmailList(cs)) == Emails(cs)
  {
    if cs != [] {
      var n := |cs| - 1;
      EmailListSet(cs[..n]);
      assert SetOf(EmailList(cs[..n]) + [cs[n].email]) == SetOf(EmailList(cs[..n])) + {cs[n].email};
    }
  }

  function SetOf(es: seq<string>): set<string> {
    set e | e in es
  }

  lemma {:induction false} SetOfSize(es: seq<string>)
    ensures |SetOf(es)| <= |es|
  {
    if es != [] {
      var n := |es| - 1;
      SetOfSize(es[..n]);
      assert es == es[..n] + [es[n]];
      assert SetOf(es) == SetOf(es[..n]) + {es[n]};
    }
  }

  lemma SubsetSize<T>(a: set<T>, b: set<T>)
    requires a <= b && |b| <= |a|
    ensures a == b
  {
    assert b == a + (b - a);
    assert |b| == |a| + |b - a|;
  }

  // ---------- one loop step each ----------

  lemma PrefixEmails(p: seq<Client>, c: Client)
    ensures Emails(p + [c]) == if c.email == "" then Emails(p) else Emails(p) + {c.email}
  {
    assert (p + [c])[..|p|] == p;
  }

  lemma {:induction false} EmailIn(cs: seq<Client>, i: nat)
    requires i < |cs| && cs[i].email != ""
    ensures cs[i].email in Emails(cs)
  {
    if i < |cs| - 1 {
      EmailIn(cs[..|cs| - 1], i);
    }
  }

  lemma FirstOfStep(p: seq<Client>, c: Client, e: string)
    requires e in Emails(p + [c])
    ensures FirstOf(p + [c], e) == if e in Emails(p) then FirstOf(p, e) else c
  {
    assert (p + [c])[..|p|] == p;
  }

  lemma NewRowsStep(p: seq<Client>, c: Client, known: set<string>)
    ensures NewRows(p + [c], known) ==
            if c.email == "" || c.email in known || c.email in Emails(p)
            then NewRows(p, known) else NewRows(p, known) + [ToRecord(c)]
  {
    assert (p + [c])[..|p|] == p;
  }

  lemma RefreshAllStep(row: ClientRecord, p: seq<Client>, c: Client)
    ensures RefreshAll(row, p + [c]) ==
            if c.email != "" && c.email == row.email then Refreshed(RefreshAll(row, p), c) else RefreshAll(row, p)
  {
    assert (p + [c])[..|p|] == p;
  }

  lemma RefreshRowsStep(records: map<int, ClientRecord>, p: seq<Client>, c: Client, existing: map<string, int>)
    requires UniqueEmails(records)
    requires c.email != "" ==> (c.email in existing <==> c.email in Known(records))
    requires PointsAt(existing, records)
    ensures var rows := RefreshRows(records, p);
      RefreshRows(records, p + [c]) ==
      if c.email == "" || c.email !in existing then rows else rows[existing[c.email] := Refreshed(rows[existing[c.email]], c)]
  {
    forall id | id in records ensures
        RefreshAll(records[id], p + [c]) ==
        if c.email != "" && c.email in existing && id == existing[c.email]
        then Refreshed(RefreshAll(records[id], p), c) else RefreshAll(records[id], p)
    {
      RefreshAllStep(records[id], p, c);
      assert records[id].email in Known(records);
    }
  }

  // Where the merge pass stands after the entries p.
  ghost predicate Merging(start: map<int, ClientRecord>, existing: map<string, int>, p: seq<Client>,
                          records: map<int, ClientRecord>, toCreate: seq<ClientRecord>, pending: set<string>, ids: map<string, int>)
  {
    && records == RefreshRows(start, p)
    && toCreate == NewRows(p, Known(start))
    && pending == Emails(p) - Known(start)
    && ids.Keys == Emails(p) * Known(start)
    && (forall e :: e in ids ==> e in existing && ids[e] == existing[e])
  }

  lemma MergingStep(start: map<int, ClientRecord>, existing: map<string, int>, p: seq<Client>, c: Client,
                    records: map<int, ClientRecord>, toCreate: seq<ClientRecord>, pending: set<string>, ids: map<string, int>)
    requires UniqueEmails(start)
    requires c.email != "" ==> (c.email in existing <==> c.email in Known(start))
    requires PointsAt(existing, start)
    requires Merging(start, existing, p, records, toCreate, pending, ids)
    ensures c.email in existing ==> existing[c.email] in records
    ensures var known := c.email != "" && c.email in existing;
            var queued := c.email != "" && c.email !in existing && c.email !in pending;
            Merging(start, existing, p + [c],
                    if known then records[existing[c.email] := Refreshed(records[existing[c.email]], c)] else records,
                    if queued then toCreate + [ToRecord(c)] else toCreate,
                    if queued then pending + {c.email} else pending,
                    if known then ids[c.email := existing[c.email]] else ids)
  {
    hide ClientIndex.RefreshRows;
    hide ClientIndex.NewRows;
    hide ClientIndex.Emails;
    RefreshRowsStep(start, p, c, existing);
    RefreshKeepsIds(start, p, existing);
    NewRowsStep(p, c, Known(start));
    PrefixEmails(p, c);
  }

  lemma RefreshNothing(records: map<int, ClientRecord>)
    ensures RefreshRows(records, []) == records
  {
    forall id | id in records ensures RefreshRows(records, [])[id] == records[id] {}
  }

  lemma RefreshKeepsIds(records: map<int, ClientRecord>, cs: seq<Client>, ids: map<string, int>)
    requires PointsAt(ids, records)
    ensures var rows := RefreshRows(records, cs);
            rows.Keys == records.Keys && PointsAt(ids, rows)
  {
    forall e | e in ids ensures RefreshRows(records, cs)[ids[e]].email == e {
      assert RefreshAll(records[ids[e]], cs).email == e;
    }
  }

  lemma SyncedUnique(db: Db, cs: seq<Client>)
    requires IdsBelow(db) && UniqueEmails(db.records)
    ensures UniqueEmails(SyncedRecords(db.records, db.nextId, cs))
    ensures RowEmails(NewRows(cs, Known(db.records))) == Emails(cs) - Known(db.records)
  {
    SyncedTable(db, 0, cs);
    NewRowsFacts(cs, Known(db.records));
  }

  lemma SyncAssembled(start: Db, post: Db, ib: int, cs: seq<Client>)
    requires post.inbounds == start.inbounds
    requires post.records == SyncedRecords(start.records, start.nextId, cs)
    requires post.links == SyncedLinks(start.links, post.records, ib, cs)
    requires post.nextId == start.nextId + |NewRows(cs, Known(start.records))|
    ensures post == SyncDb(start, ib, cs)
  {}

  lemma ClearedElsewhere(cleared: map<LinkKey, string>, links: map<LinkKey, string>, ib: int)
    requires cleared == Cleared(links, ib)
    ensures NoneOf(cleared, ib)
  {}

  predicate NoneOf(links: map<LinkKey, string>, ib: int) {
    forall k :: k in links ==> k.inboundId != ib
  }

  // Every listed email leads to its record.
  predicate PointsAt(ids: map<string, int>, records: map<int, ClientRecord>) {
    forall e :: e in ids ==> ids[e] in records && records[ids[e]].email == e
  }

  lemma PointsAtNew(ids: map<string, int>, records: map<int, ClientRecord>, id: int, row: ClientRecord)
    requires PointsAt(ids, records) && id !in records
    ensures PointsAt(ids[row.email := id], records[id := row])
  {}

  lemma LinksCleared(links: map<LinkKey, string>, records: map<int, ClientRecord>, ib: int, cs: seq<Client>)
    ensures SyncedLinks(Cleared(links, ib), records, ib, cs) == SyncedLinks(links, records, ib, cs)
  {
    assert Cleared(Cleared(links, ib), ib) == Cleared(links, ib);
  }

  lemma RowEmailsStep(rows: seq<ClientRecord>, i: nat)
    requires i < |rows|
    ensures RowEmails(rows[..i + 1]) == RowEmails(rows[..i]) + {rows[i].email}
  {
    assert rows[..i + 1][..i] == rows[..i];
  }

  lemma LinksAreSynced(start: map<LinkKey, string>, links: map<LinkKey, string>, records: map<int, ClientRecord>, ib: int, cs: seq<Client>)
    requires forall k: LinkKey :: k.inboundId != ib ==> (k in links <==> k in start) && (k in links ==> links[k] == start[k])
    requires forall k: LinkKey :: k.inboundId == ib ==> (k in links <==> k.clientId in records && records[k.clientId].email in Emails(cs))
    requires forall k: LinkKey :: k.inboundId == ib && k in links ==>
               k.clientId in records && records[k.clientId].email in Emails(cs) && links[k] == FirstOf(cs, records[k.clientId].email).flow
    ensures links == SyncedLinks(start, records, ib, cs)
  {
    assert forall k :: k in links <==> k in SyncedLinks(start, records, ib, cs);
  }

  lemma InsertNothing(records: map<int, ClientRecord>, nextId: int)
    ensures Inserted(records, nextId, []) == records
  {}

  lemma InsertStep(records: map<int, ClientRecord>, nextId: int, rows: seq<ClientRecord>, i: nat)
    requires i < |rows|
    ensures Inserted(records, nextId, rows[..i + 1]) == Inserted(records, nextId, rows[..i])[nextId + i := rows[i]]
  {
    assert rows[..i + 1][..i] == rows[..i];
  }

  lemma CompactStep(p: seq<Client>, c: Client, known: set<string>)
    ensures Compact(p + [c], known) ==
            if c.email == "" || c.email in known then Compact(p, known) + [c] else Compact(p, known)
  {
    assert (p + [c])[..|p|] == p;
  }

  lemma EmailListStep(p: seq<Client>, c: Client)
    ensures EmailList(p + [c]) == if c.email == "" then EmailList(p) else EmailList(p) + [c.email]
  {
    assert (p + [c])[..|p|] == p;
  }

  // As many lookups hit as there are emails only when every email is known.
  lemma AllExist(emails: seq<string>, existing: set<string>, known: set<string>)
    requires existing == SetOf(emails) * known && |existing| == |emails|
    ensures SetOf(emails) <= known
  {
    SetOfSize(emails);
    SubsetSize(existing, SetOf(emails));
  }

  lemma {:induction false} CompactRestricted(cs: seq<Client>, existing: set<string>, known: set<string>)
    requires forall e :: e in Emails(cs) ==> (e in existing <==> e in known)
    ensures Compact(cs, existing) == Compact(cs, known)
  {
    if cs != [] {
      var n := |cs| - 1;
      CompactRestricted(cs[..n], existing, known);
    }
  }

  lemma {:induction false} ConflictStays(cs: seq<Client>, n: nat, taken: map<string, string>)
    requires n <= |cs|
    ensures EmailConflict(cs[..n], taken).Some? ==> EmailConflict(cs, taken) == EmailConflict(cs[..n], taken)
  {
    if n < |cs| {
      ConflictStays(cs[..|cs| - 1], n, taken);
      assert cs[..|cs| - 1][..n] == cs[..n];
    } else {
      assert cs[..n] == cs;
    }
  }

  // ---------- the service ----------

  class Panel {
    var inbounds: map<int, Inbound>
    var records: map<int, ClientRecord>
    var links: map<LinkKey, string>
    var nextId: int

    function View(): Db
      reads this
    {
      Db(inbounds, records, links, nextId)
    }

    // SELECT ... WHERE email IN chunk, as email to primary key.
    method SelectByEmail(chunk: seq<string>) returns (found: map<string, int>)
      requires UniqueEmails(records)
      ensures found.Keys == SetOf(chunk) * Known(records)
      ensures PointsAt(found, records)
    {
      var ids := set id | id in records && records[id].email in chunk;
      found := map id | id in ids :: records[id].email := id;
      assert forall e :: e in SetOf(chunk) * Known(records) ==> e in found;
    }

    // Drops the entries whose email has no record.
    method CompactOrphans(cs: seq<Client>) returns (out: seq<Client>)
      requires UniqueEmails(records)
      ensures out == Compact(cs, Known(records))
    {
      if |cs| == 0 {
        return cs;
      }
      var emails := ListEmails(cs);
      EmailListSet(cs);
      if |emails| == 0 {
        return cs;
      }
      var existing := SelectAll(emails);
      if |existing| == |emails| {
        AllExist(emails, existing.Keys, Known(records));
        return cs;
      }
      out := KeepExisting(cs, existing.Keys);
      CompactRestricted(cs, existing.Keys, Known(records));
    }

    static method KeepExisting(cs: seq<Client>, existing: set<string>) returns (out: seq<Client>)
      ensures out == Compact(cs, existing)
    {
      out := [];
      for i := 0 to |cs|
        invariant out == Compact(cs[..i], existing)
      {
        assert cs[..i + 1] == cs[..i] + [cs[i]];
        CompactStep(cs[..i], cs[i], existing);
        var e := cs[i].email;
        if e == "" {
          out := out + [cs[i]];
          continue;
        }
        if e in existing {
          out := out + [cs[i]];
        }
      }
      assert cs[..|cs|] == cs;
    }

    method ListEmails(cs: seq<Client>) returns (emails: seq<string>)
      ensures emails == EmailList(cs)
    {
      emails := [];
      for i := 0 to |cs|
        invariant emails == EmailList(cs[..i])
      {
        assert cs[..i + 1] == cs[..i] + [cs[i]];
        EmailListStep(cs[..i], cs[i]);
        if cs[i].email != "" {
          emails := emails + [cs[i].email];
        }
      }
      assert cs[..|cs|] == cs;
    }

    // Looks the emails up in the clients table, one chunk at a time.
    method SelectAll(emails: seq<string>) returns (existing: map<string, int>)
      requires UniqueEmails(records)
      ensures existing.Keys == SetOf(emails) * Known(records)
      ensures PointsAt(existing, records)
    {
      existing := map[];
      var start := 0;
      while start < |emails|
        invariant 0 <= start
        invariant existing.Keys == SetOf(emails[..(if start < |emails| then start else |emails|)]) * Known(records)
        invariant PointsAt(existing, records)
      {
        var end := if start + LOOKUP_CHUNK < |emails| then start + LOOKUP_CHUNK else |emails|;
        var rows := SelectByEmail(emails[start..end]);
        assert emails[..end] == emails[..start] + emails[start..end];
        existing := existing + rows;
        start := start + LOOKUP_CHUNK;
      }
      assert emails[..|emails|] == emails;
    }

    // Rebuilds the index of one inbound from its list.
    method SyncInbound(ib: int, cs: seq<Client>)
      requires IdsBelow(View()) && UniqueEmails(records)
      modifies this
      ensures View() == SyncDb(old(View()), ib, cs)
      ensures ColumnsSynced(old(records), records, cs)
    {
      hide ColumnsSynced;
      SyncColumns(View(), ib, cs);
      ghost var start := Db(inbounds, records, links, nextId);
      links := Cleared(links, ib);
      ghost var cleared := links;
      ClearedElsewhere(cleared, start.links, ib);
      var idByEmail := SyncRecords(cs);
      assert links == cleared && inbounds == start.inbounds;
      LinksCleared(start.links, records, ib, cs);
      links := LinkClients(links, records, ib, cs, idByEmail);
      SyncAssembled(start, Db(inbounds, records, links, nextId), ib, cs);
    }

    method SyncRecords(cs: seq<Client>) returns (idByEmail: map<string, int>)
      requires IdsBelow(View()) && UniqueEmails(records)
      modifies this`records, this`nextId
      ensures records == SyncedRecords(old(records), old(nextId), cs)
      ensures nextId == old(nextId) + |NewRows(cs, Known(old(records)))|
      ensures UniqueEmails(records) && Emails(cs) <= idByEmail.Keys
      ensures PointsAt(idByEmail, records)
    {
      ghost var start := records;
      SyncedUnique(View(), cs);
      var emails := CollectEmails(cs);
      var existing := SelectAll(emails);
      var toCreate: seq<ClientRecord>;
      idByEmail, toCreate := RefreshExisting(cs, existing);
      RefreshKeepsIds(start, cs, idByEmail);
      idByEmail := CreateMissing(toCreate, idByEmail);
    }

    method CollectEmails(cs: seq<Client>) returns (emails: seq<string>)
      ensures SetOf(emails) == Emails(cs)
    {
      emails := [];
      var seen: set<string> := {};
      for i := 0 to |cs|
        invariant SetOf(emails) == seen == Emails(cs[..i])
      {
        assert cs[..i + 1] == cs[..i] + [cs[i]];
        PrefixEmails(cs[..i], cs[i]);
        var email := cs[i].email;
        if email == "" {
          continue;
        }
        if email in seen {
          continue;
        }
        seen := seen + {email};
        assert SetOf(emails + [email]) == SetOf(emails) + {email};
        emails := emails + [email];
      }
      assert cs[..|cs|] == cs;
    }

    static method MergeEntry(before: ClientRecord, c: Client) returns (row: ClientRecord)
      ensures row == Refreshed(before, c)
      ensures c.email == before.email != "" ==> Synced(before, row, [c])
    {
      if c.email == before.email != "" {
        RowSynced(before, [c]);
        assert [c][..0] == [];
      }
      hide Synced;
      var incoming := ToRecord(c);
      var uuid, password, auth := before.uuid, before.password, before.auth;
      var security, reverse, group := before.security, before.reverse, before.group;
      var createdAt := before.createdAt;
      if incoming.uuid != "" { uuid := incoming.uuid; }
      if incoming.password != "" { password := incoming.password; }
      if incoming.auth != "" { auth := incoming.auth; }
      if incoming.security != "" { security := incoming.security; }
      if incoming.reverse != "" { reverse := incoming.reverse; }
      if incoming.group != "" { group := incoming.group; }
      if incoming.createdAt > 0 && (before.createdAt == 0 || incoming.createdAt < before.createdAt) {
        createdAt := incoming.createdAt;
      }
      row := ClientRecord(
        before.email, incoming.subId, uuid, password, auth, incoming.flow, security, reverse,
        incoming.limitIp, incoming.totalGB, incoming.expiryTime, incoming.enable, incoming.tgId,
        group, incoming.comment, incoming.reset, createdAt, Max(incoming.updatedAt, before.updatedAt));
    }

    // One entry of the merge pass: an existing row takes it, an unknown email
    // queues up for creation with its first entry.
    method SyncEntry(c: Client, existing: map<string, int>, pending: set<string>,
                     toCreate: seq<ClientRecord>, idByEmail: map<string, int>)
      returns (pending': set<string>, toCreate': seq<ClientRecord>, idByEmail': map<string, int>)
      requires c.email in existing ==> existing[c.email] in records
      modifies this`records
      ensures records ==
              if c.email == "" || c.email !in existing then old(records)
              else old(records)[existing[c.email] := Refreshed(old(records)[existing[c.email]], c)]
      ensures var queued := c.email != "" && c.email !in existing && c.email !in pending;
              && pending' == (if queued then pending + {c.email} else pending)
              && toCreate' == (if queued then toCreate + [ToRecord(c)] else toCreate)
      ensures idByEmail' ==
              if c.email == "" || c.email !in existing then idByEmail else idByEmail[c.email := existing[c.email]]
    {
      pending', toCreate', idByEmail' := pending, toCreate, idByEmail;
      var email := c.email;
      if email == "" {
        return;
      }
      if email !in existing {
        if email !in pending {
          pending' := pending + {email};
          toCreate' := toCreate + [ToRecord(c)];
        }
        return;
      }
      var id := existing[email];
      var row := MergeEntry(records[id], c);
      idByEmail' := idByEmail[email := id];
      if row == records[id] {
        return;
      }
      records := records[id := row];
    }

    method RefreshExisting(cs: seq<Client>, existing: map<string, int>)
      returns (idByEmail: map<string, int>, toCreate: seq<ClientRecord>)
      requires UniqueEmails(records)
      requires existing.Keys == Emails(cs) * Known(records)
      requires PointsAt(existing, records)
      modifies this`records
      ensures records == RefreshRows(old(records), cs)
      ensures toCreate == NewRows(cs, Known(old(records)))
      ensures idByEmail.Keys == existing.Keys
      ensures forall e :: e in idByEmail ==> idByEmail[e] == existing[e]
    {
      ghost var start := records;
      idByEmail, toCreate := map[], [];
      var pending: set<string> := {};
      RefreshNothing(start);
      for i := 0 to |cs|
        invariant Merging(start, existing, cs[..i], records, toCreate, pending, idByEmail)
      {
        assert cs[..i + 1] == cs[..i] + [cs[i]];
        if cs[i].email != "" {
          EmailIn(cs, i);
        }
        MergingStep(start, existing, cs[..i], cs[i], records, toCreate, pending, idByEmail);
        pending, toCreate, idByEmail := SyncEntry(cs[i], existing, pending, toCreate, idByEmail);
      }
      assert cs[..|cs|] == cs;
    }

    // Creates the queued rows under the next primary keys.
    method CreateMissing(toCreate: seq<ClientRecord>, idByEmail: map<string, int>) returns (ids: map<string, int>)
      requires IdsBelow(View())
      requires PointsAt(idByEmail, records)
      modifies this`records, this`nextId
      ensures records == Inserted(old(records), old(nextId), toCreate)
      ensures nextId == old(nextId) + |toCreate|
      ensures ids.Keys == idByEmail.Keys + RowEmails(toCreate)
      ensures PointsAt(ids, records)
    {
      hide PointsAt, ClientIndex.Inserted;
      ids := idByEmail;
      var rows, next := records, nextId;
      ghost var before, first := rows, next;
      InsertNothing(before, first);
      for i := 0 to |toCreate|
        invariant rows == Inserted(before, first, toCreate[..i]) && next == first + i
        invariant forall id :: id in rows ==> id < next
        invariant ids.Keys == idByEmail.Keys + RowEmails(toCreate[..i]) && PointsAt(ids, rows)
      {
        var rec := toCreate[i];
        RowEmailsStep(toCreate, i);
        InsertStep(before, first, toCreate, i);
        PointsAtNew(ids, rows, next, rec);
        rows := rows[next := rec];
        ids := ids[rec.email := next];
        next := next + 1;
      }
      assert toCreate[..|toCreate|] == toCreate;
      records, nextId := rows, next;
    }

    // Links every listed email's record to the inbound, first entry first.
    static method LinkClients(start: map<LinkKey, string>, records: map<int, ClientRecord>, ib: int,
                              cs: seq<Client>, idByEmail: map<string, int>) returns (links: map<LinkKey, string>)
      requires UniqueEmails(records) && NoneOf(start, ib)
      requires Emails(cs) <= idByEmail.Keys && PointsAt(idByEmail, records)
      ensures links == SyncedLinks(start, records, ib, cs)
    {
      links := start;
      var linked: set<int> := {};
      for i := 0 to |cs|
        invariant forall id :: id in linked <==> id in records && records[id].email in Emails(cs[..i])
        invariant forall k: LinkKey :: k.inboundId != ib ==> (k in links <==> k in start) && (k in links ==> links[k] == start[k])
        invariant forall k: LinkKey :: k.inboundId == ib ==> (k in links <==> k.clientId in linked)
        invariant forall k: LinkKey :: k.inboundId == ib && k in links ==>
                    links[k] == FirstOf(cs[..i], records[k.clientId].email).flow
      {
        ghost var p := cs[..i];
        assert cs[..i + 1] == p + [cs[i]];
        PrefixEmails(p, cs[i]);
        forall e | e in Emails(p + [cs[i]])
          ensures FirstOf(p + [cs[i]], e) == if e in Emails(p) then FirstOf(p, e) else cs[i]
        {
          FirstOfStep(p, cs[i], e);
        }
        var email := cs[i].email;
        if email == "" {
          continue;
        }
        EmailIn(cs, i);
        var id := idByEmail[email];
        if id in linked {
          continue;
        }
        linked := linked + {id};
        links := links[LinkKey(id, ib) := cs[i].flow];
      }
      assert cs[..|cs|] == cs;
      LinksAreSynced(start, links, records, ib, cs);
    }

    // ---------- the mutations ----------

    static method CheckEmailsExist(cs: seq<Client>, taken: map<string, string>) returns (conflict: Option<string>)
      ensures conflict == EmailConflict(cs, taken)
    {
      var seen: map<string, string> := map[];
      for i := 0 to |cs|
        invariant seen == SeenSubIds(cs[..i]) && EmailConflict(cs[..i], taken) == None
      {
        assert cs[..i + 1][..i] == cs[..i];
        ConflictStays(cs, i + 1, taken);
        var c := cs[i];
        if c.email == "" {
          continue;
        }
        var key := Lower(c.email);
        if key in seen {
          if seen[key] != c.subId || c.subId == "" {
            return Some(c.email);
          }
          continue;
        }
        seen := seen[key := c.subId];
        if key in taken {
          if c.subId == "" || taken[key] == "" || taken[key] != c.subId {
            return Some(c.email);
          }
        }
      }
      assert cs[..|cs|] == cs;
      return None;
    }

    static method ValidateEntries(p: Protocol, cs: seq<Client>) returns (failure: Option<Reason>)
      ensures failure == EntryFailure(p, cs)
    {
      for i := 0 to |cs|
        invariant EntryFailure(p, cs) == EntryFailure(p, cs[i..])
      {
        if cs[i].email == "" {
          return Some(EmailRequired);
        }
        if KeyOf(p, cs[i]) == "" {
          return Some(EmptyKey);
        }
      }
      return None;
    }

    static method StampEntries(cs: seq<Client>, randoms: seq<string>, now: int) returns (stamped: seq<Client>)
      requires |randoms| == |cs|
      ensures stamped == Stamped(cs, randoms, now)
    {
      stamped := [];
      for i := 0 to |cs|
        invariant stamped == Stamped(cs, randoms, now)[..i]
      {
        var c := cs[i];
        if c.createdAt == 0 {
          c := c.(createdAt := now);
        }
        c := c.(updatedAt := now);
        if c.subId == "" {
          c := c.(subId := randoms[i]);
        }
        stamped := stamped + [c];
      }
    }

    // The pushes of one call to a node inbound; after the first one that is not
    // acknowledged nothing more is sent and the node is to be marked.
    static method PushAll(inbound: Inbound, emails: seq<string>, plan: Plan) returns (r: Outcome)
      requires inbound.nodeId.Some? ==> !plan.PlanFails?
      ensures r == Told(inbound, SetOf(emails), plan)
    {
      if inbound.nodeId.None? {
        return Done(false, {});
      }
      var mark, push := plan.NoPush?, plan.Push?;
      var pushed: set<string> := {};
      for i := 0 to |emails|
        invariant plan.NoPush? ==> mark && !push && pushed == {}
        invariant plan == Push(true) ==> !mark && push && pushed == SetOf(emails[..i])
        invariant plan == Push(false) ==> pushed == {} && mark == (i > 0) && push == !mark
      {
        assert emails[..i + 1] == emails[..i] + [emails[i]];
        if push {
          if plan.acked {
            pushed := pushed + {emails[i]};
          } else {
            mark, push := true, false;
          }
        }
      }
      assert emails[..|emails|] == emails;
      assert SetOf(emails) == {} <==> emails == [] by {
        if emails != [] { assert emails[0] in SetOf(emails); }
      }
      return Done(mark, pushed);
    }

    // Saves the list and rebuilds the inbound's index.
    method SaveClients(ib: int, cs: seq<Client>)
      requires IdsBelow(View()) && UniqueEmails(records) && ib in inbounds
      modifies this
      ensures View() == Rewrite(old(View()), ib, cs)
    {
      inbounds := inbounds[ib := inbounds[ib].(clients := cs)];
      SyncInbound(ib, cs);
    }

    method AddInboundClient(ib: int, cs: seq<Client>, randoms: seq<string>, now: int,
                            snapshot: Option<map<string, string>>, plan: Plan) returns (r: Outcome)
      requires IdsBelow(View()) && UniqueEmails(records) && |randoms| == |cs|
      modifies this
      ensures var edit := AddEdit(old(View()), ib, cs, randoms, now, snapshot, plan);
              View() == Apply(old(View()), ib, edit) && r == edit.outcome
    {
      hide ClientIndex.SyncDb;
      ghost var start := View();
      var stamped := StampEntries(cs, randoms, now);
      var taken := if snapshot.Some? then snapshot.value else AllEmailSubIds(inbounds);
      var conflict := CheckEmailsExist(cs, taken);
      if conflict.Some? {
        return Failed(DuplicateEmail(conflict.value));
      }
      if ib !in inbounds {
        return Failed(NoSuchInbound);
      }
      var inbound := inbounds[ib];
      var failure := ValidateEntries(inbound.protocol, cs);
      if failure.Some? {
        return Failed(failure.value);
      }
      var kept := CompactOrphans(inbound.clients);
      if inbound.nodeId.Some? && plan.PlanFails? {
        return Failed(NodeLookupFailed);
      }
      var emails := ListEmails(cs);
      EmailListSet(cs);
      r := PushAll(inbound, emails, plan);
      assert AddFailure(start, ib, cs, snapshot, plan).None?;
      SaveClients(ib, kept + stamped);
    }

    method UpdateInboundClient(ib: int, cs: seq<Client>, key: string, random: string, now: int, plan: Plan) returns (r: Outcome)
      requires IdsBelow(View()) && UniqueEmails(records) && cs != []
      modifies this
      ensures var edit := UpdateEdit(old(View()), ib, cs, key, random, now, plan);
              View() == Apply(old(View()), ib, edit) && r == edit.outcome
    {
      hide ClientIndex.SyncDb, ClientMutations.UpdateIndex, ClientMutations.EmailConflict, ClientModel.KeyOf;
      ghost var start := View();
      if ib !in inbounds {
        return Failed(NoSuchInbound);
      }
      var inbound := inbounds[ib];
      var p := inbound.protocol;
      var at := LocateEntry(p, inbound.clients, key);
      if KeyOf(p, cs[0]) == "" || at.None? {
        return Failed(EmptyKey);
      }
      if cs[0].email == "" {
        return Failed(EmailRequired);
      }
      var prior := inbound.clients[at.value];
      if cs[0].email != prior.email {
        var conflict := CheckEmailsExist(cs, AllEmailSubIds(inbounds));
        if conflict.Some? {
          return Failed(DuplicateEmail(conflict.value));
        }
      }
      var c := cs[0].(createdAt := if prior.createdAt == 0 then now else prior.createdAt, updatedAt := now);
      if c.subId == "" {
        c := c.(subId := if prior.subId != "" then prior.subId else random);
      }
      if prior.email == "" {
        // No old email: neither pushed to the node nor marked.
        r := Done(false, {});
      } else {
        if inbound.nodeId.Some? && plan.PlanFails? {
          return Failed(NodeLookupFailed);
        }
        r := PushAll(inbound, [prior.email, cs[0].email], plan);
        assert SetOf([prior.email, cs[0].email]) == {prior.email, cs[0].email};
      }
      assert c == Replacement(prior, cs[0], random, now);
      assert UpdateFailure(start, ib, cs, key, plan).None?;
      SaveClients(ib, inbound.clients[at.value := c]);
    }

    // The entry an update addresses, looked up by key and then through the
    // clients table.
    method LocateEntry(p: Protocol, cs: seq<Client>, key: string) returns (at: Option<nat>)
      ensures at == UpdateIndex(View(), p, cs, key)
    {
      at := FindEntry(p, cs, key);
      if at.None? {
        var ids := set id | id in records && RecordKey(p, records[id]) == key;
        if ids != {} {
          var rec := records[Lowest(ids)];
          if rec.email != "" {
            at := FindEmail(cs, rec.email);
          }
        }
      }
    }

    static method FindEntry(p: Protocol, cs: seq<Client>, key: string) returns (at: Option<nat>)
      ensures at == IndexOfKey(p, cs, key)
    {
      hide ClientModel.KeyOf;
      for i := 0 to |cs|
        invariant forall j :: 0 <= j < i ==> KeyOf(p, cs[j]) != key
      {
        if KeyOf(p, cs[i]) == key {
          return Some(i);
        }
      }
      return None;
    }

    static method FindEmail(cs: seq<Client>, e: string) returns (at: Option<nat>)
      ensures at == IndexOfEmail(cs, e)
    {
      for i := 0 to |cs|
        invariant IndexOfEmail(cs, e) == match IndexOfEmail(cs[i..], e) case Some(j) => Some(i + j) case None => None
      {
        if cs[i].email == e {
          return Some(i);
        }
      }
      return None;
    }

    // The list without the entries of the keys, and the entries taken out.
    static method SplitByKeys(p: Protocol, cs: seq<Client>, keys: set<string>) returns (kept: seq<Client>, removed: seq<Client>)
      ensures kept == Without(p, cs, keys)
      ensures removed == TakenOut(p, cs, keys)
    {
      kept, removed := [], [];
      for i := 0 to |cs|
        invariant kept == Without(p, cs[..i], keys)
        invariant removed == TakenOut(p, cs[..i], keys)
      {
        assert cs[..i + 1][..i] == cs[..i];
        if KeyOf(p, cs[i]) in keys {
          removed := removed + [cs[i]];
        } else {
          kept := kept + [cs[i]];
        }
      }
      assert cs[..|cs|] == cs;
    }

    method DelInboundClient(ib: int, key: string, plan: Plan) returns (r: Outcome)
      requires IdsBelow(View()) && UniqueEmails(records)
      modifies this
      ensures var edit := DeleteEdit(old(View()), ib, key, plan);
              View() == Apply(old(View()), ib, edit) && r == edit.outcome
    {
      hide ClientIndex.SyncDb;
      ghost var start := View();
      if ib !in inbounds {
        return Failed(NoSuchInbound);
      }
      var inbound := inbounds[ib];
      var kept, removed := SplitByKeys(inbound.protocol, inbound.clients, {key});
      if removed == [] {
        return Failed(ClientNotFound);
      }
      var email := removed[|removed| - 1].email;
      var newClients := CompactOrphans(kept);
      if email == "" {
        r := Done(false, {});
      } else {
        if inbound.nodeId.Some? && plan.PlanFails? {
          return Failed(NodeLookupFailed);
        }
        r := PushAll(inbound, [email], plan);
        assert SetOf([email]) == {email};
      }
      assert newClients == Remaining(start, ib, {key});
      SaveClients(ib, newClients);
    }

    method DelInboundClients(ib: int, keys: set<string>, plan: Plan) returns (r: Outcome)
      requires IdsBelow(View()) && UniqueEmails(records)
      modifies this
      ensures var edit := DetachEdit(old(View()), ib, keys, plan);
              View() == Apply(old(View()), ib, edit) && r == edit.outcome
    {
      hide ClientIndex.SyncDb;
      ghost var start := View();
      if keys == {} {
        return Done(false, {});
      }
      if ib !in inbounds {
        return Failed(NoSuchInbound);
      }
      var inbound := inbounds[ib];
      var wanted := keys - {""};
      var kept, removed := SplitByKeys(inbound.protocol, inbound.clients, wanted);
      if removed == [] {
        return Done(false, {});
      }
      var newClients := CompactOrphans(kept);
      var emails := ListEmails(removed);
      EmailListSet(removed);
      if emails == [] {
        r := Done(false, {});
      } else {
        assert emails[0] in SetOf(emails);
        if inbound.nodeId.Some? && plan.PlanFails? {
          return Failed(NodeLookupFailed);
        }
        r := PushAll(inbound, emails, plan);
      }
      assert newClients == Remaining(start, ib, wanted);
      SaveClients(ib, newClients);
    }
  }
}
