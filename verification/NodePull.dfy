// The pull that ends a sync round: a clean node's inbounds replace the panel's, the
// tables are synced with them, and records that lost their last link are dropped.
module NodePull {
  import opened Text
  import opened ClientModel
  import opened ClientIndex
  import opened ClientMutations
  import opened ClientService

  // An inbound of a node's snapshot, under the id its tag has or gets on the panel,
  // with the emails its client statistics report as disabled.
  datatype SnapInbound = SnapInbound(ib: int, protocol: Protocol, flowCapable: bool, clients: seq<Client>, disabled: set<string>)

  function Ids(snaps: seq<SnapInbound>): set<int> {
    set s | s in snaps :: s.ib
  }

  predicate DistinctIds(snaps: seq<SnapInbound>) {
    forall i, j :: 0 <= i < j < |snaps| ==> snaps[i].ib != snaps[j].ib
  }

  // The ids are the node's own or not in use.
  predicate OwnIds(inbounds: map<int, Inbound>, node: int, snaps: seq<SnapInbound>) {
    forall s :: s in snaps && s.ib in inbounds ==> inbounds[s.ib].nodeId == Some(node)
  }

  function AsInbound(s: SnapInbound, node: int): Inbound {
    Inbound(s.protocol, Some(node), s.flowCapable, s.clients)
  }

  function Overwritten(inbounds: map<int, Inbound>, node: int, snaps: seq<SnapInbound>): map<int, Inbound> {
    if snaps == [] then inbounds else
      var n := |snaps| - 1;
      Overwritten(inbounds, node, snaps[..n])[snaps[n].ib := AsInbound(snaps[n], node)]
  }

  // The panel's inbounds of the node that the node does not have.
  function Gone(inbounds: map<int, Inbound>, node: int, snaps: seq<SnapInbound>): set<int> {
    set ib | ib in inbounds && inbounds[ib].nodeId == Some(node) && ib !in Ids(snaps)
  }

  function Dropped(db: Db, gone: set<int>): Db {
    db.(inbounds := map ib | ib in db.inbounds && ib !in gone :: db.inbounds[ib],
        links := map k | k in db.links && k.inboundId !in gone :: db.links[k])
  }

  function Relisted(db: Db, node: int, snaps: seq<SnapInbound>): Db {
    Dropped(db.(inbounds := Overwritten(db.inbounds, node, snaps)), Gone(db.inbounds, node, snaps))
  }

  // The entries of a list that were not deleted on the panel a moment ago.
  function Survivors(cs: seq<Client>, tombs: set<string>): (r: seq<Client>)
    ensures Emails(r) == Emails(cs) - tombs
    ensures Emails(cs) !! tombs ==> r == cs
  {
    if cs == [] then [] else
      var n := |cs| - 1;
      var prior := Survivors(cs[..n], tombs);
      assert cs == cs[..n] + [cs[n]];
      assert (prior + [cs[n]])[..|prior|] == prior;
      if cs[n].email != "" && cs[n].email in tombs then prior else prior + [cs[n]]
  }

  // Comments stay the panel's, and a client its statistics report as disabled is.
  function Retouched(records: map<int, ClientRecord>, disabled: set<string>, c: Client): (r: Client)
    ensures r.email == c.email && r.flow == c.flow
  {
    var ids := set id | id in records && c.email != "" && records[id].email == c.email;
    c.(enable := c.enable && c.email !in disabled,
       comment := if ids == {} then c.comment else records[Lowest(ids)].comment)
  }

  function AllRetouched(records: map<int, ClientRecord>, disabled: set<string>, cs: seq<Client>): (r: seq<Client>)
    ensures |r| == |cs| && forall i :: 0 <= i < |cs| ==> r[i] == Retouched(records, disabled, cs[i])
  {
    seq(|cs|, i requires 0 <= i < |cs| => Retouched(records, disabled, cs[i]))
  }

  lemma {:induction false} SameOutlines(a: seq<Client>, b: seq<Client>)
    requires |a| == |b| && forall i :: 0 <= i < |a| ==> a[i].email == b[i].email && a[i].flow == b[i].flow
    ensures Emails(a) == Emails(b) && forall e :: e in Emails(a) ==> FirstOf(a, e).flow == FirstOf(b, e).flow
  {
    if a != [] {
      SameOutlines(a[..|a| - 1], b[..|b| - 1]);
    }
  }

  // What the tables are synced with.
  function Adopted(records: map<int, ClientRecord>, tombs: set<string>, s: SnapInbound): seq<Client> {
    AllRetouched(records, s.disabled, Survivors(s.clients, tombs))
  }

  function Resynced(db: Db, snaps: seq<SnapInbound>, tombs: set<string>): (post: Db)
    ensures post.inbounds == db.inbounds
  {
    if snaps == [] then db else
      var n := |snaps| - 1;
      var prior := Resynced(db, snaps[..n], tombs);
      SyncDb(prior, snaps[n].ib, Adopted(prior.records, tombs, snaps[n]))
  }

  // The emails linked to an inbound.
  function LinkedEmails(db: Db, ib: int): set<string> {
    set k | k in db.links && k.inboundId == ib && k.clientId in db.records :: db.records[k.clientId].email
  }

  function OldEmails(db: Db, snaps: seq<SnapInbound>): set<string> {
    if snaps == [] then {} else
      var n := |snaps| - 1;
      OldEmails(db, snaps[..n]) + (LinkedEmails(db, snaps[n].ib) - {""})
  }

  predicate Attached(db: Db, e: string) {
    exists k :: k in db.links && k.clientId in db.records && db.records[k.clientId].email == e
  }

  // Records of the emails without any link are dropped.
  function Swept(db: Db, emails: set<string>): Db {
    db.(records := map id | id in db.records && (db.records[id].email !in emails || Attached(db, db.records[id].email)) :: db.records[id])
  }

  // A pull whose flag was clear.
  function PullDb(db: Db, node: int, snaps: seq<SnapInbound>, tombs: set<string>): Db {
    var relisted := Relisted(db, node, snaps);
    Swept(Resynced(relisted, snaps, tombs), OldEmails(relisted, snaps))
  }

  // ---------- what the steps keep ----------

  lemma {:induction false} OverwrittenAt(inbounds: map<int, Inbound>, node: int, snaps: seq<SnapInbound>)
    requires DistinctIds(snaps)
    ensures Overwritten(inbounds, node, snaps).Keys == inbounds.Keys + Ids(snaps)
    ensures forall s :: s in snaps ==> Overwritten(inbounds, node, snaps)[s.ib] == AsInbound(s, node)
    ensures forall ib :: ib in inbounds && ib !in Ids(snaps) ==> Overwritten(inbounds, node, snaps)[ib] == inbounds[ib]
  {
    if snaps != [] {
      var n := |snaps| - 1;
      OverwrittenAt(inbounds, node, snaps[..n]);
      assert snaps == snaps[..n] + [snaps[n]];
      assert Ids(snaps) == Ids(snaps[..n]) + {snaps[n].ib};
    }
  }

  // After the lists are replaced: the snapshot's inbounds, and the panel's other ones.
  lemma RelistedAt(db: Db, node: int, snaps: seq<SnapInbound>)
    requires DistinctIds(snaps) && OwnIds(db.inbounds, node, snaps)
    ensures var r := Relisted(db, node, snaps).inbounds;
      && (forall s :: s in snaps ==> s.ib in r && r[s.ib] == AsInbound(s, node))
      && (forall ib :: ib !in Ids(snaps) ==> (ib in r <==> ib in db.inbounds && db.inbounds[ib].nodeId != Some(node)))
      && (forall ib :: ib !in Ids(snaps) && ib in r ==> r[ib] == db.inbounds[ib])
  {
    OverwrittenAt(db.inbounds, node, snaps);
  }

  // The index as it stands when the inbounds `done` have been synced.
  ghost predicate Resyncing(db: Db, snaps: seq<SnapInbound>, done: seq<SnapInbound>, tombs: set<string>) {
    && TableKeys(db)
    && (forall k :: k in db.links ==> k.inboundId in db.inbounds)
    && (forall ib :: ib in db.inbounds && ib !in Ids(snaps) ==> Indexed(db, ib, db.inbounds[ib].clients))
    && (forall s :: s in done ==> Indexed(db, s.ib, Survivors(s.clients, tombs)))
  }

  lemma RelistedIndex(db: Db, node: int, snaps: seq<SnapInbound>, tombs: set<string>)
    requires Consistent(db) && DistinctIds(snaps) && OwnIds(db.inbounds, node, snaps)
    ensures Resyncing(Relisted(db, node, snaps), snaps, [], tombs)
  {
    RelistedAt(db, node, snaps);
    var r := Relisted(db, node, snaps);
    OverwrittenAt(db.inbounds, node, snaps);
    forall ib | ib in r.inbounds && ib !in Ids(snaps) ensures Indexed(r, ib, r.inbounds[ib].clients) {
      assert Indexed(db, ib, db.inbounds[ib].clients);
    }
  }

  lemma SyncStep(pre: Db, ib: int, cs: seq<Client>)
    requires TableKeys(pre)
    ensures var post := SyncDb(pre, ib, cs);
      TableKeys(post) && Indexed(post, ib, cs) && TableSynced(pre, post, cs) && LinksSynced(pre.links, post, ib, cs)
  {
    SyncedTable(pre, ib, cs);
    SyncedLinkTable(pre, ib, cs);
    SyncIndexes(pre, SyncDb(pre, ib, cs), ib, cs);
  }

  // An index looks only at emails and flows.
  lemma SameOutline(db: Db, ib: int, a: seq<Client>, b: seq<Client>)
    requires Emails(a) == Emails(b) && forall e :: e in Emails(a) ==> FirstOf(a, e).flow == FirstOf(b, e).flow
    requires Indexed(db, ib, a)
    ensures Indexed(db, ib, b)
  {}

  lemma ResyncStep(pre: Db, snaps: seq<SnapInbound>, done: seq<SnapInbound>, s: SnapInbound, tombs: set<string>)
    requires Resyncing(pre, snaps, done, tombs) && s in snaps && s.ib in pre.inbounds
    requires forall d :: d in done ==> d in snaps && d.ib != s.ib
    ensures Resyncing(SyncDb(pre, s.ib, Adopted(pre.records, tombs, s)), snaps, done + [s], tombs)
  {
    hide SyncDb, Emails;
    var cs := Adopted(pre.records, tombs, s);
    var post := SyncDb(pre, s.ib, cs);
    SyncStep(pre, s.ib, cs);
    SameOutlines(cs, Survivors(s.clients, tombs));
    SameOutline(post, s.ib, cs, Survivors(s.clients, tombs));
    forall ib | ib in post.inbounds && ib !in Ids(snaps) ensures Indexed(post, ib, post.inbounds[ib].clients) {
      SyncKeepsOthers(pre, post, s.ib, cs, ib, pre.inbounds[ib].clients);
    }
    forall d | d in done ensures Indexed(post, d.ib, Survivors(d.clients, tombs)) {
      SyncKeepsOthers(pre, post, s.ib, cs, d.ib, Survivors(d.clients, tombs));
    }
  }

  lemma {:induction false} ResyncedIndex(db: Db, snaps: seq<SnapInbound>, done: seq<SnapInbound>, tombs: set<string>)
    requires Resyncing(db, snaps, [], tombs) && DistinctIds(snaps) && done <= snaps
    requires forall s :: s in snaps ==> s.ib in db.inbounds
    ensures Resyncing(Resynced(db, done, tombs), snaps, done, tombs)
  {
    if done != [] {
      hide Resyncing, DistinctIds, Adopted, SyncDb;
      var n := |done| - 1;
      ResyncedIndex(db, snaps, done[..n], tombs);
      EarlierDiffer(snaps, done);
      ResyncStep(Resynced(db, done[..n], tombs), snaps, done[..n], done[n], tombs);
    }
  }

  lemma EarlierDiffer(snaps: seq<SnapInbound>, done: seq<SnapInbound>)
    requires DistinctIds(snaps) && done <= snaps && done != []
    ensures var n := |done| - 1;
      done == done[..n] + [done[n]] && done[n] in snaps && forall d :: d in done[..n] ==> d in snaps && d.ib != done[n].ib
  {
    var n := |done| - 1;
    assert done[n] == snaps[n];
    forall d | d in done[..n] ensures d in snaps && d.ib != done[n].ib {
      var i :| 0 <= i < n && done[i] == d;
      assert d == snaps[i];
    }
  }

  // The sweep drops only records no index needs.
  lemma SweepKeepsIndex(db: Db, emails: set<string>, ib: int, cs: seq<Client>)
    requires TableKeys(db) && Indexed(db, ib, cs)
    ensures Indexed(Swept(db, emails), ib, cs)
  {
    var post := Swept(db, emails);
    forall e | e in Emails(cs) ensures e in Known(post.records) {
      var id :| id in db.records && db.records[id].email == e;
      assert LinkKey(id, ib) in db.links;
      assert id in post.records && post.records[id].email == e;
    }
  }

  lemma SweepKeepsKeys(db: Db, emails: set<string>)
    requires TableKeys(db)
    ensures TableKeys(Swept(db, emails))
  {}

  // An index cannot miss an email of its list.
  lemma IndexMisses(db: Db, ib: int, cs: seq<Client>, tombs: set<string>)
    requires Indexed(db, ib, Survivors(cs, tombs)) && Indexed(db, ib, cs)
    ensures Emails(cs) !! tombs
  {
    forall e | e in Emails(cs) ensures e !in tombs {
      var id :| id in db.records && db.records[id].email == e;
      assert LinkKey(id, ib) in db.links;
    }
  }

  // After a pull every list of the node is indexed up to the clients deleted on the
  // panel within the tombstone time, every other list exactly.
  lemma PullIndexes(db: Db, node: int, snaps: seq<SnapInbound>, tombs: set<string>)
    requires Consistent(db) && DistinctIds(snaps) && OwnIds(db.inbounds, node, snaps)
    ensures var post := PullDb(db, node, snaps, tombs);
      && TableKeys(post) && (forall k :: k in post.links ==> k.inboundId in post.inbounds)
      && (forall s :: s in snaps ==>
            s.ib in post.inbounds && post.inbounds[s.ib] == Inbound(s.protocol, Some(node), s.flowCapable, s.clients) && Indexed(post, s.ib, Survivors(s.clients, tombs)))
      && (forall ib :: ib in post.inbounds && ib !in Ids(snaps) ==>
            ib in db.inbounds && post.inbounds[ib] == db.inbounds[ib] && Indexed(post, ib, post.inbounds[ib].clients))
  {
    hide Relisted, Resynced, Swept, Indexed;
    var relisted := Relisted(db, node, snaps);
    RelistedAt(db, node, snaps);
    RelistedIndex(db, node, snaps, tombs);
    ResyncedIndex(relisted, snaps, snaps, tombs);
    var synced, emails := Resynced(relisted, snaps, tombs), OldEmails(relisted, snaps);
    SweptParts(synced, emails);
    SweepKeepsKeys(synced, emails);
    forall ib | ib in synced.inbounds && ib !in Ids(snaps) ensures Indexed(Swept(synced, emails), ib, synced.inbounds[ib].clients) {
      SweepKeepsIndex(synced, emails, ib, synced.inbounds[ib].clients);
    }
    forall s | s in snaps ensures Indexed(Swept(synced, emails), s.ib, Survivors(s.clients, tombs)) {
      SweepKeepsIndex(synced, emails, s.ib, Survivors(s.clients, tombs));
    }
  }

  // So the tables are an exact index of all lists exactly when the node's lists have
  // no such client.
  lemma PullConsistent(db: Db, node: int, snaps: seq<SnapInbound>, tombs: set<string>)
    requires Consistent(db) && DistinctIds(snaps) && OwnIds(db.inbounds, node, snaps)
    ensures Consistent(PullDb(db, node, snaps, tombs)) <==> forall s :: s in snaps ==> Emails(s.clients) !! tombs
  {
    hide PullDb, Indexed;
    PullIndexes(db, node, snaps, tombs);
    var post := PullDb(db, node, snaps, tombs);
    forall s | s in snaps ensures Indexed(post, s.ib, s.clients) <==> Emails(s.clients) !! tombs {
      if Indexed(post, s.ib, s.clients) { IndexMisses(post, s.ib, s.clients, tombs); }
    }
    forall ib | ib in post.inbounds && ib in Ids(snaps) ensures exists s :: s in snaps && s.ib == ib {}
  }

  // A client deleted on the panel and added again within the tombstone time is in the
  // pulled list and loses its link.
  lemma ReaddedLosesLink(db: Db, node: int, snaps: seq<SnapInbound>, tombs: set<string>, s: SnapInbound, e: string)
    requires Consistent(db) && DistinctIds(snaps) && OwnIds(db.inbounds, node, snaps)
    requires s in snaps && e in Emails(s.clients) && e in tombs
    ensures var post := PullDb(db, node, snaps, tombs);
      s.ib in post.inbounds && e in Emails(post.inbounds[s.ib].clients) && e !in LinkedEmails(post, s.ib)
  {
    hide PullDb;
    PullIndexes(db, node, snaps, tombs);
  }

  lemma SweptParts(db: Db, emails: set<string>)
    ensures Swept(db, emails).inbounds == db.inbounds && Swept(db, emails).links == db.links
  {}

  // ---------- which records a pull leaves ----------

  predicate Listed(inbounds: map<int, Inbound>, e: string) {
    exists ib :: ib in inbounds && e in Emails(inbounds[ib].clients)
  }

  // In a consistent database the emails with a link are the listed ones.
  lemma AttachedIsListed(db: Db, e: string)
    requires Consistent(db)
    ensures Attached(db, e) <==> Listed(db.inbounds, e)
  {
    if Attached(db, e) {
      var k :| k in db.links && k.clientId in db.records && db.records[k.clientId].email == e;
      assert Indexed(db, k.inboundId, db.inbounds[k.inboundId].clients);
    }
    if Listed(db.inbounds, e) {
      var ib :| ib in db.inbounds && e in Emails(db.inbounds[ib].clients);
      assert Indexed(db, ib, db.inbounds[ib].clients);
      var id :| id in db.records && db.records[id].email == e;
      assert LinkKey(id, ib) in db.links;
    }
  }

  lemma {:induction false} ResyncedKnown(db: Db, snaps: seq<SnapInbound>, tombs: set<string>)
    requires TableKeys(db)
    ensures TableKeys(Resynced(db, snaps, tombs))
    ensures forall e :: e in Known(Resynced(db, snaps, tombs).records) <==>
              e in Known(db.records) || exists s :: s in snaps && e in Emails(s.clients) - tombs
  {
    hide SyncDb, Emails, Known;
    if snaps != [] {
      var n := |snaps| - 1;
      ResyncedKnown(db, snaps[..n], tombs);
      var prior := Resynced(db, snaps[..n], tombs);
      SyncStep(prior, snaps[n].ib, Adopted(prior.records, tombs, snaps[n]));
      SameOutlines(Adopted(prior.records, tombs, snaps[n]), Survivors(snaps[n].clients, tombs));
      assert snaps == snaps[..n] + [snaps[n]];
    }
  }

  lemma {:induction false} OldEmailsOf(db: Db, snaps: seq<SnapInbound>)
    ensures forall e :: e in OldEmails(db, snaps) <==> exists s :: s in snaps && e in LinkedEmails(db, s.ib) - {""}
  {
    hide LinkedEmails;
    if snaps != [] {
      var n := |snaps| - 1;
      OldEmailsOf(db, snaps[..n]);
      assert snaps == snaps[..n] + [snaps[n]];
    }
  }

  // The emails that were linked to an inbound of the snapshot before the pull.
  lemma LinkedBefore(db: Db, node: int, snaps: seq<SnapInbound>, s: SnapInbound, e: string)
    requires Consistent(db) && s in snaps && e != ""
    ensures e in LinkedEmails(Relisted(db, node, snaps), s.ib) <==> s.ib in db.inbounds && e in Emails(db.inbounds[s.ib].clients)
  {
    var r := Relisted(db, node, snaps);
    assert forall k: LinkKey :: k.inboundId == s.ib ==> (k in r.links <==> k in db.links);
    if s.ib in db.inbounds {
      assert Indexed(db, s.ib, db.inbounds[s.ib].clients);
      if e in Emails(db.inbounds[s.ib].clients) {
        var id :| id in db.records && db.records[id].email == e;
        assert LinkKey(id, s.ib) in r.links;
      }
    }
  }

  lemma SweptKnown(db: Db, emails: set<string>, e: string)
    ensures e in Known(Swept(db, emails).records) <==> e in Known(db.records) && (e !in emails || Attached(db, e))
  {
    if e in Known(db.records) && (e !in emails || Attached(db, e)) {
      var id :| id in db.records && db.records[id].email == e;
      assert id in Swept(db, emails).records;
    }
  }

  lemma ResyncedConsistent(db: Db, node: int, snaps: seq<SnapInbound>, tombs: set<string>)
    requires Consistent(db) && DistinctIds(snaps) && OwnIds(db.inbounds, node, snaps)
    requires forall s :: s in snaps ==> Emails(s.clients) !! tombs
    ensures TableKeys(Relisted(db, node, snaps)) && Consistent(Resynced(Relisted(db, node, snaps), snaps, tombs))
  {
    hide Relisted, Resynced, Indexed, TableKeys;
    var relisted := Relisted(db, node, snaps);
    RelistedAt(db, node, snaps);
    RelistedIndex(db, node, snaps, tombs);
    ResyncedIndex(relisted, snaps, snaps, tombs);
    forall ib | ib in relisted.inbounds && ib in Ids(snaps)
      ensures Indexed(Resynced(relisted, snaps, tombs), ib, relisted.inbounds[ib].clients)
    {
      var s :| s in snaps && s.ib == ib;
    }
  }

  // What a pull leaves in the clients table: the records of all listed emails, and
  // those of unlisted ones that were in none of the lists it replaced. Emails that were
  // only in an inbound the node no longer has keep their record.
  lemma RecordsAfterPull(db: Db, node: int, snaps: seq<SnapInbound>, tombs: set<string>, e: string)
    requires Consistent(db) && DistinctIds(snaps) && OwnIds(db.inbounds, node, snaps) && e != ""
    requires forall s :: s in snaps ==> Emails(s.clients) !! tombs
    ensures var post := PullDb(db, node, snaps, tombs);
      e in Known(post.records) <==>
        Listed(post.inbounds, e) ||
        (e in Known(db.records) && forall s :: s in snaps && s.ib in db.inbounds ==> e !in Emails(db.inbounds[s.ib].clients))
  {
    hide Relisted, Resynced, Swept, Indexed, TableKeys, Emails, Known, LinkedEmails, OldEmails, Listed, Attached, Consistent;
    var relisted := Relisted(db, node, snaps);
    var synced, emails := Resynced(relisted, snaps, tombs), OldEmails(relisted, snaps);
    ResyncedConsistent(db, node, snaps, tombs);
    SweptParts(synced, emails);
    SweptKnown(synced, emails, e);
    AttachedIsListed(synced, e);
    if Listed(synced.inbounds, e) { ListedIsKnown(synced, e); }
    ResyncedKnown(relisted, snaps, tombs);
    SnapsAreListed(db, node, snaps, e);
    OldEmailsOf(relisted, snaps);
    forall s | s in snaps ensures e in LinkedEmails(relisted, s.ib) <==> s.ib in db.inbounds && e in Emails(db.inbounds[s.ib].clients) {
      LinkedBefore(db, node, snaps, s, e);
    }
  }

  lemma SnapsAreListed(db: Db, node: int, snaps: seq<SnapInbound>, e: string)
    requires DistinctIds(snaps) && OwnIds(db.inbounds, node, snaps)
    ensures (exists s :: s in snaps && e in Emails(s.clients)) ==> Listed(Relisted(db, node, snaps).inbounds, e)
    ensures Relisted(db, node, snaps).records == db.records
  {
    RelistedAt(db, node, snaps);
  }

  lemma ListedIsKnown(db: Db, e: string)
    requires Consistent(db) && Listed(db.inbounds, e)
    ensures e in Known(db.records)
  {
    var ib :| ib in db.inbounds && e in Emails(db.inbounds[ib].clients);
    assert Indexed(db, ib, db.inbounds[ib].clients);
  }

  // ---------- the pull as the service runs it ----------

  lemma OverwrittenStep(inbounds: map<int, Inbound>, node: int, snaps: seq<SnapInbound>, i: nat)
    requires i < |snaps|
    ensures Overwritten(inbounds, node, snaps[..i + 1]) == Overwritten(inbounds, node, snaps[..i])[snaps[i].ib := AsInbound(snaps[i], node)]
  {
    assert snaps[..i + 1][..i] == snaps[..i];
  }

  lemma ResyncedStep(db: Db, snaps: seq<SnapInbound>, tombs: set<string>, i: nat)
    requires i < |snaps|
    ensures var prior := Resynced(db, snaps[..i], tombs);
      Resynced(db, snaps[..i + 1], tombs) == SyncDb(prior, snaps[i].ib, Adopted(prior.records, tombs, snaps[i]))
  {
    assert snaps[..i + 1][..i] == snaps[..i];
  }

  lemma OldEmailsStep(db: Db, snaps: seq<SnapInbound>, i: nat)
    requires i < |snaps|
    ensures OldEmails(db, snaps[..i + 1]) == OldEmails(db, snaps[..i]) + (LinkedEmails(db, snaps[i].ib) - {""})
  {
    assert snaps[..i + 1][..i] == snaps[..i];
  }

  // Syncing other inbounds leaves the emails linked to one as they are.
  lemma SyncKeepsLinked(db: Db, ib: int, cs: seq<Client>, j: int)
    requires TableKeys(db) && j != ib
    ensures LinkedEmails(SyncDb(db, ib, cs), j) == LinkedEmails(db, j)
  {
    hide SyncDb;
    SyncStep(db, ib, cs);
    var post := SyncDb(db, ib, cs);
    forall k: LinkKey | k.inboundId == j ensures k in post.links <==> k in db.links {}
    forall k | k in db.links ensures k.clientId in post.records && post.records[k.clientId].email == db.records[k.clientId].email {}
  }

  lemma {:induction false} ResyncKeepsLinked(db: Db, snaps: seq<SnapInbound>, tombs: set<string>, j: int)
    requires TableKeys(db) && j !in Ids(snaps)
    ensures TableKeys(Resynced(db, snaps, tombs)) && LinkedEmails(Resynced(db, snaps, tombs), j) == LinkedEmails(db, j)
  {
    hide SyncDb, LinkedEmails;
    if snaps != [] {
      var n := |snaps| - 1;
      assert snaps[n] in snaps;
      ResyncKeepsLinked(db, snaps[..n], tombs, j);
      var prior := Resynced(db, snaps[..n], tombs);
      SyncStep(prior, snaps[n].ib, Adopted(prior.records, tombs, snaps[n]));
      SyncKeepsLinked(prior, snaps[n].ib, Adopted(prior.records, tombs, snaps[n]), j);
    }
  }

  lemma DroppedStep(db: Db, gone: set<int>, ib: int)
    ensures Dropped(Dropped(db, gone), {ib}) == Dropped(db, gone + {ib})
  {}

  lemma DroppedNone(db: Db)
    ensures Dropped(db, {}) == db
  {}

  lemma SweepKeepsAttached(db: Db, emails: set<string>, e: string)
    ensures Attached(Swept(db, emails), e) <==> Attached(db, e)
  {
    if Attached(db, e) {
      var k :| k in db.links && k.clientId in db.records && db.records[k.clientId].email == e;
      assert k.clientId in Swept(db, emails).records;
    }
  }

  lemma SweptStep(db: Db, emails: set<string>, e: string)
    ensures Swept(db, emails + {e}) ==
            if Attached(db, e) then Swept(db, emails)
            else Swept(db, emails).(records := map id | id in Swept(db, emails).records && db.records[id].email != e :: db.records[id])
  {}

  lemma SweptNone(db: Db)
    ensures Swept(db, {}) == db
  {}

  lemma ResyncedNone(db: Db, tombs: set<string>)
    ensures Resynced(db, [], tombs) == db
  {}

  // The emails looked up are exactly the non-empty ones.
  lemma ListEmailsHas(cs: seq<Client>, i: nat)
    requires i < |cs|
    ensures cs[i].email in EmailList(cs) <==> cs[i].email != ""
  {
    EmailListSet(cs);
    NoBlankEmail(cs);
    if cs[i].email != "" {
      EmailIn(cs, i);
      assert cs[i].email in SetOf(EmailList(cs));
    } else {
      assert "" in EmailList(cs) ==> "" in SetOf(EmailList(cs));
    }
  }

  lemma {:induction false} NoBlankEmail(cs: seq<Client>)
    ensures "" !in Emails(cs)
  {
    if cs != [] { NoBlankEmail(cs[..|cs| - 1]); }
  }

  // What the lookup finds for an entry is the comment to keep.
  lemma FoundComment(records: map<int, ClientRecord>, found: map<string, int>, emails: seq<string>, disabled: set<string>, c: Client)
    requires UniqueEmails(records) && found.Keys == SetOf(emails) * Known(records) && PointsAt(found, records)
    requires c.email in emails <==> c.email != ""
    ensures Retouched(records, disabled, c) ==
            if c.email in found then Disabled(c, disabled).(comment := records[found[c.email]].comment) else Disabled(c, disabled)
  {
    var ids := set id | id in records && c.email != "" && records[id].email == c.email;
    if c.email in found {
      assert c.email in emails;
      assert found[c.email] in ids;
      forall id | id in ids ensures id == found[c.email] { assert records[id].email == c.email; }
      assert ids == {found[c.email]};
    } else if c.email != "" {
      assert c.email in SetOf(emails);
      forall id | id in records ensures id !in ids { assert records[id].email in Known(records); }
      assert ids == {};
    }
  }

  class InboundService {
    const clients: Panel

    constructor (clients: Panel)
      ensures this.clients == clients
    {
      this.clients := clients;
    }

    // setRemoteTrafficLocked, on the lists and tables: nothing for the panel itself or
    // while the node is dirty, else the pull.
    method SetRemoteTraffic(node: int, snaps: seq<SnapInbound>, dirty: bool, tombs: set<string>)
      requires TableKeys(clients.View()) && DistinctIds(snaps) && OwnIds(clients.inbounds, node, snaps)
      modifies clients
      ensures clients.View() == if node <= 0 || dirty then old(clients.View()) else PullDb(old(clients.View()), node, snaps, tombs)
    {
      hide PullDb, Relisted, Resynced, Swept, TableKeys;
      if node <= 0 || dirty {
        return;
      }
      ghost var start := clients.View();
      var central := set ib | ib in clients.inbounds && clients.inbounds[ib].nodeId == Some(node);
      var kept := OverwriteLists(node, snaps);
      DropGone(central, kept);
      RelistedBy(start, clients.View(), node, snaps, central);
      ghost var relisted := clients.View();
      var olds := ResyncAll(snaps, tombs);
      SweepRecords(snaps, olds, relisted, tombs);
      PulledBy(start, node, snaps, tombs);
    }

    method OverwriteLists(node: int, snaps: seq<SnapInbound>) returns (kept: set<int>)
      requires OwnIds(clients.inbounds, node, snaps)
      modifies clients`inbounds
      ensures clients.inbounds == Overwritten(old(clients.inbounds), node, snaps) && kept == Ids(snaps)
    {
      kept := {};
      for i := 0 to |snaps|
        invariant clients.inbounds == Overwritten(old(clients.inbounds), node, snaps[..i]) && kept == Ids(snaps[..i])
        invariant OwnIds(clients.inbounds, node, snaps)
      {
        OverwrittenStep(old(clients.inbounds), node, snaps, i);
        assert snaps[..i + 1] == snaps[..i] + [snaps[i]];
        var s := snaps[i];
        kept := kept + {s.ib};
        if s.ib in clients.inbounds {
          var c := clients.inbounds[s.ib];
          clients.inbounds := clients.inbounds[s.ib := c.(protocol := s.protocol, flowCapable := s.flowCapable, clients := s.clients)];
        } else {
          clients.inbounds := clients.inbounds[s.ib := Inbound(s.protocol, Some(node), s.flowCapable, s.clients)];
        }
      }
      assert snaps[..|snaps|] == snaps;
    }

    // The node's inbounds on the panel that are not in the snapshot go, with their links.
    method DropGone(central: set<int>, kept: set<int>)
      modifies clients`inbounds, clients`links
      ensures clients.View() == Dropped(old(clients.View()), central - kept)
    {
      ghost var start := clients.View();
      var left := central;
      DroppedNone(start);
      assert central - left - kept == {};
      while left != {}
        invariant left <= central
        invariant clients.View() == Dropped(start, central - left - kept)
      {
        ghost var some := Pick(left);
        var ib :| ib in left;
        if ib !in kept {
          DroppedStep(start, central - left - kept, ib);
          assert central - (left - {ib}) - kept == (central - left - kept) + {ib};
          clients.links := map k | k in clients.links && k.inboundId != ib :: clients.links[k];
          clients.inbounds := map j | j in clients.inbounds && j != ib :: clients.inbounds[j];
        } else {
          assert central - (left - {ib}) - kept == central - left - kept;
        }
        left := left - {ib};
      }
      assert central - {} - kept == central - kept;
    }

    // Each list of the snapshot into the tables, with the emails linked before.
    method ResyncAll(snaps: seq<SnapInbound>, tombs: set<string>) returns (olds: seq<set<string>>)
      requires TableKeys(clients.View()) && DistinctIds(snaps)
      modifies clients
      ensures clients.View() == Resynced(old(clients.View()), snaps, tombs) && |olds| == |snaps|
      ensures forall i :: 0 <= i < |snaps| ==> olds[i] == LinkedEmails(old(clients.View()), snaps[i].ib) - {""}
    {
      hide SyncDb, LinkedEmails, TableKeys, Adopted, Resynced;
      ghost var start := clients.View();
      olds := [];
      ResyncedNone(start, tombs);
      for i := 0 to |snaps|
        invariant clients.View() == Resynced(start, snaps[..i], tombs) && |olds| == i && TableKeys(clients.View())
        invariant forall j :: 0 <= j < i ==> olds[j] == LinkedEmails(start, snaps[j].ib) - {""}
      {
        assert snaps[i].ib !in Ids(snaps[..i]);
        ResyncKeepsLinked(start, snaps[..i], tombs, snaps[i].ib);
        ResyncedStep(start, snaps, tombs, i);
        var before := ResyncOne(snaps[i], tombs);
        olds := olds + [before];
      }
      assert snaps[..|snaps|] == snaps;
    }

    method ResyncOne(s: SnapInbound, tombs: set<string>) returns (before: set<string>)
      requires TableKeys(clients.View())
      modifies clients
      ensures clients.View() == SyncDb(old(clients.View()), s.ib, Adopted(old(clients.records), tombs, s)) && TableKeys(clients.View())
      ensures before == LinkedEmails(old(clients.View()), s.ib) - {""}
    {
      hide SyncDb, TableKeys, Adopted;
      KeysParts(clients.View());
      before := LinkedEmails(clients.View(), s.ib) - {""};
      var filtered := Adopt(s, tombs);
      SyncStep(clients.View(), s.ib, filtered);
      clients.SyncInbound(s.ib, filtered);
    }

    // The list to sync: without recently deleted clients, disabled ones marked, and
    // with the panel's comments.
    method Adopt(s: SnapInbound, tombs: set<string>) returns (filtered: seq<Client>)
      requires UniqueEmails(clients.records)
      ensures filtered == Adopted(clients.records, tombs, s)
    {
      hide Survivors, Retouched;
      filtered := FilterEntries(s.clients, s.disabled, tombs);
      filtered := KeepComments(filtered, Survivors(s.clients, tombs), s.disabled);
    }

    static method FilterEntries(cs: seq<Client>, disabled: set<string>, tombs: set<string>) returns (filtered: seq<Client>)
      ensures |filtered| == |Survivors(cs, tombs)|
      ensures forall j :: 0 <= j < |filtered| ==> filtered[j] == Disabled(Survivors(cs, tombs)[j], disabled)
    {
      hide Emails;
      filtered := [];
      for i := 0 to |cs|
        invariant |filtered| == |Survivors(cs[..i], tombs)|
        invariant forall j :: 0 <= j < |filtered| ==> filtered[j] == Disabled(Survivors(cs[..i], tombs)[j], disabled)
      {
        assert cs[..i + 1][..i] == cs[..i];
        var c := cs[i];
        if c.email == "" || c.email !in tombs {
          if c.email in disabled {
            c := c.(enable := false);
          }
          filtered := filtered + [c];
        }
      }
      assert cs[..|cs|] == cs;
    }

    method KeepComments(entries: seq<Client>, ghost survivors: seq<Client>, disabled: set<string>) returns (filtered: seq<Client>)
      requires UniqueEmails(clients.records) && |entries| == |survivors|
      requires forall j :: 0 <= j < |entries| ==> entries[j] == Disabled(survivors[j], disabled)
      ensures filtered == AllRetouched(clients.records, disabled, survivors)
    {
      hide Retouched, Emails, EmailList;
      filtered := entries;
      var localEmails := clients.ListEmails(entries);
      var found := clients.SelectByEmail(localEmails);
      for i := 0 to |entries|
        invariant |filtered| == |entries|
        invariant forall j :: 0 <= j < i ==> filtered[j] == Retouched(clients.records, disabled, survivors[j])
        invariant forall j :: i <= j < |entries| ==> filtered[j] == entries[j]
      {
        var e := filtered[i].email;
        ListEmailsHas(entries, i);
        FoundComment(clients.records, found, localEmails, disabled, survivors[i]);
        if e in found {
          filtered := filtered[i := filtered[i].(comment := clients.records[found[e]].comment)];
        }
      }
    }

    // Records whose last link the pull took away go.
    method SweepRecords(snaps: seq<SnapInbound>, olds: seq<set<string>>, ghost relisted: Db, ghost tombs: set<string>)
      requires |olds| == |snaps| && forall i :: 0 <= i < |snaps| ==> olds[i] == LinkedEmails(relisted, snaps[i].ib) - {""}
      modifies clients`records
      ensures clients.View() == Swept(old(clients.View()), OldEmails(relisted, snaps))
    {
      ghost var start := clients.View();
      SweptNone(start);
      for i := 0 to |snaps|
        invariant clients.View() == Swept(start, OldEmails(relisted, snaps[..i]))
      {
        OldEmailsStep(relisted, snaps, i);
        SweepInbound(snaps[i].ib, olds[i], start, OldEmails(relisted, snaps[..i]));
      }
      assert snaps[..|snaps|] == snaps;
    }

    method SweepInbound(ib: int, olds: set<string>, ghost start: Db, ghost swept: set<string>)
      requires clients.View() == Swept(start, swept)
      modifies clients`records
      ensures clients.View() == Swept(start, swept + olds)
    {
      var still := LinkedEmails(clients.View(), ib);
      var left := olds;
      assert swept + (olds - left) == swept;
      while left != {}
        invariant left <= olds && clients.View() == Swept(start, swept + (olds - left))
        invariant forall e :: e in still ==> Attached(start, e)
      {
        var e :| e in left;
        SweptStep(start, swept + (olds - left), e);
        SweepKeepsAttached(start, swept + (olds - left), e);
        assert swept + (olds - (left - {e})) == swept + (olds - left) + {e};
        if e !in still && !Attached(clients.View(), e) {
          clients.records := map id | id in clients.records && clients.records[id].email != e :: clients.records[id];
        }
        left := left - {e};
      }
      assert swept + (olds - {}) == swept + olds;
    }
  }

  function Disabled(c: Client, disabled: set<string>): Client {
    c.(enable := c.enable && c.email !in disabled)
  }

  lemma KeysParts(db: Db)
    requires TableKeys(db)
    ensures IdsBelow(db) && UniqueEmails(db.records)
  {}

  lemma RelistedBy(start: Db, post: Db, node: int, snaps: seq<SnapInbound>, central: set<int>)
    requires central == set ib | ib in start.inbounds && start.inbounds[ib].nodeId == Some(node)
    requires post == Dropped(start.(inbounds := Overwritten(start.inbounds, node, snaps)), central - Ids(snaps))
    requires TableKeys(start)
    ensures post == Relisted(start, node, snaps) && TableKeys(post)
  {
    assert central - Ids(snaps) == Gone(start.inbounds, node, snaps);
  }

  lemma PulledBy(db: Db, node: int, snaps: seq<SnapInbound>, tombs: set<string>)
    ensures PullDb(db, node, snaps, tombs) == Swept(Resynced(Relisted(db, node, snaps), snaps, tombs), OldEmails(Relisted(db, node, snaps), snaps))
  {}
}
