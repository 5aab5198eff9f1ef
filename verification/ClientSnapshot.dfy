// The email check against one stale email-to-subId snapshot: what it admits a
// fresh scan admits too, and what it admits keeps one subId per email.
module ClientSnapshot {
  import opened Text
  import opened ClientModel
  import opened ClientIndex
  import opened ClientMutations

  // One lower-cased email has one subId across all inbounds.
  ghost predicate OneSubId(inbounds: map<int, Inbound>) {
    forall key, s, t :: s in SubIdsOf(inbounds, key) && t in SubIdsOf(inbounds, key) ==> s == t
  }

  function ListSubIds(cs: seq<Client>, key: string): set<string> {
    if cs == [] then {} else
      var c := cs[|cs| - 1];
      var prior := ListSubIds(cs[..|cs| - 1], key);
      if c.email != "" && Lower(c.email) == key then prior + {c.subId} else prior
  }

  lemma {:induction false} ListSubIdsOf(cs: seq<Client>, key: string, s: string)
    ensures s in ListSubIds(cs, key) <==> exists c :: c in cs && c.email != "" && Lower(c.email) == key && c.subId == s
  {
    if cs != [] {
      var n := |cs| - 1;
      assert cs == cs[..n] + [cs[n]];
      ListSubIdsOf(cs[..n], key, s);
    }
  }

  // Appending entries to one inbound adds exactly their subIds.
  lemma SubIdsAfterAppend(inbounds: map<int, Inbound>, ib: int, added: seq<Client>, key: string)
    requires ib in inbounds
    ensures var post := inbounds[ib := inbounds[ib].(clients := inbounds[ib].clients + added)];
            SubIdsOf(post, key) == SubIdsOf(inbounds, key) + ListSubIds(added, key)
  {
    var cs := inbounds[ib].clients;
    var post := inbounds[ib := inbounds[ib].(clients := cs + added)];
    forall s | s in SubIdsOf(post, key) ensures s in SubIdsOf(inbounds, key) + ListSubIds(added, key) {
      var j, c :| j in post && c in post[j].clients && c.email != "" && Lower(c.email) == key && c.subId == s;
      if j == ib && c in added {
        ListSubIdsOf(added, key, s);
      } else {
        assert c in inbounds[j].clients;
      }
    }
    forall s | s in SubIdsOf(inbounds, key) ensures s in SubIdsOf(post, key) {
      var j, c :| j in inbounds && c in inbounds[j].clients && c.email != "" && Lower(c.email) == key && c.subId == s;
      assert c in post[j].clients;
    }
    forall s | s in ListSubIds(added, key) ensures s in SubIdsOf(post, key) {
      ListSubIdsOf(added, key, s);
      var c :| c in added && c.email != "" && Lower(c.email) == key && c.subId == s;
      assert c in post[ib].clients;
    }
  }

  lemma KeyListed(inbounds: map<int, Inbound>, key: string)
    ensures key in EmailKeys(inbounds) <==> SubIdsOf(inbounds, key) != {}
  {
    if key in EmailKeys(inbounds) {
      var ib, c :| ib in inbounds && c in inbounds[ib].clients && c.email != "" && Lower(c.email) == key;
      assert c.subId in SubIdsOf(inbounds, key);
    }
    if SubIdsOf(inbounds, key) != {} {
      var s := Pick(SubIdsOf(inbounds, key));
      var ib, c :| ib in inbounds && c in inbounds[ib].clients && c.email != "" && Lower(c.email) == key && c.subId == s;
      assert Lower(c.email) in EmailKeys(inbounds);
    }
  }

  // ---------- what an admitted batch looks like ----------

  // Each email's subId in the batch, as it will be stored: the first one seen.
  lemma {:induction false} AdmittedEntries(cs: seq<Client>, taken: map<string, string>, i: nat)
    requires EmailConflict(cs, taken) == None && i < |cs| && cs[i].email != ""
    ensures var key, seen := Lower(cs[i].email), SeenSubIds(cs);
      && key in seen && cs[i].subId == seen[key]
      && (key in taken ==> seen[key] != "" && taken[key] == seen[key])
      && (forall j :: 0 <= j < |cs| && j != i && cs[j].email != "" && Lower(cs[j].email) == key ==> cs[i].subId != "")
  {
    var n := |cs| - 1;
    if i < n {
      AdmittedEntries(cs[..n], taken, i);
    } else {
      forall j | 0 <= j < n && cs[j].email != "" && Lower(cs[j].email) == Lower(cs[i].email)
        ensures Lower(cs[i].email) in SeenSubIds(cs[..n]) && cs[i].subId != ""
      {
        AdmittedEntries(cs[..n], taken, j);
      }
      if Lower(cs[i].email) in SeenSubIds(cs[..n]) {
        SeenFrom(cs[..n], Lower(cs[i].email));
        var j :| 0 <= j < n && cs[..n][j].email != "" && Lower(cs[..n][j].email) == Lower(cs[i].email);
        AdmittedEntries(cs[..n], taken, j);
      }
    }
  }

  lemma {:induction false} SeenFrom(cs: seq<Client>, key: string)
    requires key in SeenSubIds(cs)
    ensures exists j :: 0 <= j < |cs| && cs[j].email != "" && Lower(cs[j].email) == key
  {
    var n := |cs| - 1;
    if key in SeenSubIds(cs[..n]) {
      SeenFrom(cs[..n], key);
      var j :| 0 <= j < n && cs[..n][j].email != "" && Lower(cs[..n][j].email) == key;
      assert cs[j].email != "" && Lower(cs[j].email) == key;
    } else {
      assert cs[n].email != "" && Lower(cs[n].email) == key;
    }
  }

  // The stored entries of an email share one subId, the taken one if there is one.
  lemma StampedAgree(cs: seq<Client>, randoms: seq<string>, now: int, taken: map<string, string>, key: string, s: string, t: string)
    requires |randoms| == |cs| && EmailConflict(cs, taken) == None
    requires s in ListSubIds(Stamped(cs, randoms, now), key) && t in ListSubIds(Stamped(cs, randoms, now), key)
    ensures s == t && (key in taken ==> s == taken[key] && s != "")
  {
    var stored := Stamped(cs, randoms, now);
    ListSubIdsOf(stored, key, s);
    ListSubIdsOf(stored, key, t);
    var i :| 0 <= i < |stored| && stored[i].email != "" && Lower(stored[i].email) == key && stored[i].subId == s;
    var j :| 0 <= j < |stored| && stored[j].email != "" && Lower(stored[j].email) == key && stored[j].subId == t;
    AdmittedEntries(cs, taken, i);
    AdmittedEntries(cs, taken, j);
  }

  // An addition checked against a fresh scan keeps one subId per email.
  lemma AddKeepsOneSubId(db: Db, ib: int, cs: seq<Client>, randoms: seq<string>, now: int, plan: Plan)
    requires Consistent(db) && OneSubId(db.inbounds) && |randoms| == |cs|
    ensures OneSubId(Apply(db, ib, AddEdit(db, ib, cs, randoms, now, None, plan)).inbounds)
  {
    hide ClientIndex.SyncDb;
    var edit := AddEdit(db, ib, cs, randoms, now, None, plan);
    if edit.list.Some? {
      var taken := AllEmailSubIds(db.inbounds);
      var stored := Stamped(cs, randoms, now);
      var post := Apply(db, ib, edit).inbounds;
      assert post == db.inbounds[ib := db.inbounds[ib].(clients := db.inbounds[ib].clients + stored)];
      forall key, s, t | s in SubIdsOf(post, key) && t in SubIdsOf(post, key) ensures s == t {
        SubIdsAfterAppend(db.inbounds, ib, stored, key);
        KeyListed(db.inbounds, key);
        if s in ListSubIds(stored, key) {
          StampedAgree(cs, randoms, now, taken, key, s, s);
        }
        if t in ListSubIds(stored, key) {
          StampedAgree(cs, randoms, now, taken, key, t, t);
          if s in ListSubIds(stored, key) {
            StampedAgree(cs, randoms, now, taken, key, s, t);
          }
        }
      }
    }
  }

  // ---------- the stale snapshot ----------

  // Every entry carries the subId its email was given by `owner`.
  ghost predicate OwnedBatch(cs: seq<Client>, owner: map<string, string>) {
    forall c :: c in cs && c.email != "" ==>
      Lower(c.email) in owner && c.subId == owner[Lower(c.email)] && c.subId != ""
  }

  // cur holds the entries of base and, besides, only entries given by `owner`.
  ghost predicate Grown(base: map<int, Inbound>, cur: map<int, Inbound>, owner: map<string, string>) {
    && (forall key, s :: s in SubIdsOf(base, key) ==> s in SubIdsOf(cur, key))
    && (forall key, s :: s in SubIdsOf(cur, key) ==> s in SubIdsOf(base, key) || (key in owner && s == owner[key]))
  }

  lemma SameClash(c: Client, seen: map<string, string>, base: map<int, Inbound>, cur: map<int, Inbound>, owner: map<string, string>)
    requires Grown(base, cur, owner) && OwnedBatch([c], owner)
    ensures Clashes(c, seen, AllEmailSubIds(base)) <==> Clashes(c, seen, AllEmailSubIds(cur))
  {
    if c.email != "" {
      assert c in [c];
      var key := Lower(c.email);
      KeyListed(base, key);
      KeyListed(cur, key);
      var before, after := SubIdsOf(base, key), SubIdsOf(cur, key);
      assert before <= after <= before + {c.subId};
      if before == {} {
        assert after == {} || after == {c.subId};
      } else {
        assert (before == {c.subId}) == (after == {c.subId});
      }
    }
  }

  // The snapshot taken before the additions decides every batch exactly as a
  // scan of the lists as they are now.
  lemma {:induction false} StaleDecidesAsFresh(cs: seq<Client>, base: map<int, Inbound>, cur: map<int, Inbound>, owner: map<string, string>)
    requires Grown(base, cur, owner) && OwnedBatch(cs, owner)
    ensures EmailConflict(cs, AllEmailSubIds(base)) == EmailConflict(cs, AllEmailSubIds(cur))
  {
    if cs != [] {
      var n := |cs| - 1;
      assert cs == cs[..n] + [cs[n]];
      StaleDecidesAsFresh(cs[..n], base, cur, owner);
      SameClash(cs[n], SeenSubIds(cs[..n]), base, cur, owner);
    }
  }

  lemma GrownByAppend(base: map<int, Inbound>, cur: map<int, Inbound>, owner: map<string, string>, ib: int, added: seq<Client>)
    requires Grown(base, cur, owner) && OwnedBatch(added, owner) && ib in cur
    ensures Grown(base, cur[ib := cur[ib].(clients := cur[ib].clients + added)], owner)
  {
    var post := cur[ib := cur[ib].(clients := cur[ib].clients + added)];
    forall key, s
      ensures s in SubIdsOf(base, key) ==> s in SubIdsOf(post, key)
      ensures s in SubIdsOf(post, key) ==> s in SubIdsOf(base, key) || (key in owner && s == owner[key])
    {
      SubIdsAfterAppend(cur, ib, added, key);
      ListSubIdsOf(added, key, s);
    }
  }

  // ---------- a sequence of batches ----------

  datatype Batch = Batch(ib: int, cs: seq<Client>, randoms: seq<string>, plan: Plan)

  ghost predicate WellFormedBatches(bs: seq<Batch>, owner: map<string, string>) {
    forall b :: b in bs ==> |b.randoms| == |b.cs| && OwnedBatch(b.cs, owner)
  }

  // Adding the batches in turn, each checked against the snapshot, or against a
  // scan of its own when there is none.
  function AddBatches(db: Db, bs: seq<Batch>, now: int, snapshot: Option<map<string, string>>): Db
    requires forall b :: b in bs ==> |b.randoms| == |b.cs|
  {
    if bs == [] then db else
      var n := |bs| - 1;
      var prior := AddBatches(db, bs[..n], now, snapshot);
      Apply(prior, bs[n].ib, AddEdit(prior, bs[n].ib, bs[n].cs, bs[n].randoms, now, snapshot, bs[n].plan))
  }

  lemma OwnedStamped(cs: seq<Client>, randoms: seq<string>, now: int, owner: map<string, string>)
    requires |randoms| == |cs| && OwnedBatch(cs, owner)
    ensures OwnedBatch(Stamped(cs, randoms, now), owner)
  {
    var stored := Stamped(cs, randoms, now);
    forall c | c in stored && c.email != ""
      ensures Lower(c.email) in owner && c.subId == owner[Lower(c.email)] && c.subId != ""
    {
      var i :| 0 <= i < |stored| && stored[i] == c;
      assert cs[i] in cs;
    }
  }

  // A whole run of additions against one stale snapshot leaves the database a
  // run with a fresh scan before every batch leaves.
  lemma {:induction false} StaleRunIsFreshRun(db: Db, bs: seq<Batch>, now: int, owner: map<string, string>)
    requires Consistent(db) && WellFormedBatches(bs, owner)
    ensures var stale := AddBatches(db, bs, now, Some(AllEmailSubIds(db.inbounds)));
      && stale == AddBatches(db, bs, now, None)
      && Consistent(stale) && Grown(db.inbounds, stale.inbounds, owner)
      && (OneSubId(db.inbounds) ==> OneSubId(stale.inbounds))
  {
    hide ClientIndex.SyncDb;
    if bs != [] {
      var n := |bs| - 1;
      var b, prefix := bs[n], bs[..n];
      assert b in bs && forall x :: x in prefix ==> x in bs;
      StaleRunIsFreshRun(db, prefix, now, owner);
      BatchStep(db, AddBatches(db, prefix, now, None), b, now, owner);
    }
  }

  lemma BatchStep(base: Db, db: Db, b: Batch, now: int, owner: map<string, string>)
    requires Consistent(db) && Grown(base.inbounds, db.inbounds, owner)
    requires |b.randoms| == |b.cs| && OwnedBatch(b.cs, owner)
    ensures var stale := AddEdit(db, b.ib, b.cs, b.randoms, now, Some(AllEmailSubIds(base.inbounds)), b.plan);
      var post := Apply(db, b.ib, stale);
      && stale == AddEdit(db, b.ib, b.cs, b.randoms, now, None, b.plan)
      && Consistent(post) && Grown(base.inbounds, post.inbounds, owner)
      && (OneSubId(db.inbounds) ==> OneSubId(post.inbounds))
  {
    hide ClientIndex.SyncDb;
    StaleDecidesAsFresh(b.cs, base.inbounds, db.inbounds, owner);
    if OneSubId(db.inbounds) {
      AddKeepsOneSubId(db, b.ib, b.cs, b.randoms, now, b.plan);
    }
    var edit := AddEdit(db, b.ib, b.cs, b.randoms, now, None, b.plan);
    if edit.list.Some? {
      OwnedStamped(b.cs, b.randoms, now, owner);
      GrownByAppend(base.inbounds, db.inbounds, owner, b.ib, Stamped(b.cs, b.randoms, now));
      RewriteConsistent(db, b.ib, edit.list.value);
    }
  }
}
