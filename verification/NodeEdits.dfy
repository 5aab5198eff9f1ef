// What the mutations of an inbound's client list do about the node that hosts it:
// which entries the node has to hear about, which it does hear about, and the runs
// in which the database and the sync protocol move together.
module NodeEdits {
  import opened Text
  import opened ClientModel
  import opened ClientIndex
  import opened ClientMutations
  import opened NodePull
  import opened NodeSync

  // ---------- a node's configuration, by inbound and email ----------

  datatype NodeKey = NodeKey(ib: int, email: string)

  // An entry without what each panel keeps for itself: the times and the subId.
  function Bare(c: Client): Client {
    c.(createdAt := 0, updatedAt := 0, subId := "")
  }

  // The entries of one email, in list order.
  function EntriesOf(cs: seq<Client>, e: string): seq<Client> {
    if cs == [] then [] else
      var n := |cs| - 1;
      if cs[n].email == e then EntriesOf(cs[..n], e) + [Bare(cs[n])] else EntriesOf(cs[..n], e)
  }

  function NodeKeys(inbounds: map<int, Inbound>, node: int): set<NodeKey> {
    set ib, c | ib in inbounds && inbounds[ib].nodeId == Some(node) && c in inbounds[ib].clients :: NodeKey(ib, c.email)
  }

  // What the node is to hold.
  function NodeConfig(inbounds: map<int, Inbound>, node: int): map<NodeKey, seq<Client>> {
    map k | k in NodeKeys(inbounds, node) :: EntriesOf(inbounds[k.ib].clients, k.email)
  }

  lemma {:induction false} EntriesPresent(cs: seq<Client>, e: string)
    ensures EntriesOf(cs, e) != [] <==> exists c :: c in cs && c.email == e
    ensures EntriesOf(cs, e) != [] <==> e in AllEmails(cs)
  {
    if cs != [] {
      var n := |cs| - 1;
      EntriesPresent(cs[..n], e);
      assert cs == cs[..n] + [cs[n]];
    }
  }

  lemma ConfigLook(inbounds: map<int, Inbound>, node: int, k: NodeKey)
    ensures Look(NodeConfig(inbounds, node), k) ==
            if k.ib in inbounds && inbounds[k.ib].nodeId == Some(node) && EntriesOf(inbounds[k.ib].clients, k.email) != []
            then Some(EntriesOf(inbounds[k.ib].clients, k.email)) else None
  {
    if k.ib in inbounds { EntriesPresent(inbounds[k.ib].clients, k.email); }
  }

  // ---------- how the list operations change the entries of an email ----------

  lemma {:induction false} EntriesOfConcat(a: seq<Client>, b: seq<Client>, e: string)
    ensures EntriesOf(a + b, e) == EntriesOf(a, e) + EntriesOf(b, e)
  {
    if b == [] {
      assert a + b == a;
    } else {
      var n := |b| - 1;
      EntriesOfConcat(a, b[..n], e);
      assert (a + b)[..|a + b| - 1] == a + b[..n];
    }
  }

  lemma {:induction false} EntriesCompacted(cs: seq<Client>, known: set<string>, e: string)
    ensures EntriesOf(Compact(cs, known), e) == if e == "" || e in known then EntriesOf(cs, e) else []
  {
    if cs != [] {
      var n := |cs| - 1;
      EntriesCompacted(cs[..n], known, e);
      EntriesOfConcat(Compact(cs[..n], known), [cs[n]], e);
      assert [cs[n]][..0] == [];
    }
  }

  lemma {:induction false} EntriesWithout(p: Protocol, cs: seq<Client>, keys: set<string>, e: string)
    ensures |EntriesOf(cs, e)| == |EntriesOf(Without(p, cs, keys), e)| + |EntriesOf(TakenOut(p, cs, keys), e)|
    ensures EntriesOf(TakenOut(p, cs, keys), e) == [] ==> EntriesOf(Without(p, cs, keys), e) == EntriesOf(cs, e)
  {
    if cs != [] {
      var n := |cs| - 1;
      EntriesWithout(p, cs[..n], keys, e);
      EntriesOfConcat(Without(p, cs[..n], keys), [cs[n]], e);
      EntriesOfConcat(TakenOut(p, cs[..n], keys), [cs[n]], e);
      assert [cs[n]][..0] == [];
    }
  }

  lemma {:induction false} EntriesReplaced(cs: seq<Client>, at: nat, c: Client, e: string)
    requires at < |cs| && (e != cs[at].email || e != c.email)
    ensures e != cs[at].email && e != c.email ==> EntriesOf(cs[at := c], e) == EntriesOf(cs, e)
    ensures e == cs[at].email ==> EntriesOf(cs[at := c], e) != EntriesOf(cs, e)
  {
    var a, b := cs[..at], cs[at + 1..];
    assert cs == a + ([cs[at]] + b) && cs[at := c] == a + ([c] + b);
    EntriesOfConcat(a, [cs[at]] + b, e);
    EntriesOfConcat([cs[at]], b, e);
    EntriesOfConcat(a, [c] + b, e);
    EntriesOfConcat([c], b, e);
    assert [cs[at]][..0] == [] && [c][..0] == [];
  }

  lemma {:induction false} EmailsWithoutBlank(cs: seq<Client>)
    ensures Emails(cs) == AllEmails(cs) - {""}
    ensures AllEmails(cs) == {} <==> cs == []
  {
    if cs != [] {
      EmailsWithoutBlank(cs[..|cs| - 1]);
      assert cs[|cs| - 1].email in AllEmails(cs);
    }
  }

  // ---------- the verdict on a mutation ----------

  // The mutation of a node inbound goes through and writes the list.
  predicate Writes(db: Db, op: Op) {
    WellFormed(op) && Decide(db, op).list.Some? && db.inbounds[op.ib].nodeId.Some?
  }

  function After(db: Db, op: Op): seq<Client>
    requires Writes(db, op)
  {
    Decide(db, op).list.value
  }

  // The emails whose entries the mutation changes, dropped orphans among them.
  function ChangedEmails(db: Db, op: Op): (r: set<string>)
    requires Writes(db, op)
    ensures forall e :: e in r <==> EntriesOf(db.inbounds[op.ib].clients, e) != EntriesOf(After(db, op), e)
  {
    var before, after := db.inbounds[op.ib].clients, After(db, op);
    var r := set e | e in AllEmails(before) + AllEmails(after) && EntriesOf(before, e) != EntriesOf(after, e);
    forall e ensures e in r <==> EntriesOf(before, e) != EntriesOf(after, e) {
      EntriesPresent(before, e);
      EntriesPresent(after, e);
    }
    r
  }

  // Everything the mutation changes reached the node, or the node is marked.
  predicate Heard(db: Db, op: Op)
    requires Writes(db, op)
  {
    Decide(db, op).outcome.mark || ChangedEmails(db, op) <= Decide(db, op).outcome.pushed
  }

  // The emails of entries that go only because they have no record.
  function Orphans(db: Db, cs: seq<Client>): set<string> {
    Emails(cs) - Known(db.records)
  }

  // What can be checked before the call. An update needs an email on the old entry,
  // a removal an email on some removed entry. When every push is acknowledged no
  // mark follows, so all entries that go must be ones the pushes name: a removal may
  // not take entries of other emails along, nor may compaction. When nothing is
  // acknowledged one attempted push is enough.
  predicate Accountable(db: Db, op: Op)
    requires Writes(db, op)
  {
    var inbound := db.inbounds[op.ib];
    var p, cs := inbound.protocol, inbound.clients;
    match op
    case Add(_, added, _, _, _, plan) =>
      if plan == Push(true) then Orphans(db, cs) <= Emails(added)
      else plan.NoPush? || added != [] || Orphans(db, cs) == {}
    case Update(_, _, key, _, _, _) =>
      var at := UpdateIndex(db, p, cs, key);
      at.Some? && cs[at.value].email != ""
    case Delete(_, key, plan) =>
      Hit(p, cs, {key}) && LastEmail(p, cs, key) != "" &&
      (plan == Push(true) ==>
         RemovedEmails(p, cs, {key}) == {LastEmail(p, cs, key)} && Orphans(db, Without(p, cs, {key})) <= {LastEmail(p, cs, key)})
    case Detach(_, keys, plan) =>
      var removed := RemovedEmails(p, cs, keys - {""});
      removed - {""} != {} &&
      (plan == Push(true) ==> "" !in removed && Orphans(db, Without(p, cs, keys - {""})) <= removed)
  }

  lemma AddChanges(db: Db, op: Op, e: string)
    requires op.Add? && Writes(db, op)
    ensures e !in Emails(op.cs) ==> (e in ChangedEmails(db, op) <==> e in Orphans(db, db.inbounds[op.ib].clients))
  {
    var cs := db.inbounds[op.ib].clients;
    var stored := Stamped(op.cs, op.randoms, op.now);
    EntriesOfConcat(Compact(cs, Known(db.records)), stored, e);
    EntriesCompacted(cs, Known(db.records), e);
    EntriesPresent(cs, e);
    EntriesPresent(stored, e);
    EmailsWithoutBlank(cs);
    EmailsWithoutBlank(stored);
    if e == "" { NoBlankAdded(db, op); }
  }

  lemma NoBlankAdded(db: Db, op: Op)
    requires op.Add? && Writes(db, op)
    ensures "" !in AllEmails(Stamped(op.cs, op.randoms, op.now)) && (op.cs == [] <==> Emails(op.cs) == {})
  {
    var p := db.inbounds[op.ib].protocol;
    ValidatedHaveEmails(p, op.cs);
    var stored := Stamped(op.cs, op.randoms, op.now);
    EntriesPresent(stored, "");
    EmailsWithoutBlank(op.cs);
    EntriesPresent(op.cs, "");
    forall c | c in stored ensures c.email != "" {
      var i :| 0 <= i < |stored| && stored[i] == c;
      assert op.cs[i].email != "";
    }
    assert forall c :: c in op.cs ==> c.email != "";
  }

  lemma {:induction false} ValidatedHaveEmails(p: Protocol, cs: seq<Client>)
    requires EntryFailure(p, cs).None?
    ensures forall i :: 0 <= i < |cs| ==> cs[i].email != ""
  {
    if cs != [] {
      ValidatedHaveEmails(p, cs[1..]);
      assert forall i :: 0 < i < |cs| ==> cs[i] == cs[1..][i - 1];
    }
  }

  lemma RemovalChanges(db: Db, p: Protocol, cs: seq<Client>, keys: set<string>, e: string)
    ensures EntriesOf(Compact(Without(p, cs, keys), Known(db.records)), e) != EntriesOf(cs, e) <==>
            e in RemovedEmails(p, cs, keys) || e in Orphans(db, Without(p, cs, keys))
  {
    var rest := Without(p, cs, keys);
    EntriesCompacted(rest, Known(db.records), e);
    EntriesWithout(p, cs, keys, e);
    EntriesPresent(TakenOut(p, cs, keys), e);
    EntriesPresent(rest, e);
    EmailsWithoutBlank(rest);
  }

  lemma AddExact(db: Db, op: Op)
    requires op.Add? && Writes(db, op)
    ensures Heard(db, op) <==> Accountable(db, op)
  {
    hide ChangedEmails, Compact, EmailConflict, EntryFailure, Stamped, Emails, Orphans;
    NoBlankAdded(db, op);
    forall e ensures e !in Emails(op.cs) ==> (e in ChangedEmails(db, op) <==> e in Orphans(db, db.inbounds[op.ib].clients)) {
      AddChanges(db, op, e);
    }
  }

  lemma UpdateExact(db: Db, op: Op)
    requires op.Update? && Writes(db, op)
    ensures Heard(db, op) <==> Accountable(db, op)
  {
    hide ChangedEmails, UpdateIndex, EmailConflict, Replacement;
    var inbound := db.inbounds[op.ib];
    var at := UpdateIndex(db, inbound.protocol, inbound.clients, op.key).value;
    var prior, c := inbound.clients[at], Replacement(inbound.clients[at], op.cs[0], op.random, op.now);
    ReplacementEmail(prior, op.cs[0], op.random, op.now);
    assert After(db, op) == inbound.clients[at := c] && c.email != "";
    if prior.email == "" {
      EntriesReplaced(inbound.clients, at, c, "");
      assert "" in ChangedEmails(db, op);
    } else {
      forall e | e != prior.email && e != c.email ensures e !in ChangedEmails(db, op) {
        EntriesReplaced(inbound.clients, at, c, e);
      }
      assert prior.email in {prior.email, op.cs[0].email};
      assert Decide(db, op).outcome == Told(inbound, {prior.email, op.cs[0].email}, op.plan);
    }
  }

  lemma ReplacementEmail(prior: Client, c: Client, random: string, now: int)
    ensures Replacement(prior, c, random, now).email == c.email
  {}

  lemma LastIsRemoved(cs: seq<Client>)
    requires cs != []
    ensures cs[|cs| - 1].email in AllEmails(cs)
  {}

  lemma DeleteExact(db: Db, op: Op)
    requires op.Delete? && Writes(db, op)
    ensures Heard(db, op) <==> Accountable(db, op)
  {
    hide ChangedEmails, Without, TakenOut, Compact, Orphans, AllEmails;
    var p, cs := db.inbounds[op.ib].protocol, db.inbounds[op.ib].clients;
    LastIsRemoved(TakenOut(p, cs, {op.key}));
    forall e ensures e in ChangedEmails(db, op) <==> e in RemovedEmails(p, cs, {op.key}) || e in Orphans(db, Without(p, cs, {op.key})) {
      RemovalChanges(db, p, cs, {op.key}, e);
    }
    var last, removed := LastEmail(p, cs, op.key), RemovedEmails(p, cs, {op.key});
    assert last in removed && last in ChangedEmails(db, op);
    if last == "" {
      assert Decide(db, op).outcome == Done(false, {});
    } else {
      assert last in {last};
      assert Decide(db, op).outcome == Told(db.inbounds[op.ib], {last}, op.plan);
      assert removed == {last} <==> removed <= {last};
    }
  }

  lemma DetachExact(db: Db, op: Op)
    requires op.Detach? && Writes(db, op)
    ensures Heard(db, op) <==> Accountable(db, op)
  {
    hide ChangedEmails, Without, Compact, Orphans, AllEmails;
    var p, cs, keys := db.inbounds[op.ib].protocol, db.inbounds[op.ib].clients, op.keys - {""};
    EmailsWithoutBlank(TakenOut(p, cs, keys));
    var removed := RemovedEmails(p, cs, keys);
    var some := Pick(removed);
    forall e ensures e in ChangedEmails(db, op) <==> e in RemovedEmails(p, cs, keys) || e in Orphans(db, Without(p, cs, keys)) {
      RemovalChanges(db, p, cs, keys, e);
    }
    assert some in ChangedEmails(db, op);
    assert "" in removed ==> "" in ChangedEmails(db, op);
    assert Decide(db, op).outcome == Told(db.inbounds[op.ib], removed - {""}, op.plan) || removed - {""} == {};
  }

  // Whatever the plan, the node hears about a mutation or is marked exactly when the
  // mutation is accountable.
  lemma VerdictExact(db: Db, op: Op)
    requires Writes(db, op)
    ensures Heard(db, op) <==> Accountable(db, op)
  {
    hide Heard, Accountable;
    match op
    case Add(_, _, _, _, _, _) => AddExact(db, op);
    case Update(_, _, _, _, _, _) => UpdateExact(db, op);
    case Delete(_, _, _) => DeleteExact(db, op);
    case Detach(_, _, _) => DetachExact(db, op);
  }

  // An orphan that a fully acknowledged removal compacts away: gone from the panel's
  // list, not named to the node, and no mark.
  lemma OrphanDropsSilently(db: Db, ib: int, key: string, e: string)
    requires Writes(db, Delete(ib, key, Push(true)))
    requires var inbound := db.inbounds[ib];
             e in Orphans(db, Without(inbound.protocol, inbound.clients, {key})) && e != LastEmail(inbound.protocol, inbound.clients, key)
    ensures var op := Delete(ib, key, Push(true));
            !Heard(db, op) && e !in Emails(After(db, op)) && e !in Decide(db, op).outcome.pushed && !Decide(db, op).outcome.mark
  {
    hide ChangedEmails, Without, TakenOut, AllEmails;
    VerdictExact(db, Delete(ib, key, Push(true)));
  }

  // A consistent database has no orphans to drop.
  lemma NoOrphans(db: Db, ib: int, p: Protocol, keys: set<string>)
    requires Consistent(db) && ib in db.inbounds
    ensures Orphans(db, db.inbounds[ib].clients) == {} && Orphans(db, Without(p, db.inbounds[ib].clients, keys)) == {}
  {
    assert Indexed(db, ib, db.inbounds[ib].clients);
  }

  // There only entries without an email are lost on a node: an addition never is, a
  // removal or update is told when every entry it takes has an email, and a single
  // removal takes entries of one email.
  predicate Addressable(db: Db, op: Op)
    requires Writes(db, op)
  {
    var inbound := db.inbounds[op.ib];
    var p, cs := inbound.protocol, inbound.clients;
    match op
    case Add(_, _, _, _, _, _) => true
    case Update(_, _, key, _, _, _) =>
      var at := UpdateIndex(db, p, cs, key);
      at.Some? && cs[at.value].email != ""
    case Delete(_, key, _) => "" !in RemovedEmails(p, cs, {key}) && |RemovedEmails(p, cs, {key})| == 1
    case Detach(_, keys, _) => "" !in RemovedEmails(p, cs, keys - {""})
  }

  lemma SingleRemoved(s: set<string>, e: string)
    requires |s| == 1 && e in s
    ensures s == {e}
  {
    assert |s - {e}| == 0;
  }

  lemma AddressableIsHeard(db: Db, op: Op)
    requires Consistent(db) && Writes(db, op) && Addressable(db, op)
    ensures Heard(db, op)
  {
    hide Heard, Consistent, Without, TakenOut, Orphans, AllEmails;
    VerdictExact(db, op);
    var p, cs := db.inbounds[op.ib].protocol, db.inbounds[op.ib].clients;
    match op
    case Add(_, _, _, _, _, _) => NoOrphans(db, op.ib, p, {});
    case Update(_, _, _, _, _, _) =>
    case Delete(_, key, _) =>
      NoOrphans(db, op.ib, p, {key});
      LastIsRemoved(TakenOut(p, cs, {key}));
      SingleRemoved(RemovedEmails(p, cs, {key}), LastEmail(p, cs, key));
    case Detach(_, keys, _) =>
      NoOrphans(db, op.ib, p, keys - {""});
      EmailsWithoutBlank(TakenOut(p, cs, keys - {""}));
      assert RemovedEmails(p, cs, keys - {""}) - {""} == RemovedEmails(p, cs, keys - {""});
  }

  // ---------- the database and the protocol together ----------

  type NodeWorld = World<NodeKey, seq<Client>>

  // A mutation, with what it leaves on the node, the pull of a snapshot, or another
  // step of the protocol.
  datatype Event =
    | Edit(op: Op, remoteAfter: map<NodeKey, seq<Client>>)
    | Merge(snaps: seq<SnapInbound>, tombs: set<string>)
    | Sync(step: Step<NodeKey, seq<Client>>)

  predicate Touches(db: Db, op: Op, node: int) {
    Writes(db, op) && db.inbounds[op.ib].nodeId == Some(node)
  }

  function PushedKeys(ib: int, emails: set<string>): (r: set<NodeKey>)
    ensures forall k :: k in r <==> k.ib == ib && k.email in emails
  {
    var r := set e | e in emails :: NodeKey(ib, e);
    assert forall k: NodeKey :: k.ib == ib ==> k == NodeKey(k.ib, k.email);
    r
  }

  // The commit a mutation is, all of it read off the mutation.
  function CommitOf(db: Db, op: Op, node: int, remoteAfter: map<NodeKey, seq<Client>>): Step<NodeKey, seq<Client>>
    requires Touches(db, op, node)
  {
    var edit := Decide(db, op);
    Commit(NodeConfig(Apply(db, op.ib, edit).inbounds, node), PushedKeys(op.ib, edit.outcome.pushed), edit.outcome.mark, remoteAfter)
  }

  lemma ApplyInbounds(db: Db, ib: int, edit: ClientMutations.Edit)
    requires edit.list.Some? ==> ib in db.inbounds
    ensures Apply(db, ib, edit).inbounds ==
            if edit.list.Some? then db.inbounds[ib := db.inbounds[ib].(clients := edit.list.value)] else db.inbounds
  {}

  lemma SameConfig(a: map<int, Inbound>, b: map<int, Inbound>, node: int)
    requires a.Keys == b.Keys
    requires forall ib :: ib in a ==> a[ib].nodeId == b[ib].nodeId && (a[ib].nodeId == Some(node) ==> a[ib].clients == b[ib].clients)
    ensures NodeConfig(a, node) == NodeConfig(b, node)
  {
    forall k ensures Look(NodeConfig(a, node), k) == Look(NodeConfig(b, node), k) {
      ConfigLook(a, node, k);
      ConfigLook(b, node, k);
    }
    SameLooks(NodeConfig(a, node), NodeConfig(b, node));
  }

  // A mutation of another node's inbound, or one that is refused, is nothing to the node.
  lemma ElsewhereIsNothing(db: Db, op: Op, node: int)
    requires WellFormed(op) && !Touches(db, op, node)
    ensures NodeConfig(Apply(db, op.ib, Decide(db, op)).inbounds, node) == NodeConfig(db.inbounds, node)
  {
    hide Decide, NodeConfig, Apply;
    var edit := Decide(db, op);
    ApplyInbounds(db, op.ib, edit);
    SameConfig(Apply(db, op.ib, edit).inbounds, db.inbounds, node);
  }

  // The keys a mutation changes on its node are its changed emails.
  lemma ChangedKeys(db: Db, op: Op, node: int, k: NodeKey)
    requires Touches(db, op, node)
    ensures k in Changed(NodeConfig(db.inbounds, node), NodeConfig(Apply(db, op.ib, Decide(db, op)).inbounds, node)) <==>
            k.ib == op.ib && k.email in ChangedEmails(db, op)
  {
    hide Decide, NodeConfig, Apply, EntriesOf;
    var after := Apply(db, op.ib, Decide(db, op)).inbounds;
    ApplyInbounds(db, op.ib, Decide(db, op));
    ConfigLook(db.inbounds, node, k);
    ConfigLook(after, node, k);
  }

  lemma CommitConveyed(db: Db, w: NodeWorld, op: Op, node: int, remoteAfter: map<NodeKey, seq<Client>>)
    requires Touches(db, op, node) && w.central == NodeConfig(db.inbounds, node)
    ensures Conveyed(w, CommitOf(db, op, node, remoteAfter)) <==> Heard(db, op)
  {
    hide Decide, NodeConfig, Apply, ChangedEmails;
    var c := CommitOf(db, op, node, remoteAfter);
    forall k ensures k in Changed(w.central, c.config) <==> k.ib == op.ib && k.email in ChangedEmails(db, op) {
      ChangedKeys(db, op, node, k);
    }
    if Changed(w.central, c.config) <= c.pushed {
      forall e | e in ChangedEmails(db, op) ensures e in Decide(db, op).outcome.pushed {
        assert NodeKey(op.ib, e) in Changed(w.central, c.config);
      }
    }
  }

  // A mutation of a settled node stays accounted for exactly when it is accountable.
  lemma SettledMutation(db: Db, w: NodeWorld, op: Op, node: int, remoteAfter: map<NodeKey, seq<Client>>)
    requires Touches(db, op, node) && w.central == NodeConfig(db.inbounds, node) && Settled(w)
    requires Enabled(w, CommitOf(db, op, node, remoteAfter))
    ensures Inv(Next(w, CommitOf(db, op, node, remoteAfter))) <==> Accountable(db, op)
  {
    hide CommitOf, Heard, Accountable, Inv, Enabled, Conveyed, Next;
    CommitConveyed(db, w, op, node, remoteAfter);
    VerdictExact(db, op);
    assert CommitOf(db, op, node, remoteAfter).Commit? by { CommitIsCommit(db, op, node, remoteAfter); }
    SettledEdit(w, CommitOf(db, op, node, remoteAfter));
  }

  lemma CommitIsCommit(db: Db, op: Op, node: int, remoteAfter: map<NodeKey, seq<Client>>)
    requires Touches(db, op, node)
    ensures CommitOf(db, op, node, remoteAfter).Commit?
  {}

  // ---------- pulls on the database ----------

  // The configuration a snapshot shows.
  function SnapConfig(node: int, snaps: seq<SnapInbound>): map<NodeKey, seq<Client>> {
    NodeConfig(Overwritten(map[], node, snaps), node)
  }

  lemma ConfigOf(a: map<int, Inbound>, b: map<int, Inbound>, node: int)
    requires forall ib :: ib in a && a[ib].nodeId == Some(node) ==> ib in b && b[ib] == a[ib]
    requires forall ib :: ib in b && b[ib].nodeId == Some(node) ==> ib in a && b[ib] == a[ib]
    ensures NodeConfig(a, node) == NodeConfig(b, node)
  {
    hide NodeConfig, EntriesOf;
    forall k ensures Look(NodeConfig(a, node), k) == Look(NodeConfig(b, node), k) {
      ConfigLook(a, node, k);
      ConfigLook(b, node, k);
    }
    SameLooks(NodeConfig(a, node), NodeConfig(b, node));
  }

  // A pull leaves the panel with exactly the node's configuration.
  lemma PulledConfig(db: Db, node: int, snaps: seq<SnapInbound>, tombs: set<string>)
    requires DistinctIds(snaps) && OwnIds(db.inbounds, node, snaps)
    ensures NodeConfig(PullDb(db, node, snaps, tombs).inbounds, node) == SnapConfig(node, snaps)
  {
    hide Overwritten, NodeConfig;
    RelistedAt(db, node, snaps);
    OverwrittenAt(map[], node, snaps);
    var pulled, shown := PullDb(db, node, snaps, tombs).inbounds, Overwritten(map[], node, snaps);
    assert pulled == Relisted(db, node, snaps).inbounds;
    forall ib | ib in Ids(snaps) ensures ib in pulled && ib in shown && pulled[ib] == shown[ib] {
      var s :| s in snaps && s.ib == ib;
    }
    ConfigOf(pulled, shown, node);
  }

  // A mutation of a settled node that leaves no mark is on the panel, after the next
  // clean pull, only in the entries the node was told about.
  lemma UntoldIsUndone(db: Db, w: NodeWorld, op: Op, node: int, remoteAfter: map<NodeKey, seq<Client>>,
                       snaps: seq<SnapInbound>, tombs: set<string>, k: NodeKey)
    requires Touches(db, op, node) && w.central == NodeConfig(db.inbounds, node) && Settled(w)
    requires Enabled(w, CommitOf(db, op, node, remoteAfter)) && !Decide(db, op).outcome.mark
    requires DistinctIds(snaps) && OwnIds(Apply(db, op.ib, Decide(db, op)).inbounds, node, snaps) && SnapConfig(node, snaps) == remoteAfter
    ensures var edited := Apply(db, op.ib, Decide(db, op));
            Look(NodeConfig(PullDb(edited, node, snaps, tombs).inbounds, node), k) ==
            Look(NodeConfig(if k in PushedKeys(op.ib, Decide(db, op).outcome.pushed) then edited.inbounds else db.inbounds, node), k)
  {
    hide Decide, Apply, NodeConfig, PullDb, PushedKeys, SnapConfig;
    PulledConfig(Apply(db, op.ib, Decide(db, op)), node, snaps, tombs);
  }

  datatype State = State(db: Db, world: NodeWorld)

  function Turn(s: State, ev: Event, node: int): State
    requires ev.Edit? ==> WellFormed(ev.op)
  {
    match ev
    case Edit(op, remoteAfter) =>
      State(Apply(s.db, op.ib, Decide(s.db, op)),
            if Touches(s.db, op, node) then Next(s.world, CommitOf(s.db, op, node, remoteAfter)) else s.world)
    case Merge(snaps, tombs) =>
      State(if s.world.job.Checked? && !s.world.job.dirty then PullDb(s.db, node, snaps, tombs) else s.db, Next(s.world, Pull))
    case Sync(step) => s.(world := Next(s.world, step))
  }

  // The event can happen; mutations of the node's inbounds are addressable, edits and
  // readings are careful, and a snapshot that is taken over shows no client deleted on
  // the panel a moment ago.
  ghost predicate Allowed(s: State, ev: Event, node: int) {
    match ev
    case Edit(op, remoteAfter) =>
      && WellFormed(op)
      && (Touches(s.db, op, node) ==> Addressable(s.db, op) && CanCommit(s.world, CommitOf(s.db, op, node, remoteAfter)))
    case Merge(snaps, tombs) =>
      && s.world.job.Checked? && SnapConfig(node, snaps) == s.world.job.snap
      && (!s.world.job.dirty ==> Mergeable(s.db, node, snaps, tombs))
    case Sync(step) => !step.Commit? && !step.Pull? && Enabled(s.world, step) && LaterMark(s.world, step) && Careful(s.world, step)
  }

  ghost predicate CanCommit(w: NodeWorld, c: Step<NodeKey, seq<Client>>) {
    Enabled(w, c) && Careful(w, c)
  }

  predicate Mergeable(db: Db, node: int, snaps: seq<SnapInbound>, tombs: set<string>) {
    DistinctIds(snaps) && OwnIds(db.inbounds, node, snaps) && forall s :: s in snaps ==> Emails(s.clients) !! tombs
  }

  ghost predicate Sound(s: State, node: int) {
    Consistent(s.db) && Inv(s.world) && PullSafe(s.world) && s.world.central == NodeConfig(s.db.inbounds, node)
  }

  lemma TurnKeepsSound(s: State, ev: Event, node: int)
    requires Sound(s, node) && Allowed(s, ev, node)
    ensures Sound(Turn(s, ev, node), node)
  {
    hide NodeConfig, Consistent, Inv, PullSafe, Enabled, Careful, Decide, Apply, Addressable, PullDb, Mergeable;
    match ev
    case Edit(op, remoteAfter) => EditKeepsSound(s.db, s.world, op, node, remoteAfter);
    case Merge(snaps, tombs) => MergeKeepsSound(s.db, s.world, snaps, tombs, node);
    case Sync(step) => SyncKeepsSound(s.world, step);
  }

  lemma SyncKeepsSound(w: NodeWorld, step: Step<NodeKey, seq<Client>>)
    requires Inv(w) && PullSafe(w) && !step.Commit? && !step.Pull? && Enabled(w, step) && LaterMark(w, step) && Careful(w, step)
    ensures Inv(Next(w, step)) && PullSafe(Next(w, step)) && Next(w, step).central == w.central
  {
    CarefulStep(w, step);
    StepKeepsInv(w, step);
  }

  lemma MergeKeepsSound(db: Db, w: NodeWorld, snaps: seq<SnapInbound>, tombs: set<string>, node: int)
    requires Consistent(db) && Inv(w) && PullSafe(w) && w.central == NodeConfig(db.inbounds, node)
    requires w.job.Checked? && SnapConfig(node, snaps) == w.job.snap && (!w.job.dirty ==> Mergeable(db, node, snaps, tombs))
    ensures Inv(Next(w, Pull)) && PullSafe(Next(w, Pull))
    ensures w.job.dirty ==> Next(w, Pull).central == w.central
    ensures !w.job.dirty ==> Consistent(PullDb(db, node, snaps, tombs))
    ensures !w.job.dirty ==> Next(w, Pull).central == NodeConfig(PullDb(db, node, snaps, tombs).inbounds, node)
  {
    hide NodeConfig, Consistent, PullDb;
    CarefulStep(w, Pull);
    StepKeepsInv(w, Pull);
    if !w.job.dirty {
      PullConsistent(db, node, snaps, tombs);
      PulledConfig(db, node, snaps, tombs);
    }
  }

  lemma EditKeepsSound(db: Db, w: NodeWorld, op: Op, node: int, remoteAfter: map<NodeKey, seq<Client>>)
    requires Consistent(db) && Inv(w) && PullSafe(w) && w.central == NodeConfig(db.inbounds, node) && WellFormed(op)
    requires Touches(db, op, node) ==> Addressable(db, op) && CanCommit(w, CommitOf(db, op, node, remoteAfter))
    ensures Consistent(Apply(db, op.ib, Decide(db, op)))
    ensures Touches(db, op, node) ==>
              var next := Next(w, CommitOf(db, op, node, remoteAfter));
              Inv(next) && PullSafe(next) && next.central == NodeConfig(Apply(db, op.ib, Decide(db, op)).inbounds, node)
    ensures !Touches(db, op, node) ==> NodeConfig(Apply(db, op.ib, Decide(db, op)).inbounds, node) == w.central
  {
    hide Consistent, Inv, PullSafe, Decide, Apply, NodeConfig, Addressable, Heard, Enabled, Conveyed, Careful, Kept;
    StepConsistent(db, op);
    if Touches(db, op, node) {
      AddressableIsHeard(db, op);
      CommitConveyed(db, w, op, node, remoteAfter);
      CommitInTime(db, w, op, node, remoteAfter);
      CarefulStep(w, CommitOf(db, op, node, remoteAfter));
      StepKeepsInv(w, CommitOf(db, op, node, remoteAfter));
    } else {
      ElsewhereIsNothing(db, op, node);
    }
  }

  lemma CommitInTime(db: Db, w: NodeWorld, op: Op, node: int, remoteAfter: map<NodeKey, seq<Client>>)
    requires Touches(db, op, node)
    ensures LaterMark(w, CommitOf(db, op, node, remoteAfter))
  {}

  function RunEvents(s: State, evs: seq<Event>, node: int): State
    requires forall ev :: ev in evs && ev.Edit? ==> WellFormed(ev.op)
    decreases |evs|
  {
    if evs == [] then s else RunEvents(Turn(s, evs[0], node), evs[1..], node)
  }

  ghost predicate AllAllowed(s: State, evs: seq<Event>, node: int)
    requires forall ev :: ev in evs && ev.Edit? ==> WellFormed(ev.op)
    decreases |evs|
  {
    evs == [] || (Allowed(s, evs[0], node) && AllAllowed(Turn(s, evs[0], node), evs[1..], node))
  }

  // Every interleaving of addressable mutations, marks, heartbeats, rounds and pulls,
  // with careful edits and readings, keeps the tables an exact index and the node
  // accounted for; a clean node with no mark outstanding holds exactly the panel's lists.
  lemma {:induction false} MirrorRun(s: State, evs: seq<Event>, node: int)
    requires forall ev :: ev in evs && ev.Edit? ==> WellFormed(ev.op)
    requires Sound(s, node) && AllAllowed(s, evs, node)
    ensures Sound(RunEvents(s, evs, node), node)
    ensures var end := RunEvents(s, evs, node);
            !end.world.row.dirty && end.world.owed == 0 ==> end.world.remote == NodeConfig(end.db.inbounds, node)
    decreases |evs|
  {
    hide Turn, Allowed, NodeConfig, Consistent;
    if evs != [] {
      TurnKeepsSound(s, evs[0], node);
      MirrorRun(Turn(s, evs[0], node), evs[1..], node);
    }
  }
}
