// The mutations of one inbound's client list, as functions on the database:
// what each leaves in the settings list and in the index tables, when it is
// refused, and what it tells the node that hosts the inbound.
module ClientMutations {
  import opened Text
  import opened ClientModel
  import opened ClientIndex

  // What nodePushPlan and the pushes of one call come to for a node inbound:
  // the lookup fails, the node is skipped, or every push is sent and acked or not.
  datatype Plan = PlanFails | NoPush | Push(acked: bool)

  datatype Reason =
    | DuplicateEmail(email: string) | NoSuchInbound | EmailRequired | EmptyKey
    | ClientNotFound | NodeLookupFailed

  // mark: the caller goes on to mark the node dirty.
  // pushed: the emails the node acknowledged.
  datatype Outcome = Done(mark: bool, pushed: set<string>) | Failed(reason: Reason)

  // What a mutation decides: the list it writes back, if any, and its answer.
  datatype Edit = Edit(list: Option<seq<Client>>, outcome: Outcome)

  const NO_CHANGE := Edit(None, Done(false, {}))

  function Refused(reason: Reason): Edit {
    Edit(None, Failed(reason))
  }

  function Apply(db: Db, ib: int, edit: Edit): Db
    requires edit.list.Some? ==> ib in db.inbounds
  {
    if edit.list.Some? then Rewrite(db, ib, edit.list.value) else db
  }

  // ---------- filters over a settings list ----------

  // Entries with no email, or with an email that has a record.
  function Compact(cs: seq<Client>, known: set<string>): (r: seq<Client>)
    ensures Emails(r) == Emails(cs) * known
    ensures Emails(cs) <= known ==> r == cs
    ensures forall c :: c in r ==> c in cs
  {
    if cs == [] then [] else
      var n := |cs| - 1;
      assert cs == cs[..n] + [cs[n]];
      var prior := Compact(cs[..n], known);
      assert (prior + [cs[n]])[..|prior|] == prior;
      if cs[n].email == "" || cs[n].email in known then prior + [cs[n]] else prior
  }

  // The entries of the keys, in list order.
  function TakenOut(p: Protocol, cs: seq<Client>, keys: set<string>): seq<Client> {
    if cs == [] then [] else
      var n := |cs| - 1;
      if KeyOf(p, cs[n]) in keys then TakenOut(p, cs[..n], keys) + [cs[n]] else TakenOut(p, cs[..n], keys)
  }

  predicate Hit(p: Protocol, cs: seq<Client>, keys: set<string>) {
    TakenOut(p, cs, keys) != []
  }

  // The list without the entries of the keys.
  function Without(p: Protocol, cs: seq<Client>, keys: set<string>): (r: seq<Client>)
    ensures !Hit(p, cs, keys) ==> r == cs
    ensures Emails(r) <= Emails(cs)
  {
    if cs == [] then [] else
      var n := |cs| - 1;
      assert cs == cs[..n] + [cs[n]];
      var prior := Without(p, cs[..n], keys);
      assert (prior + [cs[n]])[..|prior|] == prior;
      if KeyOf(p, cs[n]) in keys then prior else prior + [cs[n]]
  }

  function AllEmails(cs: seq<Client>): set<string> {
    if cs == [] then {} else AllEmails(cs[..|cs| - 1]) + {cs[|cs| - 1].email}
  }

  function RemovedEmails(p: Protocol, cs: seq<Client>, keys: set<string>): set<string> {
    AllEmails(TakenOut(p, cs, keys))
  }

  function LastEmail(p: Protocol, cs: seq<Client>, key: string): string
    requires Hit(p, cs, {key})
  {
    var taken := TakenOut(p, cs, {key});
    taken[|taken| - 1].email
  }

  // ---------- the email check ----------

  function SubIdsOf(inbounds: map<int, Inbound>, key: string): set<string> {
    set ib, c | ib in inbounds && c in inbounds[ib].clients && c.email != "" && Lower(c.email) == key :: c.subId
  }

  function EmailKeys(inbounds: map<int, Inbound>): set<string> {
    set ib, c | ib in inbounds && c in inbounds[ib].clients && c.email != "" :: Lower(c.email)
  }

  // The one subId of the set, or "" when there is not exactly one.
  function Agreed(subIds: set<string>): (r: string)
    ensures r != "" ==> subIds == {r}
    ensures forall s :: subIds == {s} ==> r == s
  {
    if exists s :: s in subIds && subIds == {s} then
      var s :| s in subIds && subIds == {s};
      s
    else ""
  }

  // getAllEmailSubIDs: an email seen with two subIds is locked to "".
  function AllEmailSubIds(inbounds: map<int, Inbound>): map<string, string> {
    map key | key in EmailKeys(inbounds) :: Agreed(SubIdsOf(inbounds, key))
  }

  // First subId of each lower-cased email in the list.
  function SeenSubIds(cs: seq<Client>): map<string, string> {
    if cs == [] then map[] else
      var n := |cs| - 1;
      var prior := SeenSubIds(cs[..n]);
      var key := Lower(cs[n].email);
      if cs[n].email == "" || key in prior then prior else prior[key := cs[n].subId]
  }

  predicate Clashes(c: Client, seen: map<string, string>, taken: map<string, string>) {
    c.email != "" &&
    var key := Lower(c.email);
    if key in seen then seen[key] != c.subId || c.subId == ""
    else key in taken && (c.subId == "" || taken[key] == "" || taken[key] != c.subId)
  }

  // The first entry whose email may not be used with its subId.
  function EmailConflict(cs: seq<Client>, taken: map<string, string>): Option<string> {
    if cs == [] then None else
      var n := |cs| - 1;
      var prior := EmailConflict(cs[..n], taken);
      if prior.Some? then prior
      else if Clashes(cs[n], SeenSubIds(cs[..n]), taken) then Some(cs[n].email) else None
  }

  // ---------- add ----------

  // The entries as stored: stamped, with a fresh subId where they carry none.
  function Stamped(cs: seq<Client>, randoms: seq<string>, now: int): (r: seq<Client>)
    requires |randoms| == |cs|
    ensures |r| == |cs| && Emails(r) == Emails(cs)
    ensures forall i :: 0 <= i < |cs| ==> r[i].email == cs[i].email
  {
    var r := seq(|cs|, i requires 0 <= i < |cs| => cs[i].(
      createdAt := if cs[i].createdAt == 0 then now else cs[i].createdAt,
      updatedAt := now,
      subId := if cs[i].subId == "" then randoms[i] else cs[i].subId));
    SameEmails(r, cs);
    r
  }

  lemma {:induction false} SameEmails(a: seq<Client>, b: seq<Client>)
    requires |a| == |b| && forall i :: 0 <= i < |a| ==> a[i].email == b[i].email
    ensures Emails(a) == Emails(b)
  {
    if a != [] {
      SameEmails(a[..|a| - 1], b[..|b| - 1]);
    }
  }

  function EntryFailure(p: Protocol, cs: seq<Client>): Option<Reason> {
    if cs == [] then None
    else if cs[0].email == "" then Some(EmailRequired)
    else if KeyOf(p, cs[0]) == "" then Some(EmptyKey)
    else EntryFailure(p, cs[1..])
  }

  function Taken(db: Db, snapshot: Option<map<string, string>>): map<string, string> {
    if snapshot.Some? then snapshot.value else AllEmailSubIds(db.inbounds)
  }

  function AddFailure(db: Db, ib: int, cs: seq<Client>, snapshot: Option<map<string, string>>, plan: Plan): Option<Reason> {
    var dup := EmailConflict(cs, Taken(db, snapshot));
    if dup.Some? then Some(DuplicateEmail(dup.value))
    else if ib !in db.inbounds then Some(NoSuchInbound)
    else
      var bad := EntryFailure(db.inbounds[ib].protocol, cs);
      if bad.Some? then bad
      else if db.inbounds[ib].nodeId.Some? && plan.PlanFails? then Some(NodeLookupFailed)
      else None
  }

  // What a node inbound's plan leaves to be marked and what the node has heard.
  function Told(inbound: Inbound, emails: set<string>, plan: Plan): Outcome {
    if inbound.nodeId.None? || plan.PlanFails? then Done(false, {})
    else if plan.NoPush? then Done(true, {})
    else if plan.acked || emails == {} then Done(false, emails)
    else Done(true, {})
  }

  function AddEdit(db: Db, ib: int, cs: seq<Client>, randoms: seq<string>, now: int,
                   snapshot: Option<map<string, string>>, plan: Plan): (edit: Edit)
    requires |randoms| == |cs|
    ensures edit.list.Some? ==> ib in db.inbounds
  {
    var failure := AddFailure(db, ib, cs, snapshot, plan);
    if failure.Some? then Refused(failure.value) else
      var inbound := db.inbounds[ib];
      Edit(Some(Compact(inbound.clients, Known(db.records)) + Stamped(cs, randoms, now)),
           Told(inbound, Emails(cs), plan))
  }

  // ---------- update ----------

  function IndexOfKey(p: Protocol, cs: seq<Client>, key: string): (i: Option<nat>)
    ensures i.Some? ==> i.value < |cs| && KeyOf(p, cs[i.value]) == key
    ensures i.Some? ==> forall j :: 0 <= j < i.value ==> KeyOf(p, cs[j]) != key
    ensures i.None? ==> forall j :: 0 <= j < |cs| ==> KeyOf(p, cs[j]) != key
  {
    if cs == [] then None
    else if KeyOf(p, cs[0]) == key then Some(0)
    else match IndexOfKey(p, cs[1..], key) case Some(i) => Some(i + 1) case None => None
  }

  function IndexOfEmail(cs: seq<Client>, e: string): (i: Option<nat>)
    ensures i.Some? ==> i.value < |cs| && cs[i.value].email == e
  {
    if cs == [] then None
    else if cs[0].email == e then Some(0)
    else match IndexOfEmail(cs[1..], e) case Some(i) => Some(i + 1) case None => None
  }

  lemma LowestExists(ids: set<int>)
    requires ids != {}
    ensures exists id :: id in ids && forall j :: j in ids ==> id <= j
  {
    var x := Pick(ids);
    var rest := set y | y in ids && y < x;
    if rest != {} {
      assert rest < ids;
      LowestExists(rest);
      var id :| id in rest && forall j :: j in rest ==> id <= j;
      forall j | j in ids ensures id <= j {
        assert j in rest || x <= j;
      }
    } else {
      forall y | y in ids ensures x <= y {
        assert y in rest || x <= y;
      }
    }
  }

  function Lowest(ids: set<int>): (id: int)
    requires ids != {}
    ensures id in ids && forall j :: j in ids ==> id <= j
  {
    LowestExists(ids);
    var id :| id in ids && forall j :: j in ids ==> id <= j;
    id
  }

  // The entry an update addresses: by its key, else by the email of the first
  // record that carries the key.
  function UpdateIndex(db: Db, p: Protocol, cs: seq<Client>, key: string): (i: Option<nat>)
    ensures i.Some? ==> i.value < |cs|
  {
    var direct := IndexOfKey(p, cs, key);
    if direct.Some? then direct else
      var ids := set id | id in db.records && RecordKey(p, db.records[id]) == key;
      if ids == {} || db.records[Lowest(ids)].email == "" then None
      else IndexOfEmail(cs, db.records[Lowest(ids)].email)
  }

  function UpdateFailure(db: Db, ib: int, cs: seq<Client>, key: string, plan: Plan): Option<Reason>
    requires cs != []
  {
    if ib !in db.inbounds then Some(NoSuchInbound) else
      var inbound := db.inbounds[ib];
      var at := UpdateIndex(db, inbound.protocol, inbound.clients, key);
      if KeyOf(inbound.protocol, cs[0]) == "" || at.None? then Some(EmptyKey)
      else if cs[0].email == "" then Some(EmailRequired)
      else
        var oldEmail := inbound.clients[at.value].email;
        var dup := EmailConflict(cs, AllEmailSubIds(db.inbounds));
        if cs[0].email != oldEmail && dup.Some? then Some(DuplicateEmail(dup.value))
        else if oldEmail != "" && inbound.nodeId.Some? && plan.PlanFails? then Some(NodeLookupFailed)
        else None
  }

  function Replacement(prior: Client, c: Client, random: string, now: int): Client {
    c.(createdAt := if prior.createdAt == 0 then now else prior.createdAt,
       updatedAt := now,
       subId := if c.subId != "" then c.subId else if prior.subId != "" then prior.subId else random)
  }

  function UpdateEdit(db: Db, ib: int, cs: seq<Client>, key: string, random: string, now: int, plan: Plan): (edit: Edit)
    requires cs != []
    ensures edit.list.Some? ==> ib in db.inbounds
  {
    var failure := UpdateFailure(db, ib, cs, key, plan);
    if failure.Some? then Refused(failure.value) else
      var inbound := db.inbounds[ib];
      var at := UpdateIndex(db, inbound.protocol, inbound.clients, key).value;
      var prior := inbound.clients[at];
      Edit(Some(inbound.clients[at := Replacement(prior, cs[0], random, now)]),
           if prior.email == "" then Done(false, {}) else Told(inbound, {prior.email, cs[0].email}, plan))
  }

  // ---------- delete, one key or many ----------

  function Remaining(db: Db, ib: int, keys: set<string>): seq<Client>
    requires ib in db.inbounds
  {
    Compact(Without(db.inbounds[ib].protocol, db.inbounds[ib].clients, keys), Known(db.records))
  }

  function DeleteEdit(db: Db, ib: int, key: string, plan: Plan): (edit: Edit)
    ensures edit.list.Some? ==> ib in db.inbounds
  {
    if ib !in db.inbounds then Refused(NoSuchInbound) else
      var inbound := db.inbounds[ib];
      if !Hit(inbound.protocol, inbound.clients, {key}) then Refused(ClientNotFound) else
        var email := LastEmail(inbound.protocol, inbound.clients, key);
        if email != "" && inbound.nodeId.Some? && plan.PlanFails? then Refused(NodeLookupFailed) else
          Edit(Some(Remaining(db, ib, {key})),
               if email == "" then Done(false, {}) else Told(inbound, {email}, plan))
  }

  function DetachEdit(db: Db, ib: int, keys: set<string>, plan: Plan): (edit: Edit)
    ensures edit.list.Some? ==> ib in db.inbounds
  {
    if keys == {} then NO_CHANGE
    else if ib !in db.inbounds then Refused(NoSuchInbound) else
      var inbound := db.inbounds[ib];
      var wanted := keys - {""};
      if !Hit(inbound.protocol, inbound.clients, wanted) then NO_CHANGE else
        var emails := Emails(TakenOut(inbound.protocol, inbound.clients, wanted));
        if emails != {} && inbound.nodeId.Some? && plan.PlanFails? then Refused(NodeLookupFailed) else
          Edit(Some(Remaining(db, ib, wanted)),
               if emails == {} then Done(false, {}) else Told(inbound, emails, plan))
  }

  // ---------- runs ----------

  datatype Op =
    | Add(ib: int, cs: seq<Client>, randoms: seq<string>, now: int, snapshot: Option<map<string, string>>, plan: Plan)
    | Update(ib: int, cs: seq<Client>, key: string, random: string, now: int, plan: Plan)
    | Delete(ib: int, key: string, plan: Plan)
    | Detach(ib: int, keys: set<string>, plan: Plan)

  predicate WellFormed(op: Op) {
    match op
    case Add(_, cs, randoms, _, _, _) => |randoms| == |cs|
    case Update(_, cs, _, _, _, _) => cs != []
    case _ => true
  }

  function Decide(db: Db, op: Op): (edit: Edit)
    requires WellFormed(op)
    ensures edit.list.Some? ==> op.ib in db.inbounds && edit.outcome.Done?
  {
    match op
    case Add(ib, cs, randoms, now, snapshot, plan) => AddEdit(db, ib, cs, randoms, now, snapshot, plan)
    case Update(ib, cs, key, random, now, plan) => UpdateEdit(db, ib, cs, key, random, now, plan)
    case Delete(ib, key, plan) => DeleteEdit(db, ib, key, plan)
    case Detach(ib, keys, plan) => DetachEdit(db, ib, keys, plan)
  }

  function Run(db: Db, ops: seq<Op>): Db
    requires Consistent(db) && forall op :: op in ops ==> WellFormed(op)
    decreases |ops|
  {
    if ops == [] then db else
      StepConsistent(db, ops[0]);
      Run(Apply(db, ops[0].ib, Decide(db, ops[0])), ops[1..])
  }

  lemma StepConsistent(db: Db, op: Op)
    requires Consistent(db) && WellFormed(op)
    ensures Consistent(Apply(db, op.ib, Decide(db, op)))
  {
    var edit := Decide(db, op);
    if edit.list.Some? {
      RewriteConsistent(db, op.ib, edit.list.value);
    }
  }

  // A mutation leaves the lists and the links of all other inbounds untouched.
  lemma StepKeepsOtherInbounds(db: Db, op: Op, k: LinkKey)
    requires WellFormed(op) && k.inboundId != op.ib
    ensures var post := Apply(db, op.ib, Decide(db, op));
            (k in post.links <==> k in db.links) && (k in db.links ==> post.links[k] == db.links[k]) &&
            (k.inboundId in post.inbounds <==> k.inboundId in db.inbounds) &&
            (k.inboundId in db.inbounds ==> post.inbounds[k.inboundId] == db.inbounds[k.inboundId])
  {
    hide AddEdit, UpdateEdit, DeleteEdit, DetachEdit;
    var edit := Decide(db, op);
    if edit.list.Some? {
      var cs := edit.list.value;
      SyncedLinkTable(db.(inbounds := db.inbounds[op.ib := db.inbounds[op.ib].(clients := cs)]), op.ib, cs);
    }
  }

  // Inbounds without clients and empty tables are where every run may start.
  lemma EmptyConsistent(inbounds: map<int, Inbound>, nextId: int)
    requires forall ib :: ib in inbounds ==> inbounds[ib].clients == []
    ensures Consistent(Db(inbounds, map[], map[], nextId))
  {
  }

  // Every run of mutations keeps the tables an exact index of the lists.
  lemma {:induction false} RunConsistent(db: Db, ops: seq<Op>)
    requires Consistent(db) && forall op :: op in ops ==> WellFormed(op)
    ensures Consistent(Run(db, ops))
    decreases |ops|
  {
    if ops != [] {
      StepConsistent(db, ops[0]);
      RunConsistent(Apply(db, ops[0].ib, Decide(db, ops[0])), ops[1..]);
    }
  }

  // So does every run from inbounds without clients and empty tables.
  lemma RunFromEmpty(inbounds: map<int, Inbound>, nextId: int, ops: seq<Op>)
    requires forall ib :: ib in inbounds ==> inbounds[ib].clients == []
    requires forall op :: op in ops ==> WellFormed(op)
    ensures Consistent(Db(inbounds, map[], map[], nextId))
    ensures Consistent(Run(Db(inbounds, map[], map[], nextId), ops))
  {
    EmptyConsistent(inbounds, nextId);
    RunConsistent(Db(inbounds, map[], map[], nextId), ops);
  }
}
