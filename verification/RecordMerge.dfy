// Merging the occurrences of one client into its row, and the seeding pass that
// folds every inbound's list into the clients table.
module RecordMerge {
  import opened Text
  import opened ClientModel

  // ---------- the merge as a function ----------

  predicate Newer(existing: ClientRecord, incoming: ClientRecord) {
    incoming.updatedAt > existing.updatedAt ||
    (incoming.updatedAt == existing.updatedAt && incoming.createdAt > existing.createdAt)
  }

  function TextPick(existing: string, incoming: string, newer: bool): string {
    if incoming != "" && (newer || existing == "") then incoming else existing
  }

  function IntPick(existing: int, incoming: int, newer: bool): int {
    if incoming != 0 && (newer || existing == 0) then incoming else existing
  }

  // The larger of two limits, zero standing for no limit given.
  function JoinMax(a: int, b: int): int {
    if a == 0 then b else if b == 0 then a else Max(a, b)
  }

  function JoinMin(a: int, b: int): int {
    if a == 0 then b else if b == 0 then a else Min(a, b)
  }

  function Merged(e: ClientRecord, i: ClientRecord): ClientRecord {
    var newer := Newer(e, i);
    ClientRecord(
      e.email,
      TextPick(e.subId, i.subId, newer), TextPick(e.uuid, i.uuid, newer), TextPick(e.password, i.password, newer),
      TextPick(e.auth, i.auth, newer), TextPick(e.flow, i.flow, newer), TextPick(e.security, i.security, newer),
      TextPick(e.reverse, i.reverse, newer),
      JoinMax(e.limitIp, i.limitIp), JoinMax(e.totalGB, i.totalGB), JoinMax(e.expiryTime, i.expiryTime),
      e.enable || i.enable,
      IntPick(e.tgId, i.tgId, newer), TextPick(e.group, i.group, newer), TextPick(e.comment, i.comment, newer),
      IntPick(e.reset, i.reset, newer), JoinMin(e.createdAt, i.createdAt), Max(e.updatedAt, i.updatedAt))
  }

  // ---------- the merge as the code runs it ----------

  predicate TextConflict(existing: string, incoming: string, newer: bool) {
    existing != incoming && incoming != "" && (newer || existing == "")
  }

  predicate IntConflict(existing: int, incoming: int, newer: bool) {
    existing != incoming && incoming != 0 && (newer || existing == 0)
  }

  predicate LimitConflict(existing: int, incoming: int) {
    JoinMax(existing, incoming) != existing
  }

  // The names of the fields in conflict.
  datatype FieldName =
    | UuidField | PasswordField | AuthField | FlowField | SecurityField | SubIdField | TotalGBField | ExpiryTimeField
    | LimitIpField | TgIdField | ResetField | ReverseField | CommentField | GroupField | EnableField

  predicate UuidConflict(e: ClientRecord, i: ClientRecord) {
    e.uuid != i.uuid && i.uuid != ""
  }

  // A row of the table, merged in place.
  class ClientRow {
    var rec: ClientRecord

    constructor (r: ClientRecord)
      ensures rec == r
    {
      rec := r;
    }

    // One text field: taken over when the incoming value is new and either newer
    // or filling a blank.
    static method MergeText(existing: string, incoming: string, newer: bool, name: FieldName, conflicts: seq<FieldName>)
      returns (kept: string, conflicts': seq<FieldName>)
      ensures kept == TextPick(existing, incoming, newer)
      ensures conflicts' == Noted(conflicts, name, TextConflict(existing, incoming, newer))
    {
      kept, conflicts' := existing, conflicts;
      if existing != incoming && incoming != "" {
        if newer || existing == "" {
          kept := incoming;
          conflicts' := conflicts + [name];
        }
      }
    }

    static method MergeInt(existing: int, incoming: int, newer: bool, name: FieldName, conflicts: seq<FieldName>)
      returns (kept: int, conflicts': seq<FieldName>)
      ensures kept == IntPick(existing, incoming, newer)
      ensures conflicts' == Noted(conflicts, name, IntConflict(existing, incoming, newer))
    {
      kept, conflicts' := existing, conflicts;
      if existing != incoming && incoming != 0 {
        if newer || existing == 0 {
          kept := incoming;
          conflicts' := conflicts + [name];
        }
      }
    }

    static method MergeLimit(existing: int, incoming: int, name: FieldName, conflicts: seq<FieldName>)
      returns (kept: int, conflicts': seq<FieldName>)
      ensures kept == JoinMax(existing, incoming)
      ensures conflicts' == Noted(conflicts, name, LimitConflict(existing, incoming))
    {
      kept, conflicts' := existing, conflicts;
      if existing != incoming {
        var picked := existing;
        if existing == 0 || (incoming != 0 && incoming > existing) {
          picked := incoming;
        }
        if picked != existing {
          conflicts' := conflicts + [name];
          kept := picked;
        }
      }
    }

    // Takes the incoming record in and returns the names of the fields in conflict.
    method MergeClientRecord(incoming: ClientRow) returns (conflicts: seq<FieldName>)
      modifies this
      ensures rec == Merged(old(rec), old(incoming.rec))
      ensures conflicts == ConflictFields(old(rec), old(incoming.rec))
    {
      rec, conflicts := MergeValues(rec, incoming.rec);
    }

    static method MergeValues(existing: ClientRecord, incoming: ClientRecord) returns (merged: ClientRecord, conflicts: seq<FieldName>)
      ensures merged == Merged(existing, incoming) && conflicts == ConflictFields(existing, incoming)
    {
      hide TextPick;
      hide IntPick;
      hide JoinMax;
      hide Noted;
      hide TextConflict;
      hide IntConflict;
      hide LimitConflict;
      hide UuidConflict;
      var newer := Newer(existing, incoming);
      var uuid := PickUuid(existing.uuid, incoming.uuid, newer);
      conflicts := Noted([], UuidField, UuidConflict(existing, incoming));
      var password, auth, flow, security, subId, reverse, comment, group;
      var totalGB, expiryTime, limitIp, tgId, reset;
      password, conflicts := MergeText(existing.password, incoming.password, newer, PasswordField, conflicts);
      auth, conflicts := MergeText(existing.auth, incoming.auth, newer, AuthField, conflicts);
      flow, conflicts := MergeText(existing.flow, incoming.flow, newer, FlowField, conflicts);
      security, conflicts := MergeText(existing.security, incoming.security, newer, SecurityField, conflicts);
      subId, conflicts := MergeText(existing.subId, incoming.subId, newer, SubIdField, conflicts);
      totalGB, conflicts := MergeLimit(existing.totalGB, incoming.totalGB, TotalGBField, conflicts);
      expiryTime, conflicts := MergeLimit(existing.expiryTime, incoming.expiryTime, ExpiryTimeField, conflicts);
      limitIp, conflicts := MergeLimit(existing.limitIp, incoming.limitIp, LimitIpField, conflicts);
      tgId, conflicts := MergeInt(existing.tgId, incoming.tgId, newer, TgIdField, conflicts);
      reset, conflicts := MergeInt(existing.reset, incoming.reset, newer, ResetField, conflicts);
      reverse, conflicts := MergeText(existing.reverse, incoming.reverse, newer, ReverseField, conflicts);
      comment, conflicts := MergeText(existing.comment, incoming.comment, newer, CommentField, conflicts);
      group, conflicts := MergeText(existing.group, incoming.group, newer, GroupField, conflicts);
      var enable, createdAt, updatedAt := existing.enable, existing.createdAt, existing.updatedAt;
      if !enable && incoming.enable {
        enable := true;
      }
      conflicts := Noted(conflicts, EnableField, !existing.enable && incoming.enable);
      if incoming.createdAt != 0 && (createdAt == 0 || incoming.createdAt < createdAt) {
        createdAt := incoming.createdAt;
      }
      if incoming.updatedAt > updatedAt {
        updatedAt := incoming.updatedAt;
      }
      merged := ClientRecord(existing.email, subId, uuid, password, auth, flow, security, reverse, limitIp, totalGB, expiryTime,
                             enable, tgId, group, comment, reset, createdAt, updatedAt);
    }

    static method PickUuid(existing: string, incoming: string, newer: bool) returns (kept: string)
      ensures kept == TextPick(existing, incoming, newer)
    {
      kept := existing;
      if existing != incoming && incoming != "" {
        if newer || existing == "" {
          kept := incoming;
        }
      }
    }
  }

  function Noted(conflicts: seq<FieldName>, name: FieldName, present: bool): seq<FieldName> {
    if present then conflicts + [name] else conflicts
  }

  // The conflicts in the order of the code: the first texts, the numbers, the rest.
  function FirstTexts(e: ClientRecord, i: ClientRecord): seq<FieldName> {
    var newer := Newer(e, i);
    Noted(Noted(Noted(Noted(Noted(Noted([], UuidField, UuidConflict(e, i)),
      PasswordField, TextConflict(e.password, i.password, newer)), AuthField, TextConflict(e.auth, i.auth, newer)),
      FlowField, TextConflict(e.flow, i.flow, newer)), SecurityField, TextConflict(e.security, i.security, newer)),
      SubIdField, TextConflict(e.subId, i.subId, newer))
  }

  function ThenNumbers(names: seq<FieldName>, e: ClientRecord, i: ClientRecord): seq<FieldName> {
    var newer := Newer(e, i);
    Noted(Noted(Noted(Noted(Noted(names,
      TotalGBField, LimitConflict(e.totalGB, i.totalGB)), ExpiryTimeField, LimitConflict(e.expiryTime, i.expiryTime)),
      LimitIpField, LimitConflict(e.limitIp, i.limitIp)), TgIdField, IntConflict(e.tgId, i.tgId, newer)),
      ResetField, IntConflict(e.reset, i.reset, newer))
  }

  function ThenRest(names: seq<FieldName>, e: ClientRecord, i: ClientRecord): seq<FieldName> {
    var newer := Newer(e, i);
    Noted(Noted(Noted(Noted(names,
      ReverseField, TextConflict(e.reverse, i.reverse, newer)), CommentField, TextConflict(e.comment, i.comment, newer)),
      GroupField, TextConflict(e.group, i.group, newer)), EnableField, !e.enable && i.enable)
  }

  function ConflictFields(e: ClientRecord, i: ClientRecord): seq<FieldName> {
    ThenRest(ThenNumbers(FirstTexts(e, i), e, i), e, i)
  }

  predicate Changed(x: FieldName, a: ClientRecord, b: ClientRecord) {
    match x
    case UuidField => a.uuid != b.uuid
    case PasswordField => a.password != b.password
    case AuthField => a.auth != b.auth
    case FlowField => a.flow != b.flow
    case SecurityField => a.security != b.security
    case SubIdField => a.subId != b.subId
    case TotalGBField => a.totalGB != b.totalGB
    case ExpiryTimeField => a.expiryTime != b.expiryTime
    case LimitIpField => a.limitIp != b.limitIp
    case TgIdField => a.tgId != b.tgId
    case ResetField => a.reset != b.reset
    case ReverseField => a.reverse != b.reverse
    case CommentField => a.comment != b.comment
    case GroupField => a.group != b.group
    case EnableField => a.enable != b.enable
  }

  // The merge reports a field exactly when it changes it, and the uuid whenever a
  // different one comes in; the email stays.
  lemma ConflictMeansChange(e: ClientRecord, i: ClientRecord)
    ensures forall x :: x in ConflictFields(e, i) <==>
              if x.UuidField? then i.uuid != "" && i.uuid != e.uuid else Changed(x, e, Merged(e, i))
    ensures Merged(e, i).email == e.email && (Changed(UuidField, e, Merged(e, i)) ==> UuidField in ConflictFields(e, i))
  {
    hide ConflictFields, Reported, Changed, Merged;
    forall x ensures x in ConflictFields(e, i) <==> if x.UuidField? then i.uuid != "" && i.uuid != e.uuid else Changed(x, e, Merged(e, i)) {
      ReportedIs(e, i, x);
      ReportMeansChange(e, i, x);
    }
    UuidChange(e, i);
  }

  lemma ReportMeansChange(e: ClientRecord, i: ClientRecord, x: FieldName)
    ensures Reported(e, i, x) <==> if x.UuidField? then i.uuid != "" && i.uuid != e.uuid else Changed(x, e, Merged(e, i))
  {
    hide Newer;
  }

  lemma UuidChange(e: ClientRecord, i: ClientRecord)
    ensures Merged(e, i).email == e.email && (Changed(UuidField, e, Merged(e, i)) ==> i.uuid != "" && i.uuid != e.uuid)
  {}

  // The condition of one name.
  predicate Reported(e: ClientRecord, i: ClientRecord, x: FieldName) {
    var newer := Newer(e, i);
    match x
    case UuidField => UuidConflict(e, i)
    case PasswordField => TextConflict(e.password, i.password, newer)
    case AuthField => TextConflict(e.auth, i.auth, newer)
    case FlowField => TextConflict(e.flow, i.flow, newer)
    case SecurityField => TextConflict(e.security, i.security, newer)
    case SubIdField => TextConflict(e.subId, i.subId, newer)
    case TotalGBField => LimitConflict(e.totalGB, i.totalGB)
    case ExpiryTimeField => LimitConflict(e.expiryTime, i.expiryTime)
    case LimitIpField => LimitConflict(e.limitIp, i.limitIp)
    case TgIdField => IntConflict(e.tgId, i.tgId, newer)
    case ResetField => IntConflict(e.reset, i.reset, newer)
    case ReverseField => TextConflict(e.reverse, i.reverse, newer)
    case CommentField => TextConflict(e.comment, i.comment, newer)
    case GroupField => TextConflict(e.group, i.group, newer)
    case EnableField => !e.enable && i.enable
  }

  lemma FirstTextsReported(e: ClientRecord, i: ClientRecord, x: FieldName)
    ensures x in FirstTexts(e, i) <==>
            x in {UuidField, PasswordField, AuthField, FlowField, SecurityField, SubIdField} && Reported(e, i, x)
  {
    hide UuidConflict, TextConflict, IntConflict, LimitConflict, Newer;
  }

  lemma NumbersReported(names: seq<FieldName>, e: ClientRecord, i: ClientRecord, x: FieldName)
    ensures x in ThenNumbers(names, e, i) <==>
            x in names || (x in {TotalGBField, ExpiryTimeField, LimitIpField, TgIdField, ResetField} && Reported(e, i, x))
  {
    hide UuidConflict, TextConflict, IntConflict, LimitConflict, Newer;
  }

  lemma RestReported(names: seq<FieldName>, e: ClientRecord, i: ClientRecord, x: FieldName)
    ensures x in ThenRest(names, e, i) <==>
            x in names || (x in {ReverseField, CommentField, GroupField, EnableField} && Reported(e, i, x))
  {
    hide UuidConflict, TextConflict, IntConflict, LimitConflict, Newer;
  }

  lemma ReportedIs(e: ClientRecord, i: ClientRecord, x: FieldName)
    ensures x in ConflictFields(e, i) <==> Reported(e, i, x)
  {
    hide FirstTexts, ThenNumbers, ThenRest, Reported;
    FirstTextsReported(e, i, x);
    NumbersReported(FirstTexts(e, i), e, i, x);
    RestReported(ThenNumbers(FirstTexts(e, i), e, i), e, i, x);
  }

  // ---------- folding occurrences ----------

  // The row after merging rs in order, the first one taken as it is.
  function Fold(rs: seq<ClientRecord>): ClientRecord
    requires rs != []
  {
    if |rs| == 1 then rs[0] else Merged(Fold(rs[..|rs| - 1]), rs[|rs| - 1])
  }

  // Merging the same record again changes nothing.
  lemma MergeTwice(e: ClientRecord, i: ClientRecord)
    ensures Merged(Merged(e, i), i) == Merged(e, i)
  {
    var m := Merged(e, i);
    assert Newer(m, i) ==> Newer(e, i);
  }

  // v is the largest non-zero value, or zero when there is none.
  ghost predicate LargestOf(v: int, vs: seq<int>) {
    if v == 0 then forall x :: x in vs ==> x == 0
    else v in vs && forall x :: x in vs && x != 0 ==> x <= v
  }

  ghost predicate SmallestOf(v: int, vs: seq<int>) {
    if v == 0 then forall x :: x in vs ==> x == 0
    else v in vs && forall x :: x in vs && x != 0 ==> v <= x
  }

  ghost predicate GreatestOf(v: int, vs: seq<int>) {
    v in vs && forall x :: x in vs ==> x <= v
  }

  datatype Quantity = Total | Expiry | Limit | Created | Updated

  function Of(q: Quantity, r: ClientRecord): int {
    match q
    case Total => r.totalGB
    case Expiry => r.expiryTime
    case Limit => r.limitIp
    case Created => r.createdAt
    case Updated => r.updatedAt
  }

  function Values(q: Quantity, rs: seq<ClientRecord>): seq<int> {
    seq(|rs|, i requires 0 <= i < |rs| => Of(q, rs[i]))
  }

  ghost predicate JoinedValue(q: Quantity, v: int, vs: seq<int>) {
    match q
    case Created => SmallestOf(v, vs)
    case Updated => GreatestOf(v, vs)
    case _ => LargestOf(v, vs)
  }

  // What the order of the occurrences cannot change: quota, expiry and IP limit are
  // the largest given, the creation time the earliest given, the update time the
  // latest, and one enabled occurrence enables.
  lemma {:induction false} FoldJoins(q: Quantity, rs: seq<ClientRecord>)
    requires rs != []
    ensures JoinedValue(q, Of(q, Fold(rs)), Values(q, rs))
  {
    hide JoinedValue;
    var n := |rs| - 1;
    if n == 0 {
      JoinedAlone(q, Of(q, rs[0]));
      assert Values(q, rs) == [Of(q, rs[0])];
    } else {
      FoldJoins(q, rs[..n]);
      JoinOne(q, Of(q, Fold(rs[..n])), Values(q, rs[..n]), Of(q, rs[n]));
      assert Values(q, rs) == Values(q, rs[..n]) + [Of(q, rs[n])];
      assert Of(q, Fold(rs)) == Join(q, Of(q, Fold(rs[..n])), Of(q, rs[n]));
    }
  }

  lemma JoinedAlone(q: Quantity, v: int)
    ensures JoinedValue(q, v, [v])
  {}

  lemma {:induction false} FoldEnables(rs: seq<ClientRecord>)
    requires rs != []
    ensures Fold(rs).enable <==> exists r :: r in rs && r.enable
  {
    var n := |rs| - 1;
    assert rs == rs[..n] + [rs[n]];
    if n > 0 {
      FoldEnables(rs[..n]);
    }
  }

  function Join(q: Quantity, a: int, b: int): int {
    match q
    case Created => JoinMin(a, b)
    case Updated => Max(a, b)
    case _ => JoinMax(a, b)
  }

  lemma JoinOne(q: Quantity, v: int, vs: seq<int>, x: int)
    requires JoinedValue(q, v, vs)
    ensures JoinedValue(q, Join(q, v, x), vs + [x])
  {
    assert forall y :: y in vs + [x] <==> y in vs || y == x;
  }

  function SetOf(rs: seq<ClientRecord>): set<ClientRecord> {
    set r | r in rs
  }

  lemma SameValues(q: Quantity, rs: seq<ClientRecord>, qs: seq<ClientRecord>, x: int)
    requires SetOf(rs) == SetOf(qs) && x in Values(q, rs)
    ensures x in Values(q, qs)
  {
    var i :| 0 <= i < |rs| && Values(q, rs)[i] == x;
    assert rs[i] in SetOf(qs);
    var j :| 0 <= j < |qs| && qs[j] == rs[i];
    assert Values(q, qs)[j] == x;
  }

  // Any two orders of the occurrences, with or without repeats, give the same
  // quota, expiry, IP limit, creation time, update time and enable flag.
  lemma OrderIrrelevant(q: Quantity, rs: seq<ClientRecord>, qs: seq<ClientRecord>)
    requires rs != [] && qs != [] && SetOf(rs) == SetOf(qs)
    ensures Of(q, Fold(rs)) == Of(q, Fold(qs)) && Fold(rs).enable == Fold(qs).enable
  {
    FoldJoins(q, rs);
    FoldJoins(q, qs);
    FoldEnables(rs);
    FoldEnables(qs);
    forall x ensures x in Values(q, rs) <==> x in Values(q, qs) {
      if x in Values(q, rs) { SameValues(q, rs, qs, x); }
      if x in Values(q, qs) { SameValues(q, qs, rs, x); }
    }
    assert forall r :: r in rs <==> r in SetOf(rs);
    assert forall r :: r in qs <==> r in SetOf(qs);
    hide Values;
    hide Of;
  }

  // The joins are commutative, associative and idempotent, with zero as identity.
  lemma JoinLaws(a: int, b: int, c: int)
    ensures JoinMax(a, b) == JoinMax(b, a) && JoinMax(JoinMax(a, b), c) == JoinMax(a, JoinMax(b, c))
    ensures JoinMax(a, a) == a && JoinMax(a, 0) == a && JoinMax(0, a) == a
    ensures JoinMin(a, b) == JoinMin(b, a) && JoinMin(JoinMin(a, b), c) == JoinMin(a, JoinMin(b, c))
    ensures JoinMin(a, a) == a && JoinMin(a, 0) == a && JoinMin(0, a) == a
    ensures Max(a, 0) == a <==> a >= 0
  {}

  // ---------- seeding the table from the inbounds' lists ----------

  datatype SeedInbound = SeedInbound(id: int, clients: seq<Client>)

  function AllClients(inbounds: seq<SeedInbound>): seq<Client> {
    if inbounds == [] then [] else
      var n := |inbounds| - 1;
      AllClients(inbounds[..n]) + inbounds[n].clients
  }

  function Seeded(table: map<string, ClientRecord>, c: Client): map<string, ClientRecord> {
    if c.email == "" then table
    else if c.email !in table then table[c.email := ToRecord(c)]
    else table[c.email := Merged(table[c.email], ToRecord(c))]
  }

  function SeedTable(table: map<string, ClientRecord>, cs: seq<Client>): map<string, ClientRecord> {
    if cs == [] then table else Seeded(SeedTable(table, cs[..|cs| - 1]), cs[|cs| - 1])
  }

  // A link is keyed by the row's email and the inbound; the first flow stays.
  function Linked(links: map<(string, int), string>, id: int, c: Client): map<(string, int), string> {
    if c.email == "" || (c.email, id) in links then links else links[(c.email, id) := c.flow]
  }

  function SeedLinks(links: map<(string, int), string>, id: int, cs: seq<Client>): map<(string, int), string> {
    if cs == [] then links else Linked(SeedLinks(links, id, cs[..|cs| - 1]), id, cs[|cs| - 1])
  }

  function AllLinks(links: map<(string, int), string>, inbounds: seq<SeedInbound>): map<(string, int), string> {
    if inbounds == [] then links else
      var n := |inbounds| - 1;
      SeedLinks(AllLinks(links, inbounds[..n]), inbounds[n].id, inbounds[n].clients)
  }

  lemma {:induction false} SeedConcat(table: map<string, ClientRecord>, a: seq<Client>, b: seq<Client>)
    ensures SeedTable(table, a + b) == SeedTable(SeedTable(table, a), b)
  {
    if b == [] {
      assert a + b == a;
    } else {
      assert (a + b)[..|a + b| - 1] == a + b[..|b| - 1];
      SeedConcat(table, a, b[..|b| - 1]);
    }
  }

  method SeedClientsFromInbounds(existing: map<string, ClientRecord>, links: map<(string, int), string>, inbounds: seq<SeedInbound>)
    returns (byEmail: map<string, ClientRecord>, links': map<(string, int), string>)
    ensures byEmail == SeedTable(existing, AllClients(inbounds))
    ensures links' == AllLinks(links, inbounds)
  {
    byEmail, links' := existing, links;
    for i := 0 to |inbounds|
      invariant byEmail == SeedTable(existing, AllClients(inbounds[..i]))
      invariant links' == AllLinks(links, inbounds[..i])
    {
      var inbound := inbounds[i];
      ghost var table, before := byEmail, links';
      for j := 0 to |inbound.clients|
        invariant byEmail == SeedTable(table, inbound.clients[..j])
        invariant links' == SeedLinks(before, inbound.id, inbound.clients[..j])
      {
        assert inbound.clients[..j + 1][..j] == inbound.clients[..j];
        var c := inbound.clients[j];
        var email := c.email;
        if email == "" {
          continue;
        }
        var incoming := ToRecord(c);
        if email !in byEmail {
          byEmail := byEmail[email := incoming];
        } else {
          var row := new ClientRow(byEmail[email]);
          var other := new ClientRow(incoming);
          var conflicts := row.MergeClientRecord(other);
          byEmail := byEmail[email := row.rec];
        }
        if (email, inbound.id) !in links' {
          links' := links'[(email, inbound.id) := c.flow];
        }
      }
      assert inbound.clients[..|inbound.clients|] == inbound.clients;
      assert inbounds[..i + 1][..i] == inbounds[..i];
      SeedConcat(existing, AllClients(inbounds[..i]), inbound.clients);
    }
    assert inbounds[..|inbounds|] == inbounds;
  }

  // The records of one email's entries, in order.
  function Occurrences(cs: seq<Client>, email: string): seq<ClientRecord> {
    if cs == [] then [] else
      var n := |cs| - 1;
      if cs[n].email == email then Occurrences(cs[..n], email) + [ToRecord(cs[n])] else Occurrences(cs[..n], email)
  }

  // A seeded row is the fold of the merge over the email's occurrences, after the
  // row the table already had.
  lemma {:induction false} SeedIsFold(table: map<string, ClientRecord>, cs: seq<Client>, email: string)
    requires email != ""
    ensures var all := (if email in table then [table[email]] else []) + Occurrences(cs, email);
      && (email in SeedTable(table, cs) <==> all != [])
      && (all != [] ==> SeedTable(table, cs)[email] == Fold(all))
  {
    hide Merged;
    hide ToRecord;
    var start := if email in table then [table[email]] else [];
    if cs == [] {
      assert start + [] == start;
    } else {
      var n := |cs| - 1;
      SeedIsFold(table, cs[..n], email);
      if cs[n].email == email {
        var prior := start + Occurrences(cs[..n], email);
        assert start + Occurrences(cs, email) == prior + [ToRecord(cs[n])];
        assert (prior + [ToRecord(cs[n])])[..|prior|] == prior;
      }
    }
  }

  lemma {:induction false} OccurrencesOf(cs: seq<Client>, email: string, r: ClientRecord)
    ensures r in Occurrences(cs, email) <==> exists c :: c in cs && c.email == email && ToRecord(c) == r
  {
    if cs != [] {
      var n := |cs| - 1;
      assert cs == cs[..n] + [cs[n]];
      OccurrencesOf(cs[..n], email, r);
    }
  }

  // Seeding from the same entries in any order of inbounds and clients leaves each
  // email the same quota, expiry, IP limit, times and enable flag.
  lemma SeedOrderIrrelevant(q: Quantity, table: map<string, ClientRecord>, cs: seq<Client>, ds: seq<Client>, email: string)
    requires email != "" && (forall c :: c in cs <==> c in ds)
    ensures email in SeedTable(table, cs) <==> email in SeedTable(table, ds)
    ensures email in SeedTable(table, cs) ==>
              Of(q, SeedTable(table, cs)[email]) == Of(q, SeedTable(table, ds)[email]) &&
              SeedTable(table, cs)[email].enable == SeedTable(table, ds)[email].enable
  {
    SeedIsFold(table, cs, email);
    SeedIsFold(table, ds, email);
    var start := if email in table then [table[email]] else [];
    var a, b := start + Occurrences(cs, email), start + Occurrences(ds, email);
    forall r ensures r in a <==> r in b {
      OccurrencesOf(cs, email, r);
      OccurrencesOf(ds, email, r);
    }
    assert SetOf(a) == SetOf(b);
    EmptyTogether(a, b);
    if a != [] {
      OrderIrrelevant(q, a, b);
    }
  }

  lemma EmptyTogether(a: seq<ClientRecord>, b: seq<ClientRecord>)
    requires forall r :: r in a <==> r in b
    ensures a == [] <==> b == []
  {
    assert |a| > 0 ==> a[0] in a;
    assert |b| > 0 ==> b[0] in b;
  }

  // The flows of one email's entries in the lists of one inbound, in order.
  function FlowsIn(cs: seq<Client>, email: string): seq<string> {
    if cs == [] then [] else
      var n := |cs| - 1;
      if cs[n].email == email then FlowsIn(cs[..n], email) + [cs[n].flow] else FlowsIn(cs[..n], email)
  }

  function FlowsOf(inbounds: seq<SeedInbound>, id: int, email: string): seq<string> {
    if inbounds == [] then [] else
      var n := |inbounds| - 1;
      FlowsOf(inbounds[..n], id, email) + if inbounds[n].id == id then FlowsIn(inbounds[n].clients, email) else []
  }

  // The link kept under a key when the flows are met in order.
  function FirstLink(links: map<(string, int), string>, key: (string, int), flows: seq<string>): Option<string> {
    if key in links then Some(links[key]) else if key.0 == "" || flows == [] then None else Some(flows[0])
  }

  function LinkAt(links: map<(string, int), string>, key: (string, int)): Option<string> {
    if key in links then Some(links[key]) else None
  }

  lemma {:induction false} SeedLinksHold(links: map<(string, int), string>, id: int, cs: seq<Client>, key: (string, int))
    ensures LinkAt(SeedLinks(links, id, cs), key) == FirstLink(links, key, if key.1 == id then FlowsIn(cs, key.0) else [])
  {
    if cs != [] { SeedLinksHold(links, id, cs[..|cs| - 1], key); }
  }

  // After seeding there is one link for each email and inbound that has an entry for
  // it, with the flow of the first entry, and links that were there stay.
  lemma {:induction false} LinksAreFirstFlows(links: map<(string, int), string>, inbounds: seq<SeedInbound>, key: (string, int))
    ensures LinkAt(AllLinks(links, inbounds), key) == FirstLink(links, key, FlowsOf(inbounds, key.1, key.0))
  {
    if inbounds != [] {
      var n := |inbounds| - 1;
      var prior := AllLinks(links, inbounds[..n]);
      LinksAreFirstFlows(links, inbounds[..n], key);
      SeedLinksHold(prior, inbounds[n].id, inbounds[n].clients, key);
    }
  }
}
