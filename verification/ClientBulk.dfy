// BulkCreate: many payloads, one pass over the email snapshot, one addition per
// target inbound.
module ClientBulk {
  import opened Text
  import opened ClientModel
  import opened ClientIndex
  import opened ClientMutations
  import opened ClientSnapshot
  import opened ClientService

  // Random draws a payload may consume: a subId and one credential of each kind.
  datatype Draws = Draws(subId: string, id: string, password: string, auth: string)

  datatype Payload = Payload(client: Client, inboundIds: seq<int>, draws: Draws)

  datatype Prepared = Prepared(client: Client, inboundIds: seq<int>, draws: Draws)

  datatype Why =
    | MissingEmail | BadEmail | BadSubId | NoInbounds | EmailTaken | SubIdTaken
    | InboundMissing | AddFailed(reason: Reason)

  datatype Skip = Skip(email: string, why: Why)

  predicate HasForbiddenChar(s: string) {
    exists i :: 0 <= i < |s| && (s[i] == '/' || s[i] == '\\' || s[i] == ' ' || (s[i] as int) < 0x20 || (s[i] as int) == 0x7f)
  }

  // The credential an inbound's protocol needs, drawn when it is missing or, for
  // shadowsocks, does not fit the method.
  function FillDefaults(c: Client, p: Protocol, fits: bool, draws: Draws): (r: Client)
    ensures SameTerms(r, c) && r.subId == c.subId && r.enable == c.enable && r.flow == c.flow && r.createdAt == c.createdAt
    ensures c.id != "" ==> r.id == c.id
    ensures c.auth != "" ==> r.auth == c.auth
    ensures c.password != "" && (p.Shadowsocks? ==> fits) ==> r.password == c.password
  {
    match p
    case VMess => if c.id == "" then c.(id := draws.id) else c
    case VLess => if c.id == "" then c.(id := draws.id) else c
    case Trojan => if c.password == "" then c.(password := draws.password) else c
    case Shadowsocks => if c.password == "" || !fits then c.(password := draws.password) else c
    case Hysteria => if c.auth == "" then c.(auth := draws.auth) else c
    case _ => c
  }

  // ---------- what a created client holds, by payload ----------

  // The credential of the payload where it gives one that serves, else the drawn one for
  // the protocols that need it.
  predicate Credentials(x: Client, given: Client, ids: seq<int>, inbounds: map<int, Inbound>, fits: (int, string) -> bool, draws: Draws) {
    && x.id == (if given.id == "" && (exists ib :: ib in ids && ib in inbounds && inbounds[ib].protocol in {VMess, VLess}) then draws.id else given.id)
    && x.auth == (if given.auth == "" && (exists ib :: ib in ids && ib in inbounds && inbounds[ib].protocol == Hysteria) then draws.auth else given.auth)
    && x.password == (if exists ib :: ib in ids && ib in inbounds && PasswordDrawn(ib, inbounds[ib].protocol, given.password, fits)
                      then draws.password else given.password)
  }

  predicate PasswordDrawn(ib: int, p: Protocol, password: string, fits: (int, string) -> bool) {
    (p == Trojan && password == "") || (p == Shadowsocks && (password == "" || !fits(ib, password)))
  }

  // Everything the caller decides but the credentials and the flow.
  predicate SameTerms(x: Client, given: Client) {
    && x.email == given.email && x.limitIp == given.limitIp && x.totalGB == given.totalGB && x.expiryTime == given.expiryTime
    && x.tgId == given.tgId && x.group == given.group && x.comment == given.comment && x.reset == given.reset
    && x.security == given.security && x.reverse == given.reverse
  }

  function GivenOr(t: int, now: int): int { if t == 0 then now else t }

  // A prepared client: as given, enabled, dated, with a subId.
  predicate PreparedAs(c: Client, payload: Payload, now: int) {
    && SameTerms(c, payload.client) && c.enable && c.subId == EffectiveSubId(payload) != ""
    && c.id == payload.client.id && c.password == payload.client.password && c.auth == payload.client.auth && c.flow == payload.client.flow
    && c.createdAt == GivenOr(payload.client.createdAt, now)
  }

  // A client queued for the inbound ib, of the prepared entry p.
  ghost predicate QueuedAs(c: Client, p: Prepared, ib: int, inbounds: map<int, Inbound>, fits: (int, string) -> bool) {
    && ib in inbounds && ib in p.inboundIds
    && SameTerms(c, p.client) && c.subId == p.client.subId && c.enable == p.client.enable && c.createdAt == p.client.createdAt
    && c.flow == (if inbounds[ib].flowCapable then p.client.flow else "")
    && Credentials(c, p.client, p.inboundIds, inbounds, fits, p.draws)
  }

  // The entry of a created payload in one of its inbounds, as they were at the call.
  ghost predicate CreatedAs(x: Client, payload: Payload, ib: int, inbounds: map<int, Inbound>, fits: (int, string) -> bool, now: int) {
    && ib in inbounds && SameTerms(x, payload.client) && x.enable && x.subId == EffectiveSubId(payload)
    && x.flow == (if inbounds[ib].flowCapable then payload.client.flow else "")
    && Credentials(x, payload.client, payload.inboundIds, inbounds, fits, payload.draws)
    && x.createdAt == GivenOr(payload.client.createdAt, now) && x.updatedAt == now
  }

  // With drawn credentials that are not blank every client has the key of its inbound's
  // protocol; entries and rows agree on the key.
  lemma FilledHasKey(c: Client, p: Protocol, fits: bool, draws: Draws)
    requires draws.id != "" && draws.password != "" && draws.auth != "" && c.email != "" && !p.OtherProtocol?
    ensures KeyOf(p, FillDefaults(c, p, fits, draws)) != "" && KeyOf(p, c) == RecordKey(p, ToRecord(c))
  {}

  function WithInboundFlow(c: Client, ib: Inbound): Client {
    if ib.flowCapable then c else c.(flow := "")
  }

  // ---------- preparing the payloads ----------

  predicate Increasing(s: seq<nat>) {
    forall j, k :: 0 <= j < k < |s| ==> s[j] < s[k]
  }

  // prep[j] comes from payload from[j], in order, with its email and inbounds and
  // a subId; no two share a lower-cased email.
  ghost predicate PreparedFrom(payloads: seq<Payload>, n: nat, prep: seq<Prepared>, from: seq<nat>, now: int) {
    && |from| == |prep| && Increasing(from)
    && (forall j :: 0 <= j < |prep| ==> from[j] < n <= |payloads| && FromPayload(prep[j], payloads[from[j]], now))
    && (forall j, k :: 0 <= j < k < |prep| ==> Lower(prep[j].client.email) != Lower(prep[k].client.email))
  }

  predicate FromPayload(p: Prepared, payload: Payload, now: int) {
    p.client.email != "" && PreparedAs(p.client, payload, now) && p.inboundIds == payload.inboundIds != [] && p.draws == payload.draws
  }

  function EffectiveSubId(p: Payload): string {
    if p.client.subId == "" then p.draws.subId else p.client.subId
  }

  // Payload i is turned away before any lookup, for the reason given.
  ghost predicate Malformed(payloads: seq<Payload>, i: nat, why: Why)
    requires i < |payloads|
  {
    var email := payloads[i].client.email;
    match why
    case MissingEmail => email == ""
    case BadEmail => HasForbiddenChar(email)
    case BadSubId => HasForbiddenChar(payloads[i].client.subId)
    case NoInbounds => payloads[i].inboundIds == []
    case EmailTaken => exists j :: 0 <= j < i && payloads[j].client.email != "" && Lower(payloads[j].client.email) == Lower(email)
    case SubIdTaken => exists j :: 0 <= j < i && EffectiveSubId(payloads[j]) == EffectiveSubId(payloads[i]) &&
                                   Lower(payloads[j].client.email) != Lower(email)
    case _ => false
  }

  // The skips so far, and the payloads they are of.
  ghost predicate SkippedFrom(payloads: seq<Payload>, n: nat, skipped: seq<Skip>, at: seq<nat>) {
    && |at| == |skipped| && n <= |payloads|
    && forall k :: 0 <= k < |at| ==> at[k] < n && Malformed(payloads, at[k], skipped[k].why)
  }

  // What the pass has seen: emails and subIds of payloads before i.
  ghost predicate Seen(payloads: seq<Payload>, i: nat, seenEmail: set<string>, seenSubId: map<string, string>)
    requires i <= |payloads|
  {
    && (forall le :: le in seenEmail ==>
          exists j :: 0 <= j < i && payloads[j].client.email != "" && Lower(payloads[j].client.email) == le)
    && (forall s :: s in seenSubId ==>
          exists j :: 0 <= j < i && EffectiveSubId(payloads[j]) == s && Lower(payloads[j].client.email) == seenSubId[s])
  }

  method Screen(payloads: seq<Payload>, i: nat, seenEmail: set<string>, seenSubId: map<string, string>)
    returns (why: Option<Why>)
    requires i < |payloads| && Seen(payloads, i, seenEmail, seenSubId)
    ensures why.Some? ==> Malformed(payloads, i, why.value)
    ensures why.None? ==> payloads[i].client.email != "" && payloads[i].inboundIds != [] &&
                          Lower(payloads[i].client.email) !in seenEmail
  {
    var client := payloads[i].client;
    if client.email == "" {
      return Some(MissingEmail);
    }
    if HasForbiddenChar(client.email) {
      return Some(BadEmail);
    }
    if HasForbiddenChar(client.subId) {
      return Some(BadSubId);
    }
    if |payloads[i].inboundIds| == 0 {
      return Some(NoInbounds);
    }
    var subId := if client.subId == "" then payloads[i].draws.subId else client.subId;
    var le := Lower(client.email);
    if le in seenEmail {
      return Some(EmailTaken);
    }
    if subId in seenSubId && seenSubId[subId] != le {
      return Some(SubIdTaken);
    }
    return None;
  }

  method Prepare(payloads: seq<Payload>, now: int)
    returns (prep: seq<Prepared>, skipped: seq<Skip>, ghost from: seq<nat>, ghost at: seq<nat>)
    requires forall p :: p in payloads ==> p.draws.subId != ""
    ensures |prep| + |skipped| == |payloads|
    ensures PreparedFrom(payloads, |payloads|, prep, from, now) && SkippedFrom(payloads, |payloads|, skipped, at)
    ensures forall i :: 0 <= i < |payloads| ==> i in from || i in at
  {
    prep, skipped, from, at := [], [], [], [];
    var seenEmail: set<string> := {};
    var seenSubId: map<string, string> := map[];
    assert PreparedFrom(payloads, 0, prep, from, now) && SkippedFrom(payloads, 0, skipped, at) && Seen(payloads, 0, seenEmail, seenSubId);
    hide PreparedFrom, SkippedFrom, Seen, Malformed, FromPayload;
    for i := 0 to |payloads|
      invariant |prep| + |skipped| == i
      invariant PreparedFrom(payloads, i, prep, from, now) && SkippedFrom(payloads, i, skipped, at)
      invariant forall k :: 0 <= k < i ==> k in from || k in at
      invariant forall j :: 0 <= j < |prep| ==> Lower(prep[j].client.email) in seenEmail
      invariant Seen(payloads, i, seenEmail, seenSubId)
    {
      var payload := payloads[i];
      assert payload in payloads;
      var why := Screen(payloads, i, seenEmail, seenSubId);
      if why.Some? {
        var email := if payload.client.email == "" then "(missing email)" else payload.client.email;
        SkippedStep(payloads, i, prep, from, skipped, at, seenEmail, seenSubId, Skip(email, why.value), now);
        skipped, at := skipped + [Skip(email, why.value)], at + [i];
        continue;
      }
      var client := payload.client;
      if client.subId == "" {
        client := client.(subId := payload.draws.subId);
      }
      client := client.(enable := true, updatedAt := now,
                        createdAt := if client.createdAt == 0 then now else client.createdAt);
      var p := Prepared(client, payload.inboundIds, payload.draws);
      PreparedIs(payload, client, now);
      PreparedStep(payloads, i, prep, from, skipped, at, p, now);
      SeenStep(payloads, i, seenEmail, seenSubId);
      seenEmail := seenEmail + {Lower(client.email)};
      seenSubId := seenSubId[client.subId := Lower(client.email)];
      prep, from := prep + [p], from + [i];
    }
  }

  lemma PreparedIs(payload: Payload, c: Client, now: int)
    requires payload.client.email != "" && payload.inboundIds != [] && payload.draws.subId != ""
    requires c == payload.client.(subId := EffectiveSubId(payload), enable := true, updatedAt := now,
                                  createdAt := GivenOr(payload.client.createdAt, now))
    ensures FromPayload(Prepared(c, payload.inboundIds, payload.draws), payload, now)
  {}

  lemma PreparedStep(payloads: seq<Payload>, i: nat, prep: seq<Prepared>, from: seq<nat>,
                     skipped: seq<Skip>, at: seq<nat>, p: Prepared, now: int)
    requires i < |payloads| && PreparedFrom(payloads, i, prep, from, now) && FromPayload(p, payloads[i], now)
    requires SkippedFrom(payloads, i, skipped, at)
    requires forall j :: 0 <= j < |prep| ==> Lower(prep[j].client.email) != Lower(p.client.email)
    ensures PreparedFrom(payloads, i + 1, prep + [p], from + [i], now) && SkippedFrom(payloads, i + 1, skipped, at)
  {
    hide FromPayload, Malformed;
  }

  lemma SkippedStep(payloads: seq<Payload>, i: nat, prep: seq<Prepared>, from: seq<nat>, skipped: seq<Skip>, at: seq<nat>,
                    seenEmail: set<string>, seenSubId: map<string, string>, skip: Skip, now: int)
    requires i < |payloads| && PreparedFrom(payloads, i, prep, from, now) && SkippedFrom(payloads, i, skipped, at)
    requires Seen(payloads, i, seenEmail, seenSubId) && Malformed(payloads, i, skip.why)
    ensures PreparedFrom(payloads, i + 1, prep, from, now) && SkippedFrom(payloads, i + 1, skipped + [skip], at + [i])
    ensures Seen(payloads, i + 1, seenEmail, seenSubId)
  {
    hide Malformed;
  }

  lemma SeenStep(payloads: seq<Payload>, i: nat, seenEmail: set<string>, seenSubId: map<string, string>)
    requires i < |payloads| && Seen(payloads, i, seenEmail, seenSubId) && payloads[i].client.email != ""
    ensures var le := Lower(payloads[i].client.email);
            Seen(payloads, i + 1, seenEmail + {le}, seenSubId[EffectiveSubId(payloads[i]) := le])
  {}

  // ---------- grouping by inbound ----------

  // One inbound's share: the clients to add and the prepared entries they are of.
  datatype Share = Share(clients: seq<Client>, idx: seq<nat>)

  ghost predicate GoodShare(prep: seq<Prepared>, ib: int, share: Share, inbounds: map<int, Inbound>, fits: (int, string) -> bool) {
    && |share.clients| == |share.idx|
    && forall k :: 0 <= k < |share.idx| ==>
         share.idx[k] < |prep| && QueuedAs(share.clients[k], prep[share.idx[k]], ib, inbounds, fits)
  }

  ghost predicate GoodShares(prep: seq<Prepared>, order: seq<int>, shares: map<int, Share>,
                             inbounds: map<int, Inbound>, fits: (int, string) -> bool) {
    && (forall j, k :: 0 <= j < k < |order| ==> order[j] != order[k])
    && (forall ib :: ib in order <==> ib in shares)
    && (forall ib :: ib in shares ==> GoodShare(prep, ib, shares[ib], inbounds, fits))
  }

  ghost predicate Enrolled(p: Prepared, idx: nat, shares: map<int, Share>) {
    forall ib :: ib in p.inboundIds ==> ib in shares && idx in shares[ib].idx
  }

  method Enrol(prep: seq<Prepared>, idx: nat, c: Client, inbounds: map<int, Inbound>, order: seq<int>, shares: map<int, Share>,
               ghost fits: (int, string) -> bool)
    returns (order': seq<int>, shares': map<int, Share>)
    requires idx < |prep| && FilledFrom(c, prep[idx], inbounds, fits) && GoodShares(prep, order, shares, inbounds, fits)
    requires forall ib :: ib in prep[idx].inboundIds ==> ib in inbounds
    ensures GoodShares(prep, order', shares', inbounds, fits) && Enrolled(prep[idx], idx, shares')
    ensures forall j :: 0 <= j < |prep| && Enrolled(prep[j], j, shares) ==> Enrolled(prep[j], j, shares')
  {
    hide GoodShares, QueuedAs, FilledFrom;
    order', shares' := order, shares;
    var ids := prep[idx].inboundIds;
    for i := 0 to |ids|
      invariant GoodShares(prep, order', shares', inbounds, fits) && Widened(shares, shares')
      invariant InShares(ids[..i], idx, shares')
    {
      var ib := ids[i];
      assert ib in prep[idx].inboundIds && ids[..i + 1] == ids[..i] + [ib];
      Queued(c, prep[idx], ib, inbounds, fits);
      order', shares' := EnrolAt(prep, idx, WithInboundFlow(c, inbounds[ib]), ib, order', shares', inbounds, fits);
    }
    assert ids[..|ids|] == ids;
  }

  // A client after the credential pass over all its inbounds.
  ghost predicate FilledFrom(c: Client, p: Prepared, inbounds: map<int, Inbound>, fits: (int, string) -> bool) {
    && SameTerms(c, p.client) && c.subId == p.client.subId && c.enable == p.client.enable && c.createdAt == p.client.createdAt
    && c.flow == p.client.flow && Credentials(c, p.client, p.inboundIds, inbounds, fits, p.draws)
  }

  lemma Queued(c: Client, p: Prepared, ib: int, inbounds: map<int, Inbound>, fits: (int, string) -> bool)
    requires FilledFrom(c, p, inbounds, fits) && ib in p.inboundIds && ib in inbounds
    ensures QueuedAs(WithInboundFlow(c, inbounds[ib]), p, ib, inbounds, fits)
  {}

  ghost predicate InShares(ids: seq<int>, idx: nat, shares: map<int, Share>) {
    forall ib :: ib in ids ==> ib in shares && idx in shares[ib].idx
  }

  // No inbound and no index is lost.
  ghost predicate Widened(shares: map<int, Share>, shares': map<int, Share>) {
    forall ib :: ib in shares ==> ib in shares' && forall j :: j in shares[ib].idx ==> j in shares'[ib].idx
  }

  // One client into one inbound's share.
  method EnrolAt(prep: seq<Prepared>, idx: nat, c: Client, ib: int, order: seq<int>, shares: map<int, Share>,
                 ghost inbounds: map<int, Inbound>, ghost fits: (int, string) -> bool)
    returns (order': seq<int>, shares': map<int, Share>)
    requires idx < |prep| && QueuedAs(c, prep[idx], ib, inbounds, fits) && GoodShares(prep, order, shares, inbounds, fits)
    ensures GoodShares(prep, order', shares', inbounds, fits) && Widened(shares, shares') && ib in shares' && idx in shares'[ib].idx
  {
    hide QueuedAs;
    order', shares' := order, shares;
    if ib !in shares' {
      order' := order' + [ib];
      shares' := shares'[ib := Share([], [])];
    }
    shares' := shares'[ib := Share(shares'[ib].clients + [c], shares'[ib].idx + [idx])];
  }

  // The subId of the record with exactly this email.
  function RecordSubId(records: map<int, ClientRecord>, email: string): (r: Option<string>)
    ensures r.Some? ==> exists id :: id in records && records[id].email == email && records[id].subId == r.value
    ensures r.None? ==> forall id :: id in records ==> records[id].email != email
  {
    var ids := set id | id in records && records[id].email == email;
    assert forall id :: id in records && records[id].email == email ==> id in ids;
    if ids == {} then None else Some(records[Lowest(ids)].subId)
  }

  // The credential pass over one entry's inbounds; None when an inbound is missing.
  method FillAll(p: Prepared, inbounds: map<int, Inbound>, fits: (int, string) -> bool) returns (r: Option<Client>)
    ensures r.Some? ==> FilledFrom(r.value, p, inbounds, fits) && forall ib :: ib in p.inboundIds ==> ib in inbounds
    ensures r.None? ==> exists ib :: ib in p.inboundIds && ib !in inbounds
  {
    hide Credentials;
    var c := p.client;
    NothingFilled(c, inbounds, fits, p.draws);
    for i := 0 to |p.inboundIds|
      invariant SameTerms(c, p.client) && c.subId == p.client.subId && c.enable == p.client.enable && c.createdAt == p.client.createdAt
      invariant c.flow == p.client.flow && Credentials(c, p.client, p.inboundIds[..i], inbounds, fits, p.draws)
      invariant forall k :: 0 <= k < i ==> p.inboundIds[k] in inbounds
    {
      var ib := p.inboundIds[i];
      if ib !in inbounds {
        return None;
      }
      FillStep(c, p.client, p.inboundIds[..i], ib, inbounds, fits, p.draws);
      assert p.inboundIds[..i + 1] == p.inboundIds[..i] + [ib];
      c := FillDefaults(c, inbounds[ib].protocol, fits(ib, c.password), p.draws);
    }
    assert p.inboundIds[..|p.inboundIds|] == p.inboundIds;
    return Some(c);
  }

  lemma NothingFilled(c: Client, inbounds: map<int, Inbound>, fits: (int, string) -> bool, draws: Draws)
    ensures Credentials(c, c, [], inbounds, fits, draws)
  {}

  lemma FillStep(c: Client, given: Client, ids: seq<int>, ib: int, inbounds: map<int, Inbound>, fits: (int, string) -> bool, draws: Draws)
    requires Credentials(c, given, ids, inbounds, fits, draws) && ib in inbounds
    ensures Credentials(FillDefaults(c, inbounds[ib].protocol, fits(ib, c.password), draws), given, ids + [ib], inbounds, fits, draws)
  {
    assert forall j :: j in ids + [ib] <==> j in ids || j == ib;
  }

  // A prepared entry is turned away by the tables as they were, for the reason given.
  ghost predicate Clashing(p: Prepared, inbounds: map<int, Inbound>, records: map<int, ClientRecord>, why: Why) {
    match why
    case EmailTaken => exists id :: id in records && records[id].email == p.client.email && records[id].subId != p.client.subId
    case SubIdTaken => exists id :: id in records && records[id].subId == p.client.subId &&
                                    Lower(records[id].email) != Lower(p.client.email)
    case InboundMissing => exists ib :: ib in p.inboundIds && ib !in inbounds
    case _ => false
  }

  method Group(prep: seq<Prepared>, inbounds: map<int, Inbound>, records: map<int, ClientRecord>, fits: (int, string) -> bool)
    returns (failed: seq<bool>, reason: seq<Why>, order: seq<int>, shares: map<int, Share>)
    ensures |failed| == |reason| == |prep| && GoodShares(prep, order, shares, inbounds, fits)
    ensures forall j :: 0 <= j < |prep| && !failed[j] ==> Enrolled(prep[j], j, shares)
    ensures forall j :: 0 <= j < |prep| && failed[j] ==> Clashing(prep[j], inbounds, records, reason[j])
  {
    hide FilledFrom, Enrolled;
    failed, reason, order, shares := [], [], [], map[];
    assert GoodShares(prep, order, shares, inbounds, fits);
    hide GoodShares;
    for idx := 0 to |prep|
      invariant |failed| == |reason| == idx && GoodShares(prep, order, shares, inbounds, fits)
      invariant forall j :: 0 <= j < idx && !failed[j] ==> Enrolled(prep[j], j, shares)
      invariant forall j :: 0 <= j < idx && failed[j] ==> Clashing(prep[j], inbounds, records, reason[j])
    {
      var client := prep[idx].client;
      var existing := RecordSubId(records, client.email);
      var owners := set id | id in records && records[id].subId == client.subId;
      var ownerClash := false;
      if owners != {} {
        // Several records may carry the subId; the lookup keeps one of them.
        ghost var some := Pick(owners);
        var owner :| owner in owners;
        ownerClash := Lower(records[owner].email) != Lower(client.email);
      }
      if existing.Some? && existing.value != client.subId {
        failed, reason := failed + [true], reason + [EmailTaken];
        continue;
      }
      if ownerClash {
        failed, reason := failed + [true], reason + [SubIdTaken];
        continue;
      }
      var filled := FillAll(prep[idx], inbounds, fits);
      if filled.None? {
        failed, reason := failed + [true], reason + [InboundMissing];
        continue;
      }
      order, shares := Enrol(prep, idx, filled.value, inbounds, order, shares, fits);
      failed, reason := failed + [false], reason + [MissingEmail];
    }
  }

  // ---------- adding the shares ----------

  // The subId each lower-cased email of the batch is to have.
  function OwnerMap(prep: seq<Prepared>): map<string, string> {
    if prep == [] then map[] else
      var n := |prep| - 1;
      OwnerMap(prep[..n])[Lower(prep[n].client.email) := prep[n].client.subId]
  }

  lemma {:induction false} OwnerOf(prep: seq<Prepared>, j: nat)
    requires forall k, l :: 0 <= k < l < |prep| ==> Lower(prep[k].client.email) != Lower(prep[l].client.email)
    requires j < |prep|
    ensures Lower(prep[j].client.email) in OwnerMap(prep)
    ensures OwnerMap(prep)[Lower(prep[j].client.email)] == prep[j].client.subId
  {
    var n := |prep| - 1;
    if j < n {
      OwnerOf(prep[..n], j);
      assert Lower(prep[j].client.email) != Lower(prep[n].client.email);
    }
  }

  ghost predicate WellPrepared(prep: seq<Prepared>) {
    && (forall j :: 0 <= j < |prep| ==> prep[j].client.email != "" && prep[j].client.subId != "")
    && (forall k, l :: 0 <= k < l < |prep| ==> Lower(prep[k].client.email) != Lower(prep[l].client.email))
  }

  lemma PreparedWell(payloads: seq<Payload>, prep: seq<Prepared>, from: seq<nat>, now: int)
    requires PreparedFrom(payloads, |payloads|, prep, from, now)
    ensures WellPrepared(prep)
  {}

  lemma ShareOwned(prep: seq<Prepared>, ib: int, share: Share, inbounds: map<int, Inbound>, fits: (int, string) -> bool)
    requires WellPrepared(prep) && GoodShare(prep, ib, share, inbounds, fits)
    ensures OwnedBatch(share.clients, OwnerMap(prep))
  {
    forall c | c in share.clients && c.email != ""
      ensures Lower(c.email) in OwnerMap(prep) && c.subId == OwnerMap(prep)[Lower(c.email)] && c.subId != ""
    {
      var k :| 0 <= k < |share.clients| && share.clients[k] == c;
      OwnerOf(prep, share.idx[k]);
    }
  }

  // The entry a queued client becomes.
  predicate DatedAs(x: Client, c: Client, now: int) {
    x == c.(createdAt := GivenOr(c.createdAt, now), updatedAt := now)
  }

  ghost predicate Holds(inbounds: map<int, Inbound>, ib: int, c: Client, now: int) {
    ib in inbounds && exists x :: x in inbounds[ib].clients && DatedAs(x, c, now)
  }

  // Some queued client of the prepared entry p is in the inbound ib.
  ghost predicate Placed(db: map<int, Inbound>, ib: int, p: Prepared, inbounds: map<int, Inbound>, fits: (int, string) -> bool, now: int) {
    exists c :: QueuedAs(c, p, ib, inbounds, fits) && Holds(db, ib, c, now)
  }

  // A done addition leaves an entry for each of its clients, and the entries of
  // every other inbound.
  lemma AddedHolds(db: Db, b: Batch, now: int, snapshot: Option<map<string, string>>)
    requires Consistent(db) && |b.randoms| == |b.cs|
    ensures var edit := AddEdit(db, b.ib, b.cs, b.randoms, now, snapshot, b.plan);
      var post := Apply(db, b.ib, edit);
      && Consistent(post)
      && (edit.outcome.Done? ==> forall k :: 0 <= k < |b.cs| && b.cs[k].subId != "" ==> Holds(post.inbounds, b.ib, b.cs[k], now))
      && (forall ib, c :: ib != b.ib && Holds(db.inbounds, ib, c, now) ==> Holds(post.inbounds, ib, c, now))
  {
    hide ClientIndex.SyncDb;
    var edit := AddEdit(db, b.ib, b.cs, b.randoms, now, snapshot, b.plan);
    var post := Apply(db, b.ib, edit);
    if edit.list.Some? {
      RewriteConsistent(db, b.ib, edit.list.value);
      var stored := Stamped(b.cs, b.randoms, now);
      forall k | 0 <= k < |b.cs| && b.cs[k].subId != "" ensures Holds(post.inbounds, b.ib, b.cs[k], now) {
        assert stored[k] in post.inbounds[b.ib].clients && DatedAs(stored[k], b.cs[k], now);
      }
    }
    forall ib, c | ib != b.ib && Holds(db.inbounds, ib, c, now) ensures Holds(post.inbounds, ib, c, now) {
      assert ib in post.inbounds && post.inbounds[ib] == db.inbounds[ib];
    }
  }

  lemma AddBatchesStep(db: Db, bs: seq<Batch>, b: Batch, now: int, snapshot: Option<map<string, string>>)
    requires |b.randoms| == |b.cs| && forall x :: x in bs ==> |x.randoms| == |x.cs|
    ensures var prior := AddBatches(db, bs, now, snapshot);
      AddBatches(db, bs + [b], now, snapshot)
      == Apply(prior, b.ib, AddEdit(prior, b.ib, b.cs, b.randoms, now, snapshot, b.plan))
  {
    hide ClientIndex.SyncDb;
    assert (bs + [b])[..|bs|] == bs;
  }

  method MarkFailed(failed: seq<bool>, reason: seq<Why>, idx: seq<nat>, why: Why) returns (failed': seq<bool>, reason': seq<Why>)
    requires |failed| == |reason| && forall i :: i in idx ==> i < |failed|
    ensures |failed'| == |reason'| == |failed|
    ensures forall j :: 0 <= j < |failed| ==> (failed'[j] <==> failed[j] || j in idx)
    ensures forall j :: 0 <= j < |failed| && failed'[j] ==> reason'[j] == if failed[j] then reason[j] else why
  {
    failed', reason' := failed, reason;
    for i := 0 to |idx|
      invariant |failed'| == |reason'| == |failed|
      invariant forall j :: 0 <= j < |failed| ==> (failed'[j] <==> failed[j] || j in idx[..i])
      invariant forall j :: 0 <= j < |failed| && failed'[j] ==> reason'[j] == if failed[j] then reason[j] else why
    {
      assert idx[..i + 1] == idx[..i] + [idx[i]];
      var j := idx[i];
      assert j in idx;
      if !failed'[j] {
        reason' := reason'[j := why];
      }
      failed' := failed'[j := true];
    }
    assert idx[..|idx|] == idx;
  }

  // Entry j's client sits in each of its inbounds among order[..i].
  ghost predicate Delivered(db: map<int, Inbound>, p: Prepared, order: seq<int>, i: nat,
                            inbounds: map<int, Inbound>, fits: (int, string) -> bool, now: int)
    requires i <= |order|
  {
    forall k :: 0 <= k < i && order[k] in p.inboundIds ==> Placed(db, order[k], p, inbounds, fits, now)
  }

  lemma DeliveredStep(before: Db, b: Batch, now: int, snapshot: Option<map<string, string>>, prep: seq<Prepared>,
                      j: nat, order: seq<int>, i: nat, share: Share, inbounds: map<int, Inbound>, fits: (int, string) -> bool)
    requires Consistent(before) && |b.randoms| == |b.cs| && WellPrepared(prep)
    requires j < |prep| && i < |order| && b.ib == order[i] && b.cs == share.clients && GoodShare(prep, b.ib, share, inbounds, fits)
    requires forall k, l :: 0 <= k < l < |order| ==> order[k] != order[l]
    requires Delivered(before.inbounds, prep[j], order, i, inbounds, fits, now)
    requires b.ib in prep[j].inboundIds ==> j in share.idx
    requires b.ib in prep[j].inboundIds ==> AddEdit(before, b.ib, b.cs, b.randoms, now, snapshot, b.plan).outcome.Done?
    ensures Delivered(Apply(before, b.ib, AddEdit(before, b.ib, b.cs, b.randoms, now, snapshot, b.plan)).inbounds, prep[j], order, i + 1,
                      inbounds, fits, now)
  {
    hide ClientIndex.SyncDb;
    hide ClientMutations.AddEdit;
    hide Holds, Credentials, Consistent;
    AddedHolds(before, b, now, snapshot);
    var post := Apply(before, b.ib, AddEdit(before, b.ib, b.cs, b.randoms, now, snapshot, b.plan));
    forall k | 0 <= k < i + 1 && order[k] in prep[j].inboundIds ensures Placed(post.inbounds, order[k], prep[j], inbounds, fits, now) {
      if k == i {
        var m :| 0 <= m < |share.idx| && share.idx[m] == j;
        assert QueuedAs(b.cs[m], prep[j], b.ib, inbounds, fits);
        assert Holds(post.inbounds, b.ib, b.cs[m], now);
      } else {
        var c :| QueuedAs(c, prep[j], order[k], inbounds, fits) && Holds(before.inbounds, order[k], c, now);
        assert Holds(post.inbounds, order[k], c, now);
      }
    }
  }

  // The k-th addition, on the database the earlier ones left, was refused.
  ghost predicate Refuses(db: Db, bs: seq<Batch>, k: nat, now: int, snapshot: map<string, string>, reason: Reason)
    requires k < |bs| && forall b :: b in bs ==> |b.randoms| == |b.cs|
  {
    assert forall b :: b in bs[..k] ==> b in bs;
    assert bs[k] in bs;
    var prior := AddBatches(db, bs[..k], now, Some(snapshot));
    AddEdit(prior, bs[k].ib, bs[k].cs, bs[k].randoms, now, Some(snapshot), bs[k].plan).outcome == Failed(reason)
  }

  // Some addition that p was part of was refused.
  ghost predicate TurnedAway(db: Db, p: Prepared, bs: seq<Batch>, now: int, snapshot: map<string, string>, why: Why)
    requires forall b :: b in bs ==> |b.randoms| == |b.cs|
  {
    why.AddFailed? && exists k :: 0 <= k < |bs| && bs[k].ib in p.inboundIds && Refuses(db, bs, k, now, snapshot, why.reason)
  }

  lemma TurnedAwayStays(db: Db, p: Prepared, bs: seq<Batch>, b: Batch, now: int, snapshot: map<string, string>, why: Why)
    requires |b.randoms| == |b.cs| && forall x :: x in bs ==> |x.randoms| == |x.cs|
    requires TurnedAway(db, p, bs, now, snapshot, why)
    ensures TurnedAway(db, p, bs + [b], now, snapshot, why)
  {
    hide ClientIndex.SyncDb;
    hide ClientMutations.AddEdit;
    var k :| 0 <= k < |bs| && bs[k].ib in p.inboundIds && Refuses(db, bs, k, now, snapshot, why.reason);
    assert (bs + [b])[..k] == bs[..k];
    assert (bs + [b])[k].ib in p.inboundIds && Refuses(db, bs + [b], k, now, snapshot, why.reason);
  }

  lemma TurnedAwayNow(db: Db, p: Prepared, bs: seq<Batch>, b: Batch, now: int, snapshot: map<string, string>, reason: Reason)
    requires |b.randoms| == |b.cs| && forall x :: x in bs ==> |x.randoms| == |x.cs|
    requires b.ib in p.inboundIds
    requires AddEdit(AddBatches(db, bs, now, Some(snapshot)), b.ib, b.cs, b.randoms, now, Some(snapshot), b.plan).outcome == Failed(reason)
    ensures TurnedAway(db, p, bs + [b], now, snapshot, AddFailed(reason))
  {
    hide ClientIndex.SyncDb;
    hide ClientMutations.AddEdit;
    assert (bs + [b])[..|bs|] == bs;
    assert (bs + [b])[|bs|].ib in p.inboundIds && Refuses(db, bs + [b], |bs|, now, snapshot, reason);
  }

  method Submit(panel: Panel, prep: seq<Prepared>, failed: seq<bool>, reason: seq<Why>, order: seq<int>,
                shares: map<int, Share>, snapshot: map<string, string>, now: int, plans: int -> Plan,
                ghost fits: (int, string) -> bool)
    returns (failed': seq<bool>, reason': seq<Why>, ghost bs: seq<Batch>)
    requires Consistent(panel.View()) && WellPrepared(prep) && GoodShares(prep, order, shares, panel.inbounds, fits)
    requires |failed| == |reason| == |prep|
    requires forall j :: 0 <= j < |prep| && !failed[j] ==> Enrolled(prep[j], j, shares)
    modifies panel
    ensures WellFormedBatches(bs, OwnerMap(prep))
    ensures panel.View() == AddBatches(old(panel.View()), bs, now, Some(snapshot)) && Consistent(panel.View())
    ensures |failed'| == |reason'| == |prep|
    ensures forall j :: 0 <= j < |prep| && !failed'[j] ==>
              forall ib :: ib in prep[j].inboundIds ==> Placed(panel.inbounds, ib, prep[j], old(panel.inbounds), fits, now)
    ensures forall j :: 0 <= j < |prep| && failed'[j] ==>
              if failed[j] then reason'[j] == reason[j]
              else TurnedAway(old(panel.View()), prep[j], bs, now, snapshot, reason'[j])
  {
    hide ClientIndex.SyncDb;
    hide ClientMutations.AddEdit;
    failed', reason', bs := failed, reason, [];
    ghost var start := panel.View();
    for i := 0 to |order|
      invariant |failed'| == |reason'| == |prep|
      invariant WellFormedBatches(bs, OwnerMap(prep)) && Consistent(panel.View())
      invariant panel.View() == AddBatches(start, bs, now, Some(snapshot))
      invariant forall j :: 0 <= j < |prep| && !failed'[j] ==>
                  Enrolled(prep[j], j, shares) && Delivered(panel.inbounds, prep[j], order, i, start.inbounds, fits, now)
      invariant forall j :: 0 <= j < |prep| && failed'[j] ==>
                  if failed[j] then reason'[j] == reason[j]
                  else TurnedAway(start, prep[j], bs, now, snapshot, reason'[j])
      invariant forall j :: 0 <= j < |prep| && failed[j] ==> failed'[j]
    {
      var ib := order[i];
      assert ib in order;
      var share := shares[ib];
      ShareOwned(prep, ib, share, start.inbounds, fits);
      var b := Batch(ib, share.clients, seq(|share.clients|, _ => ""), plans(ib));
      ghost var before, failedBefore, reasonBefore, earlier := panel.View(), failed', reason', bs;
      AddBatchesStep(start, bs, b, now, Some(snapshot));
      AddedHolds(before, b, now, Some(snapshot));
      var r := panel.AddInboundClient(ib, b.cs, b.randoms, now, Some(snapshot), b.plan);
      bs := bs + [b];
      if r.Failed? {
        failed', reason' := MarkFailed(failed', reason', share.idx, AddFailed(r.reason));
      }
      forall j | 0 <= j < |prep| && failed'[j]
        ensures if failed[j] then reason'[j] == reason[j]
                else TurnedAway(start, prep[j], bs, now, snapshot, reason'[j])
      {
        if failedBefore[j] {
          assert reason'[j] == reasonBefore[j];
          if !failed[j] {
            TurnedAwayStays(start, prep[j], earlier, b, now, snapshot, reason'[j]);
          }
        } else {
          assert b.ib in prep[j].inboundIds;
          TurnedAwayNow(start, prep[j], earlier, b, now, snapshot, r.reason);
        }
      }
      forall j | 0 <= j < |prep| && !failed'[j] ensures Delivered(panel.inbounds, prep[j], order, i + 1, start.inbounds, fits, now) {
        assert !failedBefore[j];
        DeliveredStep(before, b, now, Some(snapshot), prep, j, order, i, share, start.inbounds, fits);
      }
    }
    forall j | 0 <= j < |prep| && !failed'[j]
      ensures forall ib :: ib in prep[j].inboundIds ==> Placed(panel.inbounds, ib, prep[j], start.inbounds, fits, now)
    {
      forall ib | ib in prep[j].inboundIds ensures Placed(panel.inbounds, ib, prep[j], start.inbounds, fits, now) {
        assert Enrolled(prep[j], j, shares);
        assert ib in order;
        var k :| 0 <= k < |order| && order[k] == ib;
        assert order[k] in prep[j].inboundIds;
      }
    }
  }

  // ---------- the whole call ----------

  // The payload's client sits, as the payload asks, in every inbound it names.
  ghost predicate AddedEverywhere(db: map<int, Inbound>, payload: Payload, inbounds: map<int, Inbound>, fits: (int, string) -> bool, now: int) {
    payload.inboundIds != [] &&
    forall ib :: ib in payload.inboundIds ==> ib in db && exists x :: x in db[ib].clients && CreatedAs(x, payload, ib, inbounds, fits, now)
  }

  lemma PlacedMeansAdded(db: map<int, Inbound>, p: Prepared, payload: Payload, inbounds: map<int, Inbound>, fits: (int, string) -> bool, now: int)
    requires FromPayload(p, payload, now)
    requires forall ib :: ib in p.inboundIds ==> Placed(db, ib, p, inbounds, fits, now)
    ensures AddedEverywhere(db, payload, inbounds, fits, now)
  {
    forall ib | ib in payload.inboundIds
      ensures ib in db && exists x :: x in db[ib].clients && CreatedAs(x, payload, ib, inbounds, fits, now)
    {
      assert Placed(db, ib, p, inbounds, fits, now);
      var c :| QueuedAs(c, p, ib, inbounds, fits) && Holds(db, ib, c, now);
      var x :| x in db[ib].clients && DatedAs(x, c, now);
      QueuedIsCreated(x, c, p, payload, ib, inbounds, fits, now);
    }
  }

  lemma QueuedIsCreated(x: Client, c: Client, p: Prepared, payload: Payload, ib: int, inbounds: map<int, Inbound>,
                        fits: (int, string) -> bool, now: int)
    requires FromPayload(p, payload, now) && QueuedAs(c, p, ib, inbounds, fits) && DatedAs(x, c, now)
    ensures CreatedAs(x, payload, ib, inbounds, fits, now)
  {
    hide PasswordDrawn;
  }

  // The payload indices of the entries that went through.
  ghost function Passed(from: seq<nat>, failed: seq<bool>): set<nat>
    requires |from| == |failed|
  {
    if from == [] then {} else
      var n := |from| - 1;
      if failed[n] then Passed(from[..n], failed[..n]) else Passed(from[..n], failed[..n]) + {from[n]}
  }

  lemma {:induction false} PassedFacts(from: seq<nat>, failed: seq<bool>)
    requires |from| == |failed|
    ensures forall j :: 0 <= j < |from| && !failed[j] ==> from[j] in Passed(from, failed)
    ensures forall i :: i in Passed(from, failed) ==> exists j :: 0 <= j < |from| && !failed[j] && from[j] == i
  {
    if from != [] {
      var n := |from| - 1;
      PassedFacts(from[..n], failed[..n]);
      forall i | i in Passed(from, failed) ensures exists j :: 0 <= j < |from| && !failed[j] && from[j] == i {
        if i in Passed(from[..n], failed[..n]) {
          var j :| 0 <= j < n && !failed[..n][j] && from[..n][j] == i;
          assert !failed[j] && from[j] == i;
        } else {
          assert !failed[n] && from[n] == i;
        }
      }
    }
  }

  method Tally(prep: seq<Prepared>, ghost from: seq<nat>, failed: seq<bool>, reason: seq<Why>, early: seq<Skip>)
    returns (created: nat, skipped: seq<Skip>)
    requires |from| == |prep| == |failed| == |reason| && Increasing(from)
    ensures created + |skipped| == |early| + |prep| && created == |Passed(from, failed)|
    ensures early <= skipped
    ensures forall j :: 0 <= j < |prep| && failed[j] ==> Skip(prep[j].client.email, reason[j]) in skipped
  {
    created, skipped := 0, early;
    for idx := 0 to |prep|
      invariant created + |skipped| == |early| + idx && created == |Passed(from[..idx], failed[..idx])|
      invariant early <= skipped
      invariant forall j :: 0 <= j < idx && failed[j] ==> Skip(prep[j].client.email, reason[j]) in skipped
    {
      PassedStep(from, failed, idx);
      if failed[idx] {
        skipped := skipped + [Skip(prep[idx].client.email, reason[idx])];
      } else {
        created := created + 1;
      }
    }
    assert from[..|prep|] == from && failed[..|prep|] == failed;
  }

  lemma PassedStep(from: seq<nat>, failed: seq<bool>, n: nat)
    requires |from| == |failed| && n < |from| && Increasing(from)
    ensures |Passed(from[..n + 1], failed[..n + 1])| == |Passed(from[..n], failed[..n])| + (if failed[n] then 0 else 1)
  {
    assert from[..n + 1][..n] == from[..n] && failed[..n + 1][..n] == failed[..n];
    PassedFacts(from[..n], failed[..n]);
    assert from[n] !in Passed(from[..n], failed[..n]);
  }

  // Why payload i was not created: it is malformed or repeats an earlier one, its
  // entry clashes with the tables, or an addition it was part of was refused.
  ghost predicate Explained(start: Db, payloads: seq<Payload>, i: nat, bs: seq<Batch>, now: int, why: Why)
    requires i < |payloads| && forall b :: b in bs ==> |b.randoms| == |b.cs|
  {
    Malformed(payloads, i, why) ||
    exists p :: FromPayload(p, payloads[i], now) &&
      (Clashing(p, start.inbounds, start.records, why) ||
       TurnedAway(start, p, bs, now, AllEmailSubIds(start.inbounds), why))
  }

  // Every payload is created or skipped with its reason; the created ones were
  // added to all their inbounds; and the run is the one a fresh scan before each
  // inbound would give.
  method BulkCreate(panel: Panel, payloads: seq<Payload>, now: int, plans: int -> Plan, fits: (int, string) -> bool)
    returns (created: nat, skipped: seq<Skip>, ghost ok: set<nat>, ghost bs: seq<Batch>)
    requires Consistent(panel.View())
    requires forall p :: p in payloads ==> p.draws.subId != ""
    modifies panel
    ensures created + |skipped| == |payloads| && created == |ok|
    ensures forall i :: i in ok ==> i < |payloads| && AddedEverywhere(panel.inbounds, payloads[i], old(panel.inbounds), fits, now)
    ensures (forall b :: b in bs ==> |b.randoms| == |b.cs|) && panel.View() == AddBatches(old(panel.View()), bs, now, None)
    ensures forall i :: 0 <= i < |payloads| && i !in ok ==>
              exists s :: s in skipped && Explained(old(panel.View()), payloads, i, bs, now, s.why)
    ensures Consistent(panel.View())
    ensures old(OneSubId(panel.inbounds)) ==> OneSubId(panel.inbounds)
  {
    hide ClientIndex.SyncDb;
    hide ClientMutations.AddEdit;
    hide Malformed, Clashing, TurnedAway, Explained, AddedEverywhere, Placed, Consistent, Enrolled, GoodShares, PreparedAs;
    created, skipped, ok, bs := 0, [], {}, [];
    if |payloads| == 0 {
      return;
    }
    var snapshot := AllEmailSubIds(panel.inbounds);
    ghost var start := panel.View();
    var prep;
    ghost var from, at;
    prep, skipped, from, at := Prepare(payloads, now);
    ghost var early := skipped;
    PreparedWell(payloads, prep, from, now);
    var failed, reason, order, shares := Group(prep, panel.inbounds, panel.records, fits);
    ghost var clashed, first := failed, reason;
    failed, reason, bs := Submit(panel, prep, failed, reason, order, shares, snapshot, now, plans, fits);
    StaleRunIsFreshRun(start, bs, now, OwnerMap(prep));
    created, skipped := Tally(prep, from, failed, reason, skipped);
    ok := Passed(from, failed);
    PassedAdded(panel.inbounds, payloads, prep, from, failed, start.inbounds, fits, now);
    AllExplained(start, payloads, prep, from, early, at, clashed, first, failed, reason, skipped, bs, now, snapshot);
  }

  lemma PassedAdded(db: map<int, Inbound>, payloads: seq<Payload>, prep: seq<Prepared>, from: seq<nat>, failed: seq<bool>,
                    inbounds: map<int, Inbound>, fits: (int, string) -> bool, now: int)
    requires PreparedFrom(payloads, |payloads|, prep, from, now) && |failed| == |prep|
    requires forall j :: 0 <= j < |prep| && !failed[j] ==> forall ib :: ib in prep[j].inboundIds ==> Placed(db, ib, prep[j], inbounds, fits, now)
    ensures forall i :: i in Passed(from, failed) ==> i < |payloads| && AddedEverywhere(db, payloads[i], inbounds, fits, now)
  {
    hide AddedEverywhere, Placed;
    PassedFacts(from, failed);
    forall i | i in Passed(from, failed) ensures i < |payloads| && AddedEverywhere(db, payloads[i], inbounds, fits, now) {
      var j :| 0 <= j < |from| && !failed[j] && from[j] == i;
      PlacedMeansAdded(db, prep[j], payloads[i], inbounds, fits, now);
    }
  }

  lemma AllExplained(start: Db, payloads: seq<Payload>, prep: seq<Prepared>, from: seq<nat>, early: seq<Skip>, at: seq<nat>,
                     clashed: seq<bool>, first: seq<Why>, failed: seq<bool>, reason: seq<Why>, skipped: seq<Skip>,
                     bs: seq<Batch>, now: int, snapshot: map<string, string>)
    requires PreparedFrom(payloads, |payloads|, prep, from, now) && SkippedFrom(payloads, |payloads|, early, at)
    requires forall i :: 0 <= i < |payloads| ==> i in from || i in at
    requires |prep| == |clashed| == |first| == |failed| == |reason| && snapshot == AllEmailSubIds(start.inbounds)
    requires forall b :: b in bs ==> |b.randoms| == |b.cs|
    requires forall j :: 0 <= j < |prep| && clashed[j] ==> Clashing(prep[j], start.inbounds, start.records, first[j])
    requires forall j :: 0 <= j < |prep| && failed[j] ==>
               if clashed[j] then reason[j] == first[j] else TurnedAway(start, prep[j], bs, now, snapshot, reason[j])
    requires early <= skipped
    requires forall j :: 0 <= j < |prep| && failed[j] ==> Skip(prep[j].client.email, reason[j]) in skipped
    ensures forall i :: 0 <= i < |payloads| && i !in Passed(from, failed) ==>
              exists s :: s in skipped && Explained(start, payloads, i, bs, now, s.why)
  {
    hide ClientIndex.SyncDb;
    hide Malformed;
    hide Clashing;
    hide TurnedAway;
    PassedFacts(from, failed);
    forall i | 0 <= i < |payloads| && i !in Passed(from, failed)
      ensures exists s :: s in skipped && Explained(start, payloads, i, bs, now, s.why)
    {
      if i in at {
        var k :| 0 <= k < |at| && at[k] == i;
        assert skipped[k] == early[k];
        assert skipped[k] in skipped && Explained(start, payloads, i, bs, now, skipped[k].why);
      } else {
        var j :| 0 <= j < |from| && from[j] == i;
        var s := Skip(prep[j].client.email, reason[j]);
        assert FromPayload(prep[j], payloads[i], now);
        assert s in skipped && Explained(start, payloads, i, bs, now, s.why);
      }
    }
  }
}
