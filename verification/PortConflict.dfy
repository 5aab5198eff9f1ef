// The port guard of the inbounds table and the names it hands out: no two inbounds
// of one node may listen on the same socket, and every tag stays unique.
module PortConflict {
  import opened Text
  import opened ClientModel

  datatype Bits = Bits(tcp: bool, udp: bool)

  // The columns the guard reads. The three settings keys are empty or false when
  // absent; streamNetwork is the network of the stream settings.
  datatype Row = Row(
    nodeId: Option<int>, listen: string, port: int, protocol: Protocol, streamNetwork: string,
    network: string, allowedNetwork: string, udp: bool, tag: string)

  const WIRE_GUARD := OtherProtocol("wireguard")
  const TUNNEL := OtherProtocol("tunnel")
  const MIXED := OtherProtocol("mixed")

  // ---------- transports ----------

  function Split(s: string): (parts: seq<string>)
    ensures parts != []
  {
    if s == "" then [""]
    else
      var rest := Split(s[1..]);
      if s[0] == ',' then [""] + rest else [[s[0]] + rest[0]] + rest[1..]
  }

  predicate Names(csv: string, transport: string) {
    var parts := Split(csv);
    exists i :: 0 <= i < |parts| && Trim(parts[i]) == transport
  }

  // The settings key that overrules the stream settings, "" when there is none.
  function OwnChoice(r: Row): string {
    if r.protocol == Shadowsocks then r.network else if r.protocol == TUNNEL then r.allowedNetwork else ""
  }

  // The sockets an inbound opens.
  predicate OpensUdp(r: Row) {
    || r.protocol in {Hysteria, WIRE_GUARD}
    || (if OwnChoice(r) != "" then Names(OwnChoice(r), "udp")
        else r.streamNetwork in {"kcp", "quic"} || (r.protocol == MIXED && r.udp))
  }

  predicate OpensTcp(r: Row) {
    r.protocol !in {Hysteria, WIRE_GUARD} &&
    if OwnChoice(r) != "" then Names(OwnChoice(r), "tcp") || !Names(OwnChoice(r), "udp")
    else r.streamNetwork !in {"kcp", "quic"}
  }

  function Transports(r: Row): Bits {
    Bits(OpensTcp(r), OpensUdp(r))
  }

  method InboundTransports(r: Row) returns (bits: Bits)
    ensures bits == Transports(r)
  {
    if r.protocol == Hysteria || r.protocol == WIRE_GUARD {
      return Bits(false, true);
    }
    bits := Bits(false, false);
    if r.streamNetwork == "kcp" || r.streamNetwork == "quic" {
      bits := bits.(udp := true);
    } else {
      bits := bits.(tcp := true);
    }
    if r.protocol == Shadowsocks || r.protocol == TUNNEL {
      var n := if r.protocol == TUNNEL then r.allowedNetwork else r.network;
      if n != "" {
        bits := Bits(false, false);
        var parts := Split(n);
        for i := 0 to |parts|
          invariant bits.tcp <==> exists j :: 0 <= j < i && Trim(parts[j]) == "tcp"
          invariant bits.udp <==> exists j :: 0 <= j < i && Trim(parts[j]) == "udp"
        {
          var part := Trim(parts[i]);
          if part == "tcp" {
            bits := bits.(tcp := true);
          } else if part == "udp" {
            bits := bits.(udp := true);
          }
        }
      }
    } else if r.protocol == MIXED && r.udp {
      bits := bits.(udp := true);
    }
    if bits == Bits(false, false) {
      bits := Bits(true, false);
    }
  }

  lemma AlwaysOpensSomething(r: Row)
    ensures Transports(r).tcp || Transports(r).udp
  {
  }

  // ---------- conflicts ----------

  predicate IsAnyListen(s: string) {
    s in {"", "0.0.0.0", "::", "::0"}
  }

  predicate ListenOverlaps(a: string, b: string) {
    IsAnyListen(a) || IsAnyListen(b) || a == b
  }

  predicate SharesTransport(a: Bits, b: Bits) {
    (a.tcp && b.tcp) || (a.udp && b.udp)
  }

  // Two inbounds of one node that would need the same socket.
  predicate Conflicts(a: Row, b: Row) {
    && a.nodeId == b.nodeId && a.port == b.port
    && ListenOverlaps(a.listen, b.listen) && SharesTransport(Transports(a), Transports(b))
  }

  lemma ConflictIsMutual(a: Row, b: Row)
    ensures Conflicts(a, b) <==> Conflicts(b, a)
  {
  }

  datatype Transport = Tcp | Udp

  datatype Socket = Socket(node: Option<int>, address: string, port: int, transport: Transport)

  // What an inbound binds: its port on its address, or on every address, once for each
  // transport it opens.
  predicate Binds(r: Row, s: Socket) {
    && s.node == r.nodeId && s.port == r.port
    && (r.listen in {"", "0.0.0.0", "::", "::0"} || s.address == r.listen)
    && (s.transport == Tcp ==> OpensTcp(r)) && (s.transport == Udp ==> OpensUdp(r))
  }

  // Two inbounds conflict exactly when some socket is bound by both.
  lemma ConflictIsSharedSocket(a: Row, b: Row)
    ensures Conflicts(a, b) <==> exists s :: Binds(a, s) && Binds(b, s)
  {
    hide OpensTcp, OpensUdp;
    if Conflicts(a, b) {
      var address := if IsAnyListen(a.listen) then b.listen else a.listen;
      var t := if OpensTcp(a) && OpensTcp(b) then Tcp else Udp;
      assert Binds(a, Socket(a.nodeId, address, a.port, t)) && Binds(b, Socket(a.nodeId, address, a.port, t));
    }
    if s :| Binds(a, s) && Binds(b, s) {
      assert s.transport == Tcp || s.transport == Udp;
    }
  }

  // An ignored id of 0 ignores nothing.
  predicate Ignored(id: int, ignoreId: int) {
    ignoreId > 0 && id == ignoreId
  }

  predicate PortTaken(rows: map<int, Row>, row: Row, ignoreId: int) {
    exists id :: id in rows && !Ignored(id, ignoreId) && Conflicts(rows[id], row)
  }

  predicate TagTaken(rows: map<int, Row>, tag: string, ignoreId: int) {
    exists id :: id in rows && !Ignored(id, ignoreId) && rows[id].tag == tag
  }

  datatype ConflictDetail = ConflictDetail(inboundId: int, tag: string, listen: string, port: int, transports: Bits)

  // ---------- tags ----------

  function NodeTagPrefix(nodeId: Option<int>): string {
    if nodeId.None? then "" else "n" + FormatInt(nodeId.value) + "-"
  }

  function TransportTagSuffix(b: Bits): string {
    if b.tcp && b.udp then "tcpudp" else if b.tcp then "tcp" else if b.udp then "udp" else "any"
  }

  function ComposeInboundTag(port: int, nodeId: Option<int>, bits: Bits): string {
    NodeTagPrefix(nodeId) + "in-" + FormatInt(port) + "-" + TransportTagSuffix(bits)
  }

  // The composed tag, or the composed tag with a dash and a number.
  ghost predicate AutoGenerated(tag: string, port: int, nodeId: Option<int>, bits: Bits) {
    var base := ComposeInboundTag(port, nodeId, bits);
    tag == base || exists n :: Numbered(tag, base, n)
  }

  predicate Numbered(tag: string, base: string, n: string) {
    tag == base + "-" + n && n != "" && AllDigits(n)
  }

  lemma NumberedExactly(tag: string, base: string)
    ensures (exists n :: Numbered(tag, base, n)) <==>
            |base| + 1 < |tag| && tag[..|base| + 1] == base + "-" && AllDigits(tag[|base| + 1..])
  {
    var k := |base| + 1;
    forall n | Numbered(tag, base, n) ensures k < |tag| && tag[..k] == base + "-" && n == tag[k..] {
      assert tag[..k] == base + "-" && tag[k..] == n;
    }
    if k < |tag| && tag[..k] == base + "-" && AllDigits(tag[k..]) {
      assert tag == tag[..k] + tag[k..];
      assert Numbered(tag, base, tag[k..]);
    }
  }

  method IsAutoGeneratedTag(tag: string, port: int, nodeId: Option<int>, bits: Bits) returns (auto: bool)
    ensures auto == AutoGenerated(tag, port, nodeId, bits)
  {
    hide ComposeInboundTag, Numbered;
    var base := ComposeInboundTag(port, nodeId, bits);
    NumberedExactly(tag, base);
    if tag == base {
      return true;
    }
    var prefix := base + "-";
    if |tag| < |prefix| || tag[..|prefix|] != prefix || tag[|prefix|..] == "" {
      return false;
    }
    var suffix := tag[|prefix|..];
    for i := 0 to |suffix|
      invariant forall j :: 0 <= j < i ==> IsDigit(suffix[j])
    {
      if suffix[i] < '0' || suffix[i] > '9' {
        return false;
      }
    }
    return true;
  }

  const CANDIDATES := 100

  function Candidate(base: string, i: nat): string {
    if i < 2 then base else base + "-" + FormatNat(i)
  }

  // The first free candidate from the i-th on.
  function FirstFree(rows: map<int, Row>, base: string, ignoreId: int, i: nat): Option<string>
    decreases CANDIDATES - i
  {
    if i >= CANDIDATES then None
    else if !TagTaken(rows, Candidate(base, i), ignoreId) then Some(Candidate(base, i))
    else FirstFree(rows, base, ignoreId, i + 1)
  }

  function BaseTag(row: Row): string {
    ComposeInboundTag(row.port, row.nodeId, Transports(row))
  }

  // The requested tag when it is free, else a generated one.
  function ResolvedTag(rows: map<int, Row>, row: Row, ignoreId: int): Option<string> {
    if row.tag != "" && !TagTaken(rows, row.tag, ignoreId) then Some(row.tag)
    else FirstFree(rows, BaseTag(row), ignoreId, 1)
  }

  predicate FreeFirstAt(rows: map<int, Row>, base: string, ignoreId: int, i: nat, k: nat) {
    && i <= k < CANDIDATES && !TagTaken(rows, Candidate(base, k), ignoreId)
    && forall j :: i <= j < k ==> TagTaken(rows, Candidate(base, j), ignoreId)
  }

  lemma {:induction false} FirstFreeHolds(rows: map<int, Row>, base: string, ignoreId: int, i: nat)
    requires i <= CANDIDATES
    ensures var r := FirstFree(rows, base, ignoreId, i);
            (r.None? ==> forall k :: i <= k < CANDIDATES ==> TagTaken(rows, Candidate(base, k), ignoreId)) &&
            (r.Some? ==> exists k :: FreeFirstAt(rows, base, ignoreId, i, k) && r.value == Candidate(base, k))
    decreases CANDIDATES - i
  {
    hide TagTaken, Candidate;
    if i < CANDIDATES {
      if TagTaken(rows, Candidate(base, i), ignoreId) {
        FirstFreeHolds(rows, base, ignoreId, i + 1);
        var r := FirstFree(rows, base, ignoreId, i + 1);
        if r.Some? {
          var k :| FreeFirstAt(rows, base, ignoreId, i + 1, k) && r.value == Candidate(base, k);
          assert FreeFirstAt(rows, base, ignoreId, i, k);
        }
      } else {
        assert FreeFirstAt(rows, base, ignoreId, i, i);
      }
    }
  }

  // A generated tag is unused and recognised as generated; generation fails exactly
  // when all candidates are in use.
  lemma GeneratedTagHolds(rows: map<int, Row>, row: Row, ignoreId: int)
    ensures var r := FirstFree(rows, BaseTag(row), ignoreId, 1);
            (r.Some? ==> !TagTaken(rows, r.value, ignoreId) && AutoGenerated(r.value, row.port, row.nodeId, Transports(row))) &&
            (r.None? <==> forall k :: 1 <= k < CANDIDATES ==> TagTaken(rows, Candidate(BaseTag(row), k), ignoreId))
  {
    var base := BaseTag(row);
    FirstFreeHolds(rows, base, ignoreId, 1);
    var r := FirstFree(rows, base, ignoreId, 1);
    if r.Some? {
      var k :| FreeFirstAt(rows, base, ignoreId, 1, k) && r.value == Candidate(base, k);
      assert k >= 2 ==> Numbered(r.value, base, FormatNat(k));
    }
  }

  lemma ResolvedIsFree(rows: map<int, Row>, row: Row, ignoreId: int)
    ensures ResolvedTag(rows, row, ignoreId).Some? ==> !TagTaken(rows, ResolvedTag(rows, row, ignoreId).value, ignoreId)
  {
    FirstFreeHolds(rows, BaseTag(row), ignoreId, 1);
  }

  // ---------- one tag, one socket ----------

  function SuffixOf(bits: Bits, tail: string): string {
    TransportTagSuffix(bits) + tail
  }

  predicate Tail(tail: string) {
    tail == "" || tail[0] == '-'
  }

  lemma Regroup(p: string, f: string, x: string, tail: string)
    ensures p + "in-" + f + "-" + x + tail == p + "in-" + (f + "-" + (x + tail))
  {
    assert f + "-" + (x + tail) == f + "-" + x + tail;
  }

  lemma AutoHasTail(tag: string, port: int, nodeId: Option<int>, bits: Bits) returns (tail: string)
    requires AutoGenerated(tag, port, nodeId, bits)
    ensures Tail(tail) && tag == NodeTagPrefix(nodeId) + "in-" + (FormatInt(port) + "-" + SuffixOf(bits, tail))
  {
    hide FormatInt, NodeTagPrefix, TransportTagSuffix, AllDigits;
    var base := ComposeInboundTag(port, nodeId, bits);
    if tag == base {
      tail := "";
      assert tag == base + "";
    } else {
      var n :| Numbered(tag, base, n);
      tail := "-" + n;
      assert tag == base + tail;
    }
    Regroup(NodeTagPrefix(nodeId), FormatInt(port), TransportTagSuffix(bits), tail);
  }

  lemma SuffixUnique(a: Bits, x: string, b: Bits, y: string)
    requires Tail(x) && Tail(y) && SuffixOf(a, x) == SuffixOf(b, y)
    ensures a == b
  {
    var s, t := SuffixOf(a, x), SuffixOf(b, y);
    var p, q := TransportTagSuffix(a), TransportTagSuffix(b);
    assert s[..|p|] == p && t[..|q|] == q && s[|p|..] == x && t[|q|..] == y;
    assert s[0] == p[0] && t[0] == q[0];
    if p[0] == 't' {
      assert |s| > 3 && s[3] == 'u' <==> a.udp by {
        assert |p| > 3 ==> s[3] == p[3];
        assert |p| == 3 && |s| > 3 ==> s[3] == x[0];
      }
      assert |t| > 3 && t[3] == 'u' <==> b.udp by {
        assert |q| > 3 ==> t[3] == q[3];
        assert |q| == 3 && |t| > 3 ==> t[3] == y[0];
      }
    }
  }

  lemma PortAndSuffixUnique(portA: int, a: Bits, x: string, portB: int, b: Bits, y: string)
    requires Tail(x) && Tail(y)
    requires FormatInt(portA) + "-" + SuffixOf(a, x) == FormatInt(portB) + "-" + SuffixOf(b, y)
    ensures portA == portB && a == b
  {
    hide FormatInt, SuffixOf;
    var s, t := "-" + SuffixOf(a, x), "-" + SuffixOf(b, y);
    assert FormatInt(portA) + s == FormatInt(portA) + "-" + SuffixOf(a, x);
    assert FormatInt(portB) + t == FormatInt(portB) + "-" + SuffixOf(b, y);
    IntPrefixInjective(portA, s, portB, t);
    assert s[1..] == SuffixOf(a, x) && t[1..] == SuffixOf(b, y);
    SuffixUnique(a, x, b, y);
  }

  // A recognised tag determines its node, port and transports.
  lemma TagNamesOneSocket(tag: string, portA: int, nodeA: Option<int>, a: Bits, portB: int, nodeB: Option<int>, b: Bits)
    requires AutoGenerated(tag, portA, nodeA, a) && AutoGenerated(tag, portB, nodeB, b)
    ensures portA == portB && nodeA == nodeB && a == b
  {
    var x := AutoHasTail(tag, portA, nodeA, a);
    var y := AutoHasTail(tag, portB, nodeB, b);
    var s, t := FormatInt(portA) + "-" + SuffixOf(a, x), FormatInt(portB) + "-" + SuffixOf(b, y);
    PrefixSplits(nodeA, s, nodeB, t);
    PortAndSuffixUnique(portA, a, x, portB, b, y);
  }

  lemma PrefixSplits(nodeA: Option<int>, s: string, nodeB: Option<int>, t: string)
    requires NodeTagPrefix(nodeA) + "in-" + s == NodeTagPrefix(nodeB) + "in-" + t
    ensures nodeA == nodeB && s == t
  {
    hide FormatInt;
    var l, r := NodeTagPrefix(nodeA) + "in-" + s, NodeTagPrefix(nodeB) + "in-" + t;
    assert l[0] == if nodeA.None? then 'i' else 'n';
    assert r[0] == if nodeB.None? then 'i' else 'n';
    if nodeA.None? {
      assert l[3..] == s && r[3..] == t;
    } else {
      NodesSplit(nodeA.value, s, nodeB.value, t);
    }
  }

  lemma NodesSplit(a: int, s: string, b: int, t: string)
    requires "n" + FormatInt(a) + "-" + "in-" + s == "n" + FormatInt(b) + "-" + "in-" + t
    ensures a == b && s == t
  {
    hide FormatInt;
    var ls, rs := "-in-" + s, "-in-" + t;
    assert ("n" + FormatInt(a) + "-" + "in-" + s)[1..] == FormatInt(a) + ls;
    assert ("n" + FormatInt(b) + "-" + "in-" + t)[1..] == FormatInt(b) + rs;
    IntPrefixInjective(a, ls, b, rs);
    assert ls[4..] == s && rs[4..] == t;
  }

  // ---------- inserting and updating ----------

  // Protocols without stream settings are stored without them.
  function Normalized(row: Row): Row {
    if row.protocol in {VMess, VLess, Trojan, Shadowsocks, Hysteria} then row else row.(streamNetwork := "")
  }

  datatype Table = Table(rows: map<int, Row>, nextId: int)

  const EMPTY := Table(map[], 1)

  datatype Change = Insert(row: Row) | Update(id: int, row: Row)

  // The stored row after an accepted update: everything submitted but the node, and
  // a generated tag regenerated.
  ghost function Replacement(stored: Row, row: Row): Row {
    var submitted := Normalized(row).(nodeId := stored.nodeId);
    if AutoGenerated(stored.tag, stored.port, stored.nodeId, Transports(stored)) && row.tag == stored.tag
    then submitted.(tag := "") else submitted
  }

  ghost function Step(t: Table, c: Change): Table {
    match c
    case Insert(row) =>
      var r := Normalized(row);
      var tag := ResolvedTag(t.rows, r, 0);
      if PortTaken(t.rows, r, 0) || tag.None? then t
      else Table(t.rows[t.nextId := r.(tag := tag.value)], t.nextId + 1)
    case Update(id, row) =>
      if id !in t.rows || PortTaken(t.rows, Normalized(row), id) then t
      else
        var r := Replacement(t.rows[id], row);
        var tag := ResolvedTag(t.rows, r, id);
        if tag.None? then t else t.(rows := t.rows[id := r.(tag := tag.value)])
  }

  predicate Valid(t: Table) {
    t.nextId > 0 && forall id :: id in t.rows ==> 0 < id < t.nextId
  }

  predicate NoConflicts(rows: map<int, Row>) {
    forall i, j :: i in rows && j in rows && i != j ==> !Conflicts(rows[i], rows[j])
  }

  predicate TagsDistinct(rows: map<int, Row>) {
    forall i, j :: i in rows && j in rows && i != j ==> rows[i].tag != rows[j].tag
  }

  class InboundService {
    var rows: map<int, Row>
    var nextId: int

    ghost function View(): Table
      reads this
    {
      Table(rows, nextId)
    }

    constructor ()
      ensures View() == EMPTY
    {
      rows, nextId := map[], 1;
    }

    // The rows come back in no particular order; any conflicting one is reported.
    method CheckPortConflict(row: Row, ignoreId: int) returns (conflict: Option<ConflictDetail>)
      ensures conflict.Some? == PortTaken(rows, row, ignoreId)
      ensures conflict.Some? ==>
                var d := conflict.value;
                d.inboundId in rows && !Ignored(d.inboundId, ignoreId) && Conflicts(rows[d.inboundId], row) &&
                var c := rows[d.inboundId];
                var a, b := Transports(c), Transports(row);
                d == ConflictDetail(d.inboundId, c.tag, c.listen, c.port, Bits(a.tcp && b.tcp, a.udp && b.udp))
    {
      hide Transports;
      var newBits := InboundTransports(row);
      var left := rows.Keys;
      while left != {}
        invariant left <= rows.Keys
        invariant forall id :: id in rows && id !in left && !Ignored(id, ignoreId) ==> !Conflicts(rows[id], row)
        decreases left
      {
        ghost var some := Pick(left);
        var id :| id in left;
        left := left - {id};
        var c := rows[id];
        if c.port == row.port && !Ignored(id, ignoreId) && c.nodeId == row.nodeId && ListenOverlaps(c.listen, row.listen) {
          var bits := InboundTransports(c);
          var shared := Bits(bits.tcp && newBits.tcp, bits.udp && newBits.udp);
          if shared != Bits(false, false) {
            return Some(ConflictDetail(id, c.tag, c.listen, c.port, shared));
          }
        }
      }
      return None;
    }

    method TagExists(tag: string, ignoreId: int) returns (taken: bool)
      ensures taken == TagTaken(rows, tag, ignoreId)
    {
      var matching := set id | id in rows && !Ignored(id, ignoreId) && rows[id].tag == tag;
      taken := |matching| > 0;
      if id :| id in rows && !Ignored(id, ignoreId) && rows[id].tag == tag { assert id in matching; }
      if taken { ghost var some := Pick(matching); }
    }

    method GenerateInboundTag(row: Row, ignoreId: int) returns (tag: Option<string>)
      ensures tag == FirstFree(rows, BaseTag(row), ignoreId, 1)
    {
      var bits := InboundTransports(row);
      var candidate := ComposeInboundTag(row.port, row.nodeId, bits);
      var taken := TagExists(candidate, ignoreId);
      if !taken {
        return Some(candidate);
      }
      for i := 2 to CANDIDATES
        invariant FirstFree(rows, candidate, ignoreId, 1) == FirstFree(rows, candidate, ignoreId, i)
      {
        var c := candidate + "-" + FormatNat(i);
        taken := TagExists(c, ignoreId);
        if !taken {
          return Some(c);
        }
      }
      return None;
    }

    method ResolveInboundTag(row: Row, ignoreId: int) returns (tag: Option<string>)
      ensures tag == ResolvedTag(rows, row, ignoreId)
    {
      if row.tag != "" {
        var taken := TagExists(row.tag, ignoreId);
        if !taken {
          return Some(row.tag);
        }
      }
      tag := GenerateInboundTag(row, ignoreId);
    }

    method AddInbound(submitted: Row) returns (stored: bool)
      modifies this
      ensures View() == Step(old(View()), Insert(submitted))
      ensures stored == (rows != old(rows) || nextId != old(nextId))
      ensures Valid(old(View())) ==> (stored <==> Accepts(old(View()), Insert(submitted)))
    {
      if Valid(View()) { AcceptsExactly(View(), Insert(submitted)); }
      hide Accepts;
      var row := Normalized(submitted);
      var conflict := CheckPortConflict(row, 0);
      if conflict.Some? {
        return false;
      }
      var tag := ResolveInboundTag(row, 0);
      if tag.None? {
        return false;
      }
      rows := rows[nextId := row.(tag := tag.value)];
      nextId := nextId + 1;
      return true;
    }

    // The port check runs on the submitted node; the stored node is kept.
    method UpdateInbound(id: int, submitted: Row) returns (stored: bool)
      modifies this
      ensures View() == Step(old(View()), Update(id, submitted))
      ensures !stored ==> View() == old(View())
      ensures Valid(old(View())) ==> (stored <==> Accepts(old(View()), Update(id, submitted)))
    {
      if Valid(View()) { AcceptsExactly(View(), Update(id, submitted)); }
      hide Accepts;
      var row := Normalized(submitted);
      var conflict := CheckPortConflict(row, id);
      if conflict.Some? || id !in rows {
        return false;
      }
      var oldInbound := rows[id];
      row := row.(nodeId := oldInbound.nodeId);
      var oldBits := InboundTransports(oldInbound);
      var oldTagWasAuto := IsAutoGeneratedTag(oldInbound.tag, oldInbound.port, oldInbound.nodeId, oldBits);
      if oldTagWasAuto && row.tag == oldInbound.tag {
        row := row.(tag := "");
      }
      var tag := ResolveInboundTag(row, id);
      if tag.None? {
        return false;
      }
      rows := rows[id := row.(tag := tag.value)];
      return true;
    }
  }

  // ---------- what a change writes ----------

  // The submitted columns, with the stream network of the protocols that have one, under
  // the node given.
  predicate StoredAs(r: Row, submitted: Row, node: Option<int>) {
    && r.nodeId == node && r.listen == submitted.listen && r.port == submitted.port && r.protocol == submitted.protocol
    && r.network == submitted.network && r.allowedNetwork == submitted.allowedNetwork && r.udp == submitted.udp
    && r.streamNetwork == (if submitted.protocol in {VMess, VLess, Trojan, Shadowsocks, Hysteria} then submitted.streamNetwork else "")
  }

  // The tag asked for when no other inbound has it, else a generated one.
  ghost predicate TaggedAs(r: Row, wanted: string, rows: map<int, Row>, ownId: int) {
    if wanted != "" && forall id :: id in rows && id != ownId ==> rows[id].tag != wanted then r.tag == wanted
    else AutoGenerated(r.tag, r.port, r.nodeId, Transports(r)) && forall id :: id in rows && id != ownId ==> rows[id].tag != r.tag
  }

  lemma Retagged(rows: map<int, Row>, r: Row, ignoreId: int, ownId: int)
    requires forall id :: id in rows ==> (Ignored(id, ignoreId) <==> id == ownId)
    ensures var tag := ResolvedTag(rows, r, ignoreId); tag.Some? ==> TaggedAs(r.(tag := tag.value), r.tag, rows, ownId)
  {
    hide Transports, AutoGenerated, FirstFree, ComposeInboundTag;
    GeneratedTagHolds(rows, r, ignoreId);
    if ResolvedTag(rows, r, ignoreId).Some? { TagIsNoSocket(r, ResolvedTag(rows, r, ignoreId).value, r); }
  }

  predicate InUse(rows: map<int, Row>, tag: string) {
    exists id :: id in rows && rows[id].tag == tag
  }

  ghost predicate SocketTaken(rows: map<int, Row>, r: Row) {
    exists id :: id in rows && Collides(rows[id], r)
  }

  function Others(rows: map<int, Row>, id: int): map<int, Row> {
    map j | j in rows && j != id :: rows[j]
  }

  ghost predicate Collides(a: Row, b: Row) {
    exists s :: Binds(a, s) && Binds(b, s)
  }

  lemma TakenByOthers(rows: map<int, Row>, r: Row, tag: string, ignoreId: int, ownId: int)
    requires forall id :: id in rows ==> (Ignored(id, ignoreId) <==> id == ownId)
    ensures TagTaken(rows, tag, ignoreId) <==> InUse(Others(rows, ownId), tag)
    ensures PortTaken(rows, r, ignoreId) <==> SocketTaken(Others(rows, ownId), r)
  {
    hide Conflicts, Collides, Ignored;
    var others := Others(rows, ownId);
    forall id | id in rows ensures Conflicts(rows[id], r) <==> Collides(rows[id], r) { CollidesIs(rows[id], r); }
    if TagTaken(rows, tag, ignoreId) {
      var id :| id in rows && !Ignored(id, ignoreId) && rows[id].tag == tag;
      assert others[id].tag == tag;
    }
    if PortTaken(rows, r, ignoreId) {
      var id :| id in rows && !Ignored(id, ignoreId) && Conflicts(rows[id], r);
      assert Collides(others[id], r);
    }
  }

  lemma CollidesIs(a: Row, b: Row)
    ensures Conflicts(a, b) <==> Collides(a, b)
  {
    ConflictIsSharedSocket(a, b);
  }

  // No tag for r: the one asked for, if any, and all candidates are in use.
  ghost predicate NoTagLeft(rows: map<int, Row>, r: Row) {
    (r.tag == "" || InUse(rows, r.tag)) && forall k :: 1 <= k < CANDIDATES ==> InUse(rows, Candidate(BaseTag(r), k))
  }

  lemma NoTagExactly(rows: map<int, Row>, r: Row, ignoreId: int, ownId: int)
    requires forall id :: id in rows ==> (Ignored(id, ignoreId) <==> id == ownId)
    ensures ResolvedTag(rows, r, ignoreId).None? <==> NoTagLeft(Others(rows, ownId), r)
  {
    hide Transports, AutoGenerated, FirstFree, ComposeInboundTag, PortTaken, TagTaken, SocketTaken, InUse, Candidate, Ignored;
    GeneratedTagHolds(rows, r, ignoreId);
    TakenByOthers(rows, r, r.tag, ignoreId, ownId);
    forall k: nat ensures TagTaken(rows, Candidate(BaseTag(r), k), ignoreId) <==> InUse(Others(rows, ownId), Candidate(BaseTag(r), k)) {
      TakenByOthers(rows, r, Candidate(BaseTag(r), k), ignoreId, ownId);
    }
  }

  // The tag an update asks for: none where a generated tag is submitted again.
  ghost function Wanted(stored: Row, tag: string): string {
    if TagFits(stored) && tag == stored.tag then "" else tag
  }

  // What the guards accept: an insert that finds its sockets free and a tag; an update
  // of an inbound that is there, its sockets, on the submitted node, free of the others,
  // and a tag, on the stored node, left.
  ghost predicate Accepts(t: Table, c: Change) {
    match c
    case Insert(row) => !SocketTaken(t.rows, Normalized(row)) && !NoTagLeft(t.rows, Normalized(row))
    case Update(id, row) =>
      id in t.rows && !SocketTaken(Others(t.rows, id), Normalized(row)) &&
      !NoTagLeft(Others(t.rows, id), Normalized(row).(nodeId := t.rows[id].nodeId, tag := Wanted(t.rows[id], row.tag)))
  }

  lemma AcceptsExactly(t: Table, c: Change)
    requires Valid(t)
    ensures c.Insert? ==>
              (Accepts(t, c) <==> !PortTaken(t.rows, Normalized(c.row), 0) && ResolvedTag(t.rows, Normalized(c.row), 0).Some?)
    ensures c.Update? ==>
              (Accepts(t, c) <==> c.id in t.rows && !PortTaken(t.rows, Normalized(c.row), c.id) &&
                                  ResolvedTag(t.rows, Replacement(t.rows[c.id], c.row), c.id).Some?)
  {
    hide PortTaken, ResolvedTag, SocketTaken, NoTagLeft, Transports, AutoGenerated;
    match c
    case Insert(row) =>
      NoTagExactly(t.rows, Normalized(row), 0, t.nextId);
      TakenByOthers(t.rows, Normalized(row), "", 0, t.nextId);
      assert Others(t.rows, t.nextId) == t.rows;
    case Update(id, row) =>
      if id in t.rows {
        NoTagExactly(t.rows, Replacement(t.rows[id], row), id, id);
        TakenByOthers(t.rows, Normalized(row), "", id, id);
      }
  }

  // A refused change leaves the table as it was. An inserted inbound is stored as
  // submitted under a new id, an updated one under its own id and node; a generated tag
  // that is submitted again is generated anew.
  lemma ChangeWrites(t: Table, c: Change)
    requires Valid(t)
    ensures !Accepts(t, c) ==> Step(t, c) == t
    ensures var id, after := if c.Insert? then t.nextId else c.id, Step(t, c);
      Accepts(t, c) ==>
      && after.nextId == (if c.Insert? then t.nextId + 1 else t.nextId) && after.rows.Keys == t.rows.Keys + {id}
      && (forall j :: j in t.rows && j != id ==> after.rows[j] == t.rows[j])
      && (c.Insert? ==> StoredAs(after.rows[id], c.row, c.row.nodeId) && TaggedAs(after.rows[id], c.row.tag, t.rows, id))
      && (c.Update? ==> StoredAs(after.rows[id], c.row, t.rows[id].nodeId) &&
                        TaggedAs(after.rows[id], Wanted(t.rows[id], c.row.tag), t.rows, id))
  {
    AcceptsExactly(t, c);
    hide Accepts, Transports, PortTaken, AutoGenerated, FirstFree, ComposeInboundTag;
    match c
    case Insert(row) => Retagged(t.rows, Normalized(row), 0, t.nextId);
    case Update(id, row) => if id in t.rows { Retagged(t.rows, Replacement(t.rows[id], row), id, id); }
  }

  // ---------- what every change keeps ----------

  lemma StepKeepsTags(t: Table, c: Change)
    requires Valid(t) && TagsDistinct(t.rows)
    ensures Valid(Step(t, c)) && TagsDistinct(Step(t, c).rows)
  {
    match c
    case Insert(row) =>
      ResolvedIsFree(t.rows, Normalized(row), 0);
    case Update(id, row) =>
      if id in t.rows { ResolvedIsFree(t.rows, Replacement(t.rows[id], row), id); }
  }

  // An update names the node its inbound is stored under.
  predicate SameNode(t: Table, c: Change) {
    c.Update? && c.id in t.rows ==> c.row.nodeId == t.rows[c.id].nodeId
  }

  lemma TagIsNoSocket(row: Row, tag: string, other: Row)
    ensures Transports(row.(tag := tag)) == Transports(row)
    ensures Conflicts(row.(tag := tag), other) == Conflicts(row, other)
    ensures Conflicts(other, row.(tag := tag)) == Conflicts(other, row)
  {
  }

  lemma StepKeepsPorts(t: Table, c: Change)
    requires Valid(t) && NoConflicts(t.rows) && SameNode(t, c)
    ensures NoConflicts(Step(t, c).rows)
  {
    hide Transports, ResolvedTag, AutoGenerated;
    var after := Step(t, c);
    if after != t {
      var id := if c.Insert? then t.nextId else c.id;
      var checked := Normalized(c.row);
      forall i | i in after.rows && i != id ensures !Conflicts(after.rows[i], after.rows[id]) && !Conflicts(after.rows[id], after.rows[i]) {
        TagIsNoSocket(checked, after.rows[id].tag, after.rows[i]);
        ConflictIsMutual(after.rows[i], checked);
        assert !Conflicts(t.rows[i], checked);
      }
    }
  }

  ghost function RunChanges(cs: seq<Change>): Table {
    if cs == [] then EMPTY else Step(RunChanges(cs[..|cs| - 1]), cs[|cs| - 1])
  }

  ghost predicate NodesHeld(cs: seq<Change>) {
    cs == [] || (NodesHeld(cs[..|cs| - 1]) && SameNode(RunChanges(cs[..|cs| - 1]), cs[|cs| - 1]))
  }

  // However the table was built, tags are unique, and as long as updates name the
  // stored node no two inbounds need the same socket.
  lemma {:induction false} TableStaysClean(cs: seq<Change>)
    ensures Valid(RunChanges(cs)) && TagsDistinct(RunChanges(cs).rows)
    ensures NodesHeld(cs) ==> NoConflicts(RunChanges(cs).rows)
  {
    hide Step;
    if cs != [] {
      var before := cs[..|cs| - 1];
      TableStaysClean(before);
      StepKeepsTags(RunChanges(before), cs[|cs| - 1]);
      if NodesHeld(cs) { StepKeepsPorts(RunChanges(before), cs[|cs| - 1]); }
    }
  }

  // ---------- updates that name another node ----------

  ghost predicate KeepsPorts(t: Table, c: Change) {
    Valid(t) && NoConflicts(t.rows) ==> NoConflicts(Step(t, c).rows)
  }

  // An update from one node to another keeps every conflict-free table conflict-free
  // exactly when both are the same node: the check asks about the submitted one.
  lemma SubmittedNodeMatters(submitted: Option<int>, stored: Option<int>)
    ensures (forall t: Table, id: int, row: Row | id in t.rows && t.rows[id].nodeId == stored && row.nodeId == submitted ::
               KeepsPorts(t, Update(id, row)))
            <==> submitted == stored
  {
    if submitted == stored {
      forall t: Table, id: int, row: Row | id in t.rows && t.rows[id].nodeId == stored && row.nodeId == submitted
        ensures KeepsPorts(t, Update(id, row))
      {
        if Valid(t) && NoConflicts(t.rows) { StepKeepsPorts(t, Update(id, row)); }
      }
    } else {
      var t, row := SlipsThrough(submitted, stored);
      assert !KeepsPorts(t, Update(2, row));
    }
  }

  // Two inbounds of one node on ports 1 and 2; moving the second to port 1 while
  // naming another node is accepted.
  lemma SlipsThrough(submitted: Option<int>, stored: Option<int>) returns (t: Table, row: Row)
    requires submitted != stored
    ensures Valid(t) && NoConflicts(t.rows) && 2 in t.rows && t.rows[2].nodeId == stored && row.nodeId == submitted
    ensures !NoConflicts(Step(t, Update(2, row)).rows)
  {
    var a := Row(stored, "", 1, VMess, "", "", "", false, "a");
    var b := Row(stored, "", 2, VMess, "", "", "", false, "b");
    t := Table(map[1 := a, 2 := b], 3);
    row := Row(submitted, "", 1, VMess, "", "", "", false, "c");
    assert !PortTaken(t.rows, Normalized(row), 2);
    var r := Replacement(b, row);
    var after := Step(t, Update(2, row)).rows;
    assert !TagTaken(t.rows, "c", 2);
    assert r.tag == "c" || r.tag == "";
    assert row.tag != b.tag;
    assert after == t.rows[2 := r];
    assert Conflicts(after[1], after[2]);
  }

  // ---------- generated tags follow their inbound ----------

  ghost predicate TagFits(row: Row) {
    AutoGenerated(row.tag, row.port, row.nodeId, Transports(row))
  }

  // Submitting no tag, or the stored generated one, leaves a tag generated for the
  // inbound's new port and transports.
  lemma GeneratedTagFollows(t: Table, id: int, row: Row)
    requires id in t.rows && (row.tag == "" || (TagFits(t.rows[id]) && row.tag == t.rows[id].tag))
    requires Step(t, Update(id, row)) != t
    ensures TagFits(Step(t, Update(id, row)).rows[id])
  {
    hide Transports, PortTaken, ComposeInboundTag, FirstFree, Numbered;
    var r := Replacement(t.rows[id], row);
    GeneratedTagHolds(t.rows, r, id);
    TagIsNoSocket(r, Step(t, Update(id, row)).rows[id].tag, r);
  }
}
