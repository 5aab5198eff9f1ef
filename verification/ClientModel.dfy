// The values the panel moves around: a client entry of an inbound's settings
// list, a row of the clients table, and an inbound.
module ClientModel {
  import opened Text

  datatype Protocol = VMess | VLess | Trojan | Shadowsocks | Hysteria | OtherProtocol(name: string)

  // A zero createdAt stands for an absent created_at key, and an empty reverse
  // for a nil pointer.
  datatype Client = Client(
    email: string, subId: string, id: string, password: string, auth: string,
    flow: string, security: string, reverse: string,
    limitIp: int, totalGB: int, expiryTime: int, enable: bool, tgId: int,
    group: string, comment: string, reset: int, createdAt: int, updatedAt: int)

  // A row of the clients table; the primary key is the key of the table map.
  datatype ClientRecord = ClientRecord(
    email: string, subId: string, uuid: string, password: string, auth: string,
    flow: string, security: string, reverse: string,
    limitIp: int, totalGB: int, expiryTime: int, enable: bool, tgId: int,
    group: string, comment: string, reset: int, createdAt: int, updatedAt: int)

  datatype Inbound = Inbound(protocol: Protocol, nodeId: Option<int>, flowCapable: bool, clients: seq<Client>)

  function ToRecord(c: Client): ClientRecord {
    ClientRecord(c.email, c.subId, c.id, c.password, c.auth, c.flow, c.security, c.reverse,
                 c.limitIp, c.totalGB, c.expiryTime, c.enable, c.tgId, c.group, c.comment,
                 c.reset, c.createdAt, c.updatedAt)
  }

  // The entry field that identifies a client inside an inbound of the protocol.
  function KeyOf(p: Protocol, c: Client): string {
    match p
    case Trojan => c.password
    case Shadowsocks => c.email
    case Hysteria => c.auth
    case _ => c.id
  }

  function RecordKey(p: Protocol, r: ClientRecord): string {
    match p
    case Trojan => r.password
    case Shadowsocks => r.email
    case Hysteria => r.auth
    case _ => r.uuid
  }

  function Max(a: int, b: int): int { if a < b then b else a }

  function Min(a: int, b: int): int { if a < b then a else b }

  // A client row after one settings entry for it has been synced in.
  function Refreshed(row: ClientRecord, c: Client): ClientRecord {
    row.(
      uuid := if c.id != "" then c.id else row.uuid,
      password := if c.password != "" then c.password else row.password,
      auth := if c.auth != "" then c.auth else row.auth,
      flow := c.flow,
      security := if c.security != "" then c.security else row.security,
      reverse := if c.reverse != "" then c.reverse else row.reverse,
      subId := c.subId, limitIp := c.limitIp, totalGB := c.totalGB, expiryTime := c.expiryTime,
      enable := c.enable, tgId := c.tgId,
      group := if c.group != "" then c.group else row.group,
      comment := c.comment, reset := c.reset,
      createdAt := if c.createdAt > 0 && (row.createdAt == 0 || c.createdAt < row.createdAt)
                   then c.createdAt else row.createdAt,
      updatedAt := Max(c.updatedAt, row.updatedAt))
  }
}
