/** The ICQ message subtypes: what Output writes and what ParseICQSubType makes of it
    (src/ICQ.cpp:39-267, 315-346, 558-594, 733-818, 897-935). */
module IcqCodec {
  import opened Buffers
  import opened IcqText

  const TYPE_NORMAL: byte := 0x01
  const TYPE_FT: byte := 0x03
  const TYPE_URL: byte := 0x04
  const TYPE_AUTH_REQ: byte := 0x06
  const TYPE_USER_ADD: byte := 0x0c
  const TYPE_CONTACT: byte := 0x13

  const PRIORITY_NORMAL: ushort := 1
  const PRIORITY_URGENT: ushort := 2
  const PRIORITY_TO_CONTACT_LIST: ushort := 4

  datatype Contact = Contact(uin: uint, alias: text)

  /** The subtype classes, with the fields each adds. */
  datatype Body =
    | Normal(message: text, foreground: uint, background: uint)
    | Url(message: text, url: text)
    | AuthReq(alias: text, first: text, last: text, email: text, auth: bool, message: text)
    | UserAdd(alias: text, first: text, last: text, email: text, auth: bool)
    | FileTransfer(message: text, revport: ushort, description: text, size: uint, port: ushort)
    | Contacts(content: seq<Contact>)

  datatype SubType = SubType(
    flags: byte, advanced: bool, ack: bool, status: ushort, urgent: bool, toContactList: bool,
    away: text, body: Body)

  const BLACK: uint := 0x0000_0000
  const WHITE: uint := 0x00ff_ffff

  function TypeOf(body: Body): byte {
    match body
    case Normal(_, _, _) => TYPE_NORMAL
    case Url(_, _) => TYPE_URL
    case AuthReq(_, _, _, _, _, _) => TYPE_AUTH_REQ
    case UserAdd(_, _, _, _, _) => TYPE_USER_ADD
    case FileTransfer(_, _, _, _, _) => TYPE_FT
    case Contacts(_) => TYPE_CONTACT
  }

  predicate Modelled(type_: byte) {
    type_ == TYPE_NORMAL || type_ == TYPE_URL || type_ == TYPE_AUTH_REQ || type_ == TYPE_USER_ADD ||
    type_ == TYPE_FT || type_ == TYPE_CONTACT
  }

  // ------------------------------------------------------------------
  //  Output
  // ------------------------------------------------------------------

  function Flag(b: bool): text { if b then ['1' as int] else ['0' as int] }

  function AuthReqFields(b: Body): seq<text>
    requires b.AuthReq?
  {
    [b.alias, b.first, b.last, b.email, Flag(b.auth), b.message]
  }

  function UserAddFields(b: Body): seq<text>
    requires b.UserAdd?
  {
    [b.alias, b.first, b.last, b.email, Flag(b.auth)]
  }

  function ContactFields(content: seq<Contact>): seq<text> {
    if content == [] then [] else [Decimal(content[0].uin), content[0].alias] + ContactFields(content[1..])
  }

  function ContactText(content: seq<Contact>): text {
    Decimal(|content|) + [SEPARATOR] + Terminated(ContactFields(content))
  }

  function OutFtHead(e: Endian, b: Body): seq<byte>
    requires b.FileTransfer?
  {
    Write16String(e, b.message) + (Pack16(e, b.revport) + Pack16(e, 0))
  }

  function OutFtTail(e: Endian, b: Body): seq<byte>
    requires b.FileTransfer?
  {
    Write16String(e, b.description) + (Pack32(e, b.size) + (Pack16(e, b.port) + Pack16(e, 0)))
  }

  function OutFileTransfer(e: Endian, b: Body): seq<byte>
    requires b.FileTransfer?
  {
    OutFtHead(e, b) + OutFtTail(e, b)
  }

  function OutBody(e: Endian, advanced: bool, b: Body): seq<byte> {
    match b
    case Normal(message, fg, bg) =>
      Write16String(e, message) + if advanced then Pack32(e, fg) + Pack32(e, bg) else []
    case Url(message, url) => Write16String(e, message + [SEPARATOR] + url)
    case AuthReq(_, _, _, _, _, _) => Write16String(e, Join(AuthReqFields(b)))
    case UserAdd(_, _, _, _, _) => Write16String(e, Terminated(UserAddFields(b)))
    case FileTransfer(_, _, _, _, _) => OutFileTransfer(e, b)
    case Contacts(content) => Write16String(e, ContactText(content))
  }

  /** An acknowledgement carries the away message; a normal one two more words, a file transfer its own fields. */
  function OutAck(e: Endian, advanced: bool, away: text, b: Body): seq<byte> {
    match b
    case Normal(_, _, _) =>
      Write16String(e, away) + if advanced then Pack32(e, 0) + Pack32(e, 0xffff_ffff) else []
    case FileTransfer(_, _, _, _, _) => OutFileTransfer(e, b)
    case _ => Write16String(e, away)
  }

  function Priority(s: SubType): ushort {
    if s.ack then 0
    else if s.toContactList then PRIORITY_TO_CONTACT_LIST
    else if s.urgent then PRIORITY_URGENT
    else PRIORITY_NORMAL
  }

  function OutHead(e: Endian, s: SubType): seq<byte> {
    [TypeOf(s.body), s.flags] + if s.advanced then Pack16(e, s.status) + Pack16(e, Priority(s)) else []
  }

  function Output(e: Endian, s: SubType): seq<byte> {
    OutHead(e, s) + if s.ack then OutAck(e, s.advanced, s.away, s.body) else OutBody(e, s.advanced, s.body)
  }

  // ------------------------------------------------------------------
  //  Parsing: the fields and the new position
  // ------------------------------------------------------------------

  function ParseUrl(t: text): Body {
    var l := FindFrom(t, 0);
    if l < |t| then Url(t[..l], t[l + 1..]) else Url(t, [])
  }

  function ParseAuthReq(t: text): Body {
    var f := SplitPadded(t, 6);
    PaddedLength(t, 6);
    AuthReq(f[0], f[1], f[2], f[3], f[4] == ['1' as int], f[5])
  }

  function ParseUserAdd(t: text): Body {
    var f := SplitPadded(t, 5);
    PaddedLength(t, 5);
    UserAdd(f[0], f[1], f[2], f[3], f[4] == ['1' as int])
  }

  lemma PaddedLength(t: text, count: nat)
    ensures |SplitPadded(t, count)| >= count
  {
    BlanksLength(count - |Split(t)|);
  }

  /** The fields in pairs; a lone last one is dropped. */
  function Pairs(fields: seq<text>): seq<Contact>
    decreases |fields|
  {
    if |fields| < 2 then [] else [Contact(Atoi(fields[0]) % 0x1_0000_0000, fields[1])] + Pairs(fields[2..])
  }

  function ParseContacts(t: text): Body {
    var l := FindFrom(t, 0);
    if l < |t| then Contacts(Pairs(SplitPadded(t[l + 1..], Atoi(t[..l])))) else Contacts([])
  }

  function ParseFtHead(e: Endian, d: seq<byte>, p: nat): (text, ushort, nat) {
    var (message, p1) := ReadString16(e, d, p);
    var (revport, p2) := Read16(e, d, p1);
    (message, revport, p2 + 2)
  }

  function ParseFtTail(e: Endian, d: seq<byte>, p: nat): (text, uint, ushort, nat) {
    var (description, p1) := ReadString16(e, d, p);
    var (size, p2) := Read32(e, d, p1);
    var (port, p3) := Read16(e, d, p2);
    (description, size, port, p3 + 2)
  }

  function ParseFileTransfer(e: Endian, d: seq<byte>, p: nat): (Body, nat) {
    var (message, revport, p1) := ParseFtHead(e, d, p);
    var (description, size, port, p2) := ParseFtTail(e, d, p1);
    (FileTransfer(message, revport, description, size, port), p2)
  }

  function ParseNormal(e: Endian, d: seq<byte>, p: nat, advanced: bool): (Body, nat) {
    var (message, p1) := ReadString16(e, d, p);
    if advanced then
      var (fg, p2) := Read32(e, d, p1);
      var (bg, p3) := Read32(e, d, p2);
      (Normal(message, fg, bg), p3)
    else (Normal(message, BLACK, WHITE), p1)
  }

  function ParseText(type_: byte, t: text): Body {
    if type_ == TYPE_URL then ParseUrl(t)
    else if type_ == TYPE_AUTH_REQ then ParseAuthReq(t)
    else if type_ == TYPE_USER_ADD then ParseUserAdd(t)
    else ParseContacts(t)
  }

  function ParseBodyUIN(e: Endian, d: seq<byte>, p: nat, advanced: bool, type_: byte): (Body, nat) {
    if type_ == TYPE_NORMAL then ParseNormal(e, d, p, advanced)
    else if type_ == TYPE_FT then ParseFileTransfer(e, d, p)
    else var (t, p1) := ReadString16(e, d, p); (ParseText(type_, t), p1)
  }

  /** What the constructors leave in the fields an acknowledgement does not carry. */
  function BlankBody(type_: byte): Body {
    if type_ == TYPE_NORMAL then Normal([], BLACK, WHITE)
    else if type_ == TYPE_FT then FileTransfer([], 0, [], 0, 0)
    else if type_ == TYPE_URL then Url([], [])
    else if type_ == TYPE_AUTH_REQ then AuthReq([], [], [], [], false, [])
    else if type_ == TYPE_USER_ADD then UserAdd([], [], [], [], false)
    else Contacts([])
  }

  /** The away message, the body and the position after them. */
  function ParseBodyUINACK(e: Endian, d: seq<byte>, p: nat, type_: byte): (text, Body, nat) {
    if type_ == TYPE_FT then var (b, p1) := ParseFileTransfer(e, d, p); ([], b, p1)
    else
      var (away, p1) := ReadString16(e, d, p);
      (away, BlankBody(type_), if type_ == TYPE_NORMAL then p1 + 8 else p1)
  }

  datatype Parsed = Parsed(sub: SubType, pos: nat) | NotModelled(type_: byte)

  predicate Bit(n: ushort, weight: ushort)
    requires weight > 0
  {
    n / weight % 2 == 1
  }

  function ParsedToContactList(priority: ushort): bool {
    Bit(priority, PRIORITY_TO_CONTACT_LIST) ||
    (!Bit(priority, PRIORITY_URGENT) && priority != PRIORITY_NORMAL && priority != 0)
  }

  function Parse(e: Endian, d: seq<byte>, p: nat, advanced: bool, ack: bool): Parsed {
    var (type_, p1) := Read8(d, p);
    var (flags, p2) := Read8(d, p1);
    if !Modelled(type_) then NotModelled(type_)
    else
      var (status, p3) := if advanced then Read16(e, d, p2) else (0, p2);
      var (priority, p4) := if advanced then Read16(e, d, p3) else (0, p3);
      var urgent, toContactList := Bit(priority, PRIORITY_URGENT), ParsedToContactList(priority);
      if ack then
        var (away, b, p5) := ParseBodyUINACK(e, d, p4, type_);
        Parsed(SubType(flags, advanced, ack, status, urgent, toContactList, away, b), p5)
      else
        var (b, p5) := ParseBodyUIN(e, d, p4, advanced, type_);
        Parsed(SubType(flags, advanced, ack, status, urgent, toContactList, [], b), p5)
  }
}
