/** The numbers of the ICQ message format, and what the reader makes of messages this library does not write
    (src/ICQ.h:44-75, src/ICQ.cpp:39-267, 558-594, 733-964). */
module IcqWire {
  import opened Buffers
  import opened IcqText
  import opened IcqCodec
  import opened IcqRoundTrip

  /** A subtype begins with its type and its flags; sent the advanced way, the status and the priority follow. An
      acknowledgement has no priority; to the contact list is 4, urgent 2, and anything else 1. */
  lemma HeadOnWire(e: Endian, s: SubType)
    ensures var d := Output(e, s);
      && |d| >= 2 && d[1] == s.flags
      && d[0] == (match s.body
                  case Normal(_, _, _) => 1
                  case FileTransfer(_, _, _, _, _) => 3
                  case Url(_, _) => 4
                  case AuthReq(_, _, _, _, _, _) => 6
                  case UserAdd(_, _, _, _, _) => 12
                  case Contacts(_) => 19)
      && (s.advanced ==>
            |d| >= 6 && d[2..4] == Pack16(e, s.status)
            && d[4..6] == Pack16(e, if s.ack then 0 else if s.toContactList then 4 else if s.urgent then 2 else 1))
  {
    hide OutBody, OutAck, Pack16;
  }

  /** The byte 0xFE stands between a message and its URL. */
  lemma UrlOnWire(e: Endian, advanced: bool, b: Body)
    requires b.Url? && |b.message| + |b.url| < 65534
    ensures OutBody(e, advanced, b) == Pack16(e, |b.message| + |b.url| + 2) + (b.message + [254] + b.url) + [0]
  {
    hide Pack16;
  }

  /** And between the fields of an authorisation request. */
  lemma FieldsOnWire(alias: text, first: text, last: text, email: text, auth: bool, message: text)
    ensures Join(AuthReqFields(AuthReq(alias, first, last, email, auth, message))) ==
      alias + [254] + (first + [254] + (last + [254] + (email + [254] + ([if auth then 49 else 48] + [254] + message))))
  {
    var f6 := [message];
    var f5 := [[if auth then 49 else 48]] + f6;
    var f4 := [email] + f5;
    var f3 := [last] + f4;
    var f2 := [first] + f3;
    assert AuthReqFields(AuthReq(alias, first, last, email, auth, message)) == [alias] + f2;
    JoinMore(alias, f2);
    JoinMore(first, f3);
    JoinMore(last, f4);
    JoinMore(email, f5);
    JoinMore([if auth then 49 else 48], f6);
    assert Join(f6) == message;
    hide Join;
  }

  lemma JoinMore(f: text, rest: seq<text>)
    requires rest != []
    ensures Join([f] + rest) == f + [254] + Join(rest)
  {
    assert ([f] + rest)[1..] == rest;
  }

  // ------------------------------------------------------------------
  //  Acknowledgements
  // ------------------------------------------------------------------

  /** What a reader of an acknowledgement learns: the type, the flags, the status of a message sent the advanced way, and
      the away message; no priority, and an empty body. */
  lemma AckReads(e: Endian, d: seq<byte>, p: nat, s: SubType)
    requires s.ack && !s.body.FileTransfer? && |s.away| <= 65534 && At(d, p, Output(e, s))
    ensures var r := Parse(e, d, p, s.advanced, true);
      && r.Parsed? && r.sub.status == (if s.advanced then s.status else 0)
      && r.sub == SubType(s.flags, s.advanced, true, r.sub.status, false, false, s.away, r.sub.body)
      && r.sub.body == (match s.body
                        case Normal(_, _, _) => Normal([], 0, 0xFFFFFF)
                        case Url(_, _) => Url([], [])
                        case AuthReq(_, _, _, _, _, _) => AuthReq([], [], [], [], false, [])
                        case UserAdd(_, _, _, _, _) => UserAdd([], [], [], [], false)
                        case Contacts(_) => Contacts([])
                        case FileTransfer(_, _, _, _, _) => s.body)
  {
    AtSplit(d, p, OutHead(e, s), OutAck(e, s.advanced, s.away, s.body));
    HeadInverts(e, d, p, s);
    NoPriority();
    hide At, Read8, Read16, OutAck, OutHead, ReadString16, Bit, ParsedToContactList;
    AckBody(e, d, p + |OutHead(e, s)|, s);
    hide Output;
    assert ParseBodyUINACK(e, d, p + |OutHead(e, s)|, TypeOf(s.body)).1 == BlankBody(TypeOf(s.body));
  }

  /** The priority as other clients may set it: the second bit is urgent, the third, or any number without either of them
      that is not 0 or 1, to the contact list. */
  lemma PrioritiesRead(e: Endian, d: seq<byte>, p: nat, ack: bool)
    requires Parse(e, d, p, true, ack).Parsed?
    requires p + 2 <= |d|
    ensures var priority, r := Read16(e, d, p + 4).0, Parse(e, d, p, true, ack).sub;
      && r.urgent == (priority / 2 % 2 == 1)
      && r.toContactList == (priority / 4 % 2 == 1 || (priority / 2 % 2 == 0 && priority > 1))
  {
    assert Read16(e, d, p + 2).1 == p + 4 && Read8(d, p).1 == p + 1 && Read8(d, p + 1).1 == p + 2;
    hide ParseBodyUIN, ParseBodyUINACK, Read16, Read8;
  }

  // ------------------------------------------------------------------
  //  Texts with fields missing
  // ------------------------------------------------------------------

  /** Without a separator there is no URL, and there are no contacts. */
  lemma NoSeparator(t: text)
    requires SepFree(t)
    ensures ParseUrl(t) == Url(t, []) && ParseContacts(t) == Contacts([])
  {
    FindFromUnique(t, 0, |t|);
    assert t[0..|t|] == t;
    hide FindFrom;
  }

  function FieldOr(fields: seq<text>, i: nat): text { if i < |fields| then fields[i] else [] }

  lemma PaddedFields(fields: seq<text>, count: nat)
    requires AllSepFree(fields) && 0 < |fields| <= count && fields[|fields| - 1] != []
    ensures var got := SplitPadded(Join(fields), count);
      |got| == count && forall i :: 0 <= i < count ==> got[i] == FieldOr(fields, i)
  {
    SplitJoin(fields);
    hide Join, Split, AllSepFree;
    PaddedIs(Join(fields), fields, count);
    BlanksAre(count - |fields|);
    hide SplitPadded, Blanks;
    assert SplitPadded(Join(fields), count) == fields + Blanks(count - |fields|);
  }

  /** Fields that are not there are read as empty ones. */
  lemma MissingFields(fields: seq<text>)
    requires AllSepFree(fields) && 0 < |fields| < 6 && fields[|fields| - 1] != []
    ensures ParseAuthReq(Join(fields)) ==
      AuthReq(FieldOr(fields, 0), FieldOr(fields, 1), FieldOr(fields, 2), FieldOr(fields, 3), FieldOr(fields, 4) == [49],
              FieldOr(fields, 5))
  {
    PaddedFields(fields, 6);
    hide Join, SplitPadded, AllSepFree, FieldOr;
  }

  lemma {:induction false} BlanksAre(n: nat)
    ensures |Blanks(n)| == n && forall i :: 0 <= i < n ==> Blanks(n)[i] == []
    decreases n
  {
    if n > 0 { BlanksAre(n - 1); }
  }
}
