/** Parsing what Output wrote: always the same bytes consumed, and the same fields exactly when no field
    holds the separator, the subtype is not both urgent and for the contact list, and it is sent the
    advanced way if it has anything only that carries (src/ICQ.cpp:39-267, 315-346, 558-594, 733-935). */
module IcqRoundTrip {
  import opened Buffers
  import opened IcqText
  import opened IcqCodec

  // ------------------------------------------------------------------
  //  Reading bytes found at a position
  // ------------------------------------------------------------------

  predicate At(d: seq<byte>, p: nat, chunk: seq<byte>) { p + |chunk| <= |d| && d[p..p + |chunk|] == chunk }

  lemma AtSplit(d: seq<byte>, p: nat, a: seq<byte>, b: seq<byte>)
    requires At(d, p, a + b)
    ensures At(d, p, a) && At(d, p + |a|, b)
  {
    assert d[p..p + |a|] == d[p..p + |a + b|][..|a|];
    assert d[p + |a|..p + |a + b|] == d[p..p + |a + b|][|a|..];
  }

  lemma AtSurrounded(d: seq<byte>, p: nat, chunk: seq<byte>)
    requires At(d, p, chunk)
    ensures d == d[..p] + chunk + d[p + |chunk|..]
  {
  }

  lemma StringAt(e: Endian, d: seq<byte>, p: nat, s: text)
    requires At(d, p, Write16String(e, s)) && |s| <= 65534
    ensures ReadString16(e, d, p) == (s, p + |Write16String(e, s)|)
  {
    AtSurrounded(d, p, Write16String(e, s));
    hide ReadString16, Write16String;
    ReadInvertsWriteString(e, d[..p], s, d[p + |Write16String(e, s)|..]);
  }

  lemma ShortAt(e: Endian, d: seq<byte>, p: nat, l: ushort)
    requires At(d, p, Pack16(e, l))
    ensures Read16(e, d, p) == (l, p + 2)
  {
    AtSurrounded(d, p, Pack16(e, l));
    hide Read16, Pack16;
    ReadInvertsWrite16(e, d[..p], l, d[p + 2..]);
  }

  lemma WordAt(e: Endian, d: seq<byte>, p: nat, l: uint)
    requires At(d, p, Pack32(e, l))
    ensures Read32(e, d, p) == (l, p + 4)
  {
    AtSurrounded(d, p, Pack32(e, l));
    hide Read32, Pack32;
    ReadInvertsWrite32(e, d[..p], l, d[p + 4..]);
  }

  // ------------------------------------------------------------------
  //  The text of each body
  // ------------------------------------------------------------------

  function TextOf(b: Body): text
    requires !b.Normal? && !b.FileTransfer?
  {
    match b
    case Url(message, url) => message + [SEPARATOR] + url
    case AuthReq(_, _, _, _, _, _) => Join(AuthReqFields(b))
    case UserAdd(_, _, _, _, _) => Terminated(UserAddFields(b))
    case Contacts(content) => ContactText(content)
  }

  /** The fields in which a separator would be taken for the end. */
  predicate SeparatorFree(b: Body) {
    match b
    case Url(message, _) => SepFree(message)
    case AuthReq(_, _, _, _, _, _) => AllSepFree(AuthReqFields(b))
    case UserAdd(_, _, _, _, _) => AllSepFree(UserAddFields(b))
    case Contacts(content) => forall i :: 0 <= i < |content| ==> SepFree(content[i].alias)
    case _ => true
  }

  lemma UrlText(b: Body)
    requires b.Url?
    ensures ParseUrl(TextOf(b)) == b <==> SepFree(b.message)
  {
    var t := TextOf(b);
    if SepFree(b.message) {
      FieldThenRest(b.message, b.url);
    } else {
      var j :| 0 <= j < |b.message| && b.message[j] == SEPARATOR;
      assert t[j] == SEPARATOR;
      FindFromBound(t, 0, j);
    }
  }

  lemma AuthReqText(b: Body)
    requires b.AuthReq?
    ensures ParseAuthReq(TextOf(b)) == b <==> AllSepFree(AuthReqFields(b))
  {
    var f, t := AuthReqFields(b), TextOf(b);
    PaddedLength(t, 6);
    hide Join, Split, Blanks;
    if AllSepFree(f) {
      SplitInvertsJoin(f);
    } else {
      var k := JoinBroken(f);
      assert SplitPadded(t, 6)[k] == Split(t)[k] != f[k];
      assert k != 4;
    }
  }

  lemma UserAddText(b: Body)
    requires b.UserAdd?
    ensures ParseUserAdd(TextOf(b)) == b <==> AllSepFree(UserAddFields(b))
  {
    var f, t := UserAddFields(b), TextOf(b);
    PaddedLength(t, 5);
    hide Terminated, Split, Blanks;
    if AllSepFree(f) {
      SplitInvertsTerminated(f, 5);
    } else {
      var k := TerminatedBroken(f);
      assert SplitPadded(t, 5)[k] == Split(t)[k] != f[k];
      assert k != 4;
    }
  }

  lemma {:induction false} ContactFieldAt(content: seq<Contact>, i: nat)
    requires i < |content|
    ensures |ContactFields(content)| == 2 * |content|
    ensures ContactFields(content)[2 * i] == Decimal(content[i].uin) && ContactFields(content)[2 * i + 1] == content[i].alias
  {
    hide Decimal;
    if i > 0 {
      ContactFieldAt(content[1..], i - 1);
    } else if |content| > 1 {
      ContactFieldAt(content[1..], 0);
    }
  }

  lemma ContactFieldsCount(content: seq<Contact>)
    ensures |ContactFields(content)| == 2 * |content|
  {
    if content != [] { ContactFieldAt(content, 0); }
  }

  lemma ContactFieldsSepFree(content: seq<Contact>)
    ensures AllSepFree(ContactFields(content)) <==> SeparatorFree(Contacts(content))
  {
    ContactFieldsCount(content);
    var f := ContactFields(content);
    hide ContactFields, Decimal;
    if SeparatorFree(Contacts(content)) {
      forall j | 0 <= j < |f| ensures SepFree(f[j]) {
        ContactFieldAt(content, j / 2);
        AtoiInvertsDecimal(content[j / 2].uin);
        assert j == 2 * (j / 2) || j == 2 * (j / 2) + 1;
      }
    } else {
      var i :| 0 <= i < |content| && !SepFree(content[i].alias);
      ContactFieldAt(content, i);
    }
  }

  lemma {:induction false} PairsOfFields(content: seq<Contact>)
    requires forall i :: 0 <= i < |content| ==> content[i].uin < 0x8000_0000
    ensures Pairs(ContactFields(content)) == content
  {
    if content != [] {
      PairsOfFields(content[1..]);
      AtoiInvertsDecimal(content[0].uin);
      assert ContactFields(content)[2..] == ContactFields(content[1..]);
    }
  }

  lemma {:induction false} PairsAt(fields: seq<text>, k: nat)
    requires 2 * k + 1 < |fields|
    ensures k < |Pairs(fields)| && Pairs(fields)[k].alias == fields[2 * k + 1]
    decreases k
  {
    if k > 0 { PairsAt(fields[2..], k - 1); }
  }

  lemma FieldThenRest(f: text, rest: text)
    requires SepFree(f)
    ensures var t := f + [SEPARATOR] + rest; FindFrom(t, 0) == |f| && t[..|f|] == f && t[|f| + 1..] == rest
  {
    var t := f + [SEPARATOR] + rest;
    assert t[0..|f|] == f;
    FindFromUnique(t, 0, |f|);
  }

  lemma ContactHead(content: seq<Contact>)
    ensures var t := ContactText(content);
      ParseContacts(t) == Contacts(Pairs(SplitPadded(Terminated(ContactFields(content)), |content|)))
  {
    AtoiInvertsDecimal(|content|);
    hide Decimal, Atoi, Terminated, SplitPadded, Pairs, FindFrom, SepFree, ContactFields;
    FieldThenRest(Decimal(|content|), Terminated(ContactFields(content)));
  }

  /** A contact list of any length. */
  lemma ContactsText(b: Body)
    requires b.Contacts? && forall i :: 0 <= i < |b.content| ==> b.content[i].uin < 0x8000_0000
    ensures ParseContacts(TextOf(b)) == b <==> SeparatorFree(b)
  {
    var f := ContactFields(b.content);
    ContactHead(b.content);
    ContactFieldsSepFree(b.content);
    ContactFieldsCount(b.content);
    hide Terminated, Split, Blanks, Pairs, ContactFields, ParseContacts, AllSepFree;
    if SeparatorFree(b) {
      SplitInvertsTerminated(f, |b.content|);
      PairsOfFields(b.content);
    } else {
      var j := TerminatedBroken(f);
      BrokenContact(b.content, j);
    }
  }

  lemma NumbersAreSepFree(content: seq<Contact>, j: nat) returns (k: nat)
    requires j < |ContactFields(content)| && !SepFree(ContactFields(content)[j])
    ensures k < |content| && j == 2 * k + 1 && ContactFields(content)[j] == content[k].alias
  {
    k := j / 2;
    ContactFieldsCount(content);
    ContactFieldAt(content, k);
    hide ContactFields, Decimal;
    AtoiInvertsDecimal(content[k].uin);
    assert j != 2 * k;
  }

  lemma BrokenContact(content: seq<Contact>, j: nat)
    requires var f := ContactFields(content);
      j < |f| <= |Split(Terminated(f))| && !SepFree(f[j]) && Split(Terminated(f))[j] != f[j]
    ensures Pairs(SplitPadded(Terminated(ContactFields(content)), |content|)) != content
  {
    var k := NumbersAreSepFree(content, j);
    ContactFieldsCount(content);
    var f := ContactFields(content);
    var all := SplitPadded(Terminated(f), |content|);
    hide Terminated, Split, Blanks, Pairs, ContactFields, SepFree;
    assert all[j] == Split(Terminated(f))[j];
    PairsAt(all, k);
  }

  // ------------------------------------------------------------------
  //  Whole bodies
  // ------------------------------------------------------------------

  /** The packed strings and the numbers fit. */
  predicate Fits(b: Body) {
    match b
    case Normal(message, _, _) => |message| <= 65534
    case FileTransfer(message, _, description, _, _) => |message| <= 65534 && |description| <= 65534
    case Contacts(content) =>
      |TextOf(b)| <= 65534 && forall i :: 0 <= i < |content| ==> content[i].uin < 0x8000_0000
    case _ => |TextOf(b)| <= 65534
  }

  /** A normal message has colours only when it is sent the advanced way. */
  predicate Coloured(advanced: bool, b: Body) {
    b.Normal? && !advanced ==> b.foreground == BLACK && b.background == WHITE
  }

  lemma TwoWordsAt(e: Endian, d: seq<byte>, p: nat, a: uint, b: uint)
    requires At(d, p, Pack32(e, a) + Pack32(e, b))
    ensures Read32(e, d, p) == (a, p + 4) && Read32(e, d, p + 4) == (b, p + 8)
  {
    hide At, Pack32, Read32;
    AtSplit(d, p, Pack32(e, a), Pack32(e, b));
    WordAt(e, d, p, a);
    WordAt(e, d, p + 4, b);
  }

  lemma ColouredOut(e: Endian, b: Body)
    requires b.Normal?
    ensures OutBody(e, true, b) == Write16String(e, b.message) + (Pack32(e, b.foreground) + Pack32(e, b.background))
  {
    hide Write16String, Pack32;
  }

  lemma ColouredParse(e: Endian, d: seq<byte>, p: nat, p1: nat, message: text, fg: uint, bg: uint)
    requires ReadString16(e, d, p) == (message, p1)
    requires Read32(e, d, p1) == (fg, p1 + 4) && Read32(e, d, p1 + 4) == (bg, p1 + 8)
    ensures ParseNormal(e, d, p, true) == (Normal(message, fg, bg), p1 + 8)
  {
    hide ReadString16, Read32;
  }

  lemma ColouredInverts(e: Endian, d: seq<byte>, p: nat, b: Body)
    requires b.Normal? && Fits(b) && At(d, p, OutBody(e, true, b))
    ensures ParseNormal(e, d, p, true) == (b, p + |OutBody(e, true, b)|)
  {
    var w, words := Write16String(e, b.message), Pack32(e, b.foreground) + Pack32(e, b.background);
    ColouredOut(e, b);
    assert |b.message| <= 65534;
    hide At, Write16String, Pack32, Read32, ReadString16, OutBody, Fits, ParseNormal;
    AtSplit(d, p, w, words);
    StringAt(e, d, p, b.message);
    TwoWordsAt(e, d, p + |w|, b.foreground, b.background);
    ColouredParse(e, d, p, p + |w|, b.message, b.foreground, b.background);
  }

  lemma NormalInverts(e: Endian, d: seq<byte>, p: nat, advanced: bool, b: Body)
    requires b.Normal? && Fits(b) && At(d, p, OutBody(e, advanced, b))
    ensures var r := ParseNormal(e, d, p, advanced);
      r.1 == p + |OutBody(e, advanced, b)| && (r.0 == b <==> Coloured(advanced, b))
  {
    if advanced {
      ColouredInverts(e, d, p, b);
    } else {
      hide At, Write16String, ReadString16;
      assert Write16String(e, b.message) + [] == Write16String(e, b.message);
      StringAt(e, d, p, b.message);
    }
  }

  lemma FtHeadInverts(e: Endian, d: seq<byte>, p: nat, b: Body)
    requires b.FileTransfer? && Fits(b) && At(d, p, OutFtHead(e, b))
    ensures ParseFtHead(e, d, p) == (b.message, b.revport, p + |OutFtHead(e, b)|)
  {
    var m, rev, zero := Write16String(e, b.message), Pack16(e, b.revport), Pack16(e, 0);
    hide At, Write16String, Pack16, Read16, ReadString16;
    AtSplit(d, p, m, rev + zero);
    AtSplit(d, p + |m|, rev, zero);
    StringAt(e, d, p, b.message);
    ShortAt(e, d, p + |m|, b.revport);
  }

  lemma SizeAndPortAt(e: Endian, d: seq<byte>, p: nat, size: uint, port: ushort)
    requires At(d, p, Pack32(e, size) + (Pack16(e, port) + Pack16(e, 0)))
    ensures Read32(e, d, p) == (size, p + 4) && Read16(e, d, p + 4) == (port, p + 6)
  {
    hide At, Pack16, Pack32, Read16, Read32;
    AtSplit(d, p, Pack32(e, size), Pack16(e, port) + Pack16(e, 0));
    AtSplit(d, p + 4, Pack16(e, port), Pack16(e, 0));
    WordAt(e, d, p, size);
    ShortAt(e, d, p + 4, port);
  }

  lemma FtTailInverts(e: Endian, d: seq<byte>, p: nat, b: Body)
    requires b.FileTransfer? && Fits(b) && At(d, p, OutFtTail(e, b))
    ensures ParseFtTail(e, d, p) == (b.description, b.size, b.port, p + |OutFtTail(e, b)|)
  {
    var m, rest := Write16String(e, b.description), Pack32(e, b.size) + (Pack16(e, b.port) + Pack16(e, 0));
    assert OutFtTail(e, b) == m + rest && |rest| == 8;
    hide At, Write16String, Pack16, Pack32, Read16, Read32, ReadString16, OutFtTail;
    AtSplit(d, p, m, rest);
    StringAt(e, d, p, b.description);
    SizeAndPortAt(e, d, p + |m|, b.size, b.port);
  }

  lemma FileTransferInverts(e: Endian, d: seq<byte>, p: nat, b: Body)
    requires b.FileTransfer? && Fits(b) && At(d, p, OutFileTransfer(e, b))
    ensures ParseFileTransfer(e, d, p) == (b, p + |OutFileTransfer(e, b)|)
  {
    hide At, OutFtHead, OutFtTail, ParseFtHead, ParseFtTail;
    AtSplit(d, p, OutFtHead(e, b), OutFtTail(e, b));
    FtHeadInverts(e, d, p, b);
    FtTailInverts(e, d, p + |OutFtHead(e, b)|, b);
  }

  predicate BodyFaithful(advanced: bool, b: Body) { SeparatorFree(b) && Coloured(advanced, b) }

  lemma TextParses(b: Body)
    requires Fits(b) && !b.Normal? && !b.FileTransfer?
    ensures ParseText(TypeOf(b), TextOf(b)) == b <==> SeparatorFree(b)
  {
    match b
    case Url(_, _) => UrlText(b);
    case AuthReq(_, _, _, _, _, _) => AuthReqText(b);
    case UserAdd(_, _, _, _, _) => UserAddText(b);
    case Contacts(_) => ContactsText(b);
  }

  lemma TextBodyInverts(e: Endian, d: seq<byte>, p: nat, advanced: bool, b: Body)
    requires Fits(b) && !b.Normal? && !b.FileTransfer? && At(d, p, OutBody(e, advanced, b))
    ensures ParseBodyUIN(e, d, p, advanced, TypeOf(b)) == (ParseText(TypeOf(b), TextOf(b)), p + |OutBody(e, advanced, b)|)
  {
    hide ParseText, At, Write16String, ReadString16, Terminated, Join, ContactText;
    assert OutBody(e, advanced, b) == Write16String(e, TextOf(b));
    StringAt(e, d, p, TextOf(b));
  }

  lemma BodyInverts(e: Endian, d: seq<byte>, p: nat, advanced: bool, b: Body)
    requires Fits(b) && At(d, p, OutBody(e, advanced, b))
    ensures var r := ParseBodyUIN(e, d, p, advanced, TypeOf(b));
      r.1 == p + |OutBody(e, advanced, b)| && (r.0 == b <==> BodyFaithful(advanced, b))
  {
    if b.Normal? {
      NormalInverts(e, d, p, advanced, b);
      hide OutBody, ParseNormal, At;
    } else if b.FileTransfer? {
      FileTransferInverts(e, d, p, b);
    } else {
      TextParses(b);
      TextBodyInverts(e, d, p, advanced, b);
      hide ParseText, At, OutBody, ParseBodyUIN, TextOf;
    }
  }

  // ------------------------------------------------------------------
  //  Head and priority
  // ------------------------------------------------------------------

  /** The priority field holds one of urgent and to-contact-list, and only the advanced way sends it. */
  predicate HeadFaithful(s: SubType) {
    if s.advanced then if s.ack then !s.urgent && !s.toContactList else !(s.urgent && s.toContactList)
    else s.status == 0 && !s.urgent && !s.toContactList
  }

  lemma PriorityInverts(s: SubType)
    ensures Bit(Priority(s), PRIORITY_URGENT) == s.urgent && ParsedToContactList(Priority(s)) == s.toContactList
      <==> if s.ack then !s.urgent && !s.toContactList else !(s.urgent && s.toContactList)
  {
  }

  /** Type, flags, status and priority, and the position after them. */
  lemma HeadInverts(e: Endian, d: seq<byte>, p: nat, s: SubType)
    requires At(d, p, OutHead(e, s))
    ensures Read8(d, p) == (TypeOf(s.body), p + 1) && Read8(d, p + 1) == (s.flags, p + 2)
    ensures s.advanced ==> Read16(e, d, p + 2) == (s.status, p + 4) && Read16(e, d, p + 4) == (Priority(s), p + 6)
  {
    var head := [TypeOf(s.body), s.flags];
    if s.advanced {
      var st, pr := Pack16(e, s.status), Pack16(e, Priority(s));
      AtSplit(d, p, head, st + pr);
      AtSplit(d, p + 2, st, pr);
      ShortAt(e, d, p + 2, s.status);
      ShortAt(e, d, p + 4, Priority(s));
    } else {
      assert head + [] == head;
    }
    assert d[p..p + 2] == head;
    assert d[p] == d[p..p + 2][0] && d[p + 1] == d[p..p + 2][1];
  }

  predicate Faithful(s: SubType) { HeadFaithful(s) && s.away == [] && BodyFaithful(s.advanced, s.body) }

  /** Parsing what Output wrote, in the same byte order and with the same settings, consumes exactly what was
      written, and gives the same subtype back exactly when it is one the format can carry. */
  lemma ParseInvertsOutputIff(e: Endian, d: seq<byte>, p: nat, s: SubType)
    requires !s.ack && Fits(s.body) && At(d, p, Output(e, s))
    ensures var r := Parse(e, d, p, s.advanced, false);
      r.Parsed? && r.pos == p + |Output(e, s)| && (r.sub == s <==> Faithful(s))
  {
    var head, body := OutHead(e, s), OutBody(e, s.advanced, s.body);
    AtSplit(d, p, head, body);
    HeadInverts(e, d, p, s);
    BodyInverts(e, d, p + |head|, s.advanced, s.body);
    PriorityInverts(s);
    hide At, OutBody, BodyFaithful, ParseBodyUIN, ParseBodyUINACK, Read8, Read16, Fits, Priority, Bit, ParsedToContactList;
    NoPriority();
  }

  /** An acknowledgement gives its away message back, and all of it is consumed when the message is advanced. Every
      caller reads acknowledgements so (src/DirectClient.cpp:453, src/SNAC-MSG.cpp:415); of a plain normal message,
      which no caller reads as one, eight bytes more would be skipped. */
  lemma AckIsConsumedIff(e: Endian, d: seq<byte>, p: nat, s: SubType)
    requires s.ack && !s.body.FileTransfer? && |s.away| <= 65534 && At(d, p, Output(e, s))
    ensures var r := Parse(e, d, p, s.advanced, true);
      && r.Parsed? && r.sub.away == s.away && r.sub.flags == s.flags
      && (r.pos == p + |Output(e, s)| <==> s.body.Normal? ==> s.advanced)
  {
    AtSplit(d, p, OutHead(e, s), OutAck(e, s.advanced, s.away, s.body));
    HeadInverts(e, d, p, s);
    hide At, Read8, Read16, OutAck, OutHead, ParseBodyUINACK, Priority, Bit, ParsedToContactList;
    AckBody(e, d, p + |OutHead(e, s)|, s);
  }

  lemma AckBody(e: Endian, d: seq<byte>, p: nat, s: SubType)
    requires !s.body.FileTransfer? && |s.away| <= 65534 && At(d, p, OutAck(e, s.advanced, s.away, s.body))
    ensures var r := ParseBodyUINACK(e, d, p, TypeOf(s.body));
      r.0 == s.away && (r.2 == p + |OutAck(e, s.advanced, s.away, s.body)| <==> s.body.Normal? ==> s.advanced)
  {
    var w := Write16String(e, s.away);
    if s.body.Normal? && s.advanced {
      AtSplit(d, p, w, Pack32(e, 0) + Pack32(e, 0xffff_ffff));
    } else if s.body.Normal? {
      assert w + [] == w;
    }
    hide At, ReadString16, Write16String, Pack32;
    StringAt(e, d, p, s.away);
  }

  /** The acknowledgement of a file transfer offer carries the same fields as the offer. */
  lemma FileTransferAckInverts(e: Endian, d: seq<byte>, p: nat, s: SubType)
    requires s.ack && s.body.FileTransfer? && Fits(s.body) && At(d, p, Output(e, s))
    ensures var r := Parse(e, d, p, s.advanced, true);
      r.Parsed? && r.sub.body == s.body && r.sub.flags == s.flags && r.pos == p + |Output(e, s)|
  {
    AtSplit(d, p, OutHead(e, s), OutFileTransfer(e, s.body));
    HeadInverts(e, d, p, s);
    hide At, Read8, Read16, OutFileTransfer, ParseFileTransfer, Priority, Bit, ParsedToContactList;
    FileTransferInverts(e, d, p + |OutHead(e, s)|, s.body);
  }

  lemma NoPriority()
    ensures !Bit(0, PRIORITY_URGENT) && !ParsedToContactList(0)
  {
  }
}
