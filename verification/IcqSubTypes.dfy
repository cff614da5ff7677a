/** The parse and output methods of the subtype classes, working on a Buffer (src/ICQ.cpp), proved against
    the functions of IcqCodec. */
module IcqSubTypes {
  import opened Buffers
  import opened IcqText
  import opened IcqCodec

  // ------------------------------------------------------------------
  //  Output
  // ------------------------------------------------------------------

  method OutputFileTransfer(s: Body, b: Buffer)
    requires s.FileTransfer?
    modifies b`data
    ensures b.data == old(b.data) + OutFileTransfer(b.endn, s)
  {
    hide Pack16, Pack32, Write16String;
    b.PutString16(s.message);
    b.Put16(s.revport);
    b.Put16(0);
    b.PutString16(s.description);
    b.Put32(s.size);
    b.Put16(s.port);
    b.Put16(0);
  }

  /** The loop over the contacts, printing each number and alias with a separator after it. */
  method OutputContacts(content: seq<Contact>) returns (t: text)
    ensures t == ContactText(content)
  {
    hide Decimal;
    t := Decimal(|content|) + [SEPARATOR];
    assert content[0..] == content;
    for i := 0 to |content|
      invariant t + Terminated(ContactFields(content[i..])) == ContactText(content)
    {
      var c := content[i];
      TerminatedContact(content, i);
      t := t + Decimal(c.uin) + [SEPARATOR] + c.alias + [SEPARATOR];
    }
  }

  lemma TerminatedContact(content: seq<Contact>, i: nat)
    requires i < |content|
    ensures Terminated(ContactFields(content[i..])) ==
      Decimal(content[i].uin) + [SEPARATOR] + content[i].alias + [SEPARATOR] + Terminated(ContactFields(content[i + 1..]))
  {
    hide Decimal;
    var number, alias, rest := Decimal(content[i].uin), content[i].alias, ContactFields(content[i + 1..]);
    assert content[i..][1..] == content[i + 1..];
    assert ContactFields(content[i..]) == [number, alias] + rest;
    assert ([number, alias] + rest)[1..] == [alias] + rest && ([alias] + rest)[1..] == rest;
  }

  method OutputBodyUIN(s: Body, advanced: bool, b: Buffer)
    modifies b`data
    ensures b.data == old(b.data) + OutBody(b.endn, advanced, s)
  {
    hide Pack32, Write16String, OutFileTransfer, ContactText;
    match s
    case Normal(message, fg, bg) =>
      b.PutString16(message);
      if advanced {
        b.Put32(fg);
        b.Put32(bg);
      }
    case Url(message, url) => b.PutString16(message + [SEPARATOR] + url);
    case AuthReq(alias, first, last, email, auth, message) =>
      var sep := [SEPARATOR];
      JoinSix(alias, first, last, email, Flag(auth), message);
      b.PutString16(alias + sep + first + sep + last + sep + email + sep + Flag(auth) + sep + message);
    case UserAdd(alias, first, last, email, auth) =>
      var sep := [SEPARATOR];
      TerminateFive(alias, first, last, email, Flag(auth));
      b.PutString16(alias + sep + first + sep + last + sep + email + sep + Flag(auth) + sep);
    case FileTransfer(_, _, _, _, _) => OutputFileTransfer(s, b);
    case Contacts(content) =>
      var t := OutputContacts(content);
      b.PutString16(t);
  }

  lemma JoinCons(f: text, rest: seq<text>)
    requires rest != []
    ensures Join([f] + rest) == f + [SEPARATOR] + Join(rest)
  {
    assert ([f] + rest)[1..] == rest;
  }

  lemma JoinSix(a: text, b: text, c: text, d: text, e: text, f: text)
    ensures var sep := [SEPARATOR]; Join([a, b, c, d, e, f]) == a + sep + b + sep + c + sep + d + sep + e + sep + f
  {
    hide Join;
    var sep := [SEPARATOR];
    JoinCons(a, [b, c, d, e, f]);
    JoinCons(b, [c, d, e, f]);
    JoinCons(c, [d, e, f]);
    JoinCons(d, [e, f]);
    JoinCons(e, [f]);
    JoinOne(f);
    assert [a] + [b, c, d, e, f] == [a, b, c, d, e, f] && [b] + [c, d, e, f] == [b, c, d, e, f];
    assert [c] + [d, e, f] == [c, d, e, f] && [d] + [e, f] == [d, e, f] && [e] + [f] == [e, f];
  }

  lemma JoinOne(f: text)
    ensures Join([f]) == f
  {
  }

  lemma TerminatedCons(f: text, rest: seq<text>)
    ensures Terminated([f] + rest) == f + [SEPARATOR] + Terminated(rest)
  {
    assert ([f] + rest)[1..] == rest;
  }

  lemma TerminateFive(a: text, b: text, c: text, d: text, e: text)
    ensures var sep := [SEPARATOR]; Terminated([a, b, c, d, e]) == a + sep + b + sep + c + sep + d + sep + e + sep
  {
    hide Terminated;
    TerminatedCons(a, [b, c, d, e]);
    TerminatedCons(b, [c, d, e]);
    TerminatedCons(c, [d, e]);
    TerminatedCons(d, [e]);
    TerminatedCons(e, []);
    TerminatedNone();
    assert [a] + [b, c, d, e] == [a, b, c, d, e] && [b] + [c, d, e] == [b, c, d, e];
    assert [c] + [d, e] == [c, d, e] && [d] + [e] == [d, e] && [e] + [] == [e];
  }

  lemma TerminatedNone()
    ensures Terminated([]) == []
  {
  }

  method OutputBodyUINACK(s: SubType, b: Buffer)
    modifies b`data
    ensures b.data == old(b.data) + OutAck(b.endn, s.advanced, s.away, s.body)
  {
    hide Pack32, Write16String, OutFileTransfer;
    if s.body.FileTransfer? {
      OutputFileTransfer(s.body, b);
    } else {
      b.PutString16(s.away);
      if s.body.Normal? && s.advanced {
        b.Put32(0);
        b.Put32(0xffff_ffff);
      }
    }
  }

  method OutputSubType(s: SubType, b: Buffer)
    modifies b`data
    ensures b.data == old(b.data) + Output(b.endn, s)
  {
    hide OutAck, OutBody, Pack16, TypeOf;
    b.Put8(TypeOf(s.body));
    b.Put8(s.flags);
    if s.advanced {
      b.Put16(s.status);
      var priority := 0;
      if !s.ack {
        priority := PRIORITY_NORMAL;
        if s.urgent { priority := PRIORITY_URGENT; }
        if s.toContactList { priority := PRIORITY_TO_CONTACT_LIST; }
      }
      b.Put16(priority);
    }
    assert b.data == old(b.data) + OutHead(b.endn, s);
    hide OutHead;
    if s.ack {
      OutputBodyUINACK(s, b);
    } else {
      OutputBodyUIN(s.body, s.advanced, b);
    }
  }

  // ------------------------------------------------------------------
  //  Parsing
  // ------------------------------------------------------------------

  method FillPairs(fields: seq<text>) returns (content: seq<Contact>)
    ensures content == Pairs(fields)
  {
    hide Atoi;
    content := [];
    var all := if |fields| % 2 != 0 then fields[..|fields| - 1] else fields;
    PairsDropLast(fields);
    var i := 0;
    assert all[0..] == all;
    while i != |all|
      invariant i <= |all| && i % 2 == 0 && |all| % 2 == 0
      invariant content + Pairs(all[i..]) == Pairs(fields)
      decreases |all| - i
    {
      assert all[i..][2..] == all[i + 2..];
      content := content + [Contact(Atoi(all[i]) % 0x1_0000_0000, all[i + 1])];
      i := i + 2;
    }
    assert all[i..] == [];
  }

  lemma {:induction false} PairsDropLast(fields: seq<text>)
    ensures |fields| % 2 != 0 ==> Pairs(fields[..|fields| - 1]) == Pairs(fields)
    decreases |fields|
  {
    hide Atoi;
    if |fields| >= 2 && |fields| % 2 != 0 {
      PairsDropLast(fields[2..]);
      assert fields[..|fields| - 1][2..] == fields[2..][..|fields| - 3];
    }
  }

  method ParseTextMethod(type_: byte, t: text) returns (s: Body)
    ensures s == ParseText(type_, t)
  {
    hide Split, Atoi;
    if type_ == TYPE_URL {
      var l := Find(t, 0);
      s := if l < |t| then Url(t[..l], t[l + 1..]) else Url(t, []);
    } else if type_ == TYPE_AUTH_REQ {
      var f := StringSplit(t, 6);
      PaddedLength(t, 6);
      s := AuthReq(f[0], f[1], f[2], f[3], f[4] == ['1' as int], f[5]);
    } else if type_ == TYPE_USER_ADD {
      var f := StringSplit(t, 5);
      PaddedLength(t, 5);
      s := UserAdd(f[0], f[1], f[2], f[3], f[4] == ['1' as int]);
    } else {
      var l := Find(t, 0);
      s := Contacts([]);
      if l < |t| {
        var f := StringSplit(t[l + 1..], Atoi(t[..l]));
        var content := FillPairs(f);
        s := Contacts(content);
      }
    }
  }

  method ParseFileTransferMethod(b: Buffer) returns (s: Body)
    modifies b`pos
    ensures (s, b.pos) == ParseFileTransfer(b.endn, b.data, old(b.pos))
  {
    hide Read16, Read32, ReadString16;
    var message := b.GetString16();
    var revport := b.Get16();
    b.Advance(2);
    var description := b.GetString16();
    var size := b.Get32();
    var port := b.Get16();
    b.Advance(2);
    s := FileTransfer(message, revport, description, size, port);
  }

  method ParseBodyUINMethod(b: Buffer, advanced: bool, type_: byte) returns (s: Body)
    modifies b`pos
    ensures (s, b.pos) == ParseBodyUIN(b.endn, b.data, old(b.pos), advanced, type_)
  {
    hide Read32, ReadString16, ParseText, ParseFileTransfer;
    if type_ == TYPE_NORMAL {
      var message := b.GetString16();
      if advanced {
        var fg := b.Get32();
        var bg := b.Get32();
        s := Normal(message, fg, bg);
      } else {
        s := Normal(message, BLACK, WHITE);
      }
    } else if type_ == TYPE_FT {
      s := ParseFileTransferMethod(b);
    } else {
      var t := b.GetString16();
      s := ParseTextMethod(type_, t);
    }
  }

  method ParseBodyUINACKMethod(b: Buffer, type_: byte) returns (away: text, s: Body)
    modifies b`pos
    ensures (away, s, b.pos) == ParseBodyUINACK(b.endn, b.data, old(b.pos), type_)
  {
    hide ReadString16, ParseFileTransfer;
    if type_ == TYPE_FT {
      away := [];
      s := ParseFileTransferMethod(b);
    } else {
      away := b.GetString16();
      s := BlankBody(type_);
      if type_ == TYPE_NORMAL { b.Advance(8); }
    }
  }

  /** Reads the type and the flags, and dispatches on the type. */
  method ParseSubType(b: Buffer, advanced: bool, ack: bool) returns (r: Parsed)
    modifies b`pos
    ensures r == Parse(b.endn, b.data, old(b.pos), advanced, ack)
    ensures r.Parsed? ==> b.pos == r.pos
  {
    hide Read8, Read16, ParseBodyUIN, ParseBodyUINACK, Bit, ParsedToContactList, BlankBody;
    var type_ := b.Get8();
    var flags := b.Get8();
    if !Modelled(type_) { return NotModelled(type_); }
    var status: ushort, priority: ushort := 0, 0;
    if advanced {
      status := b.Get16();
      priority := b.Get16();
    }
    var urgent, toContactList := Bit(priority, PRIORITY_URGENT), ParsedToContactList(priority);
    var away: text := [];
    var s: Body;
    if ack {
      away, s := ParseBodyUINACKMethod(b, type_);
    } else {
      s := ParseBodyUINMethod(b, advanced, type_);
    }
    r := Parsed(SubType(flags, advanced, ack, status, urgent, toContactList, away, s), b.pos);
  }
}
