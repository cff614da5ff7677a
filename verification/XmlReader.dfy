/** What the XML reader makes of text this library does not print itself (src/Xml.cpp:83-215): CDATA sections, attributes,
    prologues, and elements that are not closed as they should be. */
module XmlReader {
  import opened Wrappers
  import opened XmlEscape
  import opened XmlParser
  import opened XmlRoundTrip

  // ------------------------------------------------------------------
  //  CDATA sections
  // ------------------------------------------------------------------

  /** Every ']' is followed by '>', or by two more of its kind. */
  predicate Clean(t: string)
    decreases |t|
  {
    if t == [] then true
    else if t[0] != ']' then Clean(t[1..])
    else if |t| >= 2 && t[1] == '>' then Clean(t[2..])
    else |t| >= 3 && t[1] == ']' && t[2] == ']' && Clean(t[3..])
  }

  lemma {:induction false} ReadKeeps(s: string, endtag: string, cdata: string)
    requires |endtag| <= 3
    ensures cdata <= ReadCData(s, endtag, cdata).0
    decreases |s|
  {
    if s != [] && |endtag| < 3 {
      if s[0] == ']' || s[0] == '>' {
        var e := endtag + [s[0]];
        ReadKeeps(s[1..], [], cdata + e);
        ReadKeeps(s[1..], e, cdata);
      } else {
        ReadKeeps(s[1..], endtag, cdata + [s[0]]);
      }
    }
  }

  /** One character that is not ']': it is part of the section. */
  lemma ReadOther(s: string, cdata: string)
    requires s != [] && s[0] != ']'
    ensures ReadCData(s, "", cdata) == ReadCData(s[1..], "", cdata + [s[0]])
  {
    if s[0] == '>' { assert "" + [s[0]] == [s[0]] && "]]>"[..1] == "]"; }
  }

  /** A character other than the two is put in front of the brackets held back. */
  lemma ReadHeldBack(s: string, endtag: string, cdata: string)
    requires s != [] && s[0] != ']' && s[0] != '>' && |endtag| < 3
    ensures ReadCData(s, endtag, cdata) == ReadCData(s[1..], endtag, cdata + [s[0]])
  {
  }

  lemma ReadBracket(s: string, cdata: string)
    requires s != [] && s[0] == ']'
    ensures ReadCData(s, "", cdata) == ReadCData(s[1..], "]", cdata)
  {
    assert "" + [s[0]] == "]" && "]]>"[..1] == "]";
  }

  lemma ReadAfterOne(s: string, cdata: string)
    requires s != [] && (s[0] == ']' || s[0] == '>')
    ensures ReadCData(s, "]", cdata) ==
      if s[0] == '>' then ReadCData(s[1..], "", cdata + "]>") else ReadCData(s[1..], "]]", cdata)
  {
    assert "]" + [s[0]] == (if s[0] == '>' then "]>" else "]]") && "]]>"[..2] == "]]";
    assert "]>"[1] != "]]"[1];
  }

  lemma ReadAfterTwo(s: string, cdata: string)
    requires s != [] && (s[0] == ']' || s[0] == '>')
    ensures ReadCData(s, "]]", cdata) == if s[0] == '>' then (cdata, s[1..]) else ReadCData(s[1..], "", cdata + "]]]")
  {
    assert "]]" + [s[0]] == (if s[0] == '>' then "]]>" else "]]]") && "]]>"[..3] == "]]>";
    assert "]]]"[2] != "]]>"[2];
  }

  lemma ReadEnd(rest: string, cdata: string)
    ensures ReadCData("]]>" + rest, "", cdata) == (cdata, rest)
  {
    hide ReadCData;
    var s := "]]>" + rest;
    assert s[1..][1..] == ">" + rest && (">" + rest)[1..] == rest;
    ReadBracket(s, cdata);
    ReadAfterOne(s[1..], cdata);
    ReadAfterTwo(s[1..][1..], cdata);
  }

  lemma {:induction false} ReadClean(t: string, rest: string, cdata: string)
    requires Clean(t)
    ensures ReadCData(t + rest, "", cdata) == ReadCData(rest, "", cdata + t)
    decreases |t|
  {
    hide ReadCData;
    var s := t + rest;
    if t == [] {
      assert s == rest && cdata + t == cdata;
    } else if t[0] != ']' {
      ReadOther(s, cdata);
      assert s[1..] == t[1..] + rest && cdata + [t[0]] + t[1..] == cdata + t;
      ReadClean(t[1..], rest, cdata + [t[0]]);
    } else if |t| >= 2 && t[1] == '>' {
      ReadBracket(s, cdata);
      ReadAfterOne(s[1..], cdata);
      assert s[1..][1..] == t[2..] + rest && cdata + "]>" + t[2..] == cdata + t;
      ReadClean(t[2..], rest, cdata + "]>");
    } else {
      ReadThree(s, cdata);
      assert s[3..] == t[3..] + rest && cdata + "]]]" + t[3..] == cdata + t;
      ReadClean(t[3..], rest, cdata + "]]]");
    }
  }

  lemma ReadThree(s: string, cdata: string)
    requires |s| >= 3 && s[..3] == "]]]"
    ensures ReadCData(s, "", cdata) == ReadCData(s[3..], "", cdata + "]]]")
  {
    hide ReadCData;
    assert s[0] == s[..3][0] && s[1] == s[..3][1] && s[2] == s[..3][2];
    assert s[1..][1..][1..] == s[3..];
    ReadBracket(s, cdata);
    ReadAfterOne(s[1..], cdata);
    ReadAfterTwo(s[1..][1..], cdata);
  }

  /** Text whose first ']' stands alone or in a pair, or ends the section too early, is not read back. */
  lemma BracketBreaks(t: string, rest: string, cdata: string)
    requires t != [] && t[0] == ']' && !(|t| >= 2 && t[1] == '>') && !(|t| >= 3 && t[1] == ']' && t[2] == ']')
    ensures ReadCData(t + ("]]>" + rest), "", cdata) != (cdata + t, rest)
  {
    hide ReadCData;
    var s := t + ("]]>" + rest);
    if |t| <= 2 && t[|t| - 1] == ']' {
      assert s[..3] == "]]]";
      ReadThree(s, cdata);
      ShortBreaks(s[3..], rest, cdata + "]]]", |t| == 1);
    } else {
      ReadBracket(s, cdata);
      var s1 := s[1..];
      if t[1] == ']' {
        ReadAfterOne(s1, cdata);
        assert s1[1..][0] == t[2];
        if t[2] == '>' {
          ReadAfterTwo(s1[1..], cdata);
          assert |s1[1..][1..]| > |rest|;
        } else {
          HeldBackBreaks(s1[1..], "]]", cdata, t);
        }
      } else {
        HeldBackBreaks(s1, "]", cdata, t);
      }
    }
  }

  lemma ShortBreaks(s: string, rest: string, cdata: string, one: bool)
    requires s == (if one then ">" else "]>") + rest
    ensures |ReadCData(s, "", cdata).0| >= |cdata| + 1
  {
    hide ReadCData;
    if one {
      ReadOther(s, cdata);
      ReadKeeps(s[1..], "", cdata + [s[0]]);
    } else {
      ReadBracket(s, cdata);
      ReadAfterOne(s[1..], cdata);
      ReadKeeps(s[1..][1..], "", cdata + "]>");
    }
  }

  lemma HeldBackBreaks(s: string, endtag: string, cdata: string, t: string)
    requires s != [] && s[0] != ']' && s[0] != '>' && |endtag| < 3 && t != [] && t[0] == ']'
    ensures ReadCData(s, endtag, cdata).0 != cdata + t
  {
    hide ReadCData;
    ReadHeldBack(s, endtag, cdata);
    ReadKeeps(s[1..], endtag, cdata + [s[0]]);
    var r := ReadCData(s, endtag, cdata).0;
    assert r[|cdata|] == (cdata + [s[0]])[|cdata|] == s[0];
    assert (cdata + t)[|cdata|] == ']';
  }

  lemma {:induction false} ReadUnclean(t: string, rest: string, cdata: string)
    requires !Clean(t)
    ensures ReadCData(t + ("]]>" + rest), "", cdata) != (cdata + t, rest)
    decreases |t|
  {
    hide ReadCData;
    var s := t + ("]]>" + rest);
    if t[0] != ']' {
      ReadOther(s, cdata);
      assert s[1..] == t[1..] + ("]]>" + rest) && cdata + [t[0]] + t[1..] == cdata + t;
      ReadUnclean(t[1..], rest, cdata + [t[0]]);
    } else if |t| >= 2 && t[1] == '>' {
      ReadBracket(s, cdata);
      ReadAfterOne(s[1..], cdata);
      assert s[1..][1..] == t[2..] + ("]]>" + rest) && cdata + "]>" + t[2..] == cdata + t;
      ReadUnclean(t[2..], rest, cdata + "]>");
    } else if |t| >= 3 && t[1] == ']' && t[2] == ']' {
      assert s[..3] == "]]]";
      ReadThree(s, cdata);
      assert s[3..] == t[3..] + ("]]>" + rest) && cdata + "]]]" + t[3..] == cdata + t;
      ReadUnclean(t[3..], rest, cdata + "]]]");
    } else {
      BracketBreaks(t, rest, cdata);
    }
  }

  /** A CDATA section gives back its text, and stops right behind it, if and only if the text is clean. */
  lemma CDataReadsIff(t: string, rest: string)
    ensures ParseCData("<![CDATA[" + (t + ("]]>" + rest))) == (t, rest) <==> Clean(t)
  {
    hide ReadCData;
    var s := t + ("]]>" + rest);
    assert ("<![CDATA[" + s)[9..] == s && "<![CDATA[" <= "<![CDATA[" + s;
    assert "" + t == t;
    if Clean(t) {
      ReadClean(t, "]]>" + rest, "");
      ReadEnd(rest, t);
    } else {
      ReadUnclean(t, rest, "");
    }
  }

  /** An element that holds a clean CDATA section and nothing else is a leaf; its text has been unquoted twice, as if it were
      not a CDATA section. */
  lemma CDataLeaf(tag: string, t: string, rest: string)
    requires GoodTag(tag) && t != [] && Clean(t)
    ensures Parse("<" + Quote(tag) + ">" + ("<![CDATA[" + (t + ("]]>" + ("</" + Quote(tag) + ">" + rest)))))
         == (Some(Leaf(tag, [], Unquote(Unquote(t)))), rest)
  {
    hide Quote, Unquote, Clean;
    var q, closing := Quote(tag), "</" + Quote(tag) + ">" + rest;
    var inner := "<![CDATA[" + (t + ("]]>" + closing));
    QuotedTag(tag);
    ParseOpening(q, inner);
    CDataReadsIff(t, closing);
    ClosingTag(q, rest);
    assert inner[0] == '<' && SkipWS(inner) == inner;
    assert q + [] == q;
    TakeUntilStops(q, [], {' ', '\r', '\n', '\t'});
    assert closing[0] == '<' && TakeUntil(closing, {'<'}) == ([], closing);
    hide Parse, ParseCData, ParseTag, GoodTag, SkipWS;
    assert ParseElement(q, inner) == ParseText(q, q, t, closing);
  }

  // ------------------------------------------------------------------
  //  Attributes
  // ------------------------------------------------------------------

  /** Attributes as they may stand in a tag, between quotes of the given kind. */
  function AttrText(attrs: seq<(string, string)>, quote: char): string {
    if attrs == [] then []
    else " " + (attrs[0].0 + ("=" + ([quote] + (attrs[0].1 + ([quote] + AttrText(attrs[1..], quote))))))
  }

  predicate GoodAttribute(a: (string, string), quote: char) {
    (forall c :: c in a.0 ==> !IsSpace(c) && c != '=') && quote !in a.1
  }

  lemma OneAttribute(name: string, val: string, quote: char, rest: string)
    requires (quote == '\"' || quote == '\'') && GoodAttribute((name, val), quote)
    ensures ParseAttribute(" " + (name + ("=" + ([quote] + (val + ([quote] + rest)))))) == Some(((name, val), rest))
  {
    var s3 := [quote] + (val + ([quote] + rest));
    var s2 := "=" + s3;
    var s1 := name + s2;
    var s := " " + s1;
    assert s[1..] == s1 && s1 != [] && !IsSpace(s1[0]);
    assert SkipWS(s) == s1;
    TakeUntilStops(name, s2, SPACES + {'='});
    assert s2[1..] == s3 && SkipWS(s3) == s3;
    assert s3[1..] == val + ([quote] + rest);
    TakeUntilStops(val, [quote] + rest, {quote});
    assert ([quote] + rest)[1..] == rest;
    hide TakeUntil, SkipWS;
  }

  lemma {:induction false} AttributesRead(attrs: seq<(string, string)>, quote: char)
    requires (quote == '\"' || quote == '\'') && forall a :: a in attrs ==> GoodAttribute(a, quote)
    ensures ParseAttributes(AttrText(attrs, quote)) == attrs
    decreases |attrs|
  {
    hide ParseAttribute;
    if attrs == [] {
      NoAttribute();
    } else {
      assert attrs[0] in attrs;
      OneAttribute(attrs[0].0, attrs[0].1, quote, AttrText(attrs[1..], quote));
      AttributesRead(attrs[1..], quote);
      assert [attrs[0]] + attrs[1..] == attrs && attrs[0] == (attrs[0].0, attrs[0].1);
    }
  }

  lemma NoAttribute()
    ensures ParseAttribute("") == None
  {
  }

  /** A tag name with attributes behind it. */
  predicate GoodName(name: string) {
    && name != [] && (forall c :: c in name ==> !IsSpace(c))
    && name[0] != '/' && name[0] != '?' && name[0] != '!' && name[|name| - 1] != '/'
  }

  function TagWith(name: string, attrs: seq<(string, string)>, quote: char): string { name + AttrText(attrs, quote) }

  /** The name and the attributes of a tag are read back, whichever quotes are used. */
  lemma TagReads(name: string, attrs: seq<(string, string)>, quote: char)
    requires (quote == '\"' || quote == '\'') && GoodName(name) && forall a :: a in attrs ==> GoodAttribute(a, quote)
    ensures var at := TagWith(name, attrs, quote); TagName(at) == name && TagAttributes(at) == attrs
    ensures TakeUntil(TagWith(name, attrs, quote), {' ', '\r', '\n', '\t'}).0 == name
  {
    var at, more := TagWith(name, attrs, quote), AttrText(attrs, quote);
    assert at[0] == name[0] && SkipWS(at) == at;
    TakeUntilStops(name, more, SPACES);
    TakeUntilStops(name, more, {' ', '\r', '\n', '\t'});
    AttributesRead(attrs, quote);
  }

  /** The last character of a tag with attributes. */
  lemma {:induction false} AttrEnds(attrs: seq<(string, string)>, quote: char)
    ensures attrs != [] ==> AttrText(attrs, quote) != [] && AttrText(attrs, quote)[|AttrText(attrs, quote)| - 1] == quote
    decreases |attrs|
  {
    if attrs != [] {
      AttrEnds(attrs[1..], quote);
      if attrs[1..] == [] { assert AttrText(attrs[1..], quote) == []; }
    }
  }

  lemma TagEnds(name: string, attrs: seq<(string, string)>, quote: char)
    requires (quote == '\"' || quote == '\'') && GoodName(name)
    ensures var at := TagWith(name, attrs, quote); at[0] == name[0] && at[|at| - 1] != '/'
  {
    AttrEnds(attrs, quote);
    if attrs == [] { assert AttrText(attrs, quote) == []; }
  }

  /** Reading an element with any opening tag is a matter of what follows the tag. */
  lemma Opening(at: string, more: string)
    requires at != [] && '>' !in at && at[0] != '/' && at[0] != '?' && at[0] != '!'
    ensures Parse("<" + at + ">" + more) == ParseElement(at, more)
  {
    ParseTagOf(at, more);
    var s := "<" + at + ">" + more;
    assert s[0] == '<';
    OpensAt(s);
    hide SkipWS, ParseTag, ParseElement;
  }

  lemma OpensAt(s: string)
    requires s != [] && s[0] == '<'
    ensures SkipWS(s) == s
  {
  }

  lemma ClosingRead(p: string, rest: string)
    requires '>' !in p
    ensures ParseTag("</" + p + ">" + rest) == ("/" + p, rest)
  {
    assert "</" + p + ">" + rest == "<" + ("/" + p) + ">" + rest;
    ParseTagOf("/" + p, rest);
  }

  lemma TextOf(at: string, name: string, v: string, p: string, rest: string)
    requires '>' !in p && v != [] && '<' !in v
    ensures ParseText(at, name, "", v + ("</" + p + ">" + rest)) ==
      (if p == name then Some(MakeLeaf(Unquote(at), Unquote(v))) else None, rest)
  {
    var closing := "</" + p + ">" + rest;
    ClosingRead(p, rest);
    TakeUntilStops(v, closing, {'<'});
    assert ("/" + p)[1..] == p && ("/" + name)[1..] == name;
    hide ParseTag, TakeUntil, MakeLeaf, Unquote;
  }

  lemma NoCData(more: string)
    requires more != [] && !IsSpace(more[0]) && more[0] != '<'
    ensures SkipWS(more) == more && ParseCData(more) == ("", more)
  {
  }

  lemma ElementWithText(at: string, name: string, more: string)
    requires at != [] && at[|at| - 1] != '/' && TakeUntil(at, {' ', '\r', '\n', '\t'}).0 == name
    requires more != [] && !IsSpace(more[0]) && more[0] != '<'
    ensures ParseElement(at, more) == ParseText(at, name, "", more)
  {
    NoCData(more);
    hide TakeUntil, SkipWS, ParseText, ParseCData, ParseChildren, MakeLeaf, Unquote;
  }

  /** An element with attributes and a value. Unquoting the tag must leave it as it is, because the reader unquotes it before it
      takes it apart. */
  lemma LeafWithAttributes(name: string, attrs: seq<(string, string)>, quote: char, v: string, rest: string)
    requires (quote == '\"' || quote == '\'') && GoodName(name) && forall a :: a in attrs ==> GoodAttribute(a, quote)
    requires var at := TagWith(name, attrs, quote); '>' !in at && Unquote(at) == at
    requires v != [] && !IsSpace(v[0]) && '<' !in v && '>' !in name
    ensures Parse("<" + TagWith(name, attrs, quote) + ">" + (v + ("</" + name + ">" + rest)))
         == (Some(Leaf(name, attrs, Unquote(Unquote(v)))), rest)
  {
    var at, closing := TagWith(name, attrs, quote), "</" + name + ">" + rest;
    TagReads(name, attrs, quote);
    TagEnds(name, attrs, quote);
    hide TagWith, Unquote, TakeUntil, Parse, ParseElement, ParseText, TagName, TagAttributes;
    Opening(at, v + closing);
    ElementWithText(at, name, v + closing);
    TextOf(at, name, v, name, rest);
  }

  /** An element that closes itself is an empty leaf with its attributes. */
  lemma SelfClosing(name: string, attrs: seq<(string, string)>, quote: char, rest: string)
    requires (quote == '\"' || quote == '\'') && GoodName(name) && forall a :: a in attrs ==> GoodAttribute(a, quote)
    requires var at := TagWith(name, attrs, quote); '>' !in at && Unquote(at) == at
    ensures Parse("<" + (TagWith(name, attrs, quote) + "/") + ">" + rest) == (Some(Leaf(name, attrs, "")), rest)
  {
    UnquoteNothing();
    hide Unquote, AttrText;
    var at := TagWith(name, attrs, quote);
    var tag := at + "/";
    TagReads(name, attrs, quote);
    TagEnds(name, attrs, quote);
    ParseTagOf(tag, rest);
    assert ("<" + tag + ">" + rest)[0] == '<' && tag[..|tag| - 1] == at && tag[0] == at[0];
    hide ParseTag, TakeUntil, TagName, TagAttributes;
  }

  // ------------------------------------------------------------------
  //  What is skipped and what is refused
  // ------------------------------------------------------------------

  /** A prologue, a comment or a declaration without '>' in it is skipped. */
  lemma PrologueIsSkipped(x: string, s: string)
    requires x != [] && (x[0] == '?' || x[0] == '!') && '>' !in x
    ensures Parse("<" + x + ">" + s) == Parse(s)
  {
    ParseTagOf(x, s);
    assert ("<" + x + ">" + s)[0] == '<';
    hide ParseTag, ParseElement;
  }

  /** Nothing is read where no complete tag begins, nor at a closing tag. */
  lemma NoElement(s: string)
    requires SkipWS(s) == [] || SkipWS(s)[0] != '<' || ParseTag(SkipWS(s)).0 == [] || ParseTag(SkipWS(s)).0[0] == '/'
    ensures Parse(s).0 == None
  {
  }

  lemma {:induction false} NoClosingBracket(s: string)
    requires '>' !in s
    ensures ParseTag(s).0 == []
  {
    if s != [] && s[0] == '<' {
      assert s[1..] + [] == s[1..];
      TakeUntilStops(s[1..], [], {'>'});
    }
  }

  lemma OwnName(q: string)
    requires TagText(q)
    ensures TakeUntil(q, {' ', '\r', '\n', '\t'}).0 == q
  {
    assert q + [] == q;
    TakeUntilStops(q, [], {' ', '\r', '\n', '\t'});
  }

  /** A leaf must be closed by its own name. */
  lemma WrongClosing(q: string, w: string, p: string, rest: string)
    requires TagText(q) && '>' !in p && p != q && w != [] && !IsSpace(w[0]) && '<' !in w
    ensures Parse("<" + q + ">" + (w + ("</" + p + ">" + rest))) == (None, rest)
  {
    var closing := "</" + p + ">" + rest;
    OwnName(q);
    hide TakeUntil, Unquote, Parse, ParseElement, ParseText, MakeLeaf;
    Opening(q, w + closing);
    ElementWithText(q, q, w + closing);
    TextOf(q, q, w, p, rest);
  }

  /** So must an element without content. */
  lemma EmptyElement(q: string, p: string, rest: string)
    requires TagText(q) && '>' !in p
    ensures Parse("<" + q + ">" + ("</" + p + ">" + rest)) ==
      (if p == q then Some(MakeLeaf(Unquote(q), "")) else None, rest)
  {
    var closing := "</" + p + ">" + rest;
    assert closing[0] == '<' && closing[1] == '/';
    assert SkipWS(closing) == closing && ParseCData(closing) == ("", closing);
    hide Unquote, Parse, ParseElement, ParseChildren, ParseCData, SkipWS, MakeLeaf;
    Opening(q, closing);
    ParseElementOf(q, closing);
    ChildlessEnds(q, p, rest);
  }

  lemma ChildlessEnds(q: string, p: string, rest: string)
    requires '>' !in p
    ensures ("</" + p + ">" + rest)[0] == '<'
    ensures ParseChildren(q, q, "</" + p + ">" + rest, false, []) ==
      (if p == q then Some(MakeLeaf(Unquote(q), "")) else None, rest)
  {
    ClosingRead(p, rest);
    assert ("/" + p)[1..] == p && ("/" + q)[1..] == q;
    hide ParseTag, MakeLeaf, Unquote;
  }

  /** A child that cannot be read is left out, and the reader goes on after it. */
  lemma BadChildIsLeftOut(tag: string, name: string, s: string, started: bool, kids: seq<Node>, more: string)
    requires s != [] && s[0] == '<' && ParseTag(s).0 != [] && ParseTag(s).0[0] != '/'
    requires Parse(s) == (None, more) && SkipWS(more) != [] && SkipWS(more)[0] == '<'
    ensures ParseChildren(tag, name, s, started, kids) == ParseChildren(tag, name, SkipWS(more), true, kids)
  {
    hide Parse, ParseTag, SkipWS;
  }

  /** Text that ends inside an element leaves nothing. */
  lemma UnclosedElement(q: string, w: string)
    requires TagText(q) && '<' !in w
    ensures Parse("<" + q + ">" + w).0 == None
  {
    hide Quote, Unquote;
    ParseOpening(q, w);
    SkipsToPart(w);
    var s := SkipWS(w);
    if s != [] {
      assert s + [] == s;
      TakeUntilStops(s, [], {'<'});
      hide Parse, TakeUntil, SkipWS;
      assert ParseCData(s) == ("", s);
      ParseElementOf(q, w);
    }
  }

  lemma {:induction false} SkipsToPart(w: string)
    ensures forall c :: c in SkipWS(w) ==> c in w
  {
    if w != [] && IsSpace(w[0]) { SkipsToPart(w[1..]); }
  }

  // ------------------------------------------------------------------
  //  Branches
  // ------------------------------------------------------------------

  /** After a child comes another tag; text, or the end, leaves nothing. */
  lemma TextAfterChild(tag: string, name: string, s: string, started: bool, kids: seq<Node>)
    requires s != [] && s[0] == '<' && ParseTag(s).0 != [] && ParseTag(s).0[0] != '/'
    requires var more := SkipWS(Parse(s).1); more == [] || more[0] != '<'
    ensures ParseChildren(tag, name, s, started, kids) == (None, SkipWS(Parse(s).1))
  {
    hide Parse, ParseTag, SkipWS;
  }

  lemma FirstChild(at: string, name: string, k: string, c: Node, rest: string)
    requires '>' !in name
    requires k != [] && k[0] == '<' && ParseTag(k + ("</" + name + ">" + rest)).0 != []
    requires ParseTag(k + ("</" + name + ">" + rest)).0[0] != '/'
    requires Parse(k + ("</" + name + ">" + rest)) == (Some(c), "</" + name + ">" + rest)
    ensures (k + ("</" + name + ">" + rest))[0] == '<'
    ensures ParseChildren(at, name, k + ("</" + name + ">" + rest), false, []) == (Some(MakeBranch(Unquote(at), [c])), rest)
  {
    var closing := "</" + name + ">" + rest;
    ClosingRead(name, rest);
    assert closing[0] == '<' && (k + closing)[0] == k[0];
    OpensAt(closing);
    assert [] + [c] == [c];
    hide Parse, ParseTag, SkipWS, MakeBranch, Unquote;
    assert ParseChildren(at, name, closing, true, [c]) == (Some(MakeBranch(Unquote(at), [c])), rest);
  }

  /** An element with attributes and a child is a branch that has both. */
  lemma BranchWithAttributes(name: string, attrs: seq<(string, string)>, quote: char, k: string, c: Node, rest: string)
    requires (quote == '\"' || quote == '\'') && GoodName(name) && forall a :: a in attrs ==> GoodAttribute(a, quote)
    requires var at := TagWith(name, attrs, quote); '>' !in at && Unquote(at) == at
    requires '>' !in name && k != [] && k[0] == '<' && !("<![CDATA[" <= k + ("</" + name + ">" + rest))
    requires ParseTag(k + ("</" + name + ">" + rest)).0 != [] && ParseTag(k + ("</" + name + ">" + rest)).0[0] != '/'
    requires Parse(k + ("</" + name + ">" + rest)) == (Some(c), "</" + name + ">" + rest)
    ensures Parse("<" + TagWith(name, attrs, quote) + ">" + (k + ("</" + name + ">" + rest)))
         == (Some(Branch(name, attrs, [c])), rest)
  {
    var at, s := TagWith(name, attrs, quote), k + ("</" + name + ">" + rest);
    TagReads(name, attrs, quote);
    TagEnds(name, attrs, quote);
    FirstChild(at, name, k, c, rest);
    OpensAt(s);
    hide TagWith, Unquote, TakeUntil, Parse, ParseChildren, ParseTag, SkipWS, TagName, TagAttributes, ParseText;
    Opening(at, s);
    assert ParseCData(s) == ("", s);
    assert ParseElement(at, s) == ParseChildren(at, name, s, false, []);
  }

  // ------------------------------------------------------------------
  //  Entities
  // ------------------------------------------------------------------

  lemma ReplaceExact(r1: string, r2: string)
    requires r1 != []
    ensures ReplaceAll(r1, r1, r2) == r2
  {
    assert r1[|r1|..] == [] && r2 + [] == r2;
  }

  /** The pattern begins with '&' and the text has none, or none but the first character, and is no match. */
  lemma ReplaceOther(s: string, r1: string, r2: string)
    requires r1 != [] && r1[0] == '&' && !(r1 <= s) && forall i :: 0 < i < |s| ==> s[i] != '&'
    ensures ReplaceAll(s, r1, r2) == s
  {
    forall i | 0 <= i < |s| ensures !(r1 <= (s + [])[i..]) {
      assert s + [] == s;
      if r1 <= s[i..] { assert s[i..][0] == s[i]; }
      if i == 0 { assert s[0..] == s; }
    }
    SkipNonMatching(s, [], r1, r2);
    ReplaceNothing(r1, r2);
    assert s + [] == s;
    hide ReplaceAll;
  }

  /** Each of the seven entities by itself. */
  lemma EntitiesUnquote()
    ensures Unquote("&lt;") == "<" && Unquote("&gt;") == ">" && Unquote("&quot;") == "\"" && Unquote("&apos;") == "`"
    ensures Unquote("&nbsp;") == " " && Unquote("&trade;") == "(tm)" && Unquote("&amp;") == "&"
  {
    hide ReplaceAll;
    EntityUnquotes("&lt;", "<", 0);
    EntityUnquotes("&gt;", ">", 1);
    EntityUnquotes("&quot;", "\"", 2);
    EntityUnquotes("&apos;", "`", 3);
    EntityUnquotes("&nbsp;", " ", 4);
    EntityUnquotes("&trade;", "(tm)", 5);
    EntityUnquotes("&amp;", "&", 6);
  }

  /** The entities in the order of the passes. */
  const ENTITIES: seq<(string, string)> :=
    [("&lt;", "<"), ("&gt;", ">"), ("&quot;", "\""), ("&apos;", "`"), ("&nbsp;", " "), ("&trade;", "(tm)"), ("&amp;", "&")]

  /** The text after the first n passes. */
  function Passes(s: string, n: nat): string
    requires n <= 7
  {
    if n == 0 then s
    else
      assert |ENTITIES[n - 1].0| > 0;
      ReplaceAll(Passes(s, n - 1), ENTITIES[n - 1].0, ENTITIES[n - 1].1)
  }

  lemma PassStep(s: string, n: nat)
    requires 0 < n <= 7
    ensures Passes(s, n) == ReplaceAll(Passes(s, n - 1), ENTITIES[n - 1].0, ENTITIES[n - 1].1)
  {
    hide ReplaceAll;
  }

  lemma PassesUnquote(s: string)
    ensures Passes(s, 7) == Unquote(s)
  {
    assert Passes(s, 0) == s;
    hide ReplaceAll, Passes;
    PassStep(s, 1);
    PassStep(s, 2);
    PassStep(s, 3);
    PassStep(s, 4);
    PassStep(s, 5);
    PassStep(s, 6);
    PassStep(s, 7);
  }

  lemma {:induction false} PassesLeave(s: string, n: nat)
    requires n <= 7 && (forall i :: 0 < i < |s| ==> s[i] != '&') && forall k :: 0 <= k < n ==> !(ENTITIES[k].0 <= s)
    ensures Passes(s, n) == s
  {
    hide ReplaceAll;
    if n > 0 {
      PassesLeave(s, n - 1);
      ReplaceOther(s, ENTITIES[n - 1].0, ENTITIES[n - 1].1);
    }
  }

  lemma {:induction false} PassesAfter(s: string, r: string, k: nat, n: nat)
    requires k < n <= 7 && s == ENTITIES[k].0 && r == ENTITIES[k].1
    requires (forall i :: 0 < i < |s| ==> s[i] != '&') && forall j :: 0 <= j < k ==> !(ENTITIES[j].0 <= s)
    requires (forall i :: 0 < i < |r| ==> r[i] != '&') && forall j :: k < j < n ==> !(ENTITIES[j].0 <= r)
    ensures Passes(s, n) == r
    decreases n
  {
    hide ReplaceAll;
    if n == k + 1 {
      PassesLeave(s, k);
      ReplaceExact(s, r);
    } else {
      PassesAfter(s, r, k, n - 1);
      ReplaceOther(r, ENTITIES[n - 1].0, ENTITIES[n - 1].1);
    }
  }

  lemma EntityUnquotes(s: string, r: string, k: nat)
    requires k < 7 && s == ENTITIES[k].0 && r == ENTITIES[k].1
    ensures Unquote(s) == r
  {
    hide Unquote, Passes;
    PassesUnquote(s);
    assert forall j :: 0 <= j < k ==> ENTITIES[j].0[1] != s[1] || ENTITIES[j].0[2] != s[2];
    PassesAfter(s, r, k, 7);
  }
}
