/** Printing a tree and reading it back (src/Xml.cpp: toString and parse). */
module XmlRoundTrip {
  import opened Wrappers
  import opened XmlEscape
  import opened XmlParser

  function Tabs(n: nat): string { seq(n, _ => '\t') }

  /** No leaf has attributes: on one that has, the source's toString does not return. */
  predicate Printable(t: Node) {
    match t
    case Leaf(_, attributes, _) => attributes == []
    case Branch(_, _, children) => forall c :: c in children ==> Printable(c)
  }

  function ToString(t: Node, n: nat): string
    requires Printable(t)
  {
    match t
    case Leaf(tag, _, value) =>
      Tabs(n) + "<" + Quote(tag) + ">" + Quote(value) + "</" + Quote(tag) + ">\n"
    case Branch(tag, _, children) =>
      Tabs(n) + "<" + Quote(tag) + ">\n" + ChildrenToString(children, n + 1) + Tabs(n) + "</" + Quote(tag) + ">\n"
  }

  function ChildrenToString(children: seq<Node>, n: nat): string
    requires forall c :: c in children ==> Printable(c)
  {
    if children == [] then [] else ToString(children[0], n) + ChildrenToString(children[1..], n)
  }

  method Print(t: Node, n: nat) returns (ret: string)
    requires Printable(t)
    ensures ret == ToString(t, n)
    decreases t
  {
    match t
    case Leaf(tag, _, value) =>
      ret := Tabs(n) + "<" + Quote(tag);
      ret := ret + ">" + Quote(value) + "</" + Quote(tag) + ">\n";
    case Branch(tag, _, children) =>
      ret := Tabs(n) + "<" + Quote(tag) + ">\n";
      ghost var head := ret;
      var curr := 0;
      while curr != |children|
        invariant 0 <= curr <= |children|
        invariant ret + ChildrenToString(children[curr..], n + 1) == head + ChildrenToString(children, n + 1)
        decreases |children| - curr
      {
        assert children[curr..][1..] == children[curr + 1..];
        var child := Print(children[curr], n + 1);
        ret := ret + child;
        curr := curr + 1;
      }
      ret := ret + Tabs(n) + "</" + Quote(tag) + ">\n";
  }

  // ------------------------------------------------------------------
  //  Which trees survive
  // ------------------------------------------------------------------

  predicate GoodTag(tag: string) {
    && tag != []
    && (forall c :: c in tag ==> !IsSpace(c))
    && tag[0] != '/' && tag[0] != '?' && tag[0] != '!'
    && tag[|tag| - 1] != '/'
  }

  predicate GoodValue(v: string) {
    (v != [] ==> !IsSpace(v[0])) && Unquote(v) == v
  }

  predicate WellFormed(t: Node) {
    && t.attributes == []
    && GoodTag(t.tag)
    && match t
       case Leaf(_, _, value) => GoodValue(value)
       case Branch(_, _, children) => children != [] && forall c :: c in children ==> WellFormed(c)
  }

  lemma WellFormedPrintable(t: Node)
    requires WellFormed(t)
    ensures Printable(t)
  {
  }

  // ------------------------------------------------------------------
  //  What quoting does to tags and values
  // ------------------------------------------------------------------

  lemma {:induction false} EntitiesChars(s: string)
    ensures forall c :: c in Entities(s, 0) ==> c != '<' && c != '>' && (IsSpace(c) ==> c in s)
  {
    if s != [] {
      EntitiesChars(s[1..]);
      assert forall c :: c in Entity(s[0], 0) ==> c != '<' && c != '>' && (IsSpace(c) ==> c == s[0]);
    }
  }

  lemma {:induction false} EntitiesEnds(s: string)
    requires s != []
    ensures var q := Entities(s, 0);
      && q != []
      && (q[0] == s[0] || q[0] == '&')
      && (q[|q| - 1] == s[|s| - 1] || q[|q| - 1] == ';')
  {
    if |s| > 1 {
      EntitiesEnds(s[1..]);
    } else {
      assert Entities(s[1..], 0) == [];
    }
  }

  /** Quoted text as it may stand inside a tag. */
  predicate TagText(q: string) {
    && q != []
    && (forall c :: c in q ==> c != '<' && c != '>' && !IsSpace(c))
    && q[0] != '/' && q[0] != '?' && q[0] != '!'
    && q[|q| - 1] != '/'
  }

  lemma QuotedTag(tag: string)
    requires GoodTag(tag)
    ensures TagText(Quote(tag)) && Unquote(Quote(tag)) == tag
    ensures TagName(tag) == tag && TagAttributes(tag) == []
  {
    hide Quote, Unquote;
    QuoteIsEntities(tag);
    EntitiesChars(tag);
    EntitiesEnds(tag);
    UnquoteInvertsQuote(tag);
    assert SkipWS(tag) == tag;
    assert tag + [] == tag;
    TakeUntilStops(tag, [], SPACES);
  }

  /** Quoted text without leading blanks, as it may stand between tags. */
  lemma QuotedText(u: string)
    requires u == [] || !IsSpace(u[0])
    ensures var w := Quote(u);
      && '<' !in w
      && (u == [] <==> w == [])
      && (w != [] ==> !IsSpace(w[0]))
      && Unquote(w) == u
  {
    hide Quote, Unquote;
    QuoteIsEntities(u);
    EntitiesChars(u);
    if u != [] { EntitiesEnds(u); }
    UnquoteInvertsQuote(u);
  }

  /** Quoting leaves leading blanks alone. */
  lemma {:induction false} QuoteSkips(v: string)
    ensures SkipWS(Quote(v)) == Quote(SkipWS(v))
  {
    hide Quote;
    QuoteIsEntities(v);
    if v != [] && IsSpace(v[0]) {
      QuoteSkips(v[1..]);
      QuoteIsEntities(v[1..]);
      assert Quote(v) == [v[0]] + Quote(v[1..]);
      assert ([v[0]] + Quote(v[1..]))[1..] == Quote(v[1..]);
    } else {
      QuotedText(v);
    }
  }

  // ------------------------------------------------------------------
  //  The scanner on printed text
  // ------------------------------------------------------------------

  lemma {:induction false} SkipTabs(n: nat, s: string)
    ensures SkipWS(Tabs(n) + s) == SkipWS(s)
  {
    if n == 0 {
      assert Tabs(0) + s == s;
    } else {
      assert (Tabs(n) + s)[1..] == Tabs(n - 1) + s;
      SkipTabs(n - 1, s);
    }
  }

  lemma {:induction false} SkipBefore(w: string, rest: string)
    requires rest != [] && !IsSpace(rest[0])
    ensures SkipWS(w + rest) == SkipWS(w) + rest
  {
    if w == [] {
      assert w + rest == rest;
    } else if IsSpace(w[0]) {
      assert (w + rest)[1..] == w[1..] + rest;
      SkipBefore(w[1..], rest);
    }
  }

  lemma {:induction false} TakeUntilStops(w: string, rest: string, stop: set<char>)
    requires forall c :: c in w ==> c !in stop
    requires rest == [] || rest[0] in stop
    ensures TakeUntil(w + rest, stop) == (w, rest)
  {
    if w == [] {
      assert w + rest == rest;
    } else {
      assert (w + rest)[1..] == w[1..] + rest;
      TakeUntilStops(w[1..], rest, stop);
      assert [w[0]] + w[1..] == w;
    }
  }

  lemma ParseTagOf(q: string, rest: string)
    requires '>' !in q
    ensures ParseTag("<" + q + ">" + rest) == (q, rest)
  {
    var s := "<" + q + ">" + rest;
    assert s[1..] == q + (">" + rest);
    TakeUntilStops(q, ">" + rest, {'>'});
  }

  /** Reading an element whose opening tag is q is a matter of what follows the tag. */
  lemma ParseOpening(q: string, rest: string)
    requires TagText(q)
    ensures Parse("<" + q + ">" + rest) == ParseElement(q, rest)
  {
    hide Quote, Unquote, ParseTag, ParseElement;
    ParseTagOf(q, rest);
    assert ("<" + q + ">" + rest)[0] == '<';
  }

  /** The tag has no blanks, so it is its own tag name. */
  lemma ParseElementOf(q: string, rest: string)
    requires TagText(q) && SkipWS(rest) != [] && ParseCData(SkipWS(rest)) == ("", SkipWS(rest))
    ensures var s := SkipWS(rest);
      ParseElement(q, rest) ==
      if s[0] == '<' then ParseChildren(q, q, s, false, []) else ParseText(q, q, "", s)
  {
    hide Quote, Unquote;
    assert q + [] == q;
    TakeUntilStops(q, [], {' ', '\r', '\n', '\t'});
  }

  lemma ClosingTag(q: string, rest: string)
    requires TagText(q)
    ensures var s := "</" + q + ">" + rest;
      SkipWS(s) == s && ParseTag(s) == ("/" + q, rest) && ParseCData(s) == ("", s)
  {
    assert "</" + q + ">" + rest == "<" + ("/" + q) + ">" + rest;
    ParseTagOf("/" + q, rest);
  }

  // ------------------------------------------------------------------
  //  Leaves
  // ------------------------------------------------------------------

  lemma ParseTextOf(tag: string, q: string, v: string, w: string, rest: string)
    requires TagText(q) && Unquote(q) == tag && TagName(tag) == tag && TagAttributes(tag) == []
    requires w != [] && '<' !in w && Unquote(Unquote(w)) == v
    ensures ParseText(q, q, "", w + ("</" + q + ">" + rest)) == (Some(Leaf(tag, [], v)), rest)
  {
    hide Quote, Unquote;
    TakeUntilStops(w, "</" + q + ">" + rest, {'<'});
    ClosingTag(q, rest);
  }

  /** What comes back for a leaf with any value: the blanks in front are gone, and the constructor has
      unquoted the value once more. */
  lemma ParseAnyLeaf(tag: string, v: string, rest: string)
    requires GoodTag(tag)
    ensures Parse("<" + Quote(tag) + ">" + (Quote(v) + ("</" + Quote(tag) + ">" + rest)))
         == (Some(Leaf(tag, [], Unquote(SkipWS(v)))), rest)
  {
    hide Quote, Unquote;
    var q, u, closing := Quote(tag), SkipWS(v), "</" + Quote(tag) + ">" + rest;
    var w := Quote(u);
    QuotedTag(tag);
    QuotedText(u);
    QuoteSkips(v);
    ParseOpening(q, Quote(v) + closing);
    ClosingTag(q, rest);
    SkipBefore(Quote(v), closing);
    hide Parse, ParseElement, ParseText, TagText, GoodTag;
    if u == [] {
      assert w + closing == closing;
      ParseElementOf(q, Quote(v) + closing);
      UnquoteNothing();
    } else {
      assert (w + closing)[0] == w[0];
      ParseElementOf(q, Quote(v) + closing);
      ParseTextOf(tag, q, Unquote(u), w, rest);
    }
  }

  lemma UnquoteNothing()
    ensures Unquote("") == ""
  {
  }

  // ------------------------------------------------------------------
  //  Trees
  // ------------------------------------------------------------------

  /** A printed tree, apart from its indentation and its last line feed. */
  function Core(t: Node, n: nat): string
    requires Printable(t)
  {
    match t
    case Leaf(tag, _, value) => "<" + Quote(tag) + ">" + (Quote(value) + ("</" + Quote(tag) + ">"))
    case Branch(tag, _, children) =>
      "<" + Quote(tag) + ">" + ("\n" + ChildrenToString(children, n + 1) + Tabs(n) + "</" + Quote(tag) + ">")
  }

  lemma ToStringIsCore(t: Node, n: nat)
    requires Printable(t)
    ensures ToString(t, n) == Tabs(n) + Core(t, n) + "\n"
  {
    hide Quote, Tabs, ChildrenToString;
    var q, i := Quote(t.tag), Tabs(n);
    match t
    case Leaf(_, _, value) => RegroupLeaf(i, q, Quote(value));
    case Branch(_, _, children) => RegroupBranch(i, q, ChildrenToString(children, n + 1));
  }

  lemma RegroupLeaf(i: string, q: string, w: string)
    ensures i + "<" + q + ">" + w + "</" + q + ">\n" == i + ("<" + q + ">" + (w + ("</" + q + ">"))) + "\n"
  {
    assert ">\n" == ">" + "\n";
  }

  lemma RegroupBranch(i: string, q: string, kids: string)
    ensures i + "<" + q + ">\n" + kids + i + "</" + q + ">\n"
         == i + ("<" + q + ">" + ("\n" + kids + i + "</" + q + ">")) + "\n"
  {
    assert ">\n" == ">" + "\n";
  }

  /** A printed tree starts with its own opening tag. */
  lemma CoreStart(t: Node, n: nat, rest: string)
    requires WellFormed(t) && Printable(t)
    ensures var s := Core(t, n) + rest;
      && SkipWS(s) == s && ParseCData(s) == ("", s)
      && s != [] && s[0] == '<' && ParseTag(s).0 == Quote(t.tag)
    ensures TagText(Quote(t.tag))
  {
    hide Quote, Unquote, WellFormed, Printable, ChildrenToString, ParseTag;
    var s, q := Core(t, n) + rest, Quote(t.tag);
    CoreOpens(t, n);
    var tail := Core(t, n)[|q| + 2..] + rest;
    assert s == "<" + q + ">" + tail;
    WellFormedTag(t);
    QuotedTag(t.tag);
    ParseTagOf(q, tail);
    hide Core;
    assert s[0] == '<' && s[1] == q[0];
  }

  lemma WellFormedTag(t: Node)
    requires WellFormed(t)
    ensures GoodTag(t.tag)
  {
  }

  lemma CoreOpens(t: Node, n: nat)
    requires Printable(t)
    ensures var q := Quote(t.tag);
      |Core(t, n)| >= |q| + 2 && Core(t, n) == "<" + q + ">" + Core(t, n)[|q| + 2..]
  {
    hide Quote, ChildrenToString;
  }

  /** At a child the loop reads it and goes on after the blanks that follow it. */
  lemma ChildStep(q: string, c: Node, done: seq<Node>, s: string, more: string)
    requires s != [] && s[0] == '<' && TagText(ParseTag(s).0) && Parse(s) == (Some(c), "\n" + more)
    requires SkipWS(more) != [] && SkipWS(more)[0] == '<'
    ensures ParseChildren(q, q, s, done != [], done) == ParseChildren(q, q, SkipWS(more), true, done + [c])
  {
    hide Quote, Unquote;
    assert ("\n" + more)[1..] == more;
  }

  lemma ChildrenEnd(tag: string, kids: seq<Node>, n: nat, rest: string)
    requires GoodTag(tag) && kids != []
    ensures var q := Quote(tag); var s := SkipWS(Tabs(n) + ("</" + q + ">" + rest));
      && s != [] && s[0] == '<'
      && ParseChildren(q, q, s, true, kids) == (Some(Branch(tag, [], kids)), rest)
  {
    hide Quote, Unquote;
    var q := Quote(tag);
    QuotedTag(tag);
    SkipTabs(n, "</" + q + ">" + rest);
    ClosingTag(q, rest);
  }

  /** Printed children start, after the indentation, with the first child. */
  lemma ChildrenStart(todo: seq<Node>, n: nat, rest: string)
    requires todo != [] && forall c :: c in todo ==> WellFormed(c) && Printable(c)
    ensures var more := ChildrenToString(todo[1..], n) + rest;
      var s := Core(todo[0], n) + ("\n" + more);
      SkipWS(ChildrenToString(todo, n) + rest) == s && ParseCData(s) == ("", s)
      && s != [] && s[0] == '<' && TagText(ParseTag(s).0)
  {
    hide Quote, Unquote, Core, ParseTag, ParseCData;
    var more := ChildrenToString(todo[1..], n) + rest;
    var s := Core(todo[0], n) + ("\n" + more);
    assert ChildrenToString(todo, n) + rest == Tabs(n) + s by {
      ToStringIsCore(todo[0], n);
      Regroup4(Tabs(n), Core(todo[0], n), ChildrenToString(todo[1..], n), rest);
    }
    SkipTabs(n, s);
    CoreStart(todo[0], n, "\n" + more);
  }

  lemma Regroup4(a: string, b: string, c: string, d: string)
    ensures a + b + "\n" + c + d == a + (b + ("\n" + (c + d)))
  {
  }

  /** The child loop, started at the first child still to come. */
  lemma {:induction false} ParseChildrenOf(tag: string, todo: seq<Node>, done: seq<Node>, n: nat, rest: string)
    requires GoodTag(tag) && forall c :: c in todo ==> WellFormed(c) && Printable(c)
    requires done + todo != []
    ensures var q := Quote(tag);
      var s := SkipWS(ChildrenToString(todo, n + 1) + (Tabs(n) + ("</" + q + ">" + rest)));
      && s != [] && s[0] == '<'
      && ParseChildren(q, q, s, done != [], done) == (Some(Branch(tag, [], done + todo)), rest)
    decreases todo, 1
  {
    hide Quote, Unquote, Core, ParseChildren, Parse, ParseTag, ParseCData, ToString;
    var q := Quote(tag);
    var closing := Tabs(n) + ("</" + q + ">" + rest);
    if todo == [] {
      assert ChildrenToString(todo, n + 1) + closing == closing;
      assert done + todo == done;
      ChildrenEnd(tag, done, n, rest);
    } else {
      var c, later := todo[0], todo[1..];
      var more := ChildrenToString(later, n + 1) + closing;
      var s := Core(c, n + 1) + ("\n" + more);
      ChildrenStart(todo, n + 1, closing);
      ParseCore(c, n + 1, "\n" + more);
      ParseChildrenOf(tag, later, done + [c], n, rest);
      ChildStep(q, c, done, s, more);
      assert done + [c] + later == done + todo;
    }
  }

  lemma {:induction false} ParseCore(t: Node, n: nat, rest: string)
    requires WellFormed(t) && Printable(t)
    ensures Parse(Core(t, n) + rest) == (Some(t), rest)
    decreases t, 0
  {
    hide Quote, Unquote, Parse;
    var q := Quote(t.tag);
    match t
    case Leaf(tag, _, value) =>
      assert Core(t, n) + rest == "<" + q + ">" + (Quote(value) + ("</" + q + ">" + rest));
      ParseAnyLeaf(tag, value, rest);
      assert SkipWS(value) == value;
    case Branch(tag, _, children) =>
      var closing := Tabs(n) + ("</" + q + ">" + rest);
      var inner := ChildrenToString(children, n + 1) + closing;
      assert Core(t, n) + rest == "<" + q + ">" + ("\n" + inner);
      ParseChildrenOf(tag, children, [], n, rest);
      assert [] + children == children;
      ParseBranch(tag, children, n, rest);
  }

  lemma ParseBranch(tag: string, children: seq<Node>, n: nat, rest: string)
    requires GoodTag(tag) && children != [] && forall c :: c in children ==> WellFormed(c) && Printable(c)
    ensures var q := Quote(tag);
      var inner := ChildrenToString(children, n + 1) + (Tabs(n) + ("</" + q + ">" + rest));
      var s := SkipWS(inner);
      && s != [] && s[0] == '<'
      && Parse("<" + q + ">" + ("\n" + inner)) == ParseChildren(q, q, s, false, [])
  {
    hide Quote, Unquote, Core, Parse, ParseElement, ParseChildren, ParseCData, ParseTag;
    var q := Quote(tag);
    var closing := Tabs(n) + ("</" + q + ">" + rest);
    var inner := ChildrenToString(children, n + 1) + closing;
    QuotedTag(tag);
    ParseOpening(q, "\n" + inner);
    assert ("\n" + inner)[1..] == inner;
    ChildrenStart(children, n + 1, closing);
    ParseElementOf(q, "\n" + inner);
  }

  /** Only what follows the blanks matters to the reader. */
  lemma ParseSkips(a: string, b: string)
    requires SkipWS(a) == SkipWS(b)
    ensures Parse(a) == Parse(b)
  {
    hide SkipWS, ParseTag, ParseElement;
  }

  lemma ParsePrinted(t: Node, n: nat, rest: string)
    requires Printable(t) && SkipWS(Core(t, n) + ("\n" + rest)) == Core(t, n) + ("\n" + rest)
    ensures Parse(ToString(t, n) + rest) == Parse(Core(t, n) + ("\n" + rest))
  {
    hide Core, Parse, ToString, Tabs;
    var s := Core(t, n) + ("\n" + rest);
    ToStringIsCore(t, n);
    assert Tabs(n) + Core(t, n) + "\n" + rest == Tabs(n) + s;
    SkipTabs(n, s);
    ParseSkips(Tabs(n) + s, s);
  }

  /** Reading back what toString prints rebuilds every well-formed tree, whatever
      follows it in the text, and stops right after its closing tag. */
  lemma ParseInvertsToString(t: Node, n: nat, rest: string)
    requires WellFormed(t)
    ensures Printable(t) && Parse(ToString(t, n) + rest) == (Some(t), "\n" + rest)
  {
    WellFormedPrintable(t);
    hide Core, Parse, ToString, WellFormed, Printable;
    CoreStart(t, n, "\n" + rest);
    ParseCore(t, n, "\n" + rest);
    ParsePrinted(t, n, rest);
  }

  // ------------------------------------------------------------------
  //  What does not survive
  // ------------------------------------------------------------------

  lemma {:induction false} ReplaceShrinks(s: string, r1: string, r2: string)
    requires r1 != [] && |r2| <= |r1|
    ensures |ReplaceAll(s, r1, r2)| <= |s|
  {
    if s == [] {
    } else if r1 <= s {
      ReplaceShrinks(s[|r1|..], r1, r2);
    } else {
      ReplaceShrinks(s[1..], r1, r2);
    }
  }

  lemma UnquoteShrinks(s: string)
    ensures |Unquote(s)| <= |s|
  {
    hide ReplaceAll;
    var s1 := ReplaceAll(s, "&lt;", "<");
    var s2 := ReplaceAll(s1, "&gt;", ">");
    var s3 := ReplaceAll(s2, "&quot;", "\"");
    var s4 := ReplaceAll(s3, "&apos;", "`");
    var s5 := ReplaceAll(s4, "&nbsp;", " ");
    var s6 := ReplaceAll(s5, "&trade;", "(tm)");
    ReplaceShrinks(s, "&lt;", "<");
    ReplaceShrinks(s1, "&gt;", ">");
    ReplaceShrinks(s2, "&quot;", "\"");
    ReplaceShrinks(s3, "&apos;", "`");
    ReplaceShrinks(s4, "&nbsp;", " ");
    ReplaceShrinks(s5, "&trade;", "(tm)");
    ReplaceShrinks(s6, "&amp;", "&");
  }

  /** A leaf value comes back exactly when it starts with no blank and holds no entity of its own. */
  lemma LeafSurvivesIff(tag: string, v: string, n: nat, rest: string)
    requires GoodTag(tag)
    ensures var t := Leaf(tag, [], v); Parse(ToString(t, n) + rest).0 == Some(t) <==> GoodValue(v)
  {
    var t := Leaf(tag, [], v);
    LeafText(tag, v, n, rest);
    hide Unquote, ToString, Parse, GoodTag;
    UnquoteShrinks(SkipWS(v));
    SkipWSLength(v);
  }

  lemma SkipWSLength(v: string)
    ensures |SkipWS(v)| == |v| ==> SkipWS(v) == v && (v != [] ==> !IsSpace(v[0]))
    ensures v != [] && !IsSpace(v[0]) ==> SkipWS(v) == v
  {
  }

  lemma LeafText(tag: string, v: string, n: nat, rest: string)
    requires GoodTag(tag)
    ensures Parse(ToString(Leaf(tag, [], v), n) + rest) == (Some(Leaf(tag, [], Unquote(SkipWS(v)))), "\n" + rest)
  {
    hide Quote, Unquote, Parse, ToString, GoodTag;
    var t, q := Leaf(tag, [], v), Quote(tag);
    var s := Core(t, n) + ("\n" + rest);
    assert s == "<" + q + ">" + (Quote(v) + ("</" + q + ">" + ("\n" + rest)));
    assert s[0] == '<';
    ParseAnyLeaf(tag, v, "\n" + rest);
    ParsePrinted(t, n, rest);
  }

  /** A branch without children comes back as a leaf. */
  lemma ChildlessBranchIsLeaf(tag: string, n: nat, rest: string)
    requires GoodTag(tag)
    ensures Parse(ToString(Branch(tag, [], []), n) + rest) == (Some(Leaf(tag, [], "")), "\n" + rest)
  {
    hide Quote, Unquote, Parse, ToString, GoodTag, ParseElement;
    var t, q := Branch(tag, [], []), Quote(tag);
    var closing := "</" + q + ">" + ("\n" + rest);
    var inner := "\n" + Tabs(n) + closing;
    var s := Core(t, n) + ("\n" + rest);
    assert s == "<" + q + ">" + inner;
    assert s[0] == '<';
    ParsePrinted(t, n, rest);
    QuotedTag(tag);
    ParseOpening(q, inner);
    ClosingTag(q, "\n" + rest);
    assert inner[1..] == Tabs(n) + closing;
    SkipTabs(n, closing);
    ParseElementOf(q, inner);
    UnquoteNothing();
  }
}
