/** The XML reader and writer (src/Xml.cpp). The specification functions map the text
    after the cursor to the text after the cursor; the methods move an index. */
module XmlParser {
  import opened Wrappers
  import opened XmlEscape

  datatype Node =
    | Leaf(tag: string, attributes: seq<(string, string)>, value: string)
    | Branch(tag: string, attributes: seq<(string, string)>, children: seq<Node>)

  /** isspace in the C locale. */
  predicate IsSpace(c: char) {
    c == ' ' || c == '\t' || c == '\n' || c == '\U{0B}' || c == '\U{0C}' || c == '\r'
  }

  function SkipWS(s: string): (r: string)
    ensures |r| <= |s|
    ensures r != [] ==> !IsSpace(r[0])
  {
    if s != [] && IsSpace(s[0]) then SkipWS(s[1..]) else s
  }

  /** The text up to the first of the stopping characters, and the text from there on. */
  function TakeUntil(s: string, stop: set<char>): (r: (string, string))
    ensures r.0 + r.1 == s
    ensures r.1 != [] ==> r.1[0] in stop
    ensures forall c :: c in r.0 ==> c !in stop
  {
    if s == [] || s[0] in stop then ([], s)
    else
      var (w, rest) := TakeUntil(s[1..], stop);
      ([s[0]] + w, rest)
  }

  const SPACES: set<char> := {' ', '\t', '\n', '\U{0B}', '\U{0C}', '\r'}

  /** The text between '<' and '>'; empty when there is no complete tag. */
  function ParseTag(s: string): (r: (string, string))
    ensures |r.1| <= |s|
    ensures s != [] && s[0] == '<' ==> |r.1| < |s|
    ensures r.0 != [] ==> '>' !in r.0
  {
    if s == [] || s[0] != '<' then ([], s)
    else
      var (tag, rest) := TakeUntil(s[1..], {'>'});
      if rest == [] then ([], []) else (tag, rest[1..])
  }

  /** A quoted string, and what follows its closing quote. */
  function ParseQuoted(s: string): (r: Option<(string, string)>)
    ensures r.Some? ==> |r.value.1| < |s|
  {
    if s == [] || (s[0] != '\"' && s[0] != '\'') then None
    else
      var (val, rest) := TakeUntil(s[1..], {s[0]});
      if rest == [] then None else Some((val, rest[1..]))
  }

  /** One name="value" pair, if the text goes on with one. */
  function ParseAttribute(s: string): (r: Option<((string, string), string)>)
    ensures r.Some? ==> |r.value.1| < |s|
  {
    var (name, s2) := TakeUntil(SkipWS(s), SPACES + {'='});
    if s2 == [] then None
    else
      var q := ParseQuoted(SkipWS(if s2[0] == '=' then s2[1..] else s2));
      if q.None? then None else Some(((name, q.value.0), q.value.1))
  }

  /** The attribute list after the tag name; it ends at the first thing that is not name="value". */
  function ParseAttributes(s: string): seq<(string, string)>
    decreases |s|
  {
    var a := ParseAttribute(s);
    if a.None? then [] else [a.value.0] + ParseAttributes(a.value.1)
  }

  function TagName(at: string): string { TakeUntil(SkipWS(at), SPACES).0 }

  function TagAttributes(at: string): seq<(string, string)> {
    ParseAttributes(TakeUntil(SkipWS(at), SPACES).1)
  }

  /** The XmlLeaf constructor: it unquotes the value once more. */
  function MakeLeaf(at: string, v: string): Node { Leaf(TagName(at), TagAttributes(at), Unquote(v)) }

  function MakeBranch(at: string, children: seq<Node>): Node { Branch(TagName(at), TagAttributes(at), children) }

  /** The CDATA reader: endtag collects a partial "]]>" and survives other characters in between. */
  function ReadCData(s: string, endtag: string, cdata: string): (r: (string, string))
    requires |endtag| <= 3
    ensures |r.1| <= |s|
    decreases |s|
  {
    if s == [] || |endtag| == 3 then (cdata, s)
    else if s[0] == ']' || s[0] == '>' then
      var e := endtag + [s[0]];
      if e != "]]>"[..|e|] then ReadCData(s[1..], [], cdata + e) else ReadCData(s[1..], e, cdata)
    else ReadCData(s[1..], endtag, cdata + [s[0]])
  }

  function ParseCData(s: string): (r: (string, string))
    ensures |r.1| <= |s|
  {
    if "<![CDATA[" <= s then ReadCData(s[9..], "", "") else ("", s)
  }

  /** XmlNode::parse: prologue and comment tags are skipped, then one element is read. */
  function Parse(s: string): (r: (Option<Node>, string))
    ensures |r.1| <= |s|
    ensures s != [] && s[0] == '<' ==> |r.1| < |s|
    decreases |s|, 0
  {
    var s1 := SkipWS(s);
    if s1 == [] || s1[0] != '<' then (None, s1)
    else
      var (tag, s2) := ParseTag(s1);
      if tag == [] || tag[0] == '/' then (None, s2)
      else if tag[0] == '?' || tag[0] == '!' then Parse(s2)
      else ParseElement(tag, s2)
  }

  /** What follows an opening (or self-closing) tag. */
  function ParseElement(tag: string, s: string): (r: (Option<Node>, string))
    requires tag != []
    ensures |r.1| <= |s|
    decreases |s|, 2
  {
    if tag[|tag| - 1] == '/' then (Some(MakeLeaf(Unquote(tag[..|tag| - 1]), "")), s)
    else
      var tagname := TakeUntil(tag, {' ', '\r', '\n', '\t'}).0;
      var s3 := SkipWS(s);
      if s3 == [] then (None, s3)
      else
        var (cdata, s4) := ParseCData(s3);
        if s4 != [] && s4[0] == '<' && cdata == [] then ParseChildren(tag, tagname, s4, false, [])
        else ParseText(tag, tagname, cdata, s4)
  }

  function ParseText(tag: string, tagname: string, cdata: string, s: string): (r: (Option<Node>, string))
    ensures |r.1| <= |s|
  {
    var (value, s5) := TakeUntil(s, {'<'});
    if s5 == [] then (None, s5)
    else
      var (nexttag, s6) := ParseTag(s5);
      if nexttag == "/" + tagname
      then (Some(MakeLeaf(Unquote(tag), Unquote(if value == [] then cdata else value))), s6)
      else (None, s6)
  }

  /** The child loop. A child that fails to parse is left out and the loop goes on. */
  function ParseChildren(tag: string, tagname: string, s: string, started: bool, kids: seq<Node>)
    : (r: (Option<Node>, string))
    requires s != [] && s[0] == '<'
    ensures |r.1| <= |s|
    decreases |s|, 1
  {
    var (nexttag, s1) := ParseTag(s);
    if nexttag == [] then (None, s1)
    else if nexttag[0] == '/' then
      if nexttag == "/" + tagname
      then (Some(if started then MakeBranch(Unquote(tag), kids) else MakeLeaf(Unquote(tag), "")), s1)
      else (None, s1)
    else
      var (c, s2) := Parse(s);
      var kids' := if c.Some? then kids + [c.value] else kids;
      var s3 := SkipWS(s2);
      if s3 == [] || s3[0] != '<' then (None, s3)
      else ParseChildren(tag, tagname, s3, true, kids')
  }

  // ------------------------------------------------------------------
  //  The methods
  // ------------------------------------------------------------------

  method SkipWSMethod(s: string, start: nat) returns (curr: nat)
    requires start <= |s|
    ensures start <= curr <= |s| && s[curr..] == SkipWS(s[start..])
  {
    curr := start;
    while curr != |s| && IsSpace(s[curr])
      invariant start <= curr <= |s|
      invariant SkipWS(s[curr..]) == SkipWS(s[start..])
      decreases |s| - curr
    {
      assert s[curr..][1..] == s[curr + 1..];
      curr := curr + 1;
    }
  }

  lemma TakeUntilStep(s: string, curr: nat, stop: set<char>)
    requires curr <= |s|
    ensures TakeUntil(s[curr..], stop) ==
      if curr == |s| || s[curr] in stop then ([], s[curr..])
      else ([s[curr]] + TakeUntil(s[curr + 1..], stop).0, TakeUntil(s[curr + 1..], stop).1)
  {
    if curr < |s| { assert s[curr..][1..] == s[curr + 1..]; }
  }

  /** The character loops of parseTag, parseAttr and the leaf value. */
  method TakeUntilMethod(s: string, start: nat, stop: set<char>) returns (word: string, curr: nat)
    requires start <= |s|
    ensures start <= curr <= |s|
    ensures word == TakeUntil(s[start..], stop).0 && s[curr..] == TakeUntil(s[start..], stop).1
  {
    hide TakeUntil;
    curr := start;
    word := "";
    while curr != |s| && s[curr] !in stop
      invariant start <= curr <= |s|
      invariant word + TakeUntil(s[curr..], stop).0 == TakeUntil(s[start..], stop).0
      invariant TakeUntil(s[curr..], stop).1 == TakeUntil(s[start..], stop).1
      decreases |s| - curr
    {
      TakeUntilStep(s, curr, stop);
      word := word + [s[curr]];
      curr := curr + 1;
    }
    TakeUntilStep(s, curr, stop);
  }

  method ParseTagMethod(s: string, start: nat) returns (tag: string, curr: nat)
    requires start <= |s|
    ensures start <= curr <= |s| && (tag, s[curr..]) == ParseTag(s[start..])
  {
    hide TakeUntil;
    curr := start;
    if curr == |s| || s[curr] != '<' { return "", curr; }
    assert s[curr..][1..] == s[curr + 1..];
    tag, curr := TakeUntilMethod(s, curr + 1, {'>'});
    if curr == |s| { return "", curr; }
    assert s[curr..][1..] == s[curr + 1..];
    curr := curr + 1;
  }

  method ParseQuotedMethod(at: string, start: nat) returns (val: Option<string>, pos: nat)
    requires start <= |at|
    ensures start <= pos <= |at| && (val.Some? ==> start < pos)
    ensures ParseQuoted(at[start..]) == if val.Some? then Some((val.value, at[pos..])) else None
  {
    hide TakeUntil;
    pos := start;
    if pos == |at| || (at[pos] != '\"' && at[pos] != '\'') { return None, pos; }
    var qchar, aval := at[pos], "";
    assert at[pos..][1..] == at[pos + 1..];
    aval, pos := TakeUntilMethod(at, pos + 1, {qchar});
    if pos == |at| { return None, pos; }
    assert at[pos..][1..] == at[pos + 1..];
    return Some(aval), pos + 1;
  }

  method ParseAttributeMethod(at: string, start: nat) returns (a: Option<(string, string)>, pos: nat)
    requires start <= |at|
    ensures start <= pos <= |at| && (a.Some? ==> start < pos)
    ensures ParseAttribute(at[start..]) == if a.Some? then Some((a.value, at[pos..])) else None
  {
    hide SkipWS, TakeUntil, ParseQuoted;
    var aname, aval;
    pos := SkipWSMethod(at, start);
    aname, pos := TakeUntilMethod(at, pos, SPACES + {'='});
    if pos == |at| { return None, pos; }
    if at[pos] == '=' {
      assert at[pos..][1..] == at[pos + 1..];
      pos := pos + 1;
    }
    pos := SkipWSMethod(at, pos);
    aval, pos := ParseQuotedMethod(at, pos);
    return if aval.Some? then Some((aname, aval.value)) else None, pos;
  }

  method ParseAttrMethod(at: string) returns (tag: string, attributes: seq<(string, string)>)
    ensures tag == TagName(at) && attributes == TagAttributes(at)
  {
    hide SkipWS, TakeUntil, ParseAttribute, ParseAttributes;
    var pos := SkipWSMethod(at, 0);
    assert at[0..] == at;
    tag, pos := TakeUntilMethod(at, pos, SPACES);
    attributes := [];
    while pos != |at|
      invariant 0 <= pos <= |at|
      invariant attributes + ParseAttributes(at[pos..]) == TagAttributes(at)
      decreases |at| - pos
    {
      AttributesStep(at[pos..]);
      var a, next := ParseAttributeMethod(at, pos);
      if a.None? { break; }
      attributes := attributes + [a.value];
      pos := next;
    }
    if pos == |at| { NoAttributes(); }
  }

  lemma AttributesStep(s: string)
    ensures var a := ParseAttribute(s);
      ParseAttributes(s) == if a.None? then [] else [a.value.0] + ParseAttributes(a.value.1)
  {
  }

  lemma NoAttributes()
    ensures ParseAttributes([]) == []
  {
  }

  method ParseCDataMethod(s: string, start: nat) returns (cdata: string, curr: nat)
    requires start <= |s|
    ensures start <= curr <= |s| && (cdata, s[curr..]) == ParseCData(s[start..])
  {
    curr := start;
    cdata := "";
    if !("<![CDATA[" <= s[curr..]) { return; }
    assert s[curr..][9..] == s[curr + 9..];
    curr := curr + 9;
    var endtag := "";
    while curr != |s| && |endtag| < 3
      invariant start <= curr <= |s| && |endtag| <= 3
      invariant ReadCData(s[curr..], endtag, cdata) == ParseCData(s[start..])
      decreases |s| - curr
    {
      assert s[curr..][1..] == s[curr + 1..];
      if s[curr] == ']' || s[curr] == '>' {
        endtag := endtag + [s[curr]];
        if endtag != "]]>"[..|endtag|] {
          cdata := cdata + endtag;
          endtag := "";
        }
      } else {
        cdata := cdata + [s[curr]];
      }
      curr := curr + 1;
    }
  }

  /** Terminates on every string; the cursor stays between where it was and the end. */
  method ParseMethod(s: string, start: nat) returns (node: Option<Node>, curr: nat)
    requires start <= |s|
    ensures start <= curr <= |s|
    ensures (node, s[curr..]) == Parse(s[start..])
    decreases |s| - start, 0
  {
    curr := start;
    var tag;
    while true
      invariant start <= curr <= |s|
      invariant Parse(s[curr..]) == Parse(s[start..])
      decreases |s| - curr
    {
      curr := SkipWSMethod(s, curr);
      if curr == |s| || s[curr] != '<' { return None, curr; }
      tag, curr := ParseTagMethod(s, curr);
      if tag == [] || tag[0] == '/' { return None, curr; }
      if !(tag[0] == '?' || tag[0] == '!') { break; }
    }
    node, curr := ParseElementMethod(s, curr, tag);
  }

  method ParseElementMethod(s: string, start: nat, tag: string) returns (node: Option<Node>, curr: nat)
    requires start <= |s| && tag != []
    ensures start <= curr <= |s|
    ensures (node, s[curr..]) == ParseElement(tag, s[start..])
    decreases |s| - start, 2
  {
    curr := start;
    if tag[|tag| - 1] == '/' {
      return Some(MakeLeaf(Unquote(tag[..|tag| - 1]), "")), curr;
    }
    var tagname, _ := TakeUntilMethod(tag, 0, {' ', '\r', '\n', '\t'});
    assert tag[0..] == tag;
    curr := SkipWSMethod(s, curr);
    if curr == |s| { return None, curr; }
    var cdata;
    cdata, curr := ParseCDataMethod(s, curr);
    if curr != |s| && s[curr] == '<' && cdata == [] {
      node, curr := ParseChildrenMethod(s, curr, tag, tagname);
    } else {
      node, curr := ParseTextMethod(s, curr, tag, tagname, cdata);
    }
  }

  method ParseTextMethod(s: string, start: nat, tag: string, tagname: string, cdata: string)
    returns (node: Option<Node>, curr: nat)
    requires start <= |s|
    ensures start <= curr <= |s|
    ensures (node, s[curr..]) == ParseText(tag, tagname, cdata, s[start..])
  {
    var value, nexttag;
    value, curr := TakeUntilMethod(s, start, {'<'});
    if curr == |s| { return None, curr; }
    nexttag, curr := ParseTagMethod(s, curr);
    if nexttag == [] || nexttag[0] != '/' { return None, curr; }
    if value == [] { value := cdata; }
    if nexttag == "/" + tagname {
      node := Some(MakeLeaf(Unquote(tag), Unquote(value)));
    } else {
      node := None;
    }
  }

  method ParseChildrenMethod(s: string, start: nat, tag: string, tagname: string)
    returns (node: Option<Node>, curr: nat)
    requires start < |s| && s[start] == '<'
    ensures start <= curr <= |s|
    ensures (node, s[curr..]) == ParseChildren(tag, tagname, s[start..], false, [])
    decreases |s| - start, 1
  {
    curr := start;
    var started, kids := false, [];
    while true
      invariant start <= curr < |s| && s[curr] == '<'
      invariant ParseChildren(tag, tagname, s[curr..], started, kids)
             == ParseChildren(tag, tagname, s[start..], false, [])
      decreases |s| - curr
    {
      var mark := curr;
      var nexttag;
      nexttag, curr := ParseTagMethod(s, curr);
      if nexttag == [] { return None, curr; }
      if nexttag[0] == '/' {
        if nexttag == "/" + tagname {
          return Some(if started then MakeBranch(Unquote(tag), kids) else MakeLeaf(Unquote(tag), "")), curr;
        }
        return None, curr;
      }
      started := true;
      curr := mark;
      var c;
      c, curr := ParseMethod(s, curr);
      if c.Some? { kids := kids + [c.value]; }
      curr := SkipWSMethod(s, curr);
      if curr == |s| || s[curr] != '<' { return None, curr; }
    }
  }
}
