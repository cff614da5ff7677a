/** Entity quoting (src/Xml.cpp: replace_all, quote, unquote). */
module XmlEscape {

  /** s with the occurrences of r1, found left to right without overlap, replaced by r2. */
  function ReplaceAll(s: string, r1: string, r2: string): string
    requires r1 != []
  {
    if s == [] then []
    else if r1 <= s then r2 + ReplaceAll(s[|r1|..], r1, r2)
    else [s[0]] + ReplaceAll(s[1..], r1, r2)
  }

  /** std::string::find: the first position from `from` on where r1 occurs, or -1. */
  method Find(t: string, r1: string, from: nat) returns (next: int)
    requires from <= |t| && r1 != []
    ensures -1 == next || from <= next < |t|
    ensures next >= 0 ==> r1 <= t[next..]
    ensures forall i :: from <= i < (if next < 0 then |t| else next) ==> !(r1 <= t[i..])
  {
    next := from;
    while next < |t|
      invariant from <= next <= |t|
      invariant forall i :: from <= i < next ==> !(r1 <= t[i..])
    {
      if |r1| <= |t| - next && t[next..next + |r1|] == r1 { return; }
      next := next + 1;
    }
    next := -1;
  }

  /** From curr on, replacing starts at the first occurrence of the pattern. */
  lemma ReplaceFromNext(t: string, curr: nat, next: nat, r1: string, r2: string)
    requires r1 != [] && curr <= next <= |t|
    requires forall i :: curr <= i < next ==> !(r1 <= t[i..])
    ensures ReplaceAll(t[curr..], r1, r2) == t[curr..next] + ReplaceAll(t[next..], r1, r2)
  {
    var w, rest := t[curr..next], t[next..];
    assert t[curr..] == w + rest;
    forall i | 0 <= i < |w| ensures !(r1 <= (w + rest)[i..]) {
      assert (w + rest)[i..] == t[curr + i..];
    }
    SkipNonMatching(w, rest, r1, r2);
  }

  /** One replacement leaves "what is done, plus what replacing the rest will give" unchanged. */
  lemma ReplaceStep(t: string, curr: nat, next: nat, r1: string, r2: string)
    requires r1 != [] && curr <= next < |t| && r1 <= t[next..]
    requires forall i :: curr <= i < next ==> !(r1 <= t[i..])
    ensures var t' := t[..next] + r2 + t[next + |r1|..]; var curr' := next + |r2|;
      t'[..curr'] + ReplaceAll(t'[curr'..], r1, r2) == t[..curr] + ReplaceAll(t[curr..], r1, r2)
  {
    hide ReplaceAll;
    var tail := t[next + |r1|..];
    var u := ReplaceAll(tail, r1, r2);
    ReplaceFromNext(t, curr, next, r1, r2);
    ReplaceHere(t, next, r1, r2);
    Regroup(t[..curr], t[curr..next], r2, tail, u);
    assert t[..next] == t[..curr] + t[curr..next];
  }

  lemma ReplaceHere(t: string, next: nat, r1: string, r2: string)
    requires r1 != [] && next < |t| && r1 <= t[next..]
    ensures ReplaceAll(t[next..], r1, r2) == r2 + ReplaceAll(t[next + |r1|..], r1, r2)
  {
    assert t[next..][|r1|..] == t[next + |r1|..];
  }

  lemma ReplaceNothing(r1: string, r2: string)
    requires r1 != []
    ensures ReplaceAll([], r1, r2) == []
  {
  }

  lemma Regroup(a: string, b: string, c: string, tail: string, u: string)
    ensures a + (b + (c + u)) == (a + b + c) + u
    ensures var t' := a + b + c + tail; var n := |a| + |b| + |c|;
      t'[..n] == a + b + c && t'[n..] == tail
  {
  }

  /** The in-place search-and-replace loop. */
  method ReplaceAllInPlace(s: string, r1: string, r2: string) returns (t: string)
    requires r1 != []
    ensures t == ReplaceAll(s, r1, r2)
  {
    hide ReplaceAll;
    t := s;
    var curr := 0;
    assert s[0..] == s;
    var next := Find(t, r1, curr);
    while next != -1
      invariant 0 <= curr <= |t|
      invariant next == -1 || (curr <= next < |t| && r1 <= t[next..])
      invariant forall i :: curr <= i < (if next < 0 then |t| else next) ==> !(r1 <= t[i..])
      invariant t[..curr] + ReplaceAll(t[curr..], r1, r2) == ReplaceAll(s, r1, r2)
      decreases |t| - curr
    {
      ReplaceStep(t, curr, next, r1, r2);
      t := t[..next] + r2 + t[next + |r1|..];
      curr := next + |r2|;
      next := Find(t, r1, curr);
    }
    ReplaceFromNext(t, curr, |t|, r1, r2);
    ReplaceNothing(r1, r2);
    assert t[..curr] + t[curr..] == t && t[|t|..] == [];
  }

  function Quote(a: string): string {
    ReplaceAll(ReplaceAll(ReplaceAll(ReplaceAll(ReplaceAll(a,
      "&", "&amp;"),
      "<", "&lt;"),
      "\"", "&quot;"),
      "`", "&apos;"),
      ">", "&gt;")
  }

  function Unquote(a: string): string {
    ReplaceAll(ReplaceAll(ReplaceAll(ReplaceAll(ReplaceAll(ReplaceAll(ReplaceAll(a,
      "&lt;", "<"),
      "&gt;", ">"),
      "&quot;", "\""),
      "&apos;", "`"),
      "&nbsp;", " "),
      "&trade;", "(tm)"),
      "&amp;", "&")
  }

  // ------------------------------------------------------------------
  //  Reference form: quoting acts on each character by itself
  // ------------------------------------------------------------------

  /** The entity of c once the first `stage` unquoting passes have run; stage 0 is plain quoting. */
  function Entity(c: char, stage: nat): string {
    if c == '<' && stage < 1 then "&lt;"
    else if c == '>' && stage < 2 then "&gt;"
    else if c == '\"' && stage < 3 then "&quot;"
    else if c == '`' && stage < 4 then "&apos;"
    else if c == '&' && stage < 7 then "&amp;"
    else [c]
  }

  function Entities(s: string, stage: nat): string {
    if s == [] then [] else Entity(s[0], stage) + Entities(s[1..], stage)
  }

  /** Text in which the pattern starts nowhere passes through unchanged. */
  lemma {:induction false} SkipNonMatching(w: string, rest: string, r1: string, r2: string)
    requires r1 != []
    requires forall i :: 0 <= i < |w| ==> !(r1 <= (w + rest)[i..])
    ensures ReplaceAll(w + rest, r1, r2) == w + ReplaceAll(rest, r1, r2)
  {
    if w == [] {
      assert w + rest == rest;
    } else {
      var u := w[1..];
      assert (w + rest)[1..] == u + rest;
      forall i | 0 <= i < |u| ensures !(r1 <= (u + rest)[i..]) {
        assert (u + rest)[i..] == (w + rest)[i + 1..];
      }
      SkipNonMatching(u, rest, r1, r2);
      assert (w + rest)[0..] == w + rest;
    }
  }

  /** Replacing a single character works piecewise. */
  lemma {:induction false} ReplaceCharAppend(a: string, b: string, c: char, r: string)
    ensures ReplaceAll(a + b, [c], r) == ReplaceAll(a, [c], r) + ReplaceAll(b, [c], r)
  {
    if a == [] {
      assert a + b == b;
    } else {
      assert (a + b)[1..] == a[1..] + b;
      ReplaceCharAppend(a[1..], b, c, r);
      assert ([c] <= a + b) == ([c] <= a) == (a[0] == c);
      var ra, rb := ReplaceAll(a[1..], [c], r), ReplaceAll(b, [c], r);
      var head := if a[0] == c then r else [a[0]];
      assert ReplaceAll(a, [c], r) == head + ra;
      assert ReplaceAll(a + b, [c], r) == head + (ra + rb);
    }
  }

  lemma QuoteAppend(a: string, b: string)
    ensures Quote(a + b) == Quote(a) + Quote(b)
  {
    ReplaceCharAppend(a, b, '&', "&amp;");
    var a1, b1 := ReplaceAll(a, "&", "&amp;"), ReplaceAll(b, "&", "&amp;");
    ReplaceCharAppend(a1, b1, '<', "&lt;");
    var a2, b2 := ReplaceAll(a1, "<", "&lt;"), ReplaceAll(b1, "<", "&lt;");
    ReplaceCharAppend(a2, b2, '\"', "&quot;");
    var a3, b3 := ReplaceAll(a2, "\"", "&quot;"), ReplaceAll(b2, "\"", "&quot;");
    ReplaceCharAppend(a3, b3, '`', "&apos;");
    var a4, b4 := ReplaceAll(a3, "`", "&apos;"), ReplaceAll(b3, "`", "&apos;");
    ReplaceCharAppend(a4, b4, '>', "&gt;");
  }

  /** A character that is not in w is not replaced. */
  lemma ReplaceAbsent(w: string, c: char, r: string)
    requires c !in w
    ensures ReplaceAll(w, [c], r) == w
  {
    forall i | 0 <= i < |w| ensures !([c] <= (w + [])[i..]) {
      assert (w + [])[i..][0] == w[i];
    }
    SkipNonMatching(w, [], [c], r);
    assert w + [] == w;
  }

  lemma ReplaceOne(c: char, r: string)
    ensures ReplaceAll([c], [c], r) == r
  {
    assert [c][|[c]|..] == [];
    assert r + [] == r;
  }

  lemma QuoteOne(c: char)
    ensures Quote([c]) == Entity(c, 0)
  {
    if c == '&' { ReplaceOne(c, "&amp;"); } else { ReplaceAbsent([c], '&', "&amp;"); }
    var s1 := if c == '&' then "&amp;" else [c];
    if c == '<' { ReplaceOne(c, "&lt;"); } else { ReplaceAbsent(s1, '<', "&lt;"); }
    var s2 := if c == '<' then "&lt;" else s1;
    if c == '\"' { ReplaceOne(c, "&quot;"); } else { ReplaceAbsent(s2, '\"', "&quot;"); }
    var s3 := if c == '\"' then "&quot;" else s2;
    if c == '`' { ReplaceOne(c, "&apos;"); } else { ReplaceAbsent(s3, '`', "&apos;"); }
    var s4 := if c == '`' then "&apos;" else s3;
    if c == '>' { ReplaceOne(c, "&gt;"); } else { ReplaceAbsent(s4, '>', "&gt;"); }
  }

  /** The five quoting passes together replace each special character by its entity. */
  lemma {:induction false} QuoteIsEntities(s: string)
    ensures Quote(s) == Entities(s, 0)
  {
    if s != [] {
      assert s == [s[0]] + s[1..];
      QuoteAppend([s[0]], s[1..]);
      QuoteOne(s[0]);
      QuoteIsEntities(s[1..]);
    }
  }

  // ------------------------------------------------------------------
  //  The unquoting passes peel the entities off one kind at a time
  // ------------------------------------------------------------------

  /** The pattern and the replacement of the unquoting pass that follows `stage` passes. */
  function Pass(stage: nat): (string, string)
    requires stage < 7
  {
    match stage
    case 0 => ("&lt;", "<")
    case 1 => ("&gt;", ">")
    case 2 => ("&quot;", "\"")
    case 3 => ("&apos;", "`")
    case 4 => ("&nbsp;", " ")
    case 5 => ("&trade;", "(tm)")
    case _ => ("&amp;", "&")
  }

  /** In the entity of one character, followed by anything, the pass acts on that entity alone. */
  lemma PassOnEntity(c: char, rest: string, stage: nat)
    requires stage < 7
    ensures var (p, r) := Pass(stage);
      ReplaceAll(Entity(c, stage) + rest, p, r) == Entity(c, stage + 1) + ReplaceAll(rest, p, r)
  {
    var (p, r) := Pass(stage);
    var w := Entity(c, stage);
    if w == p {
      assert (w + rest)[|p|..] == rest;
      assert Entity(c, stage + 1) == r;
    } else {
      hide ReplaceAll;
      assert Entity(c, stage + 1) == w;
      forall i | 0 <= i < |w| ensures !(p <= (w + rest)[i..]) {
        var t := (w + rest)[i..];
        assert t[0] == w[i];
        if i == 0 && |w| > 1 {
          assert t == w + rest;
          assert t[1] == w[1] && t[2] == w[2];
          assert p[1] != w[1] || p[2] != w[2];
        } else {
          assert w[i] != '&';
        }
      }
      SkipNonMatching(w, rest, p, r);
    }
  }

  lemma {:induction false} PassOnEntities(s: string, stage: nat)
    requires stage < 7
    ensures var (p, r) := Pass(stage); ReplaceAll(Entities(s, stage), p, r) == Entities(s, stage + 1)
  {
    if s != [] {
      PassOnEntity(s[0], Entities(s[1..], stage), stage);
      PassOnEntities(s[1..], stage);
    }
  }

  lemma {:induction false} EntitiesAllUnquoted(s: string)
    ensures Entities(s, 7) == s
  {
    if s != [] { EntitiesAllUnquoted(s[1..]); }
  }

  /** Unquoting undoes quoting on every string: no pass makes or eats an entity of another. */
  lemma UnquoteInvertsQuote(s: string)
    ensures Unquote(Quote(s)) == s
  {
    QuoteIsEntities(s);
    PassOnEntities(s, 0);
    PassOnEntities(s, 1);
    PassOnEntities(s, 2);
    PassOnEntities(s, 3);
    PassOnEntities(s, 4);
    PassOnEntities(s, 5);
    PassOnEntities(s, 6);
    EntitiesAllUnquoted(s);
  }
}
