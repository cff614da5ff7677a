/** Line-ending translation (src/Translator.cpp, CRLFTranslator). */
module Crlf {

  /** The text with every '\n' preceded by a new '\r'. */
  function ToServer(s: string): string {
    if s == [] then []
    else if s[0] == '\n' then "\r\n" + ToServer(s[1..])
    else [s[0]] + ToServer(s[1..])
  }

  /** The text with every "\r\n" pair replaced by '\n'. */
  function ToClient(s: string): string {
    if s == [] then []
    else if s[0] == '\r' && |s| > 1 && s[1] == '\n' then "\n" + ToClient(s[2..])
    else [s[0]] + ToClient(s[1..])
  }

  /** Every line feed directly follows a carriage return. */
  predicate LinesEndInCrLf(s: string) {
    forall i :: 0 <= i < |s| && s[i] == '\n' ==> i > 0 && s[i - 1] == '\r'
  }

  lemma ToServerStep(str: string, curr: nat)
    requires curr < |str|
    ensures ToServer(str[curr..]) ==
      (if str[curr] == '\n' then "\r\n" else [str[curr]]) + ToServer(str[curr + 1..])
  {
    assert str[curr..][1..] == str[curr + 1..];
  }

  lemma ToServerNothing()
    ensures ToServer([]) == []
  {
  }

  method ClientToServer(str: string) returns (ret: string)
    ensures ret == ToServer(str)
  {
    hide ToServer;
    var curr := 0;
    ret := "";
    assert str[0..] == str;
    while curr != |str|
      invariant 0 <= curr <= |str|
      invariant ret + ToServer(str[curr..]) == ToServer(str)
      decreases |str| - curr
    {
      ToServerStep(str, curr);
      if str[curr] == '\n' {
        ret := ret + "\r\n";
      } else {
        ret := ret + [str[curr]];
      }
      curr := curr + 1;
    }
    ToServerNothing();
    assert str[curr..] == [] && ret + [] == ret;
  }

  lemma ToClientStep(str: string, curr: nat)
    requires curr < |str|
    ensures ToClient(str[curr..]) ==
      if str[curr] == '\r' && curr + 1 < |str| && str[curr + 1] == '\n' then "\n" + ToClient(str[curr + 2..])
      else [str[curr]] + ToClient(str[curr + 1..])
  {
    var rest := str[curr..];
    assert rest[1..] == str[curr + 1..];
    if |rest| > 1 { assert rest[2..] == str[curr + 2..]; }
  }

  method ServerToClient(str: string) returns (ret: string)
    ensures ret == ToClient(str)
  {
    hide ToClient;
    assert str[0..] == str;
    ToClientNothing();
    var curr := 0;
    var ncurr := curr;
    ret := "";
    while curr != |str|
      invariant 0 <= curr == ncurr <= |str|
      invariant ret + ToClient(str[curr..]) == ToClient(str)
      decreases |str| - curr
    {
      ToClientStep(str, curr);
      ncurr := ncurr + 1;
      if str[curr] == '\r' && ncurr != |str| && str[ncurr] == '\n' {
        ret := ret + "\n";
        curr := curr + 1;
        ncurr := ncurr + 1;
      } else {
        ret := ret + [str[curr]];
      }
      curr := curr + 1;
    }
    assert str[curr..] == [];
  }

  lemma ToClientNothing()
    ensures ToClient([]) == []
  {
  }

  /** Translating to the server's form and back is the identity on every text,
      also on text that already holds '\r' or "\r\n". */
  lemma {:induction false} ToClientInvertsToServer(s: string)
    ensures ToClient(ToServer(s)) == s
  {
    if s != [] {
      ToClientInvertsToServer(s[1..]);
      var t := ToServer(s[1..]);
      if s[0] == '\n' {
        assert ("\r\n" + t)[2..] == t;
      } else {
        assert ([s[0]] + t)[1..] == t;
      }
    }
  }

  lemma LinesEndCons(c: char, u: string)
    requires c != '\n' && (c == '\r' ==> u == [] || u[0] != '\n')
    ensures LinesEndInCrLf([c] + u) <==> LinesEndInCrLf(u)
  {
    var t := [c] + u;
    if LinesEndInCrLf(u) {
      forall i | 0 <= i < |t| && t[i] == '\n' ensures i > 0 && t[i - 1] == '\r' {
        assert u[i - 1] == '\n';
        assert i > 1 ==> t[i - 1] == u[i - 2];
      }
    } else {
      var i :| 0 <= i < |u| && u[i] == '\n' && !(i > 0 && u[i - 1] == '\r');
      assert t[i + 1] == '\n' && t[i] != '\r';
    }
  }

  lemma LinesEndPair(u: string)
    ensures LinesEndInCrLf("\r\n" + u) <==> LinesEndInCrLf(u)
  {
    var t := "\r\n" + u;
    if LinesEndInCrLf(u) {
      forall i | 0 <= i < |t| && t[i] == '\n' ensures i > 0 && t[i - 1] == '\r' {
        if i > 1 { assert u[i - 2] == '\n' && t[i - 1] == u[i - 3]; }
      }
    } else {
      var i :| 0 <= i < |u| && u[i] == '\n' && !(i > 0 && u[i - 1] == '\r');
      assert t[i + 2] == '\n' && t[i + 1] != '\r';
    }
  }

  /** The other round trip holds exactly on text without a bare '\n'. */
  lemma {:induction false} ToServerInvertsToClientIff(t: string)
    ensures ToServer(ToClient(t)) == t <==> LinesEndInCrLf(t)
  {
    if t == [] {
    } else if t[0] == '\r' && |t| > 1 && t[1] == '\n' {
      var u := t[2..];
      ToServerInvertsToClientIff(u);
      LinesEndPair(u);
      hide LinesEndInCrLf;
      assert ("\n" + ToClient(u))[1..] == ToClient(u);
      assert t == "\r\n" + u;
    } else {
      var u := t[1..];
      ToServerInvertsToClientIff(u);
      assert ([t[0]] + ToClient(u))[1..] == ToClient(u);
      assert t == [t[0]] + u;
      if t[0] == '\n' {
        assert ToServer(ToClient(t))[0] == '\r';
      } else {
        LinesEndCons(t[0], u);
        hide LinesEndInCrLf;
        assert ([t[0]] + ToServer(ToClient(u)))[1..] == ToServer(ToClient(u));
      }
    }
  }
}
