/** Text fields inside an ICQ message: fields split at a separator and decimal numbers
    (src/ICQ.cpp:897-964). */
module IcqText {
  import opened Buffers

  type text = seq<byte>

  const SEPARATOR: byte := 0xfe

  // ------------------------------------------------------------------
  //  string_split
  // ------------------------------------------------------------------

  function FindFrom(s: text, from: nat): (pos: nat)
    requires from <= |s|
    ensures from <= pos <= |s|
    decreases |s| - from
  {
    if from == |s| || s[from] == SEPARATOR then from else FindFrom(s, from + 1)
  }

  /** The fields between separators; nothing after a last separator makes no field. */
  function Split(s: text): seq<text>
    decreases |s|
  {
    if s == [] then []
    else
      var pos := FindFrom(s, 0);
      [s[..pos]] + if pos == |s| then [] else Split(s[pos + 1..])
  }

  function Blanks(n: int): seq<text>
    decreases n
  {
    if n <= 0 then [] else [[]] + Blanks(n - 1)
  }

  /** What string_split leaves in its list. */
  function SplitPadded(s: text, count: int): seq<text> { Split(s) + Blanks(count - |Split(s)|) }

  lemma {:induction false} FindFromIs(s: text, from: nat)
    requires from <= |s|
    ensures SEPARATOR !in s[from..FindFrom(s, from)] && (FindFrom(s, from) < |s| ==> s[FindFrom(s, from)] == SEPARATOR)
    decreases |s| - from
  {
    if from < |s| && s[from] != SEPARATOR {
      FindFromIs(s, from + 1);
      assert s[from..FindFrom(s, from)] == [s[from]] + s[from + 1..FindFrom(s, from)];
    }
  }

  lemma {:induction false} FindFromUnique(s: text, from: nat, pos: nat)
    requires from <= pos <= |s| && SEPARATOR !in s[from..pos] && (pos < |s| ==> s[pos] == SEPARATOR)
    ensures FindFrom(s, from) == pos
    decreases |s| - from
  {
    if from < pos {
      assert s[from..pos] == [s[from]] + s[from + 1..pos];
      FindFromUnique(s, from + 1, pos);
    }
  }

  lemma {:induction false} FindFromBound(s: text, from: nat, j: nat)
    requires from <= j < |s| && s[j] == SEPARATOR
    ensures FindFrom(s, from) <= j
    decreases j - from
  {
    if from < j && s[from] != SEPARATOR { FindFromBound(s, from + 1, j); }
  }

  lemma {:induction false} FindFromShift(s: text, from: nat, k: nat)
    requires k + from <= |s|
    ensures FindFrom(s[k..], from) + k == FindFrom(s, k + from)
    decreases |s| - k - from
  {
    if k + from < |s| && s[k + from] != SEPARATOR { FindFromShift(s, from + 1, k); }
  }

  method Find(s: text, from: nat) returns (pos: nat)
    requires from <= |s|
    ensures pos == FindFrom(s, from)
  {
    pos := from;
    while pos < |s| && s[pos] != SEPARATOR
      invariant from <= pos <= |s| && FindFrom(s, from) == FindFrom(s, pos)
    {
      pos := pos + 1;
    }
  }

  lemma SplitStep(s: text, lpos: nat)
    requires lpos < |s|
    ensures var pos := FindFrom(s, lpos);
      Split(s[lpos..]) == [s[lpos..pos]] + if pos == |s| then [] else Split(s[pos + 1..])
  {
    hide Split, FindFrom;
    var t, pos := s[lpos..], FindFrom(s, lpos);
    SplitUnfold(t);
    FindFromShift(s, 0, lpos);
    assert t[..pos - lpos] == s[lpos..pos];
    if pos < |s| { assert t[pos - lpos + 1..] == s[pos + 1..]; }
  }

  lemma SplitUnfold(s: text)
    requires s != []
    ensures Split(s) == [s[..FindFrom(s, 0)]] + if FindFrom(s, 0) == |s| then [] else Split(s[FindFrom(s, 0) + 1..])
  {
  }

  method SplitFields(s: text) returns (fields: seq<text>)
    ensures fields == Split(s)
  {
    hide Split, FindFrom;
    fields := [];
    var lpos := 0;
    assert s[0..] == s;
    while lpos != |s|
      invariant lpos <= |s| && fields + Split(s[lpos..]) == Split(s)
    {
      SplitStep(s, lpos);
      var pos := Find(s, lpos);
      fields := fields + [s[lpos..pos]];
      lpos := if pos == |s| then |s| else pos + 1;
      if pos == |s| { assert s[lpos..] == []; SplitNothing(); }
    }
    assert s[lpos..] == [];
    SplitNothing();
  }

  lemma SplitNothing()
    ensures Split([]) == []
  {
  }

  /** string_split with a separator of one byte. */
  method StringSplit(s: text, count: int) returns (fields: seq<text>)
    ensures fields == SplitPadded(s, count)
  {
    fields := SplitFields(s);
    var left := count - |fields|;
    ghost var split := fields;
    while left > 0
      invariant fields + Blanks(left) == split + Blanks(count - |split|)
      decreases left
    {
      assert fields + Blanks(left) == fields + [[]] + Blanks(left - 1);
      fields := fields + [[]];
      left := left - 1;
    }
  }

  // ------------------------------------------------------------------
  //  Fields joined, and split again
  // ------------------------------------------------------------------

  /** Fields with a separator between them. */
  function Join(fields: seq<text>): text {
    if fields == [] then [] else if |fields| == 1 then fields[0] else fields[0] + [SEPARATOR] + Join(fields[1..])
  }

  /** Fields with a separator after each. */
  function Terminated(fields: seq<text>): text {
    if fields == [] then [] else fields[0] + [SEPARATOR] + Terminated(fields[1..])
  }

  predicate SepFree(f: text) { SEPARATOR !in f }

  predicate AllSepFree(fields: seq<text>) { forall i :: 0 <= i < |fields| ==> SepFree(fields[i]) }

  lemma SplitFirst(f: text, rest: text)
    ensures Split(f + [SEPARATOR] + rest) != []
    ensures if SepFree(f) then Split(f + [SEPARATOR] + rest) == [f] + Split(rest)
            else Split(f + [SEPARATOR] + rest)[0] != f
  {
    var s := f + [SEPARATOR] + rest;
    if SepFree(f) {
      assert s[0..|f|] == f;
      FindFromUnique(s, 0, |f|);
      assert s[|f| + 1..] == rest;
    } else {
      var j :| 0 <= j < |f| && f[j] == SEPARATOR;
      assert s[j] == SEPARATOR;
      FindFromBound(s, 0, j);
    }
  }

  lemma SplitLast(f: text)
    ensures SepFree(f) ==> Split(f) == if f == [] then [] else [f]
    ensures !SepFree(f) ==> Split(f) != [] && Split(f)[0] != f
  {
    assert f[0..|f|] == f[..|f|] == f;
    if SepFree(f) {
      FindFromUnique(f, 0, |f|);
    } else {
      var j :| 0 <= j < |f| && f[j] == SEPARATOR;
      FindFromBound(f, 0, j);
    }
  }

  /** Only an empty last field is not split off. */
  lemma {:induction false} SplitJoin(fields: seq<text>)
    requires AllSepFree(fields) && fields != []
    ensures Split(Join(fields)) == if fields[|fields| - 1] == [] then fields[..|fields| - 1] else fields
  {
    hide Split, SepFree;
    if |fields| == 1 {
      SplitLast(fields[0]);
      assert fields == [fields[0]];
    } else {
      SplitFirst(fields[0], Join(fields[1..]));
      SplitJoin(fields[1..]);
      var rest := fields[1..];
      assert fields == [fields[0]] + rest && fields[|fields| - 1] == rest[|rest| - 1];
      assert fields[..|fields| - 1] == [fields[0]] + rest[..|rest| - 1];
    }
  }

  /** Splitting a joined list with its own length gives the list back, empty fields and all. */
  lemma SplitInvertsJoin(fields: seq<text>)
    requires AllSepFree(fields)
    ensures SplitPadded(Join(fields), |fields|) == fields
  {
    hide Split, Join, AllSepFree, Blanks, SplitPadded;
    FewBlanks();
    var n, t := |fields|, Join(fields);
    if n == 0 {
      EmptyJoin();
      PaddedIs(t, [], 0);
    } else if fields[n - 1] == [] {
      SplitJoin(fields);
      PaddedIs(t, fields[..n - 1], n);
      assert fields[..n - 1] + [fields[n - 1]] == fields;
    } else {
      SplitJoin(fields);
      PaddedIs(t, fields, n);
    }
  }

  lemma EmptyJoin()
    ensures Split(Join([])) == []
  {
  }

  lemma PaddedIs(s: text, fields: seq<text>, count: int)
    requires Split(s) == fields
    ensures SplitPadded(s, count) == fields + Blanks(count - |fields|)
  {
    hide Split, Blanks;
  }

  lemma FewBlanks()
    ensures Blanks(0) == [] && Blanks(1) == [[]]
  {
    assert Blanks(1) == [[]] + Blanks(0);
  }

  lemma {:induction false} SplitTerminated(fields: seq<text>)
    requires AllSepFree(fields)
    ensures Split(Terminated(fields)) == fields
  {
    if fields != [] {
      SplitFirst(fields[0], Terminated(fields[1..]));
      hide Split, SepFree;
      SplitTerminated(fields[1..]);
    }
  }

  lemma SplitInvertsTerminated(fields: seq<text>, count: int)
    requires AllSepFree(fields) && count <= |fields|
    ensures SplitPadded(Terminated(fields), count) == fields
  {
    SplitTerminated(fields);
  }

  lemma {:induction false} BlanksLength(n: int)
    ensures |Blanks(n)| == if n < 0 then 0 else n
    decreases n
  {
    if n > 0 { BlanksLength(n - 1); }
  }

  /** The first field with a separator in it comes back cut. */
  lemma {:induction false} JoinBroken(fields: seq<text>) returns (k: nat)
    requires !AllSepFree(fields)
    ensures k < |fields| && !SepFree(fields[k])
    ensures k < |Split(Join(fields))| && Split(Join(fields))[k] != fields[k]
  {
    if |fields| == 1 {
      k := 0;
      SplitLast(fields[0]);
    } else {
      SplitFirst(fields[0], Join(fields[1..]));
      if SepFree(fields[0]) {
        var j := JoinBroken(fields[1..]);
        k := j + 1;
      } else {
        k := 0;
      }
    }
  }

  lemma {:induction false} SplitGrows(f: text, rest: text)
    ensures |Split(f + [SEPARATOR] + rest)| > |Split(rest)|
    decreases |f|
  {
    if SepFree(f) {
      SplitFirst(f, rest);
    } else {
      FindFromIs(f, 0);
      var s, pos := f + [SEPARATOR] + rest, FindFrom(f, 0);
      assert SEPARATOR in f[..pos] + f[pos..];
      assert s[0..pos] == f[0..pos];
      FindFromUnique(s, 0, pos);
      assert s[pos + 1..] == f[pos + 1..] + [SEPARATOR] + rest;
      SplitGrows(f[pos + 1..], rest);
    }
  }

  lemma {:induction false} TerminatedLength(fields: seq<text>)
    ensures |Split(Terminated(fields))| >= |fields|
  {
    if fields != [] {
      SplitGrows(fields[0], Terminated(fields[1..]));
      TerminatedLength(fields[1..]);
    }
  }

  lemma {:induction false} TerminatedBroken(fields: seq<text>) returns (k: nat)
    requires !AllSepFree(fields)
    ensures k < |fields| <= |Split(Terminated(fields))|
    ensures !SepFree(fields[k]) && Split(Terminated(fields))[k] != fields[k]
  {
    TerminatedLength(fields);
    SplitFirst(fields[0], Terminated(fields[1..]));
    if SepFree(fields[0]) {
      var j := TerminatedBroken(fields[1..]);
      k := j + 1;
    } else {
      k := 0;
    }
  }

  // ------------------------------------------------------------------
  //  Decimal numbers
  // ------------------------------------------------------------------

  predicate IsDigit(b: byte) { '0' as int <= b <= '9' as int }

  /** How a stream prints an unsigned number. */
  function Decimal(n: nat): (s: text)
    ensures s != [] && forall i :: 0 <= i < |s| ==> IsDigit(s[i])
  {
    (if n < 10 then [] else Decimal(n / 10)) + ['0' as int + n % 10]
  }

  /** The value of the digits s starts with, after those already read. */
  function DigitsValue(s: text, sofar: nat): nat
    decreases |s|
  {
    if s == [] || !IsDigit(s[0]) then sofar else DigitsValue(s[1..], 10 * sofar + (s[0] - '0' as int))
  }

  predicate IsSpace(b: byte) { b == 32 || 9 <= b <= 13 }

  /** atoi: white space, a sign, digits. */
  function Atoi(s: text): int
    decreases |s|
  {
    if s != [] && IsSpace(s[0]) then Atoi(s[1..])
    else if s != [] && s[0] == '-' as int then var v: int := DigitsValue(s[1..], 0); -v
    else if s != [] && s[0] == '+' as int then DigitsValue(s[1..], 0)
    else DigitsValue(s, 0)
  }

  lemma {:induction false} DigitsValueSnoc(s: text, b: byte, sofar: nat)
    requires IsDigit(b) && forall i :: 0 <= i < |s| ==> IsDigit(s[i])
    ensures DigitsValue(s + [b], sofar) == 10 * DigitsValue(s, sofar) + (b - '0' as int)
    decreases |s|
  {
    if s == [] {
      assert ([] + [b])[1..] == [];
    } else {
      assert (s + [b])[1..] == s[1..] + [b];
      DigitsValueSnoc(s[1..], b, 10 * sofar + (s[0] - '0' as int));
    }
  }

  lemma {:induction false} AtoiInvertsDecimal(n: nat)
    ensures Atoi(Decimal(n)) == n && SepFree(Decimal(n))
  {
    if n >= 10 {
      AtoiInvertsDecimal(n / 10);
      DigitsValueSnoc(Decimal(n / 10), '0' as int + n % 10, 0);
    } else {
      DigitsValueSnoc([], '0' as int + n, 0);
    }
  }
}
