/** Small facts about finite sets, sums and text that several protocols need. */
module Collections {

  datatype Option<+T> = None | Some(value: T)

  function Max(a: int, b: int): int { if a >= b then a else b }

  function Min(a: int, b: int): int { if a <= b then a else b }

  // ---------------------------------------------------------------- sets

  ghost function Pick<T>(s: set<T>): (x: T)
    requires s != {}
    ensures x in s
  {
    var x :| x in s; x
  }

  /** The largest element of a finite set of integers, or 0 when none is positive. */
  ghost function MaxOrZero(s: set<int>): (m: int)
    ensures m >= 0
    ensures forall x | x in s :: x <= m
    ensures m == 0 || m in s
  {
    if s == {} then 0 else
    var x := Pick(s);
    assert forall y | y in s :: y == x || y in s - {x};
    Max(x, MaxOrZero(s - {x}))
  }

  /** Every nonempty finite set has an element of least rank. */
  lemma {:induction false} LeastExists<T>(s: set<T>, rank: T -> int)
    requires s != {}
    ensures exists x :: x in s && forall y | y in s :: rank(x) <= rank(y)
  {
    var x :| x in s;
    if s - {x} == {} {
      assert s == {x};
    } else {
      LeastExists(s - {x}, rank);
      var y :| y in s - {x} && forall z | z in s - {x} :: rank(y) <= rank(z);
      var least := if rank(x) <= rank(y) then x else y;
      assert forall z | z in s :: z == x || z in s - {x};
      assert least in s && forall z | z in s :: rank(least) <= rank(z);
    }
  }

  /** Sum of a weight over a finite set. */
  ghost function SumOver<T>(s: set<T>, weight: T -> int): int {
    if s == {} then 0 else
    var x :| x in s;
    weight(x) + SumOver(s - {x}, weight)
  }

  lemma {:induction false} SumTakesOut<T>(s: set<T>, weight: T -> int, y: T)
    requires y in s
    ensures SumOver(s, weight) == weight(y) + SumOver(s - {y}, weight)
    decreases |s|
  {
    var x :| x in s && SumOver(s, weight) == weight(x) + SumOver(s - {x}, weight);
    if x != y {
      SumTakesOut(s - {x}, weight, y);
      SumTakesOut(s - {y}, weight, x);
      assert s - {x} - {y} == s - {y} - {x};
    }
  }

  /** Pointwise smaller weights give a smaller sum, strictly so if one of them is strictly smaller. */
  lemma {:induction false} SumIsMonotone<T>(s: set<T>, small: T -> int, large: T -> int)
    requires forall x | x in s :: small(x) <= large(x)
    ensures SumOver(s, small) <= SumOver(s, large)
    ensures (exists x | x in s :: small(x) < large(x)) ==> SumOver(s, small) < SumOver(s, large)
    decreases |s|
  {
    if s != {} {
      var x := if exists y | y in s :: small(y) < large(y)
               then var y :| y in s && small(y) < large(y); y
               else var y :| y in s; y;
      SumTakesOut(s, small, x);
      SumTakesOut(s, large, x);
      SumIsMonotone(s - {x}, small, large);
    }
  }

  // ---------------------------------------------------------------- text

  /** White space as the service trims it. */
  predicate IsSpace(c: char) {
    || '\t' <= c <= '\r' || c == ' ' || c == '\U{85}' || c == '\U{A0}' || c == '\U{1680}'
    || '\U{2000}' <= c <= '\U{200A}' || c == '\U{2028}' || c == '\U{2029}'
    || c == '\U{202F}' || c == '\U{205F}' || c == '\U{3000}'
  }

  /** True of texts that trimming leaves empty. */
  predicate Blank(s: string) { forall c | c in s :: IsSpace(c) }

  function TrimStart(s: string): string { if s != "" && IsSpace(s[0]) then TrimStart(s[1..]) else s }

  function TrimEnd(s: string): string {
    if s != "" && IsSpace(s[|s| - 1]) then TrimEnd(s[..|s| - 1]) else s
  }

  function Trim(s: string): string { TrimEnd(TrimStart(s)) }

  /** The order in which the services compare identifiers. */
  predicate TextLess(a: string, b: string) {
    if b == "" then false
    else if a == "" then true
    else a[0] < b[0] || (a[0] == b[0] && TextLess(a[1..], b[1..]))
  }

  lemma {:induction false} TextLessIsTotal(a: string, b: string)
    ensures a == b || TextLess(a, b) || TextLess(b, a)
    ensures !(TextLess(a, b) && TextLess(b, a))
    ensures a == b ==> !TextLess(a, b)
  {
    if a != "" && b != "" && a[0] == b[0] {
      TextLessIsTotal(a[1..], b[1..]);
      if a[1..] == b[1..] {
        assert a == [a[0]] + a[1..] == [b[0]] + b[1..] == b;
      }
    }
  }

  lemma {:induction false} TextLessIsTransitive(a: string, b: string, c: string)
    requires TextLess(a, b) && TextLess(b, c)
    ensures TextLess(a, c)
  {
    if a != "" && a[0] == b[0] && b[0] == c[0] {
      TextLessIsTransitive(a[1..], b[1..], c[1..]);
    }
  }

  /** The texts agree before position `k`, where the first ends or has the smaller character. */
  predicate LessAt(a: string, b: string, k: nat) {
    k <= |a| && k < |b| && a[..k] == b[..k] && (k == |a| || a[k] < b[k])
  }

  lemma LessAtLater(a: string, b: string, k: nat)
    requires a != "" && b != "" && a[0] == b[0]
    ensures LessAt(a[1..], b[1..], k) <==> LessAt(a, b, k + 1)
  {
    if k + 1 <= |a| && k + 1 <= |b| {
      assert a[..k + 1] == [a[0]] + a[1..][..k];
      assert b[..k + 1] == [b[0]] + b[1..][..k];
      assert a[1..][..k] == a[..k + 1][1..];
      assert b[1..][..k] == b[..k + 1][1..];
    }
  }

  lemma LessAtAgrees(a: string, b: string, k: nat)
    requires LessAt(a, b, k)
    ensures k > 0 ==> a[0] == b[0]
  {
    if k > 0 { assert a[..k][0] == b[..k][0]; }
  }

  /** `TextLess` compares the first characters that differ; a proper prefix comes first. */
  lemma {:induction false} TextLessIff(a: string, b: string)
    ensures TextLess(a, b) <==> exists k: nat :: LessAt(a, b, k)
  {
    if a != "" && b != "" && a[0] == b[0] {
      TextLessIff(a[1..], b[1..]);
      if k: nat :| LessAt(a[1..], b[1..], k) {
        LessAtLater(a, b, k);
      }
      if k: nat :| LessAt(a, b, k) {
        assert k > 0;
        LessAtLater(a, b, k - 1);
      }
    } else {
      assert b != "" ==> (LessAt(a, b, 0) <==> a == "" || a[0] < b[0]);
      forall k: nat | LessAt(a, b, k) ensures k == 0 {
        LessAtAgrees(a, b, k);
      }
    }
  }

  lemma BlankParts(a: string, b: string)
    ensures Blank(a + b) <==> Blank(a) && Blank(b)
  {
    if Blank(a + b) {
      assert forall c | c in a :: c in a + b;
      assert forall c | c in b :: c in a + b;
    }
  }

  lemma {:induction false} TrimStartCuts(s: string) returns (k: nat)
    ensures k <= |s| && Blank(s[..k]) && TrimStart(s) == s[k..]
    ensures TrimStart(s) != "" ==> !IsSpace(TrimStart(s)[0])
  {
    k := 0;
    if s != "" && IsSpace(s[0]) {
      var rest := TrimStartCuts(s[1..]);
      BlankParts([s[0]], s[1..][..rest]);
      k := rest + 1;
      assert s[..k] == [s[0]] + s[1..][..rest];
      assert s[k..] == s[1..][rest..];
    }
  }

  lemma {:induction false} TrimEndCuts(s: string) returns (k: nat)
    ensures k <= |s| && Blank(s[k..]) && TrimEnd(s) == s[..k]
    ensures TrimEnd(s) != "" ==> !IsSpace(TrimEnd(s)[|TrimEnd(s)| - 1])
  {
    k := |s|;
    if s != "" && IsSpace(s[|s| - 1]) {
      var shorter := s[..|s| - 1];
      k := TrimEndCuts(shorter);
      BlankParts(shorter[k..], [s[|s| - 1]]);
      assert s[k..] == shorter[k..] + [s[|s| - 1]];
      assert s[..k] == shorter[..k];
    }
  }

  lemma TrimmedIsBlankIff(s: string, i: nat, j: nat)
    requires i <= j <= |s| && Blank(s[..i]) && Blank(s[j..]) && (i < j ==> !IsSpace(s[i]))
    ensures Blank(s) <==> i == j
  {
    assert s == s[..i] + s[i..];
    if i == j {
      BlankParts(s[..i], s[i..]);
    } else {
      assert s[i] in s;
    }
  }

  /** Trimming cuts white space off both ends, and all of it. */
  lemma TrimCutsBothEnds(s: string) returns (i: nat, j: nat)
    ensures i <= j <= |s| && Trim(s) == s[i..j] && Blank(s[..i]) && Blank(s[j..])
    ensures Trim(s) != "" ==> !IsSpace(Trim(s)[0]) && !IsSpace(Trim(s)[|Trim(s)| - 1])
    ensures Trim(s) == "" <==> Blank(s)
  {
    i := TrimStartCuts(s);
    var k := TrimEndCuts(s[i..]);
    j := i + k;
    assert s[j..] == s[i..][k..];
    assert s[i..j] == s[i..][..k];
    TrimmedIsBlankIff(s, i, j);
  }
}
