/** strings.Join(fields, "|"): when the joined text determines the fields. */
module FieldJoin {

  function Join(fields: seq<string>): (s: string) {
    if |fields| == 0 then ""
    else if |fields| == 1 then fields[0]
    else fields[0] + "|" + Join(fields[1..])
  }

  predicate Plain(s: string) {
    '|' !in s
  }

  /** Only the fields whose position is in `loose` may contain the separator. */
  predicate Fits(fields: seq<string>, n: nat, loose: set<nat>) {
    |fields| == n && forall i: nat :: i < n && i !in loose ==> Plain(fields[i])
  }

  lemma SplitFirst(x: string, y: string, u: string, v: string)
    requires Plain(x) && Plain(y) && x + "|" + u == y + "|" + v
    ensures x == y && u == v
  {
    var s, t := x + "|" + u, y + "|" + v;
    assert s[|x|] == '|' && forall i :: 0 <= i < |x| ==> s[i] == x[i] != '|';
    assert t[|y|] == '|' && forall i :: 0 <= i < |y| ==> t[i] == y[i] != '|';
    assert x == s[..|x|] && y == t[..|y|];
    assert u == s[|x| + 1..] && v == t[|y| + 1..];
  }

  lemma SplitLast(x: string, y: string, u: string, v: string)
    requires Plain(u) && Plain(v) && x + "|" + u == y + "|" + v
    ensures x == y && u == v
  {
    var s, t := x + "|" + u, y + "|" + v;
    assert s[|x|] == '|' && forall i :: |x| < i < |s| ==> s[i] == u[i - |x| - 1] != '|';
    assert t[|y|] == '|' && forall i :: |y| < i < |t| ==> t[i] == v[i - |y| - 1] != '|';
    assert x == s[..|x|] && y == t[..|y|];
    assert u == s[|x| + 1..] && v == t[|y| + 1..];
  }

  lemma {:induction false} JoinConcat(u: seq<string>, v: seq<string>)
    requires u != [] && v != []
    ensures Join(u + v) == Join(u) + "|" + Join(v)
  {
    assert (u + v)[1..] == u[1..] + v;
    if |u| > 1 {
      JoinConcat(u[1..], v);
    } else {
      assert u[1..] + v == v;
    }
  }

  lemma {:induction false} JoinFromTheEnd(fields: seq<string>)
    requires |fields| >= 2
    ensures Join(fields) == Join(fields[..|fields| - 1]) + "|" + fields[|fields| - 1]
  {
    var n := |fields| - 1;
    JoinConcat(fields[..n], [fields[n]]);
    assert fields == fields[..n] + [fields[n]];
    assert Join([fields[n]]) == fields[n];
    hide *;
  }

  /** What stands before and behind does not matter to a middle part with the same join. */
  lemma {:induction false} JoinMiddle(u: seq<string>, v: seq<string>, v': seq<string>, w: seq<string>)
    requires v != [] && v' != [] && Join(v) == Join(v')
    ensures Join(u + v + w) == Join(u + v' + w)
  {
    if u != [] {
      JoinConcat(u, v);
      JoinConcat(u, v');
    } else {
      assert u + v == v && u + v' == v';
    }
    if w != [] {
      JoinConcat(u + v, w);
      JoinConcat(u + v', w);
    } else {
      assert u + v + w == u + v && u + v' + w == u + v';
    }
  }

  /** One loose position: peel the fields before it, then those after it; a field both lists share may hold anything. */
  lemma {:induction false} JoinInjective(a: seq<string>, b: seq<string>, k: nat)
    requires |a| == |b| && k < |a|
    requires forall i: nat :: i < |a| && i != k ==> a[i] == b[i] || (Plain(a[i]) && Plain(b[i]))
    requires Join(a) == Join(b)
    ensures a == b
    decreases |a|
  {
    var n := |a|;
    if n == 1 {
      assert a == [a[0]] && b == [b[0]];
    } else if k > 0 {
      if a[0] == b[0] {
        SameHead(a[0], Join(a[1..]), Join(b[1..]));
      } else {
        SplitFirst(a[0], b[0], Join(a[1..]), Join(b[1..]));
      }
      JoinInjective(a[1..], b[1..], k - 1);
      assert a == [a[0]] + a[1..] && b == [b[0]] + b[1..];
    } else {
      JoinFromTheEnd(a);
      JoinFromTheEnd(b);
      if a[n - 1] == b[n - 1] {
        SameTail(Join(a[..n - 1]), Join(b[..n - 1]), a[n - 1]);
      } else {
        SplitLast(Join(a[..n - 1]), Join(b[..n - 1]), a[n - 1], b[n - 1]);
      }
      JoinInjective(a[..n - 1], b[..n - 1], 0);
      assert a == a[..n - 1] + [a[n - 1]] && b == b[..n - 1] + [b[n - 1]];
    }
  }

  lemma SameHead(x: string, u: string, v: string)
    requires x + "|" + u == x + "|" + v
    ensures u == v
  {
    assert u == (x + "|" + u)[|x| + 1..] && v == (x + "|" + v)[|x| + 1..];
  }

  lemma SameTail(x: string, y: string, u: string)
    requires x + "|" + u == y + "|" + u
    ensures x == y
  {
    assert x == (x + "|" + u)[..|x|] && y == (y + "|" + u)[..|y|];
  }

  // ------------------------------------------------- one list against every other

  predicate AllPlain(fields: seq<string>) {
    forall i :: 0 <= i < |fields| ==> Plain(fields[i])
  }

  function Separators(s: string): (n: nat) {
    multiset(s)['|']
  }

  /** n fields need n - 1 separators; there are more exactly when a field holds one. */
  lemma {:induction false} JoinSeparators(fields: seq<string>)
    requires fields != []
    ensures Separators(Join(fields)) >= |fields| - 1
    ensures Separators(Join(fields)) == |fields| - 1 <==> AllPlain(fields)
  {
    assert Plain(fields[0]) <==> Separators(fields[0]) == 0;
    if |fields| > 1 {
      JoinSeparators(fields[1..]);
      assert Separators(Join(fields)) == Separators(fields[0]) + 1 + Separators(Join(fields[1..]));
      assert fields == [fields[0]] + fields[1..];
    }
  }

  /** Whatever the fields of the other list hold. */
  lemma {:induction false} PlainListIsDetermined(a: seq<string>, b: seq<string>)
    requires AllPlain(a) && |a| == |b| && Join(a) == Join(b)
    ensures a == b
  {
    if a != [] {
      JoinSeparators(a);
      JoinSeparators(b);
      JoinInjective(a, b, 0);
    }
  }

  lemma JoinPair(x: string, y: string)
    ensures Join([x, y]) == x + "|" + y
  {
    assert [x, y][1..] == [y];
  }

  lemma {:induction false} SwapPair(a: seq<string>, k: nat, x: string, y: string) returns (b: seq<string>)
    requires k + 2 <= |a| && x + "|" + y == a[k] + "|" + a[k + 1] && x != a[k]
    ensures |b| == |a| && Join(b) == Join(a) && b != a
  {
    JoinPair(x, y);
    JoinPair(a[k], a[k + 1]);
    assert a == a[..k] + [a[k], a[k + 1]] + a[k + 2..];
    JoinMiddle(a[..k], [a[k], a[k + 1]], [x, y], a[k + 2..]);
    b := a[..k] + [x, y] + a[k + 2..];
    assert b[k] == x;
  }

  /** A separator inside field i can be taken for the one next to that field. */
  lemma Shift(a: seq<string>, i: nat) returns (b: seq<string>)
    requires |a| >= 2 && i < |a| && !Plain(a[i])
    ensures |b| == |a| && Join(b) == Join(a) && b != a
  {
    var p :| 0 <= p < |a[i]| && a[i][p] == '|';
    var x, y := a[i][..p], a[i][p + 1..];
    assert a[i] == x + "|" + y;
    if i + 1 < |a| {
      assert x + "|" + (y + "|" + a[i + 1]) == a[i] + "|" + a[i + 1];
      b := SwapPair(a, i, x, y + "|" + a[i + 1]);
    } else {
      assert (a[i - 1] + "|" + x) + "|" + y == a[i - 1] + "|" + a[i];
      b := SwapPair(a, i - 1, a[i - 1] + "|" + x, y);
    }
  }

  /** A list is the only one of its length with its join exactly when no field of it holds the separator,
      or there is one field. */
  lemma {:induction false} DeterminedIffPlain(a: seq<string>)
    ensures (forall b :: |b| == |a| && Join(b) == Join(a) ==> b == a) <==> |a| == 1 || AllPlain(a)
  {
    if |a| == 1 || AllPlain(a) {
      forall b | |b| == |a| && Join(b) == Join(a) ensures b == a {
        if |a| == 1 {
          JoinInjective(a, b, 0);
        } else {
          PlainListIsDetermined(a, b);
        }
      }
    } else {
      var i :| 0 <= i < |a| && !Plain(a[i]);
      var b := Shift(a, i);
    }
  }

  // ------------------------------------------------- positions that may hold the separator

  /** n fields, all empty except that field k is the separator itself. */
  function LonePipe(n: nat, k: nat): (fields: seq<string>) {
    seq(n, i => if i == k then "|" else "")
  }

  predicate OnlyPipes(s: string) {
    forall i :: 0 <= i < |s| ==> s[i] == '|'
  }

  lemma {:induction false} LonePipeJoins(n: nat, k: nat)
    requires 1 <= n
    ensures OnlyPipes(Join(LonePipe(n, k)))
    ensures |Join(LonePipe(n, k))| == if k < n then n else n - 1
  {
    if n > 1 {
      var tail := LonePipe(n - 1, if k == 0 then n else k - 1);
      LonePipeJoins(n - 1, if k == 0 then n else k - 1);
      assert LonePipe(n, k)[1..] == tail;
    }
  }

  lemma LonePipesCollide(n: nat, i: nat, j: nat)
    requires i < n && j < n
    ensures Join(LonePipe(n, i)) == Join(LonePipe(n, j))
  {
    LonePipeJoins(n, i);
    LonePipeJoins(n, j);
  }

  /** The join of n fields determines them exactly when at most one position may hold the separator. */
  lemma UnambiguousIffOneLooseField(n: nat, loose: set<nat>)
    ensures (forall a, b :: Fits(a, n, loose) && Fits(b, n, loose) && Join(a) == Join(b) ==> a == b)
       <==> (forall i, j :: i in loose && j in loose && i < n && j < n ==> i == j)
  {
    if i, j :| i in loose && j in loose && i < n && j < n && i != j {
      var a, b := LonePipe(n, i), LonePipe(n, j);
      LonePipesCollide(n, i, j);
      assert Fits(a, n, loose) && Fits(b, n, loose);
      assert a[i] != b[i];
    } else {
      forall a, b | Fits(a, n, loose) && Fits(b, n, loose) && Join(a) == Join(b)
        ensures a == b
      {
        if n > 0 {
          var k := if i :| i in loose && i < n then i else 0;
          JoinInjective(a, b, k);
        }
      }
    }
  }
}
