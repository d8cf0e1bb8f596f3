/** `ORDER BY time, id` in either direction: the order of the rows a query
    returns, for keys made of a timestamp and an id. */
module Ordering {
  import opened Sums

  datatype Stamp = Stamp(time: int, id: nat)

  predicate Before(a: Stamp, b: Stamp) {
    a.time < b.time || (a.time == b.time && a.id < b.id)
  }

  predicate Precedes(desc: bool, a: Stamp, b: Stamp) {
    if desc then Before(b, a) else Before(a, b)
  }

  predicate Leads(s: set<Stamp>, desc: bool, x: Stamp) {
    x in s && forall y :: y in s && y != x ==> Precedes(desc, x, y)
  }

  lemma HasFirst(s: set<Stamp>, desc: bool)
    requires s != {}
    ensures exists x :: x in s && Leads(s, desc, x)
  {
    var x :| x in s;
    if s == {x} {
      assert Leads(s, desc, x);
    } else {
      HasFirst(s - {x}, desc);
      var z :| z in s - {x} && Leads(s - {x}, desc, z);
      if Precedes(desc, x, z) {
        forall y | y in s && y != x ensures Precedes(desc, x, y) {
          assert y == z || Precedes(desc, z, y);
        }
        assert Leads(s, desc, x);
      } else {
        assert Leads(s, desc, z);
      }
    }
  }

  function First(s: set<Stamp>, desc: bool): (x: Stamp)
    requires s != {}
    ensures Leads(s, desc, x)
  {
    HasFirst(s, desc);
    var x :| x in s && Leads(s, desc, x);
    x
  }

  /** The rows in order. */
  function Ordered(s: set<Stamp>, desc: bool): seq<Stamp> {
    if s == {} then [] else var x := First(s, desc); [x] + Ordered(s - {x}, desc)
  }

  predicate Ascends(desc: bool, q: seq<Stamp>) {
    forall i, j :: 0 <= i < j < |q| ==> Precedes(desc, q[i], q[j])
  }

  function Elements(q: seq<Stamp>): set<Stamp> {
    set x | x in q
  }

  lemma ElementsCons(x: Stamp, q: seq<Stamp>)
    ensures Elements([x] + q) == {x} + Elements(q)
  {
  }

  lemma AscendsCons(desc: bool, x: Stamp, q: seq<Stamp>)
    requires Ascends(desc, q) && forall y :: y in Elements(q) ==> Precedes(desc, x, y)
    ensures Ascends(desc, [x] + q)
  {
    assert forall i :: 0 <= i < |q| ==> q[i] in Elements(q);
  }

  lemma {:induction false} OrderedIs(s: set<Stamp>, desc: bool)
    ensures |Ordered(s, desc)| == |s| && Elements(Ordered(s, desc)) == s && Ascends(desc, Ordered(s, desc))
  {
    if s != {} {
      var x := First(s, desc);
      OrderedIs(s - {x}, desc);
      ElementsCons(x, Ordered(s - {x}, desc));
      AscendsCons(desc, x, Ordered(s - {x}, desc));
    }
  }

  lemma AscendsTail(desc: bool, q: seq<Stamp>)
    requires q != [] && Ascends(desc, q)
    ensures Ascends(desc, q[1..]) && Leads(Elements(q), desc, q[0]) && Elements(q[1..]) == Elements(q) - {q[0]}
  {
    forall y | y in Elements(q[1..]) ensures y in Elements(q) && Precedes(desc, q[0], y) && y != q[0] {
      var j :| 0 <= j < |q| - 1 && q[1..][j] == y;
      assert q[j + 1] == y;
    }
    ElementsCons(q[0], q[1..]);
    assert [q[0]] + q[1..] == q;
  }

  lemma LeaderUnique(s: set<Stamp>, desc: bool, x: Stamp, y: Stamp)
    requires Leads(s, desc, x) && Leads(s, desc, y)
    ensures x == y
  {
  }

  /** There is only one way to write a set in order. */
  lemma {:induction false} OrderIsUnique(q: seq<Stamp>, desc: bool)
    requires Ascends(desc, q)
    ensures Ordered(Elements(q), desc) == q
    decreases |q|
  {
    if q != [] {
      AscendsTail(desc, q);
      assert Elements(q) != {};
      LeaderUnique(Elements(q), desc, q[0], First(Elements(q), desc));
      OrderIsUnique(q[1..], desc);
    }
  }

  /** In an ordered sequence, what comes after `q[i]` is the rest of it. */
  lemma AfterIsRest(q: seq<Stamp>, desc: bool, i: nat)
    requires Ascends(desc, q) && i < |q|
    ensures (set x | x in Elements(q) && Precedes(desc, q[i], x)) == Elements(q[i + 1..])
  {
    var rest := q[i + 1..];
    forall x | x in Elements(q) && Precedes(desc, q[i], x) ensures x in Elements(rest) {
      var j :| 0 <= j < |q| && q[j] == x;
      assert i < j;
      assert rest[j - i - 1] == x;
    }
    forall x | x in Elements(rest) ensures x in Elements(q) && Precedes(desc, q[i], x) {
      var j :| 0 <= j < |rest| && rest[j] == x;
      assert x == q[i + 1 + j];
    }
  }

  /** Rows after a given row, in order, are the rest of the ordered rows. */
  lemma OrderedAfter(s: set<Stamp>, desc: bool, i: nat)
    requires i < |Ordered(s, desc)|
    ensures Ordered((set x | x in s && Precedes(desc, Ordered(s, desc)[i], x)), desc) == Ordered(s, desc)[i + 1..]
  {
    var q := Ordered(s, desc);
    OrderedIs(s, desc);
    AfterIsRest(q, desc, i);
    AscendsDrop(desc, q, i + 1);
    OrderIsUnique(q[i + 1..], desc);
  }

  lemma AscendsDrop(desc: bool, q: seq<Stamp>, n: nat)
    requires Ascends(desc, q) && n <= |q|
    ensures Ascends(desc, q[n..])
  {
  }

  function Backwards(q: seq<Stamp>): (r: seq<Stamp>)
    ensures |r| == |q| && forall i :: 0 <= i < |q| ==> r[i] == q[|q| - 1 - i]
  {
    seq(|q|, i requires 0 <= i < |q| => q[|q| - 1 - i])
  }

  lemma BackwardsIs(q: seq<Stamp>)
    requires Ascends(false, q)
    ensures Elements(Backwards(q)) == Elements(q) && Ascends(true, Backwards(q))
  {
    var r := Backwards(q);
    forall x | x in Elements(q) ensures x in Elements(r) {
      var j :| 0 <= j < |q| && q[j] == x;
      assert r[|q| - 1 - j] == x;
    }
  }

  /** Descending order is ascending order read backwards. */
  lemma OrderedReversed(s: set<Stamp>)
    ensures Ordered(s, true) == Backwards(Ordered(s, false))
  {
    var q := Ordered(s, false);
    OrderedIs(s, false);
    BackwardsIs(q);
    OrderIsUnique(Backwards(q), true);
  }

  // ---------- the newest of a set ----------

  function Above(s: set<Stamp>, x: Stamp): set<Stamp> {
    set y | y in s && Before(x, y)
  }

  /** The `n` last in ascending order: those with fewer than `n` above them. */
  function Top(s: set<Stamp>, n: nat): set<Stamp> {
    set x | x in s && |Above(s, x)| < n
  }

  lemma AboveAt(s: set<Stamp>, i: nat)
    requires i < |Ordered(s, true)|
    ensures Above(s, Ordered(s, true)[i]) == Elements(Ordered(s, true)[..i])
    ensures |Elements(Ordered(s, true)[..i])| == i
  {
    var q := Ordered(s, true);
    OrderedIs(s, true);
    FrontCount(q, i);
    forall y | y in Above(s, q[i]) ensures y in q[..i] {
      assert y in Elements(q);
      var j :| 0 <= j < |q| && q[j] == y;
      assert j < i;
      assert q[..i][j] == y;
    }
    forall y | y in q[..i] ensures y in Above(s, q[i]) {
      var j :| 0 <= j < i && q[..i][j] == y;
      assert y == q[j] && y in Elements(q);
      assert Precedes(true, q[j], q[i]);
    }
  }

  lemma FrontCount(q: seq<Stamp>, n: nat)
    requires Ascends(true, q) && n <= |q|
    ensures |Elements(q[..n])| == n
  {
    AscendsTake(true, q, n);
    OrderIsUnique(q[..n], true);
    OrderedIs(Elements(q[..n]), true);
  }

  lemma AscendsTake(desc: bool, q: seq<Stamp>, n: nat)
    requires Ascends(desc, q) && n <= |q|
    ensures Ascends(desc, q[..n])
  {
  }

  /** The front of the descending order is the top. */
  lemma TopIsFront(s: set<Stamp>, n: nat)
    ensures var q := Ordered(s, true); var m := if |q| <= n then |q| else n;
      Elements(q[..m]) == Top(s, n) && |Top(s, n)| == m
  {
    var q := Ordered(s, true);
    OrderedIs(s, true);
    var m := if |q| <= n then |q| else n;
    FrontCount(q, m);
    forall x | x in q[..m] ensures x in Top(s, n) {
      var i :| 0 <= i < m && q[..m][i] == x;
      AboveAt(s, i);
      assert q[i] in Elements(q);
    }
    forall x | x in Top(s, n) ensures x in q[..m] {
      assert x in Elements(q);
      var i :| 0 <= i < |q| && q[i] == x;
      AboveAt(s, i);
      assert q[..m][i] == x;
    }
  }

  lemma AboveShrinks(s: set<Stamp>, x: Stamp, y: Stamp)
    requires Before(x, y)
    ensures |Above(s, y)| <= |Above(s, x)|
  {
    SubsetFewer(Above(s, y), Above(s, x));
  }

  lemma WholeFront(q: seq<Stamp>)
    ensures q[..|q|] == q
  {
  }

  /** What is not in the top is below all of it, and then the top is full. */
  lemma BelowTheTop(s: set<Stamp>, n: nat, y: Stamp)
    requires y in s && y !in Top(s, n)
    ensures forall x :: x in Top(s, n) ==> Before(y, x)
    ensures |Top(s, n)| == n
  {
    forall x | x in Top(s, n) ensures Before(y, x) {
      if !Before(y, x) {
        assert Before(x, y);
        AboveShrinks(s, x, y);
      }
    }
    TopIsFront(s, n);
    OrderedIs(s, true);
    WholeFront(Ordered(s, true));
  }

  /** Keeping the top before adding one more loses nothing that the top after it needs. */
  lemma TopAbsorbs(s: set<Stamp>, n: nat, b: Stamp)
    ensures Top(Top(s, n) + {b}, n) == Top(s + {b}, n)
  {
    var kept := Top(s, n) + {b};
    forall x | x in Top(s + {b}, n) ensures x in Top(kept, n) {
      SubsetFewer(Above(kept, x), Above(s + {b}, x));
      SubsetFewer(Above(s, x), Above(s + {b}, x));
    }
    forall x | x in Top(kept, n) ensures x in Top(s + {b}, n) {
      forall y | y in Above(s + {b}, x) ensures y in Above(kept, x) {
        if y !in kept {
          BelowTheTop(s, n, y);
          SubsetFewer(Top(s, n), Above(kept, x));
        }
      }
      SubsetFewer(Above(s + {b}, x), Above(kept, x));
    }
  }
}
