/** Types and small facts shared by the models of the bridge's components. */
module Common {

  datatype Option<+T> = None | Some(value: T)

  /** A topic name such as "/sensor/imu". */
  type Topic = string

  /** The identity the middleware gives to one client connection. */
  type Client = string

  /** How the middleware handled a frame it was given for one client. */
  datatype SendResult = Delivered | Queued | Shed | ClientGone

  type Byte = x: int | 0 <= x < 256

  const TWO16 := 0x1_0000
  const TWO32 := 0x1_0000_0000
  const TWO64 := 0x1_0000_0000_0000_0000

  type U64 = x: int | 0 <= x < TWO64

  /** C++ unsigned 64-bit addition and subtraction, with their wrap-around. */
  function Add64(a: U64, b: U64): U64 { if a + b < TWO64 then a + b else a + b - TWO64 }

  function Sub64(a: U64, b: U64): U64 { if a >= b then a - b else a - b + TWO64 }

  predicate NoDuplicates<T(==)>(s: seq<T>) {
    forall i, j | 0 <= i < j < |s| :: s[i] != s[j]
  }

  /** `order` lists every element of `elements` exactly once. */
  predicate Enumerates<T(==)>(order: seq<T>, elements: set<T>) {
    && NoDuplicates(order)
    && (forall x | x in order :: x in elements)
    && (forall x | x in elements :: x in order)
  }

  lemma EnumeratesConcat<T>(a: seq<T>, left: set<T>, b: seq<T>, right: set<T>)
    requires Enumerates(a, left) && Enumerates(b, right) && left !! right
    ensures Enumerates(a + b, left + right)
  {
    forall i, j | 0 <= i < j < |a + b|
      ensures (a + b)[i] != (a + b)[j]
    {
      assert i < |a| ==> a[i] in a;
      assert j >= |a| ==> b[j - |a|] in b;
    }
  }

  lemma EnumeratesFront<T>(s: seq<T>, elements: set<T>)
    requires s != [] && Enumerates(s, elements)
    ensures Enumerates(s[..|s| - 1], elements - {s[|s| - 1]})
    ensures s[|s| - 1] in elements
  {
    var front, last := s[..|s| - 1], s[|s| - 1];
    assert s == front + [last] && last in s;
    forall x | x in elements - {last}
      ensures x in front
    {
      assert x in s;
    }
  }

  /** `a` can be obtained from `b` by deleting elements. */
  predicate Subsequence<T(==)>(a: seq<T>, b: seq<T>) {
    if a == [] then true
    else if b == [] then false
    else if a[|a| - 1] == b[|b| - 1] then Subsequence(a[..|a| - 1], b[..|b| - 1])
    else Subsequence(a, b[..|b| - 1])
  }

  lemma SubsequenceSkip<T>(a: seq<T>, b: seq<T>, x: T)
    requires Subsequence(a, b)
    ensures Subsequence(a, b + [x])
    decreases |b|, 1
  {
    assert (b + [x])[..|b|] == b;
    if a != [] && a[|a| - 1] == x {
      SubsequenceDropLast(a, b);
    }
  }

  lemma {:induction false} SubsequenceDropLast<T>(a: seq<T>, b: seq<T>)
    requires a != [] && Subsequence(a, b)
    ensures Subsequence(a[..|a| - 1], b)
    decreases |b|, 0
  {
    var a' := a[..|a| - 1];
    if a[|a| - 1] == b[|b| - 1] {
      SubsequenceSkip(a', b[..|b| - 1], b[|b| - 1]);
      assert b[..|b| - 1] + [b[|b| - 1]] == b;
    } else {
      SubsequenceDropLast(a, b[..|b| - 1]);
      SubsequenceSkip(a', b[..|b| - 1], b[|b| - 1]);
      assert b[..|b| - 1] + [b[|b| - 1]] == b;
    }
  }

  lemma SubsequenceExtend<T>(a: seq<T>, b: seq<T>, x: T)
    requires Subsequence(a, b)
    ensures Subsequence(a + [x], b + [x])
  {
    assert (a + [x])[..|a|] == a && (b + [x])[..|b|] == b;
  }

  /** Deleting a block from a subsequence leaves a subsequence. */
  lemma {:induction false} SubsequenceCut<T>(p: seq<T>, m: seq<T>, q: seq<T>, b: seq<T>)
    requires Subsequence(p + m + q, b)
    ensures Subsequence(p + q, b)
    decreases |q| + |m| + |b|
  {
    var a := p + m + q;
    if m == [] {
      assert p + m + q == p + q;
    } else if q == [] {
      SubsequenceDropLast(a, b);
      assert a[..|a| - 1] == p + m[..|m| - 1] + q;
      SubsequenceCut(p, m[..|m| - 1], q, b);
    } else {
      var b' := b[..|b| - 1];
      if a[|a| - 1] == b[|b| - 1] {
        assert a[..|a| - 1] == p + m + q[..|q| - 1];
        SubsequenceCut(p, m, q[..|q| - 1], b');
        assert (p + q)[..|p + q| - 1] == p + q[..|q| - 1];
      } else {
        SubsequenceCut(p, m, q, b');
      }
    }
  }

  /** Every element of a subsequence stems from the whole sequence. */
  lemma {:induction false} SubsequenceMembers<T>(a: seq<T>, b: seq<T>)
    requires Subsequence(a, b)
    ensures |a| <= |b|
    ensures forall x | x in a :: x in b
  {
    if a != [] {
      if a[|a| - 1] == b[|b| - 1] {
        SubsequenceMembers(a[..|a| - 1], b[..|b| - 1]);
        assert a == a[..|a| - 1] + [a[|a| - 1]];
      } else {
        SubsequenceMembers(a, b[..|b| - 1]);
      }
    }
  }

  /** A subsequence lies at increasing positions of the whole sequence. */
  lemma {:induction false} SubsequencePositions<T>(a: seq<T>, b: seq<T>) returns (at: seq<nat>)
    requires Subsequence(a, b)
    ensures |at| == |a| && forall i, j | 0 <= i < j < |at| :: at[i] < at[j]
    ensures forall i | 0 <= i < |a| :: at[i] < |b| && b[at[i]] == a[i]
  {
    if a == [] {
      at := [];
    } else if a[|a| - 1] == b[|b| - 1] {
      at := SubsequencePositions(a[..|a| - 1], b[..|b| - 1]);
      at := at + [|b| - 1];
    } else {
      at := SubsequencePositions(a, b[..|b| - 1]);
    }
  }

  /** The total of a finite table of counters. */
  ghost function Total<K(!new)>(m: map<K, nat>): nat
    decreases |m.Keys|
  {
    if m == map[] then 0
    else
      assert m.Keys != {};
      var k :| k in m;
      assert (m - {k}).Keys < m.Keys;
      m[k] + Total(m - {k})
  }

  /** The total does not depend on the order in which entries are taken. */
  lemma {:induction false} TotalSplit<K(!new)>(m: map<K, nat>, k: K)
    requires k in m
    ensures Total(m) == m[k] + Total(m - {k})
    decreases |m.Keys|
  {
    var j :| j in m && Total(m) == m[j] + Total(m - {j});
    if j != k {
      assert (m - {j}).Keys < m.Keys;
      assert (m - {k}).Keys < m.Keys;
      TotalSplit(m - {j}, k);
      TotalSplit(m - {k}, j);
      assert m - {j} - {k} == m - {k} - {j};
    }
  }

  lemma TotalUpdate<K(!new)>(m: map<K, nat>, k: K, v: nat)
    ensures Total(m[k := v]) == Total(m) - (if k in m then m[k] else 0) + v
  {
    TotalSplit(m[k := v], k);
    assert m[k := v] - {k} == m - {k};
    if k in m {
      TotalSplit(m, k);
    } else {
      assert m - {k} == m;
    }
  }
}
