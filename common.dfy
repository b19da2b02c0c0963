// Small value types and sequence helpers shared by every module of the model.
module Common {

  datatype Option<T> = None | Some(value: T)

  /** The 2D integer size of Qt's QSize. */
  datatype Size = Size(width: int, height: int)

  /** The 2D integer point of Qt's QPoint. */
  datatype Point = Point(x: int, y: int)

  /** Qt's QRect as a top-left corner and a size. */
  datatype Rect = Rect(topLeft: Point, size: Size)

  /** Qt's QVector::removeOne: drops the first element equal to x, if any. */
  function RemoveOne<T(==)>(s: seq<T>, x: T): (r: seq<T>)
    ensures |r| == if x in s then |s| - 1 else |s|
    ensures x !in s ==> r == s
  {
    if s == [] then []
    else if s[0] == x then s[1..]
    else [s[0]] + RemoveOne(s[1..], x)
  }

  lemma {:induction false} RemoveOneMultiset<T>(s: seq<T>, x: T)
    ensures multiset(RemoveOne(s, x)) == multiset(s) - multiset{x}
  {
    if s != [] {
      assert s == [s[0]] + s[1..];
      if s[0] != x {
        RemoveOneMultiset(s[1..], x);
      }
    }
  }

  /** No element occurs twice. */
  predicate NoDup<T(==)>(s: seq<T>)
  {
    forall i, j :: 0 <= i < j < |s| ==> s[i] != s[j]
  }

  lemma NoDupCons<T>(x: T, s: seq<T>)
    requires NoDup(s) && x !in s
    ensures NoDup([x] + s)
  {
    var a := [x] + s;
    forall i, j | 0 <= i < j < |a| ensures a[i] != a[j] {
      assert a[j] == s[j - 1];
      if i > 0 {
        assert a[i] == s[i - 1];
      }
    }
  }

  lemma NoDupSnoc<T>(s: seq<T>, x: T)
    requires NoDup(s) && x !in s
    ensures NoDup(s + [x])
  {
    var a := s + [x];
    forall i, j | 0 <= i < j < |a| ensures a[i] != a[j] {
      assert a[i] == s[i];
    }
  }

  lemma {:induction false} NoDupCount<T>(b: seq<T>, x: T)
    requires NoDup(b)
    ensures multiset(b)[x] <= 1
  {
    if b != [] {
      assert b == [b[0]] + b[1..];
      assert NoDup(b[1..]);
      NoDupCount(b[1..], x);
      if b[0] == x {
        assert x !in b[1..];
      }
    }
  }

  /** A sequence whose elements all occur in a duplicate-free one, no more often, has no duplicates. */
  lemma MultisetNoDup<T>(a: seq<T>, b: seq<T>)
    requires multiset(a) <= multiset(b)
    requires NoDup(b)
    ensures NoDup(a)
  {
    forall i, j | 0 <= i < j < |a| ensures a[i] != a[j] {
      if a[i] == a[j] {
        var x := a[i];
        assert a == a[..i] + [x] + a[i+1..j] + [x] + a[j+1..];
        assert multiset(a)[x] >= 2;
        NoDupCount(b, x);
      }
    }
  }

  /** A sequence in which nothing occurs twice has no duplicates. */
  lemma CountsNoDup<T>(a: seq<T>)
    requires forall x :: multiset(a)[x] <= 1
    ensures NoDup(a)
  {
    forall i, j | 0 <= i < j < |a| ensures a[i] != a[j] {
      assert a == a[..i] + [a[i]] + a[i+1..j] + [a[j]] + a[j+1..];
      assert multiset(a)[a[i]] >= 1 + (if a[j] == a[i] then 1 else 0);
    }
  }

  lemma RemoveOneGone<T>(s: seq<T>, x: T)
    requires NoDup(s)
    ensures x !in RemoveOne(s, x)
    ensures NoDup(RemoveOne(s, x))
    ensures forall y :: y in s && y != x ==> y in RemoveOne(s, x)
  {
    var r := RemoveOne(s, x);
    RemoveOneMultiset(s, x);
    NoDupCount(s, x);
    assert multiset(r)[x] == 0;
    MultisetNoDup(r, s);
    forall y | y in s && y != x ensures y in r {
      assert multiset(r)[y] == multiset(s)[y];
    }
  }

  /** 2 to the power i: the value of flag bit i. */
  function Pow2(i: nat): (r: nat)
    ensures r >= 1
  {
    if i == 0 then 1 else 2 * Pow2(i - 1)
  }

  function Min(a: int, b: int): int { if a <= b then a else b }

  /** Concatenation is associative; called where the solver would otherwise search for the regrouping. */
  lemma SeqAssoc<T>(a: seq<T>, b: seq<T>, c: seq<T>)
    ensures a + (b + c) == (a + b) + c
  {
  }
}
