/** Small vocabulary shared by every component of the model. */
module Prelude {

  datatype Option<+T> = None | Some(value: T)

  datatype Result<+T, +E> = Ok(value: T) | Err(error: E)

  type Byte = b: int | 0 <= b < 256

  const U64_MAX := 0xFFFF_FFFF_FFFF_FFFF

  lemma Associate<T>(a: seq<T>, b: seq<T>, c: seq<T>)
    ensures (a + b) + c == a + (b + c)
  {
  }

  /** All parts, one after another. */
  function Flatten<T>(parts: seq<seq<T>>): (r: seq<T>) {
    if parts == [] then [] else Flatten(parts[..|parts| - 1]) + parts[|parts| - 1]
  }

  lemma FlattenSnoc<T>(a: seq<seq<T>>, x: seq<T>)
    ensures Flatten(a + [x]) == Flatten(a) + x
  {
    assert (a + [x])[..|a + [x]| - 1] == a;
  }

  lemma {:induction false} FlattenConcat<T>(a: seq<seq<T>>, b: seq<seq<T>>)
    ensures Flatten(a + b) == Flatten(a) + Flatten(b)
    decreases |b|
  {
    if b == [] {
      assert a + b == a;
    } else {
      var front, last := b[..|b| - 1], b[|b| - 1];
      assert a + b == a + front + [last];
      FlattenSnoc(a + front, last);
      FlattenConcat(a, front);
    }
  }

  /** What f makes of each element, one after another. */
  function FlatMap<T, U>(f: T -> seq<U>, s: seq<T>): (r: seq<U>) {
    if s == [] then [] else FlatMap(f, s[..|s| - 1]) + f(s[|s| - 1])
  }

  lemma FlatMapSnoc<T, U>(f: T -> seq<U>, s: seq<T>, x: T)
    ensures FlatMap(f, s + [x]) == FlatMap(f, s) + f(x)
  {
    assert (s + [x])[..|s + [x]| - 1] == s;
  }

  lemma {:induction false} FlatMapConcat<T, U>(f: T -> seq<U>, a: seq<T>, b: seq<T>)
    ensures FlatMap(f, a + b) == FlatMap(f, a) + FlatMap(f, b)
    decreases |b|
  {
    if b == [] {
      assert a + b == a;
    } else {
      var front, last := b[..|b| - 1], b[|b| - 1];
      assert a + b == (a + front) + [last];
      FlatMapSnoc(f, a + front, last);
      FlatMapConcat(f, a, front);
      Associate(FlatMap(f, a), FlatMap(f, front), f(last));
    }
  }

  // ---------------------------------------------------------------------------------
  // Arrangements of the same elements
  // ---------------------------------------------------------------------------------

  lemma SameElements<T>(a: seq<T>, b: seq<T>, x: T)
    requires multiset(a) == multiset(b)
    ensures x in a <==> x in b
  {
    assert x in a <==> x in multiset(a);
    assert x in b <==> x in multiset(b);
  }

  lemma SameLength<T>(a: seq<T>, b: seq<T>)
    requires multiset(a) == multiset(b)
    ensures |a| == |b|
  {
    assert |a| == |multiset(a)| == |multiset(b)| == |b|;
  }

  /** The sequence without the element at k. */
  function Without<T>(s: seq<T>, k: nat): (r: seq<T>)
    requires k < |s|
    ensures |r| == |s| - 1
  {
    s[..k] + s[k + 1..]
  }

  lemma WithoutMultiset<T>(s: seq<T>, k: nat)
    requires k < |s|
    ensures multiset(Without(s, k)) + multiset{s[k]} == multiset(s)
  {
    var a, x, b := s[..k], s[k], s[k + 1..];
    assert s == (a + [x]) + b;
    assert multiset(s) == (multiset(a) + multiset{x}) + multiset(b);
    assert multiset(a + b) == multiset(a) + multiset(b);
    Exchanged(multiset(a), multiset{x}, multiset(b));
  }

  lemma Exchanged<T>(a: multiset<T>, x: multiset<T>, b: multiset<T>)
    ensures (a + b) + x == (a + x) + b
  {
  }

  lemma Cancelled<T>(a: multiset<T>, x: multiset<T>, b: multiset<T>)
    requires a + x == b + x
    ensures a == b
  {
    assert a == (a + x) - x;
    assert b == (b + x) - x;
  }

  lemma FindIn<T>(b: seq<T>, x: T) returns (k: nat)
    requires x in b
    ensures k < |b| && b[k] == x
  {
    k :| 0 <= k < |b| && b[k] == x;
  }

  /** Two arrangements of the same elements still match after losing one common element. */
  lemma MatchLast<T>(a: seq<T>, b: seq<T>) returns (k: nat)
    requires multiset(a) == multiset(b) && a != []
    ensures k < |b| && b[k] == a[|a| - 1]
    ensures multiset(a[..|a| - 1]) == multiset(Without(b, k))
  {
    var n := |a| - 1;
    SameElements(a, b, a[n]);
    k := FindIn(b, a[n]);
    WithoutMultiset(a, n);
    WithoutMultiset(b, k);
    assert Without(a, n) == a[..n];
    Cancelled(multiset(a[..n]), multiset{a[n]}, multiset(Without(b, k)));
  }

  /** Texts separated by a comma and a space. */
  function Join(texts: seq<string>): string {
    if texts == [] then "" else if |texts| == 1 then texts[0]
    else Join(texts[..|texts| - 1]) + ", " + texts[|texts| - 1]
  }
}
