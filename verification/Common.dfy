/** Options, results and the sequence algebra the other modules share. */
module Common {

  datatype Option<+T> = None | Some(value: T)

  datatype Result<+T, +E> = Ok(value: T) | Err(error: E)

  /** A list consumed from the front, for trees whose nodes have any number of children. */
  datatype List<+T> = Nil | Cons(head: T, tail: List<T>)

  ghost predicate NoDup<T>(s: seq<T>) {
    forall i, j :: 0 <= i < j < |s| ==> s[i] != s[j]
  }

  function Flatten<T>(xss: seq<seq<T>>): (r: seq<T>) {
    if xss == [] then [] else xss[0] + Flatten(xss[1..])
  }

  lemma {:induction false} FlattenSnoc<T>(xss: seq<seq<T>>, xs: seq<T>)
    ensures Flatten(xss + [xs]) == Flatten(xss) + xs
  {
    if xss == [] {
      assert xss + [xs] == [xs];
      assert Flatten([xs]) == xs + Flatten([]);
    } else {
      assert (xss + [xs])[1..] == xss[1..] + [xs];
      FlattenSnoc(xss[1..], xs);
    }
  }

  lemma FlattenEmpty<T>()
    ensures Flatten<T>([]) == []
  {
  }

  lemma {:induction false} FlattenAppend<T>(a: seq<seq<T>>, b: seq<seq<T>>)
    ensures Flatten(a + b) == Flatten(a) + Flatten(b)
  {
    if a == [] {
      assert a + b == b;
    } else {
      assert (a + b)[1..] == a[1..] + b;
      FlattenAppend(a[1..], b);
    }
  }

  /** Bag-preserving union of what `f` makes of every element, in order. */
  ghost function FlatMap<A(!new), B>(xs: seq<A>, f: A -> seq<B>): (r: seq<B>)
  {
    if xs == [] then [] else f(xs[0]) + FlatMap(xs[1..], f)
  }

  lemma {:induction false} FlatMapMember<A(!new), B>(xs: seq<A>, f: A -> seq<B>, b: B)
    ensures b in FlatMap(xs, f) <==> exists a :: a in xs && b in f(a)
  {
    if xs != [] {
      FlatMapMember(xs[1..], f, b);
      assert forall a :: a in xs <==> a == xs[0] || a in xs[1..];
    }
  }

  /** Mapping in two stages is mapping once through both. */
  lemma {:induction false} FlatMapNested<A(!new), B(!new), C>(xs: seq<A>, f: A -> seq<B>, g: B -> seq<C>,
                                                              h: A -> seq<C>)
    requires forall a :: a in xs ==> h(a) == FlatMap(f(a), g)
    ensures FlatMap(FlatMap(xs, f), g) == FlatMap(xs, h)
  {
    if xs != [] {
      FlatMapNested(xs[1..], f, g, h);
      FlatMapAppend(f(xs[0]), FlatMap(xs[1..], f), g);
    }
  }

  lemma {:induction false} FlatMapAppend<A(!new), B>(xs: seq<A>, ys: seq<A>, f: A -> seq<B>)
    ensures FlatMap(xs + ys, f) == FlatMap(xs, f) + FlatMap(ys, f)
  {
    if xs == [] {
      assert xs + ys == ys;
    } else {
      assert (xs + ys)[1..] == xs[1..] + ys;
      FlatMapAppend(xs[1..], ys, f);
    }
  }

  lemma {:induction false} FlatMapNoDup<A(!new), B(!new)>(xs: seq<A>, f: A -> seq<B>)
    requires NoDup(xs)
    requires forall a :: a in xs ==> NoDup(f(a))
    requires forall a, a', b :: a in xs && a' in xs && b in f(a) && b in f(a') ==> a == a'
    ensures NoDup(FlatMap(xs, f))
  {
    if xs != [] {
      FlatMapNoDup(xs[1..], f);
      var h, t := f(xs[0]), FlatMap(xs[1..], f);
      forall b | b in h ensures b !in t {
        FlatMapMember(xs[1..], f, b);
        assert forall a :: a in xs[1..] ==> a in xs && a != xs[0];
      }
      NoDupAppend(h, t);
    }
  }

  lemma NoDupAppend<T>(a: seq<T>, b: seq<T>)
    requires NoDup(a) && NoDup(b)
    requires forall x :: x in a ==> x !in b
    ensures NoDup(a + b)
  {
    forall i, j | 0 <= i < j < |a + b| ensures (a + b)[i] != (a + b)[j] {
      if i < |a| <= j {
        assert (a + b)[i] in a && (a + b)[j] in b;
      }
    }
  }

  lemma {:induction false} SubsetSize<T>(a: set<T>, b: set<T>)
    requires a <= b
    ensures |a| <= |b|
    decreases |a|
  {
    if a != {} {
      var x :| x in a;
      SubsetSize(a - {x}, b - {x});
    }
  }

  function Upto(n: nat): (r: seq<nat>)
    ensures |r| == n && forall i :: 0 <= i < n ==> r[i] == i
  {
    seq(n, i => i)
  }

  // ---- text ----

  function Elements(s: seq<string>): set<string> {
    set x | x in s
  }

  /** Character order of texts. */
  predicate TextLess(a: string, b: string) {
    b != "" && (a == "" || a[0] < b[0] || (a[0] == b[0] && TextLess(a[1..], b[1..])))
  }

  predicate NoBar(s: string) {
    forall i :: 0 <= i < |s| ==> s[i] != '|'
  }

  predicate IdentStart(c: char) {
    c == '_' || 'a' <= c <= 'z' || 'A' <= c <= 'Z'
  }

  /** `[A-Za-z_][A-Za-z0-9_]*`. */
  predicate PlainIdent(s: string) {
    s != "" && IdentStart(s[0]) && forall i :: 0 < i < |s| ==> IdentStart(s[i]) || '0' <= s[i] <= '9'
  }

  /** Decimal rendering of a counter, as `format!("{n}")` prints it. */
  function Decimal(n: nat): (s: string)
    ensures s != [] && IsDigits(s)
  {
    if n < 10 then [Digit(n)] else Decimal(n / 10) + [Digit(n % 10)]
  }

  function Digit(d: nat): (c: char)
    requires d < 10
    ensures '0' <= c <= '9' && DigitValue(c) == d
  {
    '0' + d as char
  }

  function DigitValue(c: char): nat
    requires '0' <= c <= '9'
  {
    (c - '0') as nat
  }

  predicate IsDigits(s: string) {
    forall i :: 0 <= i < |s| ==> '0' <= s[i] <= '9'
  }

  function FromDecimal(s: string): nat
    requires IsDigits(s)
  {
    if s == [] then 0 else FromDecimal(s[..|s| - 1]) * 10 + DigitValue(s[|s| - 1])
  }

  /** A printed number reads back as itself, so printing is injective. */
  lemma {:induction false} DecimalRoundTrip(n: nat)
    ensures FromDecimal(Decimal(n)) == n
  {
    if n < 10 {
      assert Decimal(n)[..0] == [];
    } else {
      DecimalRoundTrip(n / 10);
      assert Decimal(n)[..|Decimal(n)| - 1] == Decimal(n / 10);
    }
  }
}

/** Names of the built-in schema (src/graph/builtins.rs). */
module Builtins {
  const SOURCE_LABEL := "Source"
  const CHUNK_LABEL := "Chunk"
  const MENTION_REL := "mention"
  const PART_OF_REL := "part_of"
}
