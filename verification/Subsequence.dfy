/** One list inside another, in the same order. */
module Subsequence {
  predicate Sub<T(==)>(a: seq<T>, b: seq<T>)
    decreases |b|
  {
    if a == [] then true
    else if b == [] then false
    else if a[|a| - 1] == b[|b| - 1] && Sub(a[..|a| - 1], b[..|b| - 1]) then true
    else Sub(a, b[..|b| - 1])
  }

  lemma {:induction false} SubOfItself<T>(a: seq<T>)
    ensures Sub(a, a)
  {
    if a != [] {
      SubOfItself(a[..|a| - 1]);
    }
  }

  lemma {:induction false} SubOfMore<T>(a: seq<T>, b: seq<T>, c: seq<T>)
    requires Sub(a, b)
    ensures Sub(a, b + c)
    decreases |c|
  {
    if c == [] {
      assert b + c == b;
    } else {
      assert (b + c)[..|b + c| - 1] == b + c[..|c| - 1];
      SubOfMore(a, b, c[..|c| - 1]);
    }
  }

  lemma {:induction false} SubOfBoth<T>(a: seq<T>, b: seq<T>, c: seq<T>)
    requires Sub(a, b)
    ensures Sub(a + c, b + c)
    decreases |c|
  {
    if c == [] {
      assert b + c == b && a + c == a;
    } else {
      assert (a + c)[..|a + c| - 1] == a + c[..|c| - 1];
      assert (b + c)[..|b + c| - 1] == b + c[..|c| - 1];
      SubOfBoth(a, b, c[..|c| - 1]);
    }
  }

  /** Each element of `a` with a place of its own in `b`, in order. */
  ghost predicate Positions<T>(at: seq<nat>, a: seq<T>, b: seq<T>) {
    && |at| == |a| && (forall i | 0 <= i < |a| :: at[i] < |b| && b[at[i]] == a[i])
    && forall i, j | 0 <= i < j < |a| :: at[i] < at[j]
  }

  ghost predicate HavePositions<T>(a: seq<T>, b: seq<T>) {
    exists at :: Positions(at, a, b)
  }

  lemma {:induction false} SubPicksPositions<T>(a: seq<T>, b: seq<T>) returns (at: seq<nat>)
    requires Sub(a, b)
    ensures Positions(at, a, b)
    decreases |b|
  {
    if a == [] {
      at := [];
    } else if a[|a| - 1] == b[|b| - 1] && Sub(a[..|a| - 1], b[..|b| - 1]) {
      at := SubPicksPositions(a[..|a| - 1], b[..|b| - 1]);
      at := at + [|b| - 1];
    } else {
      at := SubPicksPositions(a, b[..|b| - 1]);
    }
  }

  lemma {:induction false} SubMembers<T>(a: seq<T>, b: seq<T>)
    requires Sub(a, b)
    ensures multiset(a) <= multiset(b)
    decreases |b|
  {
    if a != [] {
      assert b == b[..|b| - 1] + [b[|b| - 1]];
      if a[|a| - 1] == b[|b| - 1] && Sub(a[..|a| - 1], b[..|b| - 1]) {
        assert a == a[..|a| - 1] + [a[|a| - 1]];
        SubMembers(a[..|a| - 1], b[..|b| - 1]);
      } else {
        SubMembers(a, b[..|b| - 1]);
      }
    }
  }

  lemma {:induction false} SubTransitive<T>(a: seq<T>, b: seq<T>, c: seq<T>)
    requires Sub(a, b) && Sub(b, c)
    ensures Sub(a, c)
    decreases |b| + |c|
  {
    if a != [] {
      if b[|b| - 1] == c[|c| - 1] && Sub(b[..|b| - 1], c[..|c| - 1]) {
        if a[|a| - 1] == b[|b| - 1] && Sub(a[..|a| - 1], b[..|b| - 1]) {
          SubTransitive(a[..|a| - 1], b[..|b| - 1], c[..|c| - 1]);
        } else {
          SubTransitive(a, b[..|b| - 1], c[..|c| - 1]);
        }
      } else {
        SubTransitive(a, b, c[..|c| - 1]);
      }
    }
  }

  lemma {:induction false} SubAfterHead<T>(a: seq<T>, b: seq<T>, x: T)
    requires Sub(a, b)
    ensures Sub(a, [x] + b) && Sub([x] + a, [x] + b)
    decreases |b|
  {
    if b == [] {
      assert [x] + a == [x] && [x][..0] == [];
    } else {
      var init := b[..|b| - 1];
      assert ([x] + b)[..|[x] + b| - 1] == [x] + init;
      if a != [] && a[|a| - 1] == b[|b| - 1] && Sub(a[..|a| - 1], init) {
        assert ([x] + a)[..|[x] + a| - 1] == [x] + a[..|a| - 1];
        SubAfterHead(a[..|a| - 1], init, x);
      } else {
        SubAfterHead(a, init, x);
      }
    }
  }
}
