/** Linear registers that take in a message byte by byte, over any state with an addition. */
module Registers {

  function Fold<T, D>(step: (T, D) -> T, c: T, data: seq<D>): T
    decreases |data|, c
  {
    if data == [] then c else Fold(step, step(c, data[0]), data[1..])
  }

  ghost predicate Linear<T(!new)>(f: T -> T, plus: (T, T) -> T) {
    forall a, b :: f(plus(a, b)) == plus(f(a), f(b))
  }

  ghost predicate Injective<T(!new)>(f: T -> T) {
    forall a, b :: f(a) == f(b) ==> a == b
  }

  function Eight<T>(f: T -> T, c: T): T {
    f(f(f(f(f(f(f(f(c))))))))
  }

  lemma EightLinear<T(!new)>(f: T -> T, g: T -> T, plus: (T, T) -> T)
    requires Linear(f, plus) && forall c :: g(c) == Eight(f, c)
    ensures Linear(g, plus)
  {
  }

  lemma EightInjective<T(!new)>(f: T -> T, g: T -> T)
    requires Injective(f) && forall c :: g(c) == Eight(f, c)
    ensures Injective(g)
  {
  }

  // ---- messages ----

  lemma {:induction false} FoldConcat<T(!new), D(!new)>(step: (T, D) -> T, c: T, a: seq<D>, b: seq<D>)
    ensures Fold(step, c, a + b) == Fold(step, Fold(step, c, a), b)
    decreases |a|
  {
    if a == [] {
      assert a + b == b;
    } else {
      assert (a + b)[1..] == a[1..] + b;
      FoldConcat(step, step(c, a[0]), a[1..], b);
    }
  }

  lemma FoldNext<T(!new), D(!new)>(step: (T, D) -> T, c: T, data: seq<D>, i: nat)
    requires i < |data|
    ensures Fold(step, c, data[i..]) == Fold(step, step(c, data[i]), data[i + 1..])
  {
    assert data[i..][0] == data[i] && data[i..][1..] == data[i + 1..];
  }

  /** Undoing the final inversion before the next part makes the parts one message. */
  lemma FoldResumes<T(!new), D(!new)>(step: (T, D) -> T, flip: T -> T, c: T, a: seq<D>, b: seq<D>)
    requires forall x :: flip(flip(x)) == x
    ensures flip(Fold(step, flip(flip(Fold(step, flip(c), a))), b)) == flip(Fold(step, flip(c), a + b))
  {
    FoldConcat(step, flip(c), a, b);
  }

  ghost predicate InjectiveSteps<T(!new), D(!new)>(step: (T, D) -> T) {
    forall a, b, d :: step(a, d) == step(b, d) ==> a == b
  }

  lemma {:induction false} FoldInjective<T(!new), D(!new)>(step: (T, D) -> T, a: T, b: T, data: seq<D>)
    requires InjectiveSteps(step) && Fold(step, a, data) == Fold(step, b, data)
    ensures a == b
    decreases |data|
  {
    if data != [] { FoldInjective(step, step(a, data[0]), step(b, data[0]), data[1..]); }
  }

  /** Steps that agree everywhere fold alike. */
  lemma {:induction false} FoldSame<T(!new), D(!new)>(s1: (T, D) -> T, s2: (T, D) -> T, c: T, data: seq<D>)
    requires forall a, d :: s1(a, d) == s2(a, d)
    ensures Fold(s1, c, data) == Fold(s2, c, data)
    decreases |data|
  {
    if data != [] { FoldSame(s1, s2, s1(c, data[0]), data[1..]); }
  }

  // ---- bits entering one by one ----

  /** The first n bits of b enter one at a time; `rest` drops the bit that has entered. */
  function Feed<T>(enter: (T, T) -> T, rest: T -> T, c: T, b: T, n: nat): T
    decreases n, c
  {
    if n == 0 then c else Feed(enter, rest, enter(c, b), rest(b), n - 1)
  }

  function Iterate<T>(f: T -> T, c: T, n: nat): T
    decreases n, c
  {
    if n == 0 then c else Iterate(f, f(c), n - 1)
  }

  lemma IterateEight<T(!new)>(f: T -> T, c: T)
    ensures Iterate(f, c, 8) == Eight(f, c)
  {
    var c2 := f(f(c));
    var c4 := f(f(c2));
    var c6 := f(f(c4));
    assert Iterate(f, f(c6), 1) == f(f(c6));
    assert Iterate(f, c6, 2) == Eight(f, c);
    assert Iterate(f, c4, 4) == Iterate(f, c6, 2);
    assert Iterate(f, c2, 6) == Iterate(f, c4, 4);
    assert Iterate(f, c, 8) == Iterate(f, c2, 6);
  }

  ghost predicate Enters<T(!new)>(f: T -> T, plus: (T, T) -> T, enter: (T, T) -> T, rest: T -> T) {
    forall x, y :: f(plus(x, y)) == plus(enter(x, y), rest(y))
  }

  ghost predicate Neutral<T(!new)>(plus: (T, T) -> T, zero: T) {
    forall x :: plus(x, zero) == x
  }

  /** Adding the whole message first and then stepping is the same as letting it enter bit by bit. */
  lemma {:induction false} FeedIsIterate<T(!new)>(f: T -> T, plus: (T, T) -> T, enter: (T, T) -> T, rest: T -> T, c: T, b: T, n: nat)
    requires Enters(f, plus, enter, rest)
    ensures Iterate(f, plus(c, b), n) == plus(Feed(enter, rest, c, b, n), Iterate(rest, b, n))
    decreases n
  {
    if n > 0 { FeedIsIterate(f, plus, enter, rest, enter(c, b), rest(b), n - 1); }
  }

  lemma FeedEight<T(!new)>(f: T -> T, plus: (T, T) -> T, enter: (T, T) -> T, rest: T -> T, c: T, b: T, gone: T)
    requires Enters(f, plus, enter, rest)
    requires Eight(rest, b) == gone && Neutral(plus, gone)
    ensures Eight(f, plus(c, b)) == Feed(enter, rest, c, b, 8)
  {
    FeedIsIterate(f, plus, enter, rest, c, b, 8);
    IterateEight(f, plus(c, b));
    IterateEight(rest, b);
  }

  // ---- bytes ----

  /** Taking in a byte is adding it and stepping. */
  ghost predicate ByByte<T(!new), D(!new)>(step: (T, D) -> T, g: T -> T, plus: (T, T) -> T, at0: D -> T) {
    forall c, d :: step(c, d) == g(plus(c, at0(d)))
  }

  /** A byte placed by `at` is where `next` would place it after one step. */
  ghost predicate Placed<T(!new), D(!new)>(g: T -> T, at: D -> T, next: D -> T) {
    forall d :: g(at(d)) == next(d)
  }

  /** Looking up the low part and adding the moved high part is stepping the whole. */
  lemma TableDriven<T(!new), D(!new)>(step: (T, D) -> T, g: T -> T, plus: (T, T) -> T, at0: D -> T, low: T -> T, high: T -> T, down: T -> T)
    requires Linear(g, plus)
    requires forall x :: plus(low(x), high(x)) == x
    requires forall c, d :: g(high(plus(c, at0(d)))) == down(c)
    requires forall c, d :: step(c, d) == plus(g(low(plus(c, at0(d)))), down(c))
    ensures ByByte(step, g, plus, at0)
  {
    forall c, d ensures step(c, d) == g(plus(c, at0(d))) {
      var x := plus(c, at0(d));
      assert g(plus(low(x), high(x))) == plus(g(low(x)), g(high(x)));
    }
  }

  ghost predicate Cancels<T(!new)>(plus: (T, T) -> T) {
    forall c, x, y :: plus(c, x) == plus(c, y) || plus(x, c) == plus(y, c) ==> x == y
  }

  lemma StepsInjective<T(!new), D(!new)>(step: (T, D) -> T, g: T -> T, plus: (T, T) -> T, at0: D -> T)
    requires Injective(g) && Cancels(plus) && ByByte(step, g, plus, at0)
    ensures InjectiveSteps(step)
  {
    forall a, b, d | step(a, d) == step(b, d) ensures a == b {
      assert g(plus(a, at0(d))) == g(plus(b, at0(d)));
    }
  }

  function Four<T>(g: T -> T, c: T): T {
    g(g(g(g(c))))
  }

  lemma FourInjective<T(!new)>(g: T -> T, a: T, b: T)
    requires Injective(g)
    ensures Four(g, a) == Four(g, b) <==> a == b
  {
  }

  function Shifted<T, D>(plus: (T, T) -> T, at0: D -> T, at1: D -> T, at2: D -> T, at3: D -> T, c: T, w: seq<D>): T
    requires |w| == 4
  {
    plus(plus(plus(plus(c, at0(w[0])), at1(w[1])), at2(w[2])), at3(w[3]))
  }

  /** Four bytes at once. */
  lemma FoldWord<T(!new), D(!new)>(step: (T, D) -> T, g: T -> T, plus: (T, T) -> T, at0: D -> T, at1: D -> T, at2: D -> T, at3: D -> T, c: T, w: seq<D>)
    requires |w| == 4 && Linear(g, plus) && ByByte(step, g, plus, at0)
    requires Placed(g, at1, at0) && Placed(g, at2, at1) && Placed(g, at3, at2)
    ensures Fold(step, c, w) == Four(g, Shifted(plus, at0, at1, at2, at3, c, w))
  {
    FoldFour(step, c, w);
    var c0 := plus(c, at0(w[0]));
    var c1 := plus(c0, at1(w[1]));
    var c2 := plus(c1, at2(w[2]));
    assert step(c, w[0]) == g(c0);
    assert step(g(c0), w[1]) == g(g(c1));
    assert g(g(at2(w[2]))) == at0(w[2]);
    assert g(g(c2)) == plus(g(g(c1)), at0(w[2]));
    assert g(g(g(at3(w[3])))) == at0(w[3]);
    assert g(g(g(plus(c2, at3(w[3]))))) == plus(g(g(g(c2))), at0(w[3]));
  }

  lemma FoldFour<T(!new), D(!new)>(step: (T, D) -> T, c: T, w: seq<D>)
    requires |w| == 4
    ensures Fold(step, c, w) == step(step(step(step(c, w[0]), w[1]), w[2]), w[3])
  {
    var a, b, d := w[1..], w[2..], w[3..];
    assert a[1..] == b && b[1..] == d && d[1..] == [];
    assert Fold(step, step(step(step(c, w[0]), w[1]), w[2]), d) == step(step(step(step(c, w[0]), w[1]), w[2]), w[3]);
    assert Fold(step, step(step(c, w[0]), w[1]), b) == Fold(step, step(step(step(c, w[0]), w[1]), w[2]), d);
    assert Fold(step, step(c, w[0]), a) == Fold(step, step(step(c, w[0]), w[1]), b);
  }
}
