/**
 The three ways the request handlers walk a list: accumulate (FlatMap), last wins (LastSome) and
 first wins (FirstSome). Defined from the right, so that a left-to-right loop meets them one
 element at a time.
 */
module Folds {

  datatype Option<+T> = None | Some(value: T) {
    function GetOr(default: T): T
    {
      if Some? then value else default
    }

    function Or(other: Option<T>): Option<T>
    {
      if Some? then this else other
    }
  }

  function FlatMap<A, B>(f: A -> seq<B>, s: seq<A>): seq<B>
  {
    if s == [] then [] else FlatMap(f, s[..|s| - 1]) + f(s[|s| - 1])
  }

  function LastSome<A, B>(f: A -> Option<B>, s: seq<A>): Option<B>
  {
    if s == [] then None else f(s[|s| - 1]).Or(LastSome(f, s[..|s| - 1]))
  }

  function FirstSome<A, B>(f: A -> Option<B>, s: seq<A>): Option<B>
  {
    if s == [] then None else FirstSome(f, s[..|s| - 1]).Or(f(s[|s| - 1]))
  }

  function ToSeq<B>(o: Option<B>): seq<B>
  {
    if o.Some? then [o.value] else []
  }

  function HeadOf<B>(s: seq<B>): Option<B>
  {
    if s == [] then None else Some(s[0])
  }

  /** One more element: the step of every left-to-right loop. */
  lemma Snoc<A>(s: seq<A>, i: nat)
    requires i < |s|
    ensures s[..i + 1][..i] == s[..i] && s[..i + 1][i] == s[i] && |s[..i + 1]| == i + 1
  {
  }

  // ---------------------------------------------------------------- concatenation

  /** A fold that can be joined to what came before is taken over a concatenation part by part. */
  lemma {:induction false} FoldConcat<A, B>(f: seq<A> -> B, add: (B, A) -> B, join: (B, B) -> B, a: seq<A>, b: seq<A>)
    requires join(f(a), f([])) == f(a) && forall s, x :: f(s + [x]) == add(f(s), x)
    requires forall s, x :: add(join(f(a), f(s)), x) == join(f(a), add(f(s), x))
    ensures f(a + b) == join(f(a), f(b))
  {
    if b == [] {
      assert a + b == a;
    } else {
      var init, x := b[..|b| - 1], b[|b| - 1];
      FoldConcat(f, add, join, a, init);
      assert b == init + [x] && a + b == a + init + [x];
      assert f(init + [x]) == add(f(init), x);
      assert f(a + init + [x]) == add(f(a + init), x);
      assert add(join(f(a), f(init)), x) == join(f(a), add(f(init), x));
    }
  }

  lemma Associative<A>(a: seq<A>, b: seq<A>, c: seq<A>)
    ensures a + b + c == a + (b + c)
  {
  }

  lemma FlatMapSnoc<A, B>(f: A -> seq<B>, s: seq<A>, x: A)
    ensures FlatMap(f, s + [x]) == FlatMap(f, s) + f(x)
  {
    assert (s + [x])[..|s|] == s;
  }

  lemma FlatMapConcat<A, B>(f: A -> seq<B>, a: seq<A>, b: seq<A>)
    ensures FlatMap(f, a + b) == FlatMap(f, a) + FlatMap(f, b)
  {
    var fold := (s: seq<A>) => FlatMap(f, s);
    var add, join := (y: seq<B>, x: A) => y + f(x), (y: seq<B>, z: seq<B>) => y + z;
    forall s, x ensures fold(s + [x]) == add(fold(s), x) { FlatMapSnoc(f, s, x); }
    forall s, x ensures add(join(fold(a), fold(s)), x) == join(fold(a), add(fold(s), x))
    {
      Associative(fold(a), fold(s), f(x));
    }
    assert fold([]) == [] && fold(a) + [] == fold(a);
    FoldConcat(fold, add, join, a, b);
  }

  lemma LastSomeSnoc<A, B>(f: A -> Option<B>, s: seq<A>, x: A)
    ensures LastSome(f, s + [x]) == f(x).Or(LastSome(f, s))
  {
    assert (s + [x])[..|s|] == s;
  }

  lemma LastSomeConcat<A, B>(f: A -> Option<B>, a: seq<A>, b: seq<A>)
    ensures LastSome(f, a + b) == LastSome(f, b).Or(LastSome(f, a))
  {
    var fold := (s: seq<A>) => LastSome(f, s);
    var add, join := (y: Option<B>, x: A) => f(x).Or(y), (y: Option<B>, z: Option<B>) => z.Or(y);
    forall s, x ensures fold(s + [x]) == add(fold(s), x) { LastSomeSnoc(f, s, x); }
    FoldConcat(fold, add, join, a, b);
  }

  lemma FirstSomeSnoc<A, B>(f: A -> Option<B>, s: seq<A>, x: A)
    ensures FirstSome(f, s + [x]) == FirstSome(f, s).Or(f(x))
  {
    assert (s + [x])[..|s|] == s;
  }

  lemma FirstSomeConcat<A, B>(f: A -> Option<B>, a: seq<A>, b: seq<A>)
    ensures FirstSome(f, a + b) == FirstSome(f, a).Or(FirstSome(f, b))
  {
    var fold := (s: seq<A>) => FirstSome(f, s);
    var add, join := (y: Option<B>, x: A) => y.Or(f(x)), (y: Option<B>, z: Option<B>) => y.Or(z);
    forall s, x ensures fold(s + [x]) == add(fold(s), x) { FirstSomeSnoc(f, s, x); }
    FoldConcat(fold, add, join, a, b);
  }

  lemma FlatMapOne<A, B>(f: A -> seq<B>, x: A)
    ensures FlatMap(f, [x]) == f(x)
  {
    assert [x][..0] == [];
  }

  lemma LastSomeOne<A, B>(f: A -> Option<B>, x: A)
    ensures LastSome(f, [x]) == f(x)
  {
  }

  lemma FirstSomeOne<A, B>(f: A -> Option<B>, x: A)
    ensures FirstSome(f, [x]) == f(x)
  {
    assert [x][..0] == [];
  }

  lemma {:induction false} FlatMapNothing<A, B>(f: A -> seq<B>, s: seq<A>)
    requires forall i | 0 <= i < |s| :: f(s[i]) == []
    ensures FlatMap(f, s) == []
  {
    if s == [] {
    } else {
      FlatMapNothing(f, s[..|s| - 1]);
    }
  }

  lemma FlatMapTwo<A, B>(f: A -> seq<B>, x: A, y: A)
    ensures FlatMap(f, [x, y]) == f(x) + f(y)
  {
    assert [x, y] == [x] + [y];
    FlatMapConcat(f, [x], [y]);
    FlatMapOne(f, x);
    FlatMapOne(f, y);
  }

  lemma LastSomeTwo<A, B>(f: A -> Option<B>, x: A, y: A)
    ensures LastSome(f, [x, y]) == f(y).Or(f(x))
  {
    assert [x, y] == [x] + [y];
    LastSomeConcat(f, [x], [y]);
  }

  lemma FoldThree<A, B, C>(f: A -> Option<B>, g: A -> seq<C>, a: A, b: A, c: A)
    ensures LastSome(f, [a, b, c]) == f(c).Or(f(b).Or(f(a)))
    ensures FlatMap(g, [a, b, c]) == g(a) + g(b) + g(c)
  {
    assert [a, b, c] == [a, b] + [c];
    LastSomeConcat(f, [a, b], [c]);
    LastSomeTwo(f, a, b);
    LastSomeOne(f, c);
    FlatMapConcat(g, [a, b], [c]);
    FlatMapTwo(g, a, b);
    FlatMapOne(g, c);
  }

  // ---------------------------------------------------------------- fusion with a rewrite

  /** Reading a rewritten list is reading the original when every single rewrite preserves the reading. */
  lemma {:induction false} FlatMapAfter<A, B, C>(f: B -> seq<C>, g: A -> seq<B>, h: A -> seq<C>, s: seq<A>)
    requires forall x | x in s :: FlatMap(f, g(x)) == h(x)
    ensures FlatMap(f, FlatMap(g, s)) == FlatMap(h, s)
  {
    if s == [] {
    } else {
      FlatMapAfter(f, g, h, s[..|s| - 1]);
      FlatMapConcat(f, FlatMap(g, s[..|s| - 1]), g(s[|s| - 1]));
    }
  }

  lemma {:induction false} LastSomeAfter<A, B, C>(f: B -> Option<C>, g: A -> seq<B>, h: A -> Option<C>, s: seq<A>)
    requires forall x | x in s :: LastSome(f, g(x)) == h(x)
    ensures LastSome(f, FlatMap(g, s)) == LastSome(h, s)
  {
    if s == [] {
    } else {
      LastSomeAfter(f, g, h, s[..|s| - 1]);
      LastSomeConcat(f, FlatMap(g, s[..|s| - 1]), g(s[|s| - 1]));
    }
  }

  lemma {:induction false} FirstSomeAfter<A, B, C>(f: B -> Option<C>, g: A -> seq<B>, h: A -> Option<C>, s: seq<A>)
    requires forall x | x in s :: FirstSome(f, g(x)) == h(x)
    ensures FirstSome(f, FlatMap(g, s)) == FirstSome(h, s)
  {
    if s == [] {
    } else {
      FirstSomeAfter(f, g, h, s[..|s| - 1]);
      FirstSomeConcat(f, FlatMap(g, s[..|s| - 1]), g(s[|s| - 1]));
    }
  }

  /** The first hit is the head of the list of all hits. */
  lemma {:induction false} FirstIsHead<A, B>(first: A -> Option<B>, all: A -> seq<B>, s: seq<A>)
    requires forall x | x in s :: first(x) == HeadOf(all(x))
    ensures FirstSome(first, s) == HeadOf(FlatMap(all, s))
  {
    if s == [] {
    } else {
      FirstIsHead(first, all, s[..|s| - 1]);
    }
  }

  /** Lists related element by element are read alike. */
  lemma {:induction false} FlatMapPointwise<A, B>(f: A -> seq<B>, a: seq<A>, b: seq<A>)
    requires |a| == |b| && forall i | 0 <= i < |a| :: f(a[i]) == f(b[i])
    ensures FlatMap(f, a) == FlatMap(f, b)
  {
    if a == [] {
    } else {
      FlatMapPointwise(f, a[..|a| - 1], b[..|b| - 1]);
    }
  }

  lemma {:induction false} LastSomePointwise<A, B>(f: A -> Option<B>, a: seq<A>, b: seq<A>)
    requires |a| == |b| && forall i | 0 <= i < |a| :: f(a[i]) == f(b[i])
    ensures LastSome(f, a) == LastSome(f, b)
  {
    if a == [] {
    } else {
      LastSomePointwise(f, a[..|a| - 1], b[..|b| - 1]);
    }
  }

  /** If `f` yields `g`'s elements or fewer everywhere, the accumulated lists agree only if all parts do. */
  lemma {:induction false} FlatMapAgree<A, B>(f: A -> seq<B>, g: A -> seq<B>, s: seq<A>)
    requires forall x | x in s :: f(x) == g(x) || |f(x)| < |g(x)|
    ensures |FlatMap(f, s)| <= |FlatMap(g, s)|
    ensures FlatMap(f, s) == FlatMap(g, s) <==> forall x | x in s :: f(x) == g(x)
  {
    if s == [] {
    } else {
      var init, last := s[..|s| - 1], s[|s| - 1];
      FlatMapAgree(f, g, init);
      assert s == init + [last];
      if FlatMap(f, s) == FlatMap(g, s) {
        assert |f(last)| == |g(last)|;
        assert FlatMap(f, init) == FlatMap(f, s)[..|FlatMap(f, init)|] == FlatMap(g, init);
      }
    }
  }

  lemma {:induction false} FlatMapIdentity<A>(g: A -> seq<A>, s: seq<A>)
    requires forall i | 0 <= i < |s| :: g(s[i]) == [s[i]]
    ensures FlatMap(g, s) == s
  {
    if s == [] {
    } else {
      var init, last := s[..|s| - 1], s[|s| - 1];
      FlatMapIdentity(g, init);
      assert s == init + [last];
    }
  }

  /** A rewrite that leaves its own results alone. */
  lemma FlatMapFixed<A>(g: A -> seq<A>, s: seq<A>)
    requires forall x | x in s :: FlatMap(g, g(x)) == g(x)
    ensures FlatMap(g, FlatMap(g, s)) == FlatMap(g, s)
  {
    FlatMapAfter(g, g, g, s);
  }

  // ---------------------------------------------------------------- members

  lemma AtMostOne<A>(a: seq<A>, b: seq<A>)
    requires |a| <= 1 && |b| <= 1
    requires (a != [] ==> a[0] in b) && (b != [] ==> b[0] in a)
    ensures a == b
  {
  }

  lemma {:induction false} FlatMapMember<A, B>(f: A -> seq<B>, s: seq<A>, y: B) returns (x: A)
    requires y in FlatMap(f, s)
    ensures x in s && y in f(x)
  {
    if y in f(s[|s| - 1]) {
      x := s[|s| - 1];
    } else {
      x := FlatMapMember(f, s[..|s| - 1], y);
    }
  }

  lemma {:induction false} FlatMapSize<A, B>(f: A -> seq<B>, s: seq<A>)
    requires forall x | x in s :: |f(x)| <= 1
    ensures |FlatMap(f, s)| <= |s|
  {
    if s == [] {
    } else {
      FlatMapSize(f, s[..|s| - 1]);
    }
  }

  /** A hit comes from some element. */
  lemma {:induction false} LastSomeMember<A, B>(f: A -> Option<B>, s: seq<A>) returns (x: A)
    requires LastSome(f, s).Some?
    ensures x in s && f(x) == LastSome(f, s)
  {
    x := s[|s| - 1];
    if f(x).None? {
      x := LastSomeMember(f, s[..|s| - 1]);
    }
  }

  lemma {:induction false} FirstSomeMember<A, B>(f: A -> Option<B>, s: seq<A>) returns (x: A)
    requires FirstSome(f, s).Some?
    ensures x in s && f(x) == FirstSome(f, s)
  {
    if FirstSome(f, s[..|s| - 1]).Some? {
      x := FirstSomeMember(f, s[..|s| - 1]);
    } else {
      x := s[|s| - 1];
    }
  }

  /** The last hit is the one no later element replaces. */
  lemma {:induction false} LastSomeAt<A, B>(f: A -> Option<B>, s: seq<A>, i: nat)
    requires i < |s| && f(s[i]).Some? && forall j | i < j < |s| :: f(s[j]).None?
    ensures LastSome(f, s) == f(s[i])
  {
    if i == |s| - 1 {
    } else {
      LastSomeAt(f, s[..|s| - 1], i);
    }
  }

  lemma {:induction false} LastSomeNone<A, B>(f: A -> Option<B>, s: seq<A>)
    requires forall i | 0 <= i < |s| :: f(s[i]).None?
    ensures LastSome(f, s) == None
  {
    if s == [] {
    } else {
      LastSomeNone(f, s[..|s| - 1]);
    }
  }

  /** The first hit is the one no earlier element forestalls. */
  lemma {:induction false} FirstSomeAt<A, B>(f: A -> Option<B>, s: seq<A>, i: nat)
    requires i < |s| && f(s[i]).Some? && forall j | 0 <= j < i :: f(s[j]).None?
    ensures FirstSome(f, s) == f(s[i])
  {
    if i == |s| - 1 {
      FirstSomeNone(f, s[..|s| - 1]);
    } else {
      FirstSomeAt(f, s[..|s| - 1], i);
    }
  }

  lemma {:induction false} FirstSomeNone<A, B>(f: A -> Option<B>, s: seq<A>)
    requires forall i | 0 <= i < |s| :: f(s[i]).None?
    ensures FirstSome(f, s) == None
  {
    if s == [] {
    } else {
      FirstSomeNone(f, s[..|s| - 1]);
    }
  }

  /** When one element alone yields something, that is all there is. */
  lemma {:induction false} FlatMapAlone<A, B>(f: A -> seq<B>, s: seq<A>, i: nat)
    requires i < |s| && forall j | 0 <= j < |s| && j != i :: f(s[j]) == []
    ensures FlatMap(f, s) == f(s[i])
  {
    if i == |s| - 1 {
      FlatMapNothing(f, s[..|s| - 1]);
    } else {
      FlatMapAlone(f, s[..|s| - 1], i);
    }
  }

  /** When every element yields one thing, the list of them. */
  lemma {:induction false} FlatMapEach<A, B>(f: A -> seq<B>, s: seq<A>, each: seq<B>)
    requires |s| == |each| && forall i | 0 <= i < |s| :: f(s[i]) == [each[i]]
    ensures FlatMap(f, s) == each
  {
    if s == [] {
    } else {
      FlatMapEach(f, s[..|s| - 1], each[..|s| - 1]);
      assert each == each[..|s| - 1] + [each[|s| - 1]];
    }
  }

  /** Once a prefix has a hit, the first hit is settled. */
  lemma FirstSomePrefix<A, B>(f: A -> Option<B>, s: seq<A>, i: nat)
    requires i <= |s| && FirstSome(f, s[..i]).Some?
    ensures FirstSome(f, s) == FirstSome(f, s[..i])
  {
    FirstSomeConcat(f, s[..i], s[i..]);
    assert s == s[..i] + s[i..];
  }

  /** What every allowed step keeps holds after any number of them. */
  lemma {:induction false} HoldsAlong<A>(holds: seq<A> -> bool, allowed: A -> bool, start: seq<A>, more: seq<A>)
    requires holds(start) && forall s, x | holds(s) && allowed(x) :: holds(s + [x])
    requires forall i | 0 <= i < |more| :: allowed(more[i])
    ensures holds(start + more)
  {
    if more == [] {
      assert start + more == start;
    } else {
      var init, x := more[..|more| - 1], more[|more| - 1];
      HoldsAlong(holds, allowed, start, init);
      assert start + more == start + init + [x];
    }
  }

  /** Two folds that start alike and step alike are alike. */
  lemma {:induction false} FoldsAgree<A, S>(f: seq<A> -> S, g: seq<A> -> S, step: (S, A) -> S, s: seq<A>)
    requires f([]) == g([])
    requires (forall t, x :: f(t + [x]) == step(f(t), x)) && forall t, x :: g(t + [x]) == step(g(t), x)
    ensures f(s) == g(s)
  {
    if s == [] {
    } else {
      var init, x := s[..|s| - 1], s[|s| - 1];
      FoldsAgree(f, g, step, init);
      assert s == init + [x];
    }
  }
}
