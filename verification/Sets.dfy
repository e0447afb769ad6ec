/** Cardinalities of finite sets. */
module Sets {
  lemma SubsetSize<T>(a: set<T>, b: set<T>)
    requires a <= b
    ensures |a| <= |b|
  {
    assert |b| == |a| + |b - a| by {
      assert a + (b - a) == b;
    }
  }

  lemma UnionSize<T>(a: set<T>, b: set<T>)
    ensures |a + b| <= |a| + |b|
  {
    assert a + b == a + (b - a);
    assert |a + (b - a)| == |a| + |b - a|;
    SubsetSize(b - a, b);
  }

  function Image<S(!new), T(!new)>(s: set<S>, f: S -> T): set<T> {
    set x | x in s :: f(x)
  }

  /** An image is no larger than what it is the image of. */
  lemma {:induction false} ImageSize<S(!new), T(!new)>(s: set<S>, f: S -> T)
    ensures |Image(s, f)| <= |s|
  {
    if s != {} {
      var x :| x in s;
      ImageSize(s - {x}, f);
      assert Image(s, f) == Image(s - {x}, f) + {f(x)};
    }
  }

  /** A set mapped one to one keeps its size. */
  lemma {:induction false} InjectiveSize<S(!new), T(!new)>(s: set<S>, f: S -> T)
    requires forall x, y :: x in s && y in s && f(x) == f(y) ==> x == y
    ensures |Image(s, f)| == |s|
  {
    if s != {} {
      var x :| x in s;
      InjectiveSize(s - {x}, f);
      assert Image(s, f) == Image(s - {x}, f) + {f(x)};
      assert f(x) !in Image(s - {x}, f);
    }
  }
}
