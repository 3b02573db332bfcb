/** Sets of modules closed under an acyclic dependency relation: what `validate`
    accepts, and how to get from one accepted set to another one switch at a
    time. For any such relation; the school's own modules are an instance. */
module Entitlements {

  /** Every member has what it requires. */
  ghost predicate Closed<T(!new)>(s: set<T>, requires_: T -> set<T>) {
    forall m :: m in s ==> requires_(m) <= s
  }

  /** `rank` shows that the relation has no cycle. */
  ghost predicate Acyclic<T(!new)>(requires_: T -> set<T>, rank: T -> nat) {
    forall m, n :: n in requires_(m) ==> rank(n) < rank(m)
  }

  lemma IntersectionClosed<T(!new)>(a: set<T>, b: set<T>, requires_: T -> set<T>)
    requires Closed(a, requires_) && Closed(b, requires_)
    ensures Closed(a * b, requires_)
  {
  }

  /** One enable or one disable. */
  ghost predicate OneSwitch<T(!new)>(s: set<T>, t: set<T>) {
    exists m :: (m !in s && t == s + {m}) || (m in s && t == s - {m})
  }

  /** A way from `a` to `b` in single switches through accepted sets only. */
  ghost predicate IsPath<T(!new)>(path: seq<set<T>>, a: set<T>, b: set<T>, requires_: T -> set<T>) {
    && path != [] && path[0] == a && path[|path|-1] == b
    && (forall i :: 0 <= i < |path| ==> Closed(path[i], requires_))
    && (forall i :: 0 <= i < |path| - 1 ==> OneSwitch(path[i], path[i + 1]))
  }

  lemma {:induction false} Highest<T(!new)>(s: set<T>, rank: T -> nat) returns (top: T)
    requires s != {}
    ensures top in s && forall m :: m in s ==> rank(m) <= rank(top)
  {
    top :| top in s;
    if s != {top} {
      var rest := Highest(s - {top}, rank);
      if rank(top) < rank(rest) { top := rest; }
    }
  }

  /** From a set down to an accepted subset: the member of highest rank outside
      the subset is required by nobody left. */
  lemma {:induction false} PathDown<T(!new)>(a: set<T>, c: set<T>, requires_: T -> set<T>, rank: T -> nat)
    returns (path: seq<set<T>>)
    requires Acyclic(requires_, rank) && Closed(a, requires_) && Closed(c, requires_) && c <= a
    ensures IsPath(path, a, c, requires_) && |path| == |a - c| + 1
    decreases |a - c|
  {
    if a - c == {} {
      assert a == c;
      path := [a];
    } else {
      var top := Highest(a - c, rank);
      var b := a - {top};
      forall m | m in b
        ensures requires_(m) <= b
      {
        assert m in c ==> requires_(m) <= c;
        assert m !in c ==> rank(m) <= rank(top);
        assert top !in requires_(m);
      }
      assert b - c == (a - c) - {top};
      var rest := PathDown(b, c, requires_, rank);
      path := [a] + rest;
      assert OneSwitch(a, b);
      PrependStep(a, rest, c, requires_);
    }
  }

  lemma PrependStep<T(!new)>(a: set<T>, rest: seq<set<T>>, c: set<T>, requires_: T -> set<T>)
    requires rest != [] && IsPath(rest, rest[0], c, requires_) && Closed(a, requires_) && OneSwitch(a, rest[0])
    ensures IsPath([a] + rest, a, c, requires_)
  {
    var path := [a] + rest;
    forall i | 0 <= i < |path| - 1
      ensures OneSwitch(path[i], path[i + 1])
    {
      if i > 0 { assert path[i] == rest[i - 1] && path[i + 1] == rest[i]; }
    }
  }

  lemma {:induction false} Reverse<T(!new)>(path: seq<set<T>>, a: set<T>, b: set<T>, requires_: T -> set<T>)
    returns (back: seq<set<T>>)
    requires IsPath(path, a, b, requires_)
    ensures IsPath(back, b, a, requires_) && |back| == |path|
    decreases |path|
  {
    if |path| == 1 {
      back := path;
    } else {
      var init, prev := path[..|path|-1], path[|path|-2];
      assert OneSwitch(prev, path[|path|-1]);
      forall i | 0 <= i < |init| - 1
        ensures OneSwitch(init[i], init[i + 1])
      {
        assert OneSwitch(path[i], path[i + 1]);
      }
      var tail := Reverse(init, a, prev, requires_);
      SwitchBack(prev, b);
      PrependStep(b, tail, a, requires_);
      back := [b] + tail;
    }
  }

  lemma SwitchBack<T(!new)>(s: set<T>, t: set<T>)
    requires OneSwitch(s, t)
    ensures OneSwitch(t, s)
  {
    var m :| (m !in s && t == s + {m}) || (m in s && t == s - {m});
    if m !in s {
      assert s == t - {m};
    } else {
      assert s == t + {m};
    }
  }

  lemma Concatenate<T(!new)>(p: seq<set<T>>, q: seq<set<T>>, a: set<T>, c: set<T>, b: set<T>, requires_: T -> set<T>)
    requires IsPath(p, a, c, requires_) && IsPath(q, c, b, requires_)
    ensures IsPath(p + q[1..], a, b, requires_)
  {
    var path := p + q[1..];
    forall i | 0 <= i < |path|
      ensures Closed(path[i], requires_)
    {
      assert i >= |p| ==> path[i] == q[i - |p| + 1];
    }
    forall i | 0 <= i < |path| - 1
      ensures OneSwitch(path[i], path[i + 1])
    {
      if i >= |p| - 1 {
        assert path[i] == q[i - |p| + 1] && path[i + 1] == q[i - |p| + 2];
      }
    }
  }

  /** No way is shorter than the number of modules two sets differ in. */
  lemma {:induction false} NoShorterPath<T(!new)>(path: seq<set<T>>, a: set<T>, b: set<T>, requires_: T -> set<T>)
    requires IsPath(path, a, b, requires_)
    ensures |path| >= |(a - b) + (b - a)| + 1
    decreases |path|
  {
    if |path| == 1 {
      assert (a - b) + (b - a) == {};
    } else {
      var next := path[1];
      assert OneSwitch(a, next);
      forall i | 0 <= i < |path[1..]| - 1
        ensures OneSwitch(path[1..][i], path[1..][i + 1])
      {
        assert OneSwitch(path[i + 1], path[i + 2]);
      }
      NoShorterPath(path[1..], next, b, requires_);
      var m :| (m !in a && next == a + {m}) || (m in a && next == a - {m});
      var here, there := (a - b) + (b - a), (next - b) + (b - next);
      assert here <= there + {m};
      assert there + {m} == here + ((there + {m}) - here);
    }
  }

  /** One-step re-selling: between any two accepted sets there is a way that
      switches each module they differ in exactly once, every set on the way
      being accepted; and none is shorter. */
  lemma OneStepReselling<T(!new)>(a: set<T>, b: set<T>, requires_: T -> set<T>, rank: T -> nat)
    returns (path: seq<set<T>>)
    requires Acyclic(requires_, rank) && Closed(a, requires_) && Closed(b, requires_)
    ensures IsPath(path, a, b, requires_) && |path| == |(a - b) + (b - a)| + 1
    ensures forall other :: IsPath(other, a, b, requires_) ==> |other| >= |path|
  {
    var c := a * b;
    IntersectionClosed(a, b, requires_);
    var down := PathDown(a, c, requires_, rank);
    var fromB := PathDown(b, c, requires_, rank);
    var up := Reverse(fromB, b, c, requires_);
    Concatenate(down, up, a, c, b, requires_);
    path := down + up[1..];
    assert a - c == a - b && b - c == b - a;
    assert |(a - b) + (b - a)| == |a - b| + |b - a|;
    forall other | IsPath(other, a, b, requires_)
      ensures |other| >= |path|
    {
      NoShorterPath(other, a, b, requires_);
    }
  }
}
