/** Shared vocabulary: optional values and the retained suffix of a log. */
module Common {
  datatype Option<+T> = None | Some(value: T)

  datatype Result<+T, +E> = Ok(value: T) | Err(error: E)

  /** The last n elements of s, or all of s when it is shorter. */
  function LastN<T>(s: seq<T>, n: nat): seq<T> {
    if |s| <= n then s else s[|s| - n..]
  }

  function Min(a: int, b: int): int {
    if a <= b then a else b
  }

  /** The elements of s that satisfy p, in order. */
  function Filter<T>(s: seq<T>, p: T -> bool): seq<T> {
    if s == [] then []
    else (if p(s[0]) then [s[0]] else []) + Filter(s[1..], p)
  }

  lemma Assoc<T>(a: seq<T>, b: seq<T>, c: seq<T>)
    ensures a + (b + c) == (a + b) + c
  {
  }

  lemma ConsAppend<T>(a: seq<T>, b: seq<T>)
    requires a != []
    ensures (a + b)[0] == a[0] && (a + b)[1..] == a[1..] + b
  {
  }

  lemma {:induction false} FilterAppend<T>(s: seq<T>, t: seq<T>, p: T -> bool)
    ensures Filter(s + t, p) == Filter(s, p) + Filter(t, p)
  {
    if s == [] {
      assert s + t == t;
    } else {
      FilterAppend(s[1..], t, p);
      ConsAppend(s, t);
      Assoc(if p(s[0]) then [s[0]] else [], Filter(s[1..], p), Filter(t, p));
    }
  }

  lemma {:induction false} FilterMember<T>(s: seq<T>, p: T -> bool, x: T)
    ensures x in Filter(s, p) <==> x in s && p(x)
  {
    if s != [] {
      FilterMember(s[1..], p, x);
      assert s == [s[0]] + s[1..];
    }
  }

  lemma {:induction false} FilterAll<T>(s: seq<T>, p: T -> bool)
    requires forall x | x in s :: p(x)
    ensures Filter(s, p) == s
  {
    if s != [] {
      FilterAll(s[1..], p);
    }
  }

  lemma {:induction false} FilterNone<T>(s: seq<T>, p: T -> bool)
    requires forall x | x in s :: !p(x)
    ensures Filter(s, p) == []
  {
    if s != [] {
      FilterNone(s[1..], p);
    }
  }

  lemma {:induction false} FilterSame<T>(s: seq<T>, p: T -> bool, q: T -> bool)
    requires forall x | x in s :: p(x) == q(x)
    ensures Filter(s, p) == Filter(s, q)
  {
    if s != [] {
      FilterSame(s[1..], p, q);
    }
  }

  lemma {:induction false} FilterFilter<T>(s: seq<T>, p: T -> bool, q: T -> bool, both: T -> bool)
    requires forall x | x in s :: both(x) == (p(x) && q(x))
    ensures Filter(Filter(s, p), q) == Filter(s, both)
  {
    if s != [] {
      FilterFilter(s[1..], p, q, both);
      var rest := Filter(s[1..], p);
      if p(s[0]) {
        assert Filter(s, p)[0] == s[0] && Filter(s, p)[1..] == rest;
      } else {
        assert Filter(s, p) == rest;
        assert Filter(s, both) == Filter(s[1..], both);
      }
    }
  }
}
