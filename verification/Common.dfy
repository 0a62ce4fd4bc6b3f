/** Datatypes and small facts about finite sets that several models share. */
module Common {

  datatype Option<+T> = None | Some(value: T)

  datatype Result<+T> = Ok(value: T) | Malformed

  function Min(a: int, b: int): int { if a < b then a else b }

  function Max(a: int, b: int): int { if a < b then b else a }

  /** The last element of a non-empty sequence, and the sequence without it. */
  function Last<T>(s: seq<T>): T
    requires s != []
  {
    s[|s| - 1]
  }

  function Front<T>(s: seq<T>): seq<T>
    requires s != []
  {
    s[..|s| - 1]
  }

  lemma {:induction false} SubsetSize<T>(a: set<T>, b: set<T>)
    requires a <= b
    ensures |a| <= |b|
  {
    assert b == a + (b - a);
    assert |b| == |a| + |b - a|;
  }

  /** A one-to-one map from its keys into `target` bounds the number of keys. */
  lemma {:induction false} InjectionSize<A, B>(m: map<A, B>, target: set<B>)
    requires forall a | a in m :: m[a] in target
    requires forall a, b | a in m && b in m && m[a] == m[b] :: a == b
    ensures |m| <= |target|
    decreases m.Keys
  {
    if m != map[] {
      var a :| a in m;
      var rest := m - {a};
      assert m.Keys == rest.Keys + {a};
      InjectionSize(rest, target - {m[a]});
    }
  }

  function Repeat<T>(x: T, n: nat): seq<T> { seq(n, _ => x) }

  lemma RepeatMore<T>(front: seq<T>, x: T, n: nat)
    ensures front + Repeat(x, 0) == front
    ensures front + Repeat(x, n + 1) == front + Repeat(x, n) + [x]
  {
    assert Repeat(x, n + 1) == Repeat(x, n) + [x];
  }
}
