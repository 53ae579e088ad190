/** Small value types and the Python idioms that several components share. */
module Common {

  datatype Option<+T> = None | Some(value: T)

  /** A Python dictionary read with `d.get(k, default)`. */
  function GetOr<K, V>(m: map<K, V>, k: K, default: V): V {
    if k in m then m[k] else default
  }

  /** The Python slice `s[:k]`: a negative `k` counts from the end. */
  function Take<T>(s: seq<T>, k: int): (r: seq<T>)
    ensures r <= s
    ensures 0 <= k <= |s| ==> |r| == k
    ensures k > |s| ==> r == s
    ensures k < 0 ==> |r| == Monus(|s|, -k)
  {
    if k >= 0 then
      if k <= |s| then s[..k] else s
    else if |s| + k >= 0 then s[..|s| + k] else []
  }

  function Monus(a: nat, b: nat): nat {
    if a >= b then a - b else 0
  }

  function Min(a: nat, b: nat): nat {
    if a <= b then a else b
  }

  /** How many of the first `n` numbers `p` holds of. */
  ghost function Count(p: nat -> bool, n: nat): nat {
    if n == 0 then 0 else if p(n - 1) then Count(p, n - 1) + 1 else Count(p, n - 1)
  }

  /** `s` has one entry for each `i` below `n` with `p(i)`, in their order, and `entry(i, x)` says which. */
  ghost predicate Selects<T(!new)>(s: seq<T>, p: nat -> bool, n: nat, entry: (nat, T) -> bool) {
    && |s| == Count(p, n)
    && forall i :: 0 <= i < n && p(i) ==> Count(p, i) < |s| && entry(i, s[Count(p, i)])
  }

  lemma {:induction false} SelectsNext<T(!new)>(s: seq<T>, p: nat -> bool, n: nat, entry: (nat, T) -> bool, s': seq<T>)
    requires Selects(s, p, n, entry)
    requires if p(n) then exists x :: entry(n, x) && s' == s + [x] else s' == s
    ensures Selects(s', p, n + 1, entry)
  {
    if p(n) {
      var x :| entry(n, x) && s' == s + [x];
      forall i | 0 <= i < n + 1 && p(i) ensures Count(p, i) < |s'| && entry(i, s'[Count(p, i)]) {
        if i < n {
          assert s'[Count(p, i)] == s[Count(p, i)];
        }
      }
    }
  }

  lemma {:induction false} SubsetSize<T>(a: set<T>, b: set<T>)
    requires a <= b
    ensures |a| <= |b|
    decreases a
  {
    if a == {} {
    } else {
      var x :| x in a;
      SubsetSize(a - {x}, b - {x});
    }
  }
}
