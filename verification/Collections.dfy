/** Facts about sequences and maps that Dafny has to be reminded of. */
module Collections {

  lemma Associative<T>(a: seq<T>, b: seq<T>, c: seq<T>)
    ensures a + (b + c) == a + b + c
  {
  }

  lemma Concatenated<T>(s: seq<T>)
    ensures [] + s == s
  {
  }

  lemma PrefixOfRest<T>(a: seq<T>, b: seq<T>, s: seq<T>)
    requires a <= s && b <= s[|a|..]
    ensures a + b <= s && s[|a|..][|b|..] == s[|a + b|..]
  {
  }

  lemma Uncons<T>(x: T, s: seq<T>)
    ensures ([x] + s)[0] == x && ([x] + s)[1..] == s
  {
  }

  /** The numbers below `n` in order. */
  function UpTo(n: nat): (r: seq<nat>)
    ensures |r| == n && forall i | 0 <= i < n :: r[i] == i
  {
    seq(n, i => i)
  }

  lemma SliceOfFirst<T>(a: seq<T>, b: seq<T>, i: nat, j: nat)
    requires i <= j <= |a|
    ensures (a + b)[i..j] == a[i..j]
  {
  }

  lemma SliceOfSecond<T>(a: seq<T>, b: seq<T>, i: nat, j: nat)
    requires |a| <= i <= j <= |a + b|
    ensures (a + b)[i..j] == b[i - |a|..j - |a|]
  {
  }
}
