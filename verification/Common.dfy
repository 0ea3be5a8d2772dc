/** Small datatypes and sequence functions shared by the other modules. */
module Common {

  datatype Option<+T> = None | Some(value: T)

  function Min(a: int, b: int): int {
    if a < b then a else b
  }

  function Max(a: int, b: int): int {
    if a > b then a else b
  }

  /** How many of the first n elements satisfy f. */
  function CountBefore<T>(s: seq<T>, f: T -> bool, n: nat): nat
    requires n <= |s|
  {
    |set i | 0 <= i < n && f(s[i])|
  }

  lemma CountNext<T>(s: seq<T>, f: T -> bool, n: nat)
    requires n < |s|
    ensures CountBefore(s, f, n + 1) == CountBefore(s, f, n) + (if f(s[n]) then 1 else 0)
  {
    var before, then_ := set i | 0 <= i < n && f(s[i]), set i | 0 <= i < n + 1 && f(s[i]);
    assert then_ == if f(s[n]) then before + {n} else before;
  }

  lemma CountPrefix<T>(s: seq<T>, t: seq<T>, f: T -> bool, n: nat)
    requires n <= |s| && n <= |t| && s[..n] == t[..n]
    ensures CountBefore(s, f, n) == CountBefore(t, f, n)
  {
    assert forall i :: 0 <= i < n ==> s[i] == s[..n][i] == t[..n][i] == t[i];
    assert (set i | 0 <= i < n && f(s[i])) == (set i | 0 <= i < n && f(t[i]));
  }

  /** A later one has more before it. */
  lemma {:induction false} CountGrows<T>(s: seq<T>, f: T -> bool, m: nat, n: nat)
    requires m <= n <= |s|
    ensures CountBefore(s, f, m) <= CountBefore(s, f, n)
    ensures m < n && f(s[m]) ==> CountBefore(s, f, m) < CountBefore(s, f, n)
  {
    if m < n {
      CountNext(s, f, n - 1);
      CountGrows(s, f, m, n - 1);
    }
  }
}
