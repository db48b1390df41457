/** Option and Result values shared by every module of the model. */
module Common {

  /** A value that may be absent: a missing dictionary key, an optional field, `null`. */
  datatype Option<+T> = None | Some(value: T) {
    function GetOr(default: T): T {
      match this
      case Some(v) => v
      case None => default
    }
  }

  /** The outcome of an operation that can raise: `Ok` on normal return, `Err` for the exception. */
  datatype Result<+T, +E> = Ok(value: T) | Err(error: E)

  function Min(a: int, b: int): (m: int)
    ensures m <= a && m <= b && (m == a || m == b)
  {
    if a <= b then a else b
  }

  /** The positions of `s` whose element satisfies `f`. */
  function Positions<T>(s: seq<T>, f: T -> bool): set<int> {
    set i | 0 <= i < |s| && f(s[i])
  }

  /** One more element adds its position exactly when it satisfies `f`. */
  lemma PositionsOfLonger<T>(s: seq<T>, f: T -> bool)
    requires |s| > 0
    ensures |Positions(s, f)| == |Positions(s[..|s| - 1], f)| + (if f(s[|s| - 1]) then 1 else 0)
  {
    var n := |s|;
    var before := Positions(s[..n - 1], f);
    var last: set<int> := if f(s[n - 1]) then {n - 1} else {};
    forall i | i in Positions(s, f)
      ensures i in before + last
    {
      if i < n - 1 {
        assert s[..n - 1][i] == s[i];
      }
    }
    assert Positions(s, f) == before + last;
  }

  /** The elements of `[x] + s` after the first are those of `s`. */
  lemma SingletonConcatIndex<T>(x: T, s: seq<T>)
    ensures |[x] + s| == |s| + 1 && ([x] + s)[0] == x
    ensures forall k :: 1 <= k < |s| + 1 ==> ([x] + s)[k] == s[k - 1]
  {
  }

  /** Concatenation is associative (stated once so that loop proofs need not rederive it). */
  lemma ConcatAssociative<T>(a: seq<T>, b: seq<T>, c: seq<T>)
    ensures (a + b) + c == a + (b + c)
  {
  }
}
