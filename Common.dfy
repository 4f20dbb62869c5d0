/** Small value types and sequence helpers shared by the attribution engine and the
    renderer's bounded buffers. */
module Common {

  /** A value that may be absent: JavaScript's `null` in the modelled code. */
  datatype Option<T> = None | Some(value: T)

  function Min(a: int, b: int): int
  {
    if a <= b then a else b
  }

  /** `s.substring(0, cap)`: the longest prefix of `s` with at most `cap` characters. */
  function Prefix(s: string, cap: nat): (r: string)
    ensures |r| == Min(|s|, cap)
    ensures r == s[..|r|]
  {
    if |s| <= cap then s else s[..cap]
  }

  /** The last `n` elements of `s` (all of `s` when it is shorter). */
  function LastN<T>(s: seq<T>, n: nat): seq<T>
  {
    s[|s| - Min(|s|, n)..]
  }

  /** `s.push(x); if (s.length > cap) s.shift();` on a value: append, then drop the
      oldest element once if the buffer has grown past its capacity. */
  function PushBounded<T>(s: seq<T>, x: T, cap: nat): (r: seq<T>)
    ensures |s| <= cap ==> |r| == Min(|s| + 1, cap)
    ensures |s| < cap ==> r == s + [x]
    ensures |s| == cap > 0 ==> r == s[1..] + [x]
    ensures cap > 0 && |s| <= cap ==> r != [] && r[|r| - 1] == x
  {
    var t := s + [x];
    if |t| > cap then t[1..] else t
  }

  /** A buffer that holds the last `cap` elements of everything ever pushed still holds
      exactly that after one more push: the push/shift pair is a sliding window. */
  lemma PushBoundedKeepsWindow<T>(all: seq<T>, x: T, cap: nat)
    requires cap > 0
    ensures PushBounded(LastN(all, cap), x, cap) == LastN(all + [x], cap)
  {
    var w := LastN(all, cap);
    var t := all + [x];
    if |all| < cap {
      assert w == all;
    } else {
      assert |w| == cap;
      assert w[1..] + [x] == t[|t| - cap..];
    }
  }
}
