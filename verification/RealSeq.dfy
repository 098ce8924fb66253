/** Sums and windows over sequences of reals, shared by the rolling statistics. */
module RealSeq {

  datatype Option<+T> = None | Some(value: T)

  function Abs(x: real): real { if x < 0.0 then -x else x }

  function Max(x: real, y: real): real { if x < y then y else x }

  function Min(x: real, y: real): real { if y < x then y else x }

  // ---------------------------------------------------------------------
  // Products and quotients, one step at a time
  // ---------------------------------------------------------------------

  function Divide(a: real, b: real): real
    requires b != 0.0
  {
    a / b
  }

  lemma DivideInverse(a: real, b: real)
    requires b != 0.0
    ensures Divide(a, b) * b == a
  {
  }

  lemma DivideMonotone(p: real, q: real, d: real)
    requires p <= q && d > 0.0
    ensures p / d <= q / d
  {
  }

  lemma ScaleMonotone(p: real, q: real, d: real)
    requires p <= q && d >= 0.0
    ensures p * d <= q * d
  {
  }

  lemma ScaleStrict(p: real, q: real, d: real)
    requires p < q && d > 0.0
    ensures p * d < q * d
  {
    var gap := q - p;
    assert gap * d > 0.0;
  }

  lemma ScaledCompare(p: real, q: real, n: real)
    requires n > 0.0
    ensures p >= q <==> p * n >= q * n
  {
    if p >= q {
      assert (p - q) * n >= 0.0;
    } else {
      assert (q - p) * n > 0.0;
    }
  }

  lemma SameSign(p: real, q: real)
    requires q > 0.0
    ensures p >= 0.0 <==> p * q >= 0.0
    ensures p > 0.0 <==> p * q > 0.0
  {
  }

  lemma Sign(k: real, d: real)
    requires k >= 0.0
    ensures d >= 0.0 ==> k * d >= 0.0
    ensures d <= 0.0 ==> k * d <= 0.0
  {
  }

  // ---------------------------------------------------------------------
  // Sums and windows
  // ---------------------------------------------------------------------

  function Sum(s: seq<real>): real {
    if s == [] then 0.0 else Sum(s[..|s| - 1]) + s[|s| - 1]
  }

  /** Inner product of the common prefix of two sequences. */
  function Dot(x: seq<real>, y: seq<real>): real
    requires |x| == |y|
  {
    if x == [] then 0.0 else Dot(x[..|x| - 1], y[..|y| - 1]) + x[|x| - 1] * y[|y| - 1]
  }

  lemma SumStep(s: seq<real>, i: nat)
    requires i < |s|
    ensures Sum(s[..i + 1]) == Sum(s[..i]) + s[i]
  {
    assert s[..i + 1][..i] == s[..i];
  }

  lemma DotStep(x: seq<real>, y: seq<real>, i: nat)
    requires |x| == |y| && i < |x|
    ensures Dot(x[..i + 1], y[..i + 1]) == Dot(x[..i], y[..i]) + x[i] * y[i]
  {
    assert x[..i + 1][..i] == x[..i];
    assert y[..i + 1][..i] == y[..i];
  }

  lemma {:induction false} SumAppend(s: seq<real>, t: seq<real>)
    ensures Sum(s + t) == Sum(s) + Sum(t)
  {
    if t == [] {
      assert s + t == s;
    } else {
      SumAppend(s, t[..|t| - 1]);
      assert (s + t)[..|s + t| - 1] == s + t[..|t| - 1];
    }
  }

  /** The last n elements, or everything when there are fewer. */
  function LastN<T>(s: seq<T>, n: nat): (r: seq<T>)
    ensures |r| == if |s| < n then |s| else n
  {
    if |s| <= n then s else s[|s| - n..]
  }

  lemma LastNOfNone<T>(n: nat)
    ensures LastN<T>([], n) == []
  {
  }

  /** Append-then-trim on a window is the window of the whole history. */
  lemma LastNAppend<T>(s: seq<T>, x: T, n: nat)
    ensures LastN(LastN(s, n) + [x], n) == LastN(s + [x], n)
  {
  }

  lemma TrimmedAppend<T>(s: seq<T>, window: seq<T>, x: T, n: nat)
    requires window == LastN(s, n)
    ensures var next := window + [x];
            LastN(s + [x], n) == if |next| > n then next[|next| - n..] else next
  {
    LastNAppend(s, x, n);
  }

  // ---------------------------------------------------------------------
  // Sums over finite maps: the order of iteration does not matter.
  // ---------------------------------------------------------------------

  ghost function MapSum<K(!new)>(m: map<K, real>): real
    decreases |m|
  {
    if m == map[] then 0.0 else
      var k :| k in m;
      m[k] + MapSum(m - {k})
  }

  lemma {:induction false} MapSumRemove<K(!new)>(m: map<K, real>, k: K)
    requires k in m
    ensures MapSum(m) == m[k] + MapSum(m - {k})
    decreases |m|
  {
    var j :| j in m && MapSum(m) == m[j] + MapSum(m - {j});
    if j != k {
      MapSumRemove(m - {j}, k);
      MapSumRemove(m - {k}, j);
      assert m - {j} - {k} == m - {k} - {j};
    }
  }

  lemma MapSumSet<K(!new)>(m: map<K, real>, k: K, v: real)
    ensures MapSum(m[k := v]) == (if k in m then MapSum(m) - m[k] else MapSum(m)) + v
  {
    MapSumRemove(m[k := v], k);
    if k in m {
      MapSumRemove(m, k);
      assert m[k := v] - {k} == m - {k};
    } else {
      assert m[k := v] - {k} == m;
    }
  }
}
