/** The coarse NULL-symbol search: the frame position whose window of NULL-symbol
    length carries the least summed magnitude, tried at every STRIDE-th start. */
module NullSearch {
  import opened Sums

  /** NULL symbol length, in samples at 2048000 samples per second (about 1.3 ms). */
  const T_NULL: nat := 2656
  /** Transmission frame length in transmission mode I (96 ms). */
  const T_TF: nat := 196608
  /** Subsampling stride of the coarse search. */
  const STRIDE: nat := 20
  /** Number of starts in range(0, T_TF - T_NULL, STRIDE): 0, 20, ..., 193940. */
  const SEARCH_COUNT: nat := 9698
  /** The last start visited, STRIDE * (SEARCH_COUNT - 1). */
  const LAST_START: nat := 193940

  /** The window starts the search visits, in the order it visits them. */
  function SearchPositions(): (ps: seq<nat>)
    ensures |ps| == SEARCH_COUNT
  {
    seq(SEARCH_COUNT, j requires 0 <= j < SEARCH_COUNT => STRIDE * j)
  }

  /** A start the search visits: a multiple of STRIDE below T_TF - T_NULL. */
  predicate InSearchRange(t: int)
  {
    0 <= t < T_TF - T_NULL && t % STRIDE == 0
  }

  /** The visited starts are exactly the multiples of STRIDE in [0, T_TF - T_NULL),
      in increasing order, the last being LAST_START. */
  lemma SearchPositionsExact()
    ensures forall t :: t in SearchPositions() <==> InSearchRange(t)
    ensures forall i, j :: 0 <= i < j < SEARCH_COUNT ==> SearchPositions()[i] < SearchPositions()[j]
    ensures SearchPositions()[SEARCH_COUNT - 1] == LAST_START
  {
    var ps := SearchPositions();
    forall t | InSearchRange(t) ensures t in ps {
      var j := t / STRIDE;
      assert ps[j] == t;
    }
  }

  /** Summed magnitude of the window of length len starting at lo. */
  function WindowPower(m: seq<real>, lo: nat, len: nat): (power: real)
    requires lo + len <= |m|
  {
    Sum(m[lo..lo + len])
  }

  /** Summed magnitude of the NULL-length window starting t samples into the frame at startIx. */
  function PowerAt(m: seq<real>, startIx: nat, t: nat): (power: real)
    requires t < T_TF - T_NULL && startIx + T_TF <= |m|
  {
    WindowPower(m, startIx + t, T_NULL)
  }

  /** The coarse energy profile of the frame starting at startIx: one entry per visited start. */
  function Profile(m: seq<real>, startIx: nat): (p: seq<real>)
    requires startIx + T_TF <= |m|
    ensures |p| == SEARCH_COUNT
  {
    var ps := SearchPositions();
    seq(SEARCH_COUNT, j requires 0 <= j < SEARCH_COUNT => PowerAt(m, startIx, ps[j]))
  }

  /** Entry j of the profile is the power of the NULL-length window starting
      STRIDE * j samples into the frame. */
  lemma ProfileAt(m: seq<real>, startIx: nat, j: nat)
    requires startIx + T_TF <= |m| && j < SEARCH_COUNT
    ensures Profile(m, startIx)[j] == WindowPower(m, startIx + STRIDE * j, T_NULL)
  {
  }

  /** numpy's argmin: the index of the first occurrence of the minimum. */
  function FirstArgMin(s: seq<real>): (j: nat)
    requires |s| > 0
    ensures j < |s|
    decreases |s|
  {
    if |s| == 1 then 0
    else
      var j := FirstArgMin(s[..|s| - 1]);
      if s[|s| - 1] < s[j] then |s| - 1 else j
  }

  /** FirstArgMin is a minimum, and every earlier entry is strictly larger. */
  lemma {:induction false} FirstArgMinIsFirstMinimum(s: seq<real>)
    requires |s| > 0
    ensures forall i :: 0 <= i < |s| ==> s[FirstArgMin(s)] <= s[i]
    ensures forall i :: 0 <= i < FirstArgMin(s) ==> s[FirstArgMin(s)] < s[i]
  {
    if |s| > 1 {
      var p := s[..|s| - 1];
      FirstArgMinIsFirstMinimum(p);
      assert forall i :: 0 <= i < |p| ==> p[i] == s[i];
    }
  }

  /** The two properties determine the index: FirstArgMin is the only first minimum. */
  lemma FirstArgMinCharacterised(s: seq<real>, k: nat)
    requires k < |s|
    ensures k == FirstArgMin(s) <==>
      (forall i :: 0 <= i < |s| ==> s[k] <= s[i]) && (forall i :: 0 <= i < k ==> s[k] < s[i])
  {
    FirstArgMinIsFirstMinimum(s);
  }

  /** t_null: the visited start of least window power, earliest on ties, relative to startIx. */
  function NullOffset(m: seq<real>, startIx: nat): (t: nat)
    requires startIx + T_TF <= |m|
    ensures t <= LAST_START
  {
    STRIDE * FirstArgMin(Profile(m, startIx))
  }

  /** t_null is a visited start, its window power is the least of all visited
      starts, and every visited start before it has strictly larger power. */
  lemma NullOffsetIsFirstMinimum(m: seq<real>, startIx: nat)
    requires startIx + T_TF <= |m|
    ensures InSearchRange(NullOffset(m, startIx)) && NullOffset(m, startIx) <= LAST_START
    ensures forall t :: InSearchRange(t) ==> PowerAt(m, startIx, NullOffset(m, startIx)) <= PowerAt(m, startIx, t)
    ensures forall t :: InSearchRange(t) && t < NullOffset(m, startIx) ==>
      PowerAt(m, startIx, NullOffset(m, startIx)) < PowerAt(m, startIx, t)
  {
    var p := Profile(m, startIx);
    var j := FirstArgMin(p);
    FirstArgMinIsFirstMinimum(p);
    assert p[j] == PowerAt(m, startIx, NullOffset(m, startIx));
    forall t | InSearchRange(t) ensures PowerAt(m, startIx, NullOffset(m, startIx)) <= PowerAt(m, startIx, t) {
      assert p[t / STRIDE] == PowerAt(m, startIx, t);
    }
    forall t | InSearchRange(t) && t < NullOffset(m, startIx)
      ensures PowerAt(m, startIx, NullOffset(m, startIx)) < PowerAt(m, startIx, t)
    {
      assert p[t / STRIDE] == PowerAt(m, startIx, t);
    }
  }

  /** A silent NULL symbol is found exactly: if the NULL-length block at the
      visited start p is all zero and every other sample of the frame has positive
      magnitude, t_null is p. */
  lemma NullSymbolFound(m: seq<real>, startIx: nat, p: nat)
    requires startIx + T_TF <= |m| && InSearchRange(p)
    requires NonNegative(m)
    requires forall i :: startIx + p <= i < startIx + p + T_NULL ==> m[i] == 0.0
    requires forall i :: startIx <= i < startIx + T_TF && !(startIx + p <= i < startIx + p + T_NULL) ==> 0.0 < m[i]
    ensures NullOffset(m, startIx) == p
  {
    var prof := Profile(m, startIx);
    var w := m[startIx + p..startIx + p + T_NULL];
    assert forall i :: 0 <= i < |w| ==> w[i] == m[startIx + p + i];
    SumOfZeros(w);
    assert prof[p / STRIDE] == 0.0;
    forall j | 0 <= j < SEARCH_COUNT && j != p / STRIDE ensures 0.0 < prof[j] {
      var q := STRIDE * j;
      var v := m[startIx + q..startIx + q + T_NULL];
      assert forall i :: 0 <= i < |v| ==> v[i] == m[startIx + q + i];
      if q < p {
        SumPositive(v, 0);
      } else {
        SumPositive(v, T_NULL - 1);
      }
    }
    FirstArgMinCharacterised(prof, p / STRIDE);
  }

  /** t_null depends only on how the window powers of the visited starts
      compare: two frames whose powers are ordered alike have the same t_null
      (so, for instance, scaling every magnitude by c > 0 does not move it). */
  lemma NullOffsetOrderInvariant(m: seq<real>, m': seq<real>, startIx: nat)
    requires startIx + T_TF <= |m| && startIx + T_TF <= |m'|
    requires forall t, u :: InSearchRange(t) && InSearchRange(u) ==>
      (PowerAt(m', startIx, t) < PowerAt(m', startIx, u) <==> PowerAt(m, startIx, t) < PowerAt(m, startIx, u))
    ensures NullOffset(m', startIx) == NullOffset(m, startIx)
  {
    var p, q := Profile(m, startIx), Profile(m', startIx);
    forall i, j | 0 <= i < SEARCH_COUNT && 0 <= j < SEARCH_COUNT ensures q[i] < q[j] <==> p[i] < p[j] {
      assert InSearchRange(STRIDE * i) && InSearchRange(STRIDE * j);
    }
    FirstArgMinOrderInvariant(p, q);
  }

  /** Scaling every magnitude by c scales the power of every window by c. */
  lemma ScaledWindow(m: seq<real>, m': seq<real>, c: real, lo: nat, len: nat)
    requires lo + len <= |m| == |m'|
    requires forall i :: 0 <= i < |m| ==> m'[i] == c * m[i]
    ensures WindowPower(m', lo, len) == c * WindowPower(m, lo, len)
  {
    var w, w' := m[lo..lo + len], m'[lo..lo + len];
    assert forall i :: 0 <= i < len ==> w'[i] == c * w[i];
    SumScaled(w, w', c);
  }

  /** Scaling every magnitude of the frame by c > 0 does not move t_null. */
  lemma ScaledMagnitudesKeepNull(m: seq<real>, m': seq<real>, startIx: nat, c: real)
    requires startIx + T_TF <= |m| == |m'| && 0.0 < c
    requires forall i :: 0 <= i < |m| ==> m'[i] == c * m[i]
    ensures NullOffset(m', startIx) == NullOffset(m, startIx)
  {
    forall t, u | InSearchRange(t) && InSearchRange(u)
      ensures PowerAt(m', startIx, t) < PowerAt(m', startIx, u) <==> PowerAt(m, startIx, t) < PowerAt(m, startIx, u)
    {
      ScaledWindow(m, m', c, startIx + t, T_NULL);
      ScaledWindow(m, m', c, startIx + u, T_NULL);
      ScaledLess(PowerAt(m, startIx, t), PowerAt(m, startIx, u), c);
    }
    NullOffsetOrderInvariant(m, m', startIx);
  }

  lemma ScaledLess(x: real, y: real, c: real)
    requires 0.0 < c
    ensures c * x < c * y <==> x < y
  {
    if x < y {
      assert c * y - c * x == c * (y - x);
    } else {
      assert c * x - c * y == c * (x - y);
    }
  }

  /** FirstArgMin depends only on how the entries compare. */
  lemma {:induction false} FirstArgMinOrderInvariant(p: seq<real>, q: seq<real>)
    requires |p| == |q| > 0
    requires forall i, j :: 0 <= i < |p| && 0 <= j < |p| ==> (q[i] < q[j] <==> p[i] < p[j])
    ensures FirstArgMin(q) == FirstArgMin(p)
  {
    if |p| > 1 {
      var n := |p|;
      var p', q' := p[..n - 1], q[..n - 1];
      assert forall i :: 0 <= i < n - 1 ==> p'[i] == p[i] && q'[i] == q[i];
      FirstArgMinOrderInvariant(p', q');
    }
  }

  /** numpy's argmin over a computed profile: a running minimum and its index. */
  method ArgMin(s: seq<real>) returns (best: nat)
    requires |s| > 0
    ensures best == FirstArgMin(s)
    ensures forall i :: 0 <= i < |s| ==> s[best] <= s[i]
    ensures forall i :: 0 <= i < best ==> s[best] < s[i]
  {
    best := 0;
    var i := 1;
    while i < |s|
      invariant 1 <= i <= |s|
      invariant best == FirstArgMin(s[..i])
    {
      assert s[..i + 1][..i] == s[..i];
      if s[i] < s[best] {
        best := i;
      }
      i := i + 1;
    }
    assert s[..|s|] == s;
    FirstArgMinIsFirstMinimum(s);
  }

  /** The coarse search as the source runs it: the energy profile at every
      STRIDE-th start, then its argmin scaled back by STRIDE. */
  method CoarseSearch(m: seq<real>, startIx: nat) returns (tNull: nat)
    requires startIx + T_TF <= |m|
    ensures tNull == NullOffset(m, startIx)
    ensures InSearchRange(tNull) && tNull <= LAST_START
    ensures forall t :: InSearchRange(t) ==> PowerAt(m, startIx, tNull) <= PowerAt(m, startIx, t)
    ensures forall t :: InSearchRange(t) && t < tNull ==> PowerAt(m, startIx, tNull) < PowerAt(m, startIx, t)
  {
    var power: seq<real> := [];
    var j := 0;
    while j < SEARCH_COUNT
      invariant j <= SEARCH_COUNT
      invariant power == Profile(m, startIx)[..j]
    {
      var lo := startIx + STRIDE * j;
      var pw := SumRange(m, lo, lo + T_NULL);
      power := power + [pw];
      j := j + 1;
    }
    assert power == Profile(m, startIx);
    var best := ArgMin(power);
    tNull := STRIDE * best;
    NullOffsetIsFirstMinimum(m, startIx);
  }
}
