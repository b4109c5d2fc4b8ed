/** The per-frame channel impulse response: correlation of the samples after the
    NULL symbol with the phase reference at MAX_DELAY delays, normalised by the
    summed magnitude of the frame. */
module Correlation {
  import opened Iq
  import opened Sums
  import opened NullSearch

  type NonNeg = r: real | 0.0 <= r

  /** The numerics the source takes from numpy: `abs` is the magnitude of one
      sample, `corrAbs(w, ref)` the magnitude of the complex Pearson correlation
      coefficient of two sample windows. Both are non-negative. */
  datatype Numerics = Numerics(abs: Complex -> NonNeg, corrAbs: (seq<Complex>, seq<Complex>) -> NonNeg)

  /** How far before the nominal end of the NULL symbol correlation starts. */
  const BACK_OFF: nat := 50
  /** Number of delays correlated (the longest carrier spacing in mode I is about 504). */
  const MAX_DELAY: nat := 1000
  /** Length of the phase reference symbol (5208 - 2656). */
  const PHASE_REF_LEN: nat := 2552

  /** np.abs over the whole channel. */
  function Magnitudes(channel: seq<Complex>, abs: Complex -> NonNeg): (m: seq<real>)
    ensures |m| == |channel|
    ensures forall i :: 0 <= i < |channel| ==> m[i] == abs(channel[i])
    ensures NonNegative(m)
  {
    seq(|channel|, i requires 0 <= i < |channel| => abs(channel[i]) as real)
  }

  /** corr_start_ix: where, relative to the frame, the delay-0 window starts. */
  function CorrStart(tNull: nat): (lo: nat)
    ensures tNull <= lo && lo + BACK_OFF == tNull + T_NULL
  {
    tNull + T_NULL - BACK_OFF
  }

  /** Every correlation window of the frame at frameStart lies inside a channel of
      n samples. With an empty reference all windows are empty slices, which numpy
      accepts anywhere. */
  predicate WindowsFit(n: nat, frameStart: nat, tNull: nat, refLen: nat)
  {
    refLen == 0 || frameStart + CorrStart(tNull) + MAX_DELAY - 1 + refLen <= n
  }

  /** channel[lo : lo + len]. */
  function Window(channel: seq<Complex>, lo: nat, len: nat): (w: seq<Complex>)
    requires len == 0 || lo + len <= |channel|
    ensures |w| == len
  {
    if len == 0 then [] else channel[lo..lo + len]
  }

  /** The correlation magnitudes at delays 0 .. MAX_DELAY - 1 from lo. */
  function CorrBank(channel: seq<Complex>, phaseRef: seq<Complex>, lib: Numerics, lo: nat): (bank: seq<real>)
    requires |phaseRef| == 0 || lo + MAX_DELAY - 1 + |phaseRef| <= |channel|
    ensures |bank| == MAX_DELAY && NonNegative(bank)
    ensures forall i :: 0 <= i < MAX_DELAY ==> bank[i] == lib.corrAbs(Window(channel, lo + i, |phaseRef|), phaseRef) as real
  {
    var bank := seq(MAX_DELAY, i requires 0 <= i < MAX_DELAY =>
      lib.corrAbs(Window(channel, lo + i, |phaseRef|), phaseRef) as real);
    assert forall i :: 0 <= i < MAX_DELAY ==> bank[i] == lib.corrAbs(Window(channel, lo + i, |phaseRef|), phaseRef) as real;
    bank
  }

  /** channel_power: the summed magnitude over the whole frame at startIx. */
  function ChannelPower(m: seq<real>, startIx: nat): (power: real)
    requires startIx + T_TF <= |m|
    ensures NonNegative(m) ==> 0.0 <= power
  {
    assert NonNegative(m) ==> 0.0 <= WindowPower(m, startIx, T_TF) by {
      if NonNegative(m) {
        SumNonNegative(m[startIx..startIx + T_TF]);
      }
    }
    WindowPower(m, startIx, T_TF)
  }

  /** cir / channel_power, elementwise. */
  function Divided(s: seq<real>, p: real): (r: seq<real>)
    requires p != 0.0
    ensures |r| == |s|
    ensures forall i :: 0 <= i < |s| ==> r[i] == s[i] / p
  {
    seq(|s|, i requires 0 <= i < |s| => s[i] / p)
  }

  /** One CIR row. A frame whose summed magnitude is zero cannot be normalised:
      numpy then yields nan/inf entries, and the model keeps the unnormalised
      correlation magnitudes instead. */
  datatype Cir = Normalised(values: seq<real>) | ZeroPower(corr: seq<real>)
  {
    function Entries(): (entries: seq<real>)
    {
      match this
      case Normalised(v) => v
      case ZeroPower(c) => c
    }
  }

  /** A correlation window that runs past the end of the recording: numpy
      truncates the slice and np.corrcoef rejects the shorter window. */
  datatype FrameError = WindowPastEnd(frameStart: nat, tNull: nat)

  datatype Result<T> = Ok(value: T) | Err(error: FrameError)

  /** cir / channel_power, or the unnormalised row when the power is zero. */
  function Normalise(bank: seq<real>, power: real): (row: Cir)
    requires NonNegative(bank) && 0.0 <= power
    ensures row.ZeroPower? <==> power == 0.0
    ensures |row.Entries()| == |bank| && NonNegative(row.Entries())
  {
    if power == 0.0 then ZeroPower(bank)
    else
      var v := Divided(bank, power);
      assert forall i :: 0 <= i < |v| ==> 0.0 <= v[i];
      Normalised(v)
  }

  /** What calc_one_cir_ returns for the frame at startIx. */
  function FrameCir(channel: seq<Complex>, phaseRef: seq<Complex>, lib: Numerics, startIx: nat): (r: Result<Cir>)
    requires startIx + T_TF <= |channel|
    ensures r.Err? <==> !WindowsFit(|channel|, startIx, NullOffset(Magnitudes(channel, lib.abs), startIx), |phaseRef|)
    ensures r.Ok? ==> |r.value.Entries()| == MAX_DELAY && NonNegative(r.value.Entries())
  {
    var m := Magnitudes(channel, lib.abs);
    var tNull := NullOffset(m, startIx);
    if !WindowsFit(|channel|, startIx, tNull, |phaseRef|) then Err(WindowPastEnd(startIx, tNull))
    else
      var bank := CorrBank(channel, phaseRef, lib, startIx + CorrStart(tNull));
      SumNonNegative(m[startIx..startIx + T_TF]);
      Ok(Normalise(bank, ChannelPower(m, startIx)))
  }

  /** Entry i of a frame's CIR is the correlation magnitude of the window
      channel[startIx + t_null + 2606 + i : ... + len(phase_ref)] with the phase
      reference, divided by the frame's summed magnitude; the row is
      unnormalised exactly when that sum is zero. Nothing depends on the
      reference having the expected length. */
  lemma FrameCirEntries(channel: seq<Complex>, phaseRef: seq<Complex>, lib: Numerics, startIx: nat, i: nat)
    requires startIx + T_TF <= |channel| && i < MAX_DELAY
    requires FrameCir(channel, phaseRef, lib, startIx).Ok?
    ensures var m := Magnitudes(channel, lib.abs);
      var lo := startIx + NullOffset(m, startIx) + T_NULL - BACK_OFF + i;
      var power := Sum(m[startIx..startIx + T_TF]);
      var corr := lib.corrAbs(Window(channel, lo, |phaseRef|), phaseRef) as real;
      var row := FrameCir(channel, phaseRef, lib, startIx).value;
      (row.ZeroPower? <==> power == 0.0) &&
      (row.ZeroPower? ==> row.corr[i] == corr) &&
      (row.Normalised? ==> 0.0 < power && row.values[i] == corr / power && 0.0 <= row.values[i])
  {
    var m := Magnitudes(channel, lib.abs);
    SumNonNegative(m[startIx..startIx + T_TF]);
  }

  /** The frame power is zero exactly when every sample of the frame has zero
      magnitude; it does not depend on where the NULL symbol was found. */
  lemma ChannelPowerZeroIff(channel: seq<Complex>, lib: Numerics, startIx: nat)
    requires startIx + T_TF <= |channel|
    ensures ChannelPower(Magnitudes(channel, lib.abs), startIx) == 0.0 <==>
      forall i :: startIx <= i < startIx + T_TF ==> lib.abs(channel[i]) == 0.0
  {
    var m := Magnitudes(channel, lib.abs);
    var f := m[startIx..startIx + T_TF];
    assert forall i :: 0 <= i < T_TF ==> f[i] == m[startIx + i];
    SumZeroIff(f);
    if forall k :: 0 <= k < T_TF ==> f[k] == 0.0 {
      forall i | startIx <= i < startIx + T_TF ensures lib.abs(channel[i]) == 0.0 {
        assert f[i - startIx] == m[i];
      }
    }
  }

  /** Correlation windows that fit for the farthest t_null fit for every t_null:
      the furthest read is startIx + 193940 + 2606 + 999 + len(phase_ref). */
  lemma WindowsFitForEveryNull(n: nat, frameStart: nat, tNull: nat, refLen: nat)
    requires tNull <= LAST_START
    requires frameStart + LAST_START + T_NULL - BACK_OFF + MAX_DELAY - 1 + refLen <= n
    ensures WindowsFit(n, frameStart, tNull, refLen)
  {
  }

  /** For a late NULL symbol the windows run past the end of the frame itself,
      so the frame can only be processed if samples follow it. */
  lemma LateNullReadsPastFrame(frameStart: nat, refLen: nat)
    requires 0 < refLen
    ensures !WindowsFit(frameStart + T_TF, frameStart, LAST_START, refLen)
  {
  }

  /** Scaling every magnitude by c scales the frame power by c. */
  lemma ChannelPowerScaled(m: seq<real>, m': seq<real>, startIx: nat, c: real)
    requires startIx + T_TF <= |m| == |m'|
    requires forall i :: 0 <= i < |m| ==> m'[i] == c * m[i]
    ensures ChannelPower(m', startIx) == c * ChannelPower(m, startIx)
  {
    ScaledWindow(m, m', c, startIx, T_TF);
  }

  /** Normalising the same correlation bank by c times the power divides
      every entry of the row by c: the Pearson magnitudes do not scale with the
      channel while the channel power does. */
  lemma NormaliseScaled(bank: seq<real>, p: real, c: real)
    requires NonNegative(bank) && 0.0 <= p && 0.0 < c
    ensures 0.0 <= c * p
    ensures Normalise(bank, p).Normalised? == Normalise(bank, c * p).Normalised?
    ensures Normalise(bank, p).Normalised? ==>
      forall i :: 0 <= i < |bank| ==> Normalise(bank, c * p).values[i] == Normalise(bank, p).values[i] / c
  {
  }

  /** The correlation bank, one delay at a time. */
  method CorrelationBank(channel: seq<Complex>, phaseRef: seq<Complex>, lib: Numerics, lo: nat) returns (bank: seq<real>)
    requires |phaseRef| == 0 || lo + MAX_DELAY - 1 + |phaseRef| <= |channel|
    ensures bank == CorrBank(channel, phaseRef, lib, lo)
  {
    bank := [];
    var i := 0;
    while i < MAX_DELAY
      invariant i <= MAX_DELAY
      invariant bank == CorrBank(channel, phaseRef, lib, lo)[..i]
    {
      var w := if |phaseRef| == 0 then [] else channel[lo + i..lo + i + |phaseRef|];
      assert w == Window(channel, lo + i, |phaseRef|);
      bank := bank + [lib.corrAbs(w, phaseRef) as real];
      i := i + 1;
    }
  }
}
