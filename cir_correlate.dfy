/** CIR_Correlate: a recording and the phase reference held by one object, a
    per-frame CIR computation that logs each NULL-symbol offset it finds, and
    the scan over every complete transmission frame of the recording. */
module CirCorrelate {
  import opened Iq
  import opened Sums
  import opened NullSearch
  import opened Correlation

  /** Number of complete frames in a recording of n samples; a trailing partial frame is dropped. */
  function FrameCount(n: nat): (count: nat)
    ensures count * T_TF <= n < (count + 1) * T_TF
  {
    n / T_TF
  }

  /** What processing one frame yields: the NULL offset it logs and its CIR or error. */
  datatype FrameOutcome = FrameOutcome(tNull: nat, cir: Result<Cir>)

  /** The outcome of calc_one_cir_ for the frame at startIx. */
  function Outcome(channel: seq<Complex>, phaseRef: seq<Complex>, lib: Numerics, startIx: nat): (o: FrameOutcome)
    requires startIx + T_TF <= |channel|
    ensures o.cir.Err? <==> !WindowsFit(|channel|, startIx, o.tNull, |phaseRef|)
  {
    FrameOutcome(NullOffset(Magnitudes(channel, lib.abs), startIx), FrameCir(channel, phaseRef, lib, startIx))
  }

  /** The outcomes of the first k frames, frame j starting at j * T_TF. */
  function OutcomesUpTo(channel: seq<Complex>, phaseRef: seq<Complex>, lib: Numerics, k: nat): (os: seq<FrameOutcome>)
    requires k * T_TF <= |channel|
    ensures |os| == k
    decreases k
  {
    if k == 0 then []
    else OutcomesUpTo(channel, phaseRef, lib, k - 1) + [Outcome(channel, phaseRef, lib, (k - 1) * T_TF)]
  }

  /** The outcome of every complete frame. */
  function Outcomes(channel: seq<Complex>, phaseRef: seq<Complex>, lib: Numerics): (os: seq<FrameOutcome>)
    ensures |os| == FrameCount(|channel|)
  {
    OutcomesUpTo(channel, phaseRef, lib, FrameCount(|channel|))
  }

  /** Entry j of the outcomes is the outcome of the frame starting at j * T_TF. */
  lemma {:induction false} OutcomesUpToAt(channel: seq<Complex>, phaseRef: seq<Complex>, lib: Numerics, k: nat, j: nat)
    requires k * T_TF <= |channel| && j < k
    ensures OutcomesUpTo(channel, phaseRef, lib, k)[j] == Outcome(channel, phaseRef, lib, j * T_TF)
  {
    if j < k - 1 {
      OutcomesUpToAt(channel, phaseRef, lib, k - 1, j);
    }
  }

  lemma OutcomesAt(channel: seq<Complex>, phaseRef: seq<Complex>, lib: Numerics, j: nat)
    requires j < FrameCount(|channel|)
    ensures Outcomes(channel, phaseRef, lib)[j] == Outcome(channel, phaseRef, lib, j * T_TF)
  {
    OutcomesUpToAt(channel, phaseRef, lib, FrameCount(|channel|), j);
  }

  /** What a scan has produced after its first k frames: the NULL offsets it
      logged and either the rows or the error that stopped it. */
  datatype ScanState = ScanState(log: seq<int>, rows: Result<seq<Cir>>)

  /** The scan over the first k frame outcomes, in order. t_null is logged
      before the correlation runs, so the frame whose correlation fails is logged
      too, and no later frame is processed. */
  function ScanUpTo(os: seq<FrameOutcome>, k: nat): (s: ScanState)
    requires k <= |os|
    ensures |s.log| <= k
    ensures s.rows.Ok? ==> |s.rows.value| == |s.log|
    decreases k
  {
    if k == 0 then ScanState([], Ok([]))
    else
      var prev := ScanUpTo(os, k - 1);
      if prev.rows.Err? then prev
      else
        var log := prev.log + [os[k - 1].tNull];
        match os[k - 1].cir
        case Ok(row) => ScanState(log, Ok(prev.rows.value + [row]))
        case Err(e) => ScanState(log, Err(e))
  }

  /** Once a frame has failed, processing more frames changes nothing. */
  lemma {:induction false} ScanStopsAtError(os: seq<FrameOutcome>, k: nat, n: nat)
    requires k <= n <= |os|
    requires ScanUpTo(os, k).rows.Err?
    ensures ScanUpTo(os, n) == ScanUpTo(os, k)
  {
    if n > k {
      ScanStopsAtError(os, k, n - 1);
    }
  }

  /** A scan that succeeds over k frames has k rows and k logged offsets,
      entry j coming from frame j. */
  lemma {:induction false} ScanCompleted(os: seq<FrameOutcome>, k: nat)
    requires k <= |os|
    requires ScanUpTo(os, k).rows.Ok?
    ensures var s := ScanUpTo(os, k);
      |s.log| == k && |s.rows.value| == k &&
      (forall j :: 0 <= j < k ==> s.log[j] == os[j].tNull && os[j].cir == Ok(s.rows.value[j]))
  {
    if k > 0 {
      ScanCompleted(os, k - 1);
    }
  }

  /** A scan that fails stops at the first failing frame f: frames before f
      succeed, the offsets of frames 0 .. f are logged in frame order, and the
      error is f's. */
  lemma {:induction false} ScanStopped(os: seq<FrameOutcome>, k: nat)
    requires k <= |os|
    requires ScanUpTo(os, k).rows.Err?
    ensures var s := ScanUpTo(os, k);
      var f := |s.log| - 1;
      1 <= |s.log| <= k &&
      os[f].cir == Err(s.rows.error) &&
      (forall j :: 0 <= j < f ==> os[j].cir.Ok?) &&
      (forall j :: 0 <= j < |s.log| ==> s.log[j] == os[j].tNull)
  {
    var prev := ScanUpTo(os, k - 1);
    if prev.rows.Err? {
      ScanStopped(os, k - 1);
    } else {
      ScanCompleted(os, k - 1);
    }
  }

  /** The longest phase reference for which no frame but the last can run out
      of samples: 2 * T_TF - (LAST_START + T_NULL - BACK_OFF + MAX_DELAY - 1). */
  const MAX_SAFE_REF_LEN: nat := 195671

  /** Every frame except the last is followed by a complete frame, which holds
      all the samples its correlation windows read. */
  lemma OnlyLastFrameCanFail(channel: seq<Complex>, phaseRef: seq<Complex>, lib: Numerics, j: nat)
    requires |phaseRef| <= MAX_SAFE_REF_LEN
    requires j + 1 < FrameCount(|channel|)
    ensures Outcomes(channel, phaseRef, lib)[j].cir.Ok?
  {
    OutcomesAt(channel, phaseRef, lib, j);
    NullOffsetIsFirstMinimum(Magnitudes(channel, lib.abs), j * T_TF);
  }

  /** With a phase reference of sensible length a full scan either succeeds or
      fails on the last frame, after logging an offset for every frame. */
  lemma ScanFailsOnlyOnLastFrame(channel: seq<Complex>, phaseRef: seq<Complex>, lib: Numerics)
    requires |phaseRef| <= MAX_SAFE_REF_LEN
    requires ScanUpTo(Outcomes(channel, phaseRef, lib), FrameCount(|channel|)).rows.Err?
    ensures |ScanUpTo(Outcomes(channel, phaseRef, lib), FrameCount(|channel|)).log| == FrameCount(|channel|)
  {
    var n := FrameCount(|channel|);
    var os := Outcomes(channel, phaseRef, lib);
    ScanStopped(os, n);
    var f := |ScanUpTo(os, n).log| - 1;
    OutcomesAt(channel, phaseRef, lib, f);
    NullOffsetIsFirstMinimum(Magnitudes(channel, lib.abs), f * T_TF);
  }

  class CirCorrelate {
    /** The decoded recording. */
    const channel: seq<Complex>
    /** The phase reference symbol. */
    const phaseRef: seq<Complex>
    /** The numpy numerics the computation relies on. */
    const lib: Numerics
    /** NULL-symbol offsets found so far, one per processed frame, oldest first. */
    var nullSymbolIxs: seq<int>

    /** Every logged offset is a start the coarse search visits. */
    ghost predicate Valid()
      reads this
    {
      forall k :: 0 <= k < |nullSymbolIxs| ==> InSearchRange(nullSymbolIxs[k])
    }

    /** __init__ with an already decoded recording: the log starts empty. */
    constructor (channel: seq<Complex>, phaseRef: seq<Complex>, lib: Numerics)
      ensures this.channel == channel && this.phaseRef == phaseRef && this.lib == lib
      ensures nullSymbolIxs == [] && Valid()
    {
      this.channel := channel;
      this.phaseRef := phaseRef;
      this.lib := lib;
      nullSymbolIxs := [];
    }

    /** __init__ for a u8 recording, decoded as the source does it: the first half
        of the bytes gives the I components and the second half the Q
        components; an odd byte count fails, as reshape does. */
    static method FromU8(raw: seq<byte>, phaseRef: seq<Complex>, lib: Numerics) returns (r: Option<CirCorrelate>)
      ensures r.None? <==> |raw| % 2 == 1
      ensures r.Some? ==> fresh(r.value) && r.value.channel == DecodeU8(raw).value
      ensures r.Some? ==> r.value.phaseRef == phaseRef && r.value.lib == lib
      ensures r.Some? ==> r.value.nullSymbolIxs == [] && r.value.Valid()
    {
      var decoded := DecodeU8(raw);
      if decoded.None? {
        return None;
      }
      var c := new CirCorrelate(decoded.value, phaseRef, lib);
      return Some(c);
    }

    /** __init__ for a u8 recording read as alternating I and Q bytes, the
        layout the decode evidently means to read (see DecodeU8Interleaved). */
    static method FromU8Interleaved(raw: seq<byte>, phaseRef: seq<Complex>, lib: Numerics) returns (r: Option<CirCorrelate>)
      ensures r.None? <==> |raw| % 2 == 1
      ensures r.Some? ==> fresh(r.value) && r.value.channel == DecodeU8Interleaved(raw).value
      ensures r.Some? ==> r.value.phaseRef == phaseRef && r.value.lib == lib
      ensures r.Some? ==> r.value.nullSymbolIxs == [] && r.value.Valid()
    {
      var decoded := DecodeU8Interleaved(raw);
      if decoded.None? {
        return None;
      }
      var c := new CirCorrelate(decoded.value, phaseRef, lib);
      return Some(c);
    }

    /** calc_one_cir_: find t_null in the frame at startIx and log it, then
        correlate and normalise. `warned` is the phase-reference length warning,
        which does not stop the computation. */
    method CalcOneCir(startIx: nat) returns (cir: Result<Cir>, warned: bool)
      requires Valid() && startIx + T_TF <= |channel|
      modifies this
      ensures Valid()
      ensures nullSymbolIxs == old(nullSymbolIxs) + [NullOffset(Magnitudes(channel, lib.abs), startIx)]
      ensures cir == FrameCir(channel, phaseRef, lib, startIx)
      ensures warned <==> |phaseRef| != PHASE_REF_LEN
    {
      var m := Magnitudes(channel, lib.abs);
      var tNull := CoarseSearch(m, startIx);
      nullSymbolIxs := nullSymbolIxs + [tNull];
      warned := |phaseRef| != PHASE_REF_LEN;
      if !WindowsFit(|channel|, startIx, tNull, |phaseRef|) {
        cir := Err(WindowPastEnd(startIx, tNull));
        return;
      }
      var corrStartIx := CorrStart(tNull);
      var bank := CorrelationBank(channel, phaseRef, lib, startIx + corrStartIx);
      var channelPower := SumRange(m, startIx, startIx + T_TF);
      SumNonNegative(m[startIx..startIx + T_TF]);
      cir := Ok(Normalise(bank, channelPower));
    }

    /** One turn of the frame loop: calc_one_cir_ on frame k, whose outcome is os[k]. */
    method ProcessFrame(k: nat, ghost os: seq<FrameOutcome>) returns (cir: Result<Cir>)
      requires Valid() && os == Outcomes(channel, phaseRef, lib) && k < |os|
      modifies this
      ensures Valid()
      ensures nullSymbolIxs == old(nullSymbolIxs) + [os[k].tNull]
      ensures cir == os[k].cir
    {
      OutcomesAt(channel, phaseRef, lib, k);
      var warned;
      cir, warned := CalcOneCir(k * T_TF);
    }

    /** The frame loop of plot: one calc_one_cir_ call per complete frame, in
        order, stopping at the first frame whose correlation fails. The log is
        not reset, so the offsets of this scan follow those of earlier calls. */
    method ScanFrames() returns (cirs: Result<seq<Cir>>)
      requires Valid()
      modifies this
      ensures Valid()
      ensures nullSymbolIxs == old(nullSymbolIxs) + ScanUpTo(Outcomes(channel, phaseRef, lib), FrameCount(|channel|)).log
      ensures cirs == ScanUpTo(Outcomes(channel, phaseRef, lib), FrameCount(|channel|)).rows
    {
      var numCorrelations := |channel| / T_TF;
      var rows: seq<Cir> := [];
      ghost var os := Outcomes(channel, phaseRef, lib);
      var k := 0;
      while k < numCorrelations
        invariant k <= numCorrelations && Valid()
        invariant ScanUpTo(os, k).rows == Ok(rows)
        invariant nullSymbolIxs == old(nullSymbolIxs) + ScanUpTo(os, k).log
      {
        var cir := ProcessFrame(k, os);
        if cir.Err? {
          ScanStopsAtError(os, k + 1, numCorrelations);
          return Err(cir.error);
        }
        rows := rows + [cir.value];
        k := k + 1;
      }
      return Ok(rows);
    }
  }
}
