# CIR_Correlate in Dafny

A model of the channel-impulse-response (CIR) estimator of odr-dab-cir
(`correlate_with_ref.py`). The estimator works on a DAB recording at 2048000
samples per second that has been decoded to complex baseband samples. For
each complete 96 ms transmission frame (196608 samples) it does three things:

1. It locates the NULL symbol (2656 samples of suppressed carrier). It sums
   the sample magnitudes over windows of NULL length, starting one window at
   every 20th position of the frame, and takes the first window with the
   least sum.
2. It correlates 1000 windows with the phase reference symbol (2552 samples).
   The windows start 50 samples before the nominal end of the NULL symbol, at
   consecutive delays.
3. It divides these correlation magnitudes by the summed magnitude of the
   whole frame.

Each NULL offset it finds is appended to a log kept by the object.

Modules, one per part of the source:

- `Iq` (`iq.dfy`): the u8 decode done in `__init__`, with its inverse, and the
  interleaved decode (see Findings).
- `Sums` (`sums.dfy`): the sums of magnitudes, with a loop that computes them.
- `NullSearch` (`null_search.dfy`): the coarse NULL-symbol search. It has the
  energy profile, numpy's first-occurrence argmin, and the search method.
- `Correlation` (`correlation.dfy`): the correlation bank, the channel power,
  normalisation, and the specification `FrameCir` of one `calc_one_cir_` call.
- `CirCorrelate` (`cir_correlate.dfy`): the class. Its field
  `nullSymbolIxs: seq<int>` is the log. Its methods model `calc_one_cir_` and
  the frame loop of `plot`, and the specification of the scan sits beside it.

Sample magnitudes are exact non-negative reals. The two numpy numerics are
parameters, bundled in `Correlation.Numerics`: `abs` stands for `np.abs` of
one sample and `corrAbs` for `|np.corrcoef(w, ref)[0,1]|`. Both return
non-negative reals by their type.

Behaviour of the code that the model keeps as it is:

- The code never resets `null_symbol_ixs` when a scan starts. It is created
  once, in `__init__` (line 35). `ScanFrames` therefore appends to whatever the
  log already holds.
- The CIR is not scale invariant. The code normalises a Pearson coefficient,
  which does not change when the samples are scaled, by the channel power,
  which does. When every magnitude is multiplied by c > 0, t_null stays where
  it is (`NullSearch.ScaledMagnitudesKeepNull`), the channel power is
  multiplied by c (`Correlation.ChannelPowerScaled`), and the row normalised by
  that power is the original row divided by c (`Correlation.NormaliseScaled`).
- A frame whose channel power is zero is not an error. The code divides by
  zero, which numpy turns into nan/inf entries, and carries on. The model
  gives such a frame a `ZeroPower` row and the scan continues.
- A correlation window that runs past the end of the recording makes numpy
  truncate the slice. `np.corrcoef` then raises on the length mismatch. This
  happens after `t_null` has been appended (line 55 comes before line 75). The
  model returns `Err(WindowPastEnd)` with the offset already logged, and the
  scan stops at that frame.

## Model

| member | source | states |
|---|---|---|
| `Iq.U8ToReal` | correlate_with_ref.py:27 | a u8 component b becomes b/256 − 0.5, a value in [−0.5, 127/256] that is −0.5 exactly for b = 0 |
| `Iq.DecodeU8` | correlate_with_ref.py:23-27 | an odd byte count fails, as the reshape does; otherwise there are n/2 samples, and sample k takes I from byte k and Q from byte n/2 + k |
| `Iq.DecodeU8RoundTrip` | correlate_with_ref.py:24-27 | re-encoding a decoded u8 recording in the same half/half layout gives back exactly the original bytes |
| `Iq.DecodeU8Bounds` | correlate_with_ref.py:27 | every decoded I and Q component lies in [−0.5, 127/256] |
| `Iq.PlanarDecodeSplitsInterleavedPairs` | correlate_with_ref.py:25-26 | for the interleaved bytes I0=0 Q0=255 I1=128 Q1=64, the first sample gets I1 as its Q component, so the two decodes differ |
| `Iq.DecodeU8Interleaved` | correlate_with_ref.py:25-26 | corrected decode: sample k takes I from byte 2k and Q from byte 2k + 1; an odd byte count still fails |
| `Iq.EncodeU8Interleaved` | correlate_with_ref.py:25-26 | the interleaved layout: bytes 2k and 2k + 1 hold the I and Q of sample k |
| `Iq.DecodeU8InterleavedRoundTrip` | correlate_with_ref.py:25-27 | re-encoding an interleaved decode gives back exactly the original bytes |
| `Sums.SumRange` | correlate_with_ref.py:49 | the running total over m[lo..hi] equals the sum of that slice |
| `Sums.SumZeroIff` | correlate_with_ref.py:84 | a sum of non-negative magnitudes is zero if and only if every magnitude is zero |
| `NullSearch.SearchPositionsExact` | correlate_with_ref.py:48-49 | the visited starts are exactly the multiples of 20 in [0, 196608 − 2656), in increasing order, the last being 193940 |
| `NullSearch.Profile` | correlate_with_ref.py:49 | the power profile has one entry per visited start, 9698 entries in all |
| `NullSearch.ProfileAt` | correlate_with_ref.py:49 | profile entry j is the summed magnitude of the 2656-sample window starting 20 · j samples into the frame |
| `NullSearch.FirstArgMin` | correlate_with_ref.py:53 | `argmin`: a valid index into the profile; it moves to a later entry only when that entry is strictly smaller, so ties keep the earliest |
| `NullSearch.FirstArgMinIsFirstMinimum` | correlate_with_ref.py:53 | argmin picks an entry no larger than any other, and every earlier entry is strictly larger |
| `NullSearch.FirstArgMinCharacterised` | correlate_with_ref.py:53 | an index is the argmin if and only if it is a minimum with every earlier entry strictly larger |
| `NullSearch.FirstArgMinOrderInvariant` | correlate_with_ref.py:53 | the argmin depends only on how the profile entries compare |
| `NullSearch.NullOffset` | correlate_with_ref.py:53 | t_null = 20 · argmin of the profile, so it is at most 193940 |
| `NullSearch.NullOffsetIsFirstMinimum` | correlate_with_ref.py:48-53 | t_null is a visited start (a multiple of 20, at most 193940); its window power is at most that of every visited start and strictly less than that of every earlier one |
| `NullSearch.NullSymbolFound` | correlate_with_ref.py:46-53 | if the NULL-length block at a visited start p is silent and every other sample of the frame has positive magnitude, then t_null = p |
| `NullSearch.NullOffsetOrderInvariant` | correlate_with_ref.py:49-53 | two frames whose visited window powers compare alike have the same t_null |
| `Sums.SumScaled` | correlate_with_ref.py:49 | multiplying every term by c multiplies the sum by c |
| `NullSearch.ScaledWindow` | correlate_with_ref.py:49 | multiplying every magnitude by c multiplies the power of every window by c |
| `NullSearch.ScaledMagnitudesKeepNull` | correlate_with_ref.py:49-53 | multiplying every magnitude of the frame by c > 0 leaves t_null unchanged |
| `NullSearch.ArgMin` | correlate_with_ref.py:53 | the running-minimum loop returns the first index of the least entry |
| `NullSearch.CoarseSearch` | correlate_with_ref.py:48-53 | the profile-then-argmin loops return t_null, and it has the range, alignment, minimality and first-occurrence properties above |
| `Correlation.Magnitudes` | correlate_with_ref.py:49 | `np.abs` over the channel: one non-negative magnitude per sample, entry i being the magnitude of sample i |
| `Correlation.CorrStart` | correlate_with_ref.py:68 | corr_start_ix lies inside the detected NULL window, 50 samples before its end: t_null ≤ corr_start_ix and corr_start_ix + 50 = t_null + 2656 |
| `Correlation.WindowsFit` | correlate_with_ref.py:75-80 | the condition under which `np.corrcoef` does not raise: the reference is empty, or the delay-999 window ends inside the recording |
| `Correlation.CorrBank` | correlate_with_ref.py:75-80 | the bank has exactly 1000 non-negative entries, and entry i correlates the window of len(phase_ref) samples starting i samples after its start |
| `Correlation.Normalise` | correlate_with_ref.py:82-86 | the row is unnormalised exactly when the channel power is zero; it keeps the bank's length and non-negativity |
| `Correlation.ChannelPower` | correlate_with_ref.py:84 | channel_power is the summed magnitude over the whole frame, and it is non-negative when the magnitudes are |
| `Correlation.Divided` | correlate_with_ref.py:86 | `cir / channel_power` elementwise: same length, entry i is cir[i] / channel_power |
| `Correlation.FrameCir` | correlate_with_ref.py:57-86 | one frame fails exactly when a correlation window would run past the end of the recording; otherwise its CIR has 1000 non-negative entries |
| `Correlation.FrameCirEntries` | correlate_with_ref.py:68-86 | entry i is \|corr\| of window [startIx + t_null + 2606 + i, … + len(phase_ref)) against phase_ref, divided by the magnitude sum over [startIx, startIx + 196608); this sum does not depend on t_null, and the entry is ≥ 0 whenever the sum is > 0 |
| `Correlation.ChannelPowerZeroIff` | correlate_with_ref.py:84-86 | the channel power is zero if and only if every sample of the frame has zero magnitude |
| `Correlation.WindowsFitForEveryNull` | correlate_with_ref.py:68-80 | the furthest read is startIx + 193940 + 2606 + 999 + len(phase_ref); if that read fits, every t_null the search can return fits |
| `Correlation.LateNullReadsPastFrame` | correlate_with_ref.py:75-80 | when t_null is the last visited start, the windows run past the end of the frame itself |
| `Correlation.ChannelPowerScaled` | correlate_with_ref.py:84 | multiplying every magnitude by c multiplies the channel power by c |
| `Correlation.NormaliseScaled` | correlate_with_ref.py:82-86 | normalising the same correlation bank by c > 0 times the power gives a row of the same kind, each entry divided by c |
| `Correlation.CorrelationBank` | correlate_with_ref.py:75-80 | the delay loop computes exactly the correlation bank |
| `CirCorrelate.FrameCount` | correlate_with_ref.py:89 | floor(len / 196608): the frames fit in the recording, and one more would not |
| `CirCorrelate.Outcome` | correlate_with_ref.py:91-93 | one `calc_one_cir_` call: the offset it logs and its CIR, which fails exactly when the windows for that logged offset do not fit |
| `CirCorrelate.Outcomes` | correlate_with_ref.py:89-93 | one outcome per complete frame |
| `CirCorrelate.OutcomesAt` | correlate_with_ref.py:91-93 | outcome j is the offset and the CIR of the frame starting at j · 196608 |
| `CirCorrelate.ScanUpTo` | correlate_with_ref.py:91-93 | log every frame's offset in order and stop after the first failing frame, as the exception ends the comprehension: at most k offsets are logged, and a successful scan has one row per logged offset |
| `CirCorrelate.ScanStopsAtError` | correlate_with_ref.py:91-93 | once a frame has failed, the scan's log and result do not change |
| `CirCorrelate.ScanCompleted` | correlate_with_ref.py:89-93 | a successful scan of k frames has k rows and k logged offsets, in frame order, entry j coming from frame j |
| `CirCorrelate.ScanStopped` | correlate_with_ref.py:89-93 | a failed scan stops at the first failing frame f; offsets 0..f are logged in frame order, earlier frames succeeded, and the error is f's |
| `CirCorrelate.OnlyLastFrameCanFail` | correlate_with_ref.py:75-80 | when len(phase_ref) ≤ 195671, every frame but the last has all the samples its windows read |
| `CirCorrelate.ScanFailsOnlyOnLastFrame` | correlate_with_ref.py:89-93 | when len(phase_ref) ≤ 195671, a failed scan has still logged one offset per frame |
| `CirCorrelate.CirCorrelate.constructor` | correlate_with_ref.py:34-35 | the object holds the recording and the phase reference, and the offset log starts empty |
| `CirCorrelate.CirCorrelate.FromU8` | correlate_with_ref.py:23-27 | a u8 recording is decoded into the channel as the code does it, I from the first half of the bytes and Q from the second; an odd byte count gives no object, and the offset log starts empty |
| `CirCorrelate.CirCorrelate.FromU8Interleaved` | correlate_with_ref.py:23-27 | the corrected u8 constructor (see Findings): the channel is the interleaved decode; an odd byte count gives no object, and the offset log starts empty |
| `CirCorrelate.CirCorrelate.CalcOneCir` | correlate_with_ref.py:37-86 | appends exactly t_null to the log and leaves earlier entries unchanged; returns FrameCir of the frame; warns exactly when len(phase_ref) ≠ 2552, without changing the result |
| `CirCorrelate.CirCorrelate.ProcessFrame` | correlate_with_ref.py:91-93 | one turn of the frame loop logs frame k's offset and returns frame k's CIR |
| `CirCorrelate.CirCorrelate.ScanFrames` | correlate_with_ref.py:88-93 | processes frames k = 0, 1, … at k · 196608; the log grows by the scan's offsets, appended to what it held before; the rows are those of the scan |

## Left out

- Reading the IQ file and the phase reference with `np.fromfile`
  (lines 21, 24, 29) is I/O. The decoded channel, or the raw u8 bytes, and the
  phase reference are inputs.
- The fc64 branch (line 28) is left out. It is reached by testing
  `sys.argv[1]` rather than `iq_format`. A float recording is passed to the
  constructor as decoded samples.
- `np.abs` of a complex sample (a square root) and `np.corrcoef` (means,
  variances, square roots) are floating-point library numerics. They are the
  parameters `Numerics.abs` and `Numerics.corrAbs`, with nothing assumed
  beyond non-negativity.
- NullSearch.ScaledMagnitudesKeepNull: states scale behaviour for scaled
  magnitudes, not for a scaled recording. Carrying it over to the channel
  would need `Numerics.abs` to be homogeneous and `Numerics.corrAbs` to be
  scale invariant, and neither is assumed of the parameters.
- NullSearch.NullSymbolFound: covers a silent NULL block that starts at a
  visited start (a multiple of 20). A silent block at any other offset is not
  shown to be found within 20 samples. With merely positive magnitudes
  around it that would not hold. The visited starts next to the block each
  take in fewer than 20 samples on one side of it. When the samples within
  20 of the block on both sides are large enough, both those windows can
  outweigh a quiet window elsewhere in the frame, and that window is then
  the least.
- Floating-point rounding, nan and inf are left out. Magnitudes are exact
  reals. A zero-power frame yields a `ZeroPower` row holding the unnormalised
  magnitudes, not numpy's nan/inf values.
- `CalcOneCir` requires `startIx + 196608 <= len(channel)`. This holds for the
  only caller, `plot`. A direct call with a later start would make numpy
  silently sum truncated windows, and that is not modelled.
- The recovery of a multipath delay from a correlation peak is left out. It
  depends on the values of `np.corrcoef`, which are opaque here.
- Plotting is UI and is left out: `pp.subplot`, `pp.plot`, `pp.imshow`,
  `savefig`/`show`, the global `file_figure` and the column sum that is only
  displayed (lines 95-103).
- The `print` diagnostics (lines 31-32, 61) are left out. The length warning
  of line 61 is the `warned` result of `CalcOneCir`.
- Command-line parsing and the `__main__` block (lines 106-125) are left out.

## Findings

| source | as written | input that shows it | evidently intended | confidence | as-written member | corrected member |
|---|---|---|---|---|---|---|
| correlate_with_ref.py:25-26 | `reshape(2, n/2)` takes the first half of the file as I and the second half as Q | the interleaved u8 capture I0=0 Q0=255 I1=128 Q1=64: the first sample gets Q = I1 = 0.0 instead of Q0 = 127/256 | alternating I and Q bytes, as the usage text ("8-bit unsigned I + 8-bit unsigned Q") and the fc64 format (interleaved complex64) have | medium, not executed | `Iq.DecodeU8`, `Iq.PlanarDecodeSplitsInterleavedPairs` | `Iq.DecodeU8Interleaved`, `Iq.DecodeU8InterleavedRoundTrip`, `CirCorrelate.CirCorrelate.FromU8Interleaved` |
