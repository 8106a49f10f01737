/** Model of dft.c: `dft` fills the magnitude array of one window, and `main`
    reads the samples after the WAV header window by window, keeps the running
    sample offset, and prints one report block per window with the bins above
    the threshold. The loops of `dft` are modelled; the cos/sin terms they add up,
    the scaling and the square root are uninterpreted, and so is `%f`. The driver
    is stated for any magnitude function, `BinMagnitude` among them. */
module Dft {
  import opened Results
  import opened Decimal
  import opened Freqdata
  import opened FreqGraph
  import opened WavFile
  import Bits

  const Delta: nat := 5                   // `DELTA`, Hz per bin
  const NumSample: nat := 8820            // `NUM_SAMPLE`, `44100 / DELTA` samples per window (the size of `buf`)
  const MaxFreq: nat := 2000              // `MAX_FREQ`
  const MinAmp: real := 0.5               // `MIN_AMP`, printing threshold
  const NumBins: nat := 400               // `MAX_FREQ / DELTA`, the size of `result`

  /** The window size and the bin count are the source's quotients of the constants above. */
  lemma {:induction false} DerivedConstants()
    ensures NumSample == 44100 / Delta && NumBins == MaxFreq / Delta
  {
  }

  type NonNeg = x: real | x >= 0.0

  /** The value `dft` stores for bin `w` (frequency `w * delta`) of the samples it
      is given: a square root, so never negative. */
  type Magnitude = (seq<int>, nat) -> NonNeg

  /** One term of the inner sums of `dft`: `sample[t] * cos(theta)` (or `sin`), with
      `theta = w * (2 * PI / num_sample) * t`, as a function of `sample[t]`, `w`, `t`
      and `num_sample`. The floating-point value is left uninterpreted. */
  type Term = (int, nat, nat, nat) -> real

  /** The scaling of both sums by `2 * PI / num_sample / MAX_SINT` and the square root
      of the sum of their squares, given the two sums and `num_sample`. */
  type Norm = (real, real, nat) -> NonNeg

  /** The accumulator of the `t` loop after its first `n` turns: the terms for
      `t = 0 .. n - 1` of bin `w`, added in loop order. */
  function Sum(sample: seq<int>, n: nat, w: nat, numSample: nat, term: Term): real
    requires n <= |sample|
  {
    if n == 0 then 0.0 else Sum(sample, n - 1, w, numSample, term) + term(sample[n - 1], w, n - 1, numSample)
  }

  /** The magnitude `dft` computes for bin `w` of a window it is given whole. */
  function BinMagnitude(cosTerm: Term, sinTerm: Term, norm: Norm): Magnitude {
    (window: seq<int>, w: nat) =>
      norm(Sum(window, |window|, w, |window|, cosTerm), Sum(window, |window|, w, |window|, sinTerm), |window|)
  }

  /** How many bins `dft` fills: the `w` with `1 <= w <= max_freq / delta`. */
  function BinCount(maxFreq: real, delta: real): nat
    requires delta > 0.0
  {
    if maxFreq / delta < 1.0 then 0 else (maxFreq / delta).Floor
  }

  /** Bin `w >= 1` is filled exactly when it passes the loop test `w <= max_freq / delta`. */
  lemma {:induction false} BinCountCounts(maxFreq: real, delta: real, w: int)
    requires delta > 0.0 && w >= 1
    ensures w <= BinCount(maxFreq, delta) <==> w as real <= maxFreq / delta
  {
  }

  /** With the constants `main` passes, the loop of `dft` covers exactly the 400 entries of `result`. */
  lemma {:induction false} MainBinCount()
    ensures BinCount(MaxFreq as real, Delta as real) == NumBins
  {
    assert (MaxFreq as real) / (Delta as real) == 400.0;
  }

  /** What `dft` leaves in `result`: bin `w` at index `w - 1` for every counted bin,
      computed from the first `numSample` samples only; the rest untouched. */
  function DftResult(sample: seq<int>, numSample: nat, result: seq<real>, bins: nat, mag: Magnitude): (r: seq<real>)
    requires numSample <= |sample| && bins <= |result|
    ensures |r| == |result|
  {
    seq(|result|, i requires 0 <= i < |result| => if i < bins then mag(sample[..numSample], i + 1) as real else result[i])
  }

  /** `dft(sample, num_sample, result, max_freq, delta)`: the `w` loop, writing
      `result[w - 1]` for `w = 1 .. max_freq / delta`, each from the two sums of the
      inner `t` loop over `t < num_sample`. */
  method DftLoop(sample: seq<int>, numSample: nat, result: seq<real>, maxFreq: real, delta: real,
                 cosTerm: Term, sinTerm: Term, norm: Norm)
    returns (r: seq<real>)
    requires numSample <= |sample|
    requires delta > 0.0 && BinCount(maxFreq, delta) <= |result|
    ensures |r| == |result|
    ensures forall i :: 0 <= i < BinCount(maxFreq, delta) ==>
      r[i] == norm(Sum(sample, numSample, i + 1, numSample, cosTerm), Sum(sample, numSample, i + 1, numSample, sinTerm), numSample) as real
    ensures forall i :: BinCount(maxFreq, delta) <= i < |result| ==> r[i] == result[i]
    ensures r == DftResult(sample, numSample, result, BinCount(maxFreq, delta), BinMagnitude(cosTerm, sinTerm, norm))
  {
    var bins := BinCount(maxFreq, delta);
    r := result;
    var w: nat := 1;
    BinCountCounts(maxFreq, delta, 1);
    while w as real <= maxFreq / delta
      invariant 1 <= w <= bins + 1
      invariant w as real <= maxFreq / delta <==> w <= bins
      invariant |r| == |result|
      invariant forall i :: 0 <= i < w - 1 ==>
        r[i] == norm(Sum(sample, numSample, i + 1, numSample, cosTerm), Sum(sample, numSample, i + 1, numSample, sinTerm), numSample) as real
      invariant forall i :: w - 1 <= i < |result| ==> r[i] == result[i]
      decreases bins + 1 - w
    {
      var re, im := 0.0, 0.0;
      var t: nat := 0;
      while t < numSample
        invariant t <= numSample
        invariant re == Sum(sample, t, w, numSample, cosTerm) && im == Sum(sample, t, w, numSample, sinTerm)
      {
        re := re + cosTerm(sample[t], w, t, numSample);
        im := im + sinTerm(sample[t], w, t, numSample);
        t := t + 1;
      }
      r := r[w - 1 := norm(re, im, numSample) as real];
      w := w + 1;
      BinCountCounts(maxFreq, delta, w);
    }
    var window := sample[..numSample];
    forall i | 0 <= i < bins
      ensures r[i] == BinMagnitude(cosTerm, sinTerm, norm)(window, i + 1) as real
    {
      DftReadsPrefix(sample, window, numSample, i + 1, numSample, cosTerm);
      DftReadsPrefix(sample, window, numSample, i + 1, numSample, sinTerm);
    }
  }

  /** The `t` loop reads only `sample[t]` for the `t` it has run through: buffers
      agreeing on the first `n` samples give the same sums after `n` turns, whatever
      follows in the buffer. */
  lemma {:induction false} DftReadsPrefix(sample: seq<int>, other: seq<int>, n: nat, w: nat, numSample: nat, term: Term)
    requires n <= |sample| && n <= |other|
    requires sample[..n] == other[..n]
    ensures Sum(sample, n, w, numSample, term) == Sum(other, n, w, numSample, term)
    decreases n
  {
    if n > 0 {
      assert sample[n - 1] == sample[..n][n - 1] == other[..n][n - 1] == other[n - 1];
      assert sample[..n - 1] == sample[..n][..n - 1] == other[..n][..n - 1] == other[..n - 1];
      DftReadsPrefix(sample, other, n - 1, w, numSample, term);
    }
  }

  /** With `bins == |result|`, as in `main`, nothing of the previous window survives in `result`. */
  lemma {:induction false} DftOverwritesAll(sample: seq<int>, numSample: nat, result: seq<real>, previous: seq<real>, mag: Magnitude)
    requires numSample <= |sample| && |result| == |previous|
    ensures DftResult(sample, numSample, result, |result|, mag) == DftResult(sample, numSample, previous, |previous|, mag)
  {
  }

  /** The report entries of a window from bin index `r` on: `((r+1) * DELTA, result[r])`
      for each `result[r] > MIN_AMP`, in bin order (the `for r` loop of `main`). */
  function Filter(result: seq<real>, r: nat): (es: seq<Ampdata>)
    requires |result| == NumBins
    ensures r <= NumBins ==> |es| <= NumBins - r
    decreases NumBins - r
  {
    if r >= NumBins then []
    else if result[r] > MinAmp then [Ampdata((r + 1) * Delta, result[r])] + Filter(result, r + 1)
    else Filter(result, r + 1)
  }

  /** Every printed entry is a bin `k >= r` above the threshold, at frequency `(k+1) * DELTA`
      (a multiple of 5 between 5 and 2000) with the magnitude of that bin. */
  lemma {:induction false} FilterSound(result: seq<real>, r: nat)
    requires |result| == NumBins
    ensures forall e :: e in Filter(result, r) ==>
      var k := e.freq / Delta - 1;
      r <= k < NumBins && e.freq == (k + 1) * Delta && e.amp == result[k] && e.amp > MinAmp
    decreases NumBins - r
  {
    if r < NumBins {
      FilterSound(result, r + 1);
    }
  }

  /** Entries come in strictly increasing frequency. */
  lemma {:induction false} FilterIncreasing(result: seq<real>, r: nat)
    requires |result| == NumBins
    ensures forall j, j' :: 0 <= j < j' < |Filter(result, r)| ==> Filter(result, r)[j].freq < Filter(result, r)[j'].freq
    decreases NumBins - r
  {
    if r < NumBins {
      FilterIncreasing(result, r + 1);
      FilterSound(result, r + 1);
      var tail := Filter(result, r + 1);
      if result[r] > MinAmp {
        forall j' | 0 <= j' < |tail| ensures (r + 1) * Delta < tail[j'].freq {
          assert tail[j'] in tail;
        }
      }
    }
  }

  /** A bin `k >= r` is printed if and only if its magnitude is strictly above `MIN_AMP`:
      a magnitude of exactly 0.5 is dropped. */
  lemma {:induction false} FilterComplete(result: seq<real>, r: nat, k: nat)
    requires |result| == NumBins && r <= k < NumBins
    ensures result[k] > MinAmp <==> Ampdata((k + 1) * Delta, result[k]) in Filter(result, r)
    decreases k - r
  {
    FilterSound(result, r);
    if r < k {
      FilterComplete(result, r + 1, k);
    }
  }

  /** A window whose magnitudes are all at most `MIN_AMP` prints no entries. */
  lemma {:induction false} QuietWindowHasNoEntries(result: seq<real>, r: nat)
    requires |result| == NumBins
    requires forall k :: 0 <= k < NumBins ==> result[k] <= MinAmp
    ensures Filter(result, r) == []
    decreases NumBins - r
  {
    if r < NumBins {
      QuietWindowHasNoEntries(result, r + 1);
    }
  }

  /** The line `printf("#%ld\n", current_ptr)`. */
  function OffsetLine(currentPtr: int): string {
    "#" + Format(currentPtr) + "\n"
  }

  /** The loop of `main` from the current read position: one block per positive
      `read_data`, the offset advancing by the samples read, `result` carried over. */
  function Report(stream: seq<Byte>, currentPtr: int, result: seq<real>, mag: Magnitude, fmt: AmpFormat): seq<string>
    requires |result| == NumBins
    decreases |stream|
  {
    var rd := ReadData(stream, NumSample);
    if rd.count == 0 then []
    else
      var result' := DftResult(rd.samples, rd.count, result, NumBins, mag);
      [OffsetLine(currentPtr)] + EntryLines(Filter(result', 0), fmt) + [BlankLine]
      + Report(rd.rest, currentPtr + rd.count, result', mag, fmt)
  }

  /** The samples of each positive `read_data` call, in order. */
  function Windows(stream: seq<Byte>): (ws: seq<seq<int>>)
    ensures forall k :: 0 <= k < |ws| ==> 1 <= |ws[k]| <= NumSample
    ensures forall k :: 0 <= k < |ws| - 1 ==> |ws[k]| == NumSample
    decreases |stream|
  {
    var rd := ReadData(stream, NumSample);
    if rd.count == 0 then [] else [rd.samples] + Windows(rd.rest)
  }

  /** The magnitudes `dft` stores for a window. */
  function Spectrum(window: seq<int>, mag: Magnitude): (s: seq<real>)
    ensures |s| == NumBins
  {
    seq(NumBins, i requires 0 <= i < NumBins => mag(window, i + 1) as real)
  }

  /** The entries `main` prints for a window: the bins of its spectrum above the threshold. */
  function WindowEntries(mag: Magnitude): seq<int> -> seq<Ampdata> {
    window => Filter(Spectrum(window, mag), 0)
  }

  /** The blocks the report describes: each window's offset and its printed entries. */
  function Blocks(ws: seq<seq<int>>, offset: int, entries: seq<int> -> seq<Ampdata>): (bs: seq<Freqdata>)
    ensures |bs| == |ws|
  {
    if |ws| == 0 then []
    else [Freqdata(offset, entries(ws[0]), 0)] + Blocks(ws[1..], offset + |ws[0]|, entries)
  }

  /** The samples in a list of windows, in order. */
  function Flatten(ws: seq<seq<int>>): seq<int> {
    if |ws| == 0 then [] else ws[0] + Flatten(ws[1..])
  }

  /** What `main` prints has the same framing as `print_g_ptr_array` of its blocks:
      the `#` line, one line per entry and the blank line, with the amplitude text
      left to `fmt` (`%f` in `main`, `%8.5f` in the printers). */
  lemma {:induction false} ReportIsPrintedBlocks(stream: seq<Byte>, currentPtr: int, result: seq<real>, mag: Magnitude, fmt: AmpFormat)
    requires |result| == NumBins
    ensures Report(stream, currentPtr, result, mag, fmt) == PrintArray(Blocks(Windows(stream), currentPtr, WindowEntries(mag)), fmt)
    decreases |stream|
  {
    var rd := ReadData(stream, NumSample);
    if rd.count > 0 {
      var result' := DftResult(rd.samples, rd.count, result, NumBins, mag);
      assert result' == Spectrum(rd.samples, mag) by {
        assert rd.samples[..rd.count] == rd.samples;
      }
      var b := Freqdata(currentPtr, Filter(result', 0), 0);
      var bs := Blocks(Windows(rd.rest), currentPtr + rd.count, WindowEntries(mag));
      assert Report(stream, currentPtr, result, mag, fmt)
          == BlockLines(b, fmt) + Report(rd.rest, currentPtr + rd.count, result', mag, fmt) by {
        ReportStep(stream, currentPtr, result, mag, fmt, rd);
        assert OffsetLine(currentPtr) == HeaderLine(b.samplePoint);
      }
      assert Blocks(Windows(stream), currentPtr, WindowEntries(mag)) == [b] + bs by {
        WindowsStep(stream, rd);
        var ws := Windows(stream);
        assert ws[0] == rd.samples && ws[1..] == Windows(rd.rest);
        assert WindowEntries(mag)(rd.samples) == Filter(result', 0);
        BlocksStep(ws, currentPtr, WindowEntries(mag));
      }
      assert PrintArray([b] + bs, fmt) == BlockLines(b, fmt) + PrintArray(bs, fmt) by {
        assert ([b] + bs)[0] == b && ([b] + bs)[1..] == bs;
      }
      ReportIsPrintedBlocks(rd.rest, currentPtr + rd.count, result', mag, fmt);
    }
  }

  lemma {:induction false} ReportStep(stream: seq<Byte>, currentPtr: int, result: seq<real>, mag: Magnitude, fmt: AmpFormat, rd: Read)
    requires |result| == NumBins
    requires rd == ReadData(stream, NumSample) && rd.count > 0
    ensures Report(stream, currentPtr, result, mag, fmt)
         == [OffsetLine(currentPtr)] + EntryLines(Filter(DftResult(rd.samples, rd.count, result, NumBins, mag), 0), fmt) + [BlankLine]
            + Report(rd.rest, currentPtr + rd.count, DftResult(rd.samples, rd.count, result, NumBins, mag), mag, fmt)
  {
  }

  lemma {:induction false} WindowsStep(stream: seq<Byte>, rd: Read)
    requires rd == ReadData(stream, NumSample) && rd.count > 0
    ensures Windows(stream) == [rd.samples] + Windows(rd.rest) && |rd.samples| == rd.count
  {
  }

  lemma {:induction false} BlocksStep(ws: seq<seq<int>>, offset: int, entries: seq<int> -> seq<Ampdata>)
    requires |ws| > 0
    ensures Blocks(ws, offset, entries) == [Freqdata(offset, entries(ws[0]), 0)] + Blocks(ws[1..], offset + |ws[0]|, entries)
  {
  }

  function SumLengths(ws: seq<seq<int>>): nat {
    if |ws| == 0 then 0 else |ws[0]| + SumLengths(ws[1..])
  }

  /** Block `k` sits at the starting offset plus the sizes of the windows before it
      (the running `current_ptr += size`), and holds the entries of window `k`. */
  lemma {:induction false} BlockOffsets(ws: seq<seq<int>>, offset: int, entries: seq<int> -> seq<Ampdata>, k: nat)
    requires k < |ws|
    ensures Blocks(ws, offset, entries)[k] == Freqdata(offset + SumLengths(ws[..k]), entries(ws[k]), 0)
    decreases k
  {
    if k == 0 {
      assert SumLengths(ws[..0]) == 0 by {
        assert ws[..0] == [];
      }
      BlocksStep(ws, offset, entries);
    } else {
      var tail := Blocks(ws[1..], offset + |ws[0]|, entries);
      BlockOffsets(ws[1..], offset + |ws[0]|, entries, k - 1);
      assert SumLengths(ws[..k]) == |ws[0]| + SumLengths(ws[1..][..k - 1]) by {
        assert ws[..k][1..] == ws[1..][..k - 1];
      }
      assert ws[1..][k - 1] == ws[k];
      assert Blocks(ws, offset, entries)[k] == tail[k - 1] by {
        BlocksStep(ws, offset, entries);
        ConsIndex(Freqdata(offset, entries(ws[0]), 0), tail, k);
      }
    }
  }

  lemma {:induction false} ConsIndex<T>(x: T, s: seq<T>, k: nat)
    requires 0 < k <= |s|
    ensures ([x] + s)[k] == s[k - 1]
  {
  }

  lemma {:induction false} SumOfFullWindows(ws: seq<seq<int>>, k: nat)
    requires k <= |ws|
    requires forall j :: 0 <= j < k ==> |ws[j]| == NumSample
    ensures SumLengths(ws[..k]) == k * NumSample
    decreases k
  {
    if k > 0 {
      SumOfFullWindows(ws[1..], k - 1);
      assert ws[..k][1..] == ws[1..][..k - 1];
    }
  }

  /** The offsets `main` prints: window `k` starts at sample `k * NUM_SAMPLE` past the
      start, so offsets strictly increase from the starting one. */
  lemma {:induction false} WindowOffsets(stream: seq<Byte>, offset: int, mag: Magnitude, k: nat)
    requires k < |Windows(stream)|
    ensures Blocks(Windows(stream), offset, WindowEntries(mag))[k].samplePoint == offset + k * NumSample
  {
    BlockOffsets(Windows(stream), offset, WindowEntries(mag), k);
    SumOfFullWindows(Windows(stream), k);
  }

  /** The windows split the stream's whole 16-bit samples without loss or overlap:
      in order they are all `|stream| / 2` samples, and an odd last byte is dropped. */
  lemma {:induction false} WindowsCoverSamples(stream: seq<Byte>)
    ensures Flatten(Windows(stream)) == Samples(stream, |stream| / 2)
    decreases |stream|
  {
    var rd := ReadData(stream, NumSample);
    if rd.count > 0 {
      WindowsStep(stream, rd);
      assert Flatten(Windows(stream)) == rd.samples + Flatten(Windows(rd.rest)) by {
        var ws := Windows(stream);
        assert ws[0] == rd.samples && ws[1..] == Windows(rd.rest);
      }
      WindowsCoverSamples(rd.rest);
      if rd.count == NumSample {
        assert |rd.rest| / 2 == |stream| / 2 - NumSample;
        SamplesSplit(stream, |stream| / 2, NumSample);
      } else {
        assert |stream| / 2 == rd.count && Samples(rd.rest, |rd.rest| / 2) == [];
      }
    }
  }

  /** The number of blocks is the number of positive reads: `|stream| / 2` samples in
      windows of `NUM_SAMPLE`, the last one possibly shorter. */
  lemma {:induction false} WindowCount(stream: seq<Byte>)
    ensures |Windows(stream)| == (|stream| / 2 + NumSample - 1) / NumSample
    decreases |stream|
  {
    var rd := ReadData(stream, NumSample);
    var total := |stream| / 2;
    if rd.count == 0 {
      assert total == 0;
    } else {
      WindowCount(rd.rest);
      assert |Windows(stream)| == 1 + |Windows(rd.rest)|;
      if rd.count == NumSample {
        assert |rd.rest| / 2 == total - NumSample;
        CeilingStep(total);
      } else {
        assert |rd.rest| == 0 && 1 <= total < NumSample;
      }
    }
  }

  lemma {:induction false} CeilingStep(total: nat)
    requires total >= NumSample
    ensures (total + NumSample - 1) / NumSample == 1 + (total - 1) / NumSample
  {
    var q := (total - 1) / NumSample;
    var m := (total - 1) % NumSample;
    Bits.DivModUnique(total + NumSample - 1, NumSample, q + 1, m);
  }

  /** `dft.c`'s output is read by freqgraph.c's `read_file` into its blocks: the
      offsets and frequencies come back, amplitudes through their `%f` text. */
  lemma {:induction false} ReportReadsBack(stream: seq<Byte>, result: seq<real>, mag: Magnitude, fmt: AmpFormat, atof: AmpParse)
    requires |result| == NumBins
    ensures ReadFile(Report(stream, 0, result, mag, fmt), atof) == Ok(Reparse(Blocks(Windows(stream), 0, WindowEntries(mag)), fmt, atof))
  {
    ReportIsPrintedBlocks(stream, 0, result, mag, fmt);
    PrintReadRoundTrip(Blocks(Windows(stream), 0, WindowEntries(mag)), fmt, atof);
  }

  /** The output starts directly with the block line `#0`: no sample-count or
      interval line precedes it. An input with fewer than two data bytes prints nothing. */
  lemma {:induction false} ReportStartsWithFirstBlock(stream: seq<Byte>, result: seq<real>, mag: Magnitude, fmt: AmpFormat)
    requires |result| == NumBins
    ensures |stream| >= 2 ==> |Report(stream, 0, result, mag, fmt)| >= 2 && Report(stream, 0, result, mag, fmt)[0] == "#0\n"
    ensures |stream| < 2 ==> Report(stream, 0, result, mag, fmt) == []
  {
    if |stream| >= 2 {
      assert Format(0) == "0";
    }
  }

  /** fg/freqgraph.c's `read_file` takes the first two lines as header. On `dft.c`'s
      output whose first window prints an entry, the third line is an entry or
      blank line, and the read fails with "Invalid format". */
  lemma {:induction false} FgReaderRejectsReport(stream: seq<Byte>, result: seq<real>, mag: Magnitude, fmt: AmpFormat, atof: AmpParse)
    requires |result| == NumBins && |stream| >= 2
    requires |Filter(Spectrum(Windows(stream)[0], mag), 0)| > 0
    ensures var lines := Report(stream, 0, result, mag, fmt);
            |lines| >= 3 && ReadFileWithHeader(lines, atof) == Err(InvalidFormat(lines[2]))
  {
    ReportIsPrintedBlocks(stream, 0, result, mag, fmt);
    BlockOffsets(Windows(stream), 0, WindowEntries(mag), 0);
    HeaderReaderRejectsEntries(Blocks(Windows(stream), 0, WindowEntries(mag)), fmt, atof);
  }

  /** On `dft.c`'s output whose first window prints no entry, fg/freqgraph.c's
      `read_file` reads sample count 0 and interval 0 from `#0` and the blank line,
      and drops the first block. */
  lemma {:induction false} FgReaderDropsFirstBlock(stream: seq<Byte>, result: seq<real>, mag: Magnitude, fmt: AmpFormat, atof: AmpParse)
    requires |result| == NumBins && |stream| >= 2
    requires Filter(Spectrum(Windows(stream)[0], mag), 0) == []
    ensures ReadFileWithHeader(Report(stream, 0, result, mag, fmt), atof)
         == Ok(FreqdataList(0, 0, Reparse(Blocks(Windows(stream), 0, WindowEntries(mag))[1..], fmt, atof)))
  {
    ReportIsPrintedBlocks(stream, 0, result, mag, fmt);
    BlockOffsets(Windows(stream), 0, WindowEntries(mag), 0);
    HeaderReaderDropsEmptyBlock(Blocks(Windows(stream), 0, WindowEntries(mag)), fmt, atof);
  }
}
