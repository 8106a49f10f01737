# dft: a verified model of the analyser core

`dft` is a small C audio analyser. It has four parts:

- **dft.c** reads a 16-bit PCM WAV file in windows of 8820 samples (one fifth of a second at 44.1 kHz). For each window it evaluates a direct discrete Fourier sum at 400 bins, spaced 5 Hz apart. It prints one text block per window: `#<sample offset>`, then one `freq amp` line per bin above the threshold 0.5, then a blank line.
- **fft.c** computes one bin of a radix-2 decimation-in-time FFT. It reverses the bits of the bin index, then unrolls the butterfly as plain recursion.
- **wavfile.c** checks and decodes the fixed 44-byte RIFF/WAVE header, then serves samples with `read_data`.
- **freqgraph.c** and **fg/freqgraph.c** are the two viewers. Each has a line-oriented `read_file` for the report text and a matching printer, `print_g_ptr_array`. The `fg/` version expects two header lines first. **fg/freqdata.c** (duplicated in freqgraph.c) is the block container, with a read cursor.

The Dafny project models each of these as pure functions over immutable values:

| module | file | models |
|---|---|---|
| `Results` | results.dfy | the `Result` type the error paths return |
| `Bits` | bits.dfy | `1 << k`, `>>`, `n & 1`, `&` on naturals, and the bit facts the FFT needs |
| `Fft` | fft.dfy | `bit_reverse`, `_fft`, `fft` over exact complex numbers, with the twiddle `cexp(...)` as a parameter |
| `Decimal` | decimal.dfy | `printf("%ld")`/`%d` of an integer and `atol`/`atoi` of text |
| `WavFile` | wavfile.dfy | `read_cmp`, `read_wav`, `read_data` over a byte sequence |
| `Freqdata` | freqdata.dfy | `freqdata_new`, `freqdata_new_with_param`, `freqdata_add_ampdata`, `freqdata_next_ampdata` (as written and corrected) |
| `FreqGraph` | freqgraph.dfy | `print_g_ptr_array` and both `read_file`s over the lines `fgets` returns |
| `Dft` | dft.dfy | `dft`'s result indexing and `main`'s window loop, offsets, threshold filter and block printing |

Some behaviour is taken as parameters rather than modelled:

- **Numerics.** `dft`'s two loops are modelled, but the cos/sin terms they add up, the `2 * PI / num_sample / MAX_SINT` scaling and the square root are uninterpreted functions (`Term`, `Norm`); `BinMagnitude` combines them into the per-bin magnitude `main` uses. The driver lemmas hold for any such magnitude. The FFT twiddle is also a parameter.
- **Amplitude text.** `dft.c` prints an amplitude with `%f` (dft.c:55), and both printers `print_g_ptr_array` use `%8.5f`. The model has one formatter parameter, `AmpFormat`, for whichever conversion is in use, and reading back with `atof` is the parameter `AmpParse`. So `main`'s report has the same line layout as `print_g_ptr_array` applied to its blocks, with `%f` in place of `%8.5f`.
- **Files.** A file is a byte sequence for the WAV reader. For the report parsers it is the sequence of chunks `fgets` returns: each line keeps its `'\n'`, and the last line may lack one.

**Report header lines.** The two readers disagree about the report's first lines. fg/freqgraph.c:45-50 reads two header lines (the sample count, then the window length) before any block, while freqgraph.c:138-157 expects a block first. `main` prints no header line: its output starts directly with `#0` (dft.c:49-50, `Dft.ReportStartsWithFirstBlock`). So the headerless reader of freqgraph.c reads the report back (`Dft.ReportReadsBack`), and the fg/ reader takes the first two lines of the report as its header:

- When the first window has any entry, it fails with "Invalid format" at the third line: the block's second entry, or its blank line when the block has one entry (`Dft.FgReaderRejectsReport`).
- Otherwise it takes `#0` and the blank line as its header values (both parse as 0) and drops the first block (`Dft.FgReaderDropsFirstBlock`).

## Model

| member | source | states |
|---|---|---|
| Fft.BitReverse | fft.c:32-45 | for every `n` and `log2n` the reversed index lies in `[0, 2^log2n)` |
| Fft.BitReverseLoop | fft.c:32-45 | the loop that shifts `n & 1` into `result` `log2n` times computes the bit reversal |
| Fft.BitReverseBits | fft.c:17-25 | bit `j` of the result is bit `log2n - 1 - j` of `n`, for every `j < log2n` |
| Fft.BitReverseLowBitsOnly | fft.c:37-42 | two inputs that agree on their low `log2n` bits have the same reversal |
| Fft.BitReverseIgnoresHighBits | fft.c:37-42 | adding any multiple of `2^log2n` to `n` does not change the result |
| Fft.BitReverseInvolution | fft.c:32-45 | reversing twice gives back every `n` in `[0, 2^log2n)` |
| Fft.BitReverseExample | fft.c:22-25 | (example) the documented example: `n = 6` (110) with `log2n = 3` gives 3 (011) |
| Fft.Reads | fft.c:67-87 | the leaves one `_fft(n, depth, ...)` call reaches number `2^(log2n - depth)`, and every index read is in `[0, 2^log2n)` |
| Fft.Partners | fft.c:73-85 | the two recursive calls use `n - m` and `n` when bit `m` is set, and `n` and `n + m` when it is clear; both indices stay in bounds, and they differ from `n` only in bit `depth` |
| Fft.Split | fft.c:76-85 | one stage of `_fft` (modelled by `Fft.Butterfly`): the twiddled difference of the pair when bit `depth` is set, their sum otherwise; the stage's reads are the low partner's followed by the high partner's |
| Fft.ReadsExactlyOnce | fft.c:67-87 | a call at stage `depth` reads exactly once each index that agrees with `n` on the bits below `depth`, and never reads any other index |
| Fft.TopLevelReadsEachSampleOnce | fft.c:90-99 | a top-level call visits `2^log2n` leaves and reads each sample exactly once |
| Fft.ButterflyReadsOnly | fft.c:67-87 | the result depends only on the samples the call reads: data agreeing on those indices gives the same value |
| Fft.ButterflyLinear | fft.c:67-87 | `_fft` of `a * d1 + d2` is `a * _fft(d1) + _fft(d2)` at every stage |
| Fft.ButterflyOfZeros | fft.c:67-87 | all-zero data gives 0 at every stage |
| Fft.TwiddleFraction | fft.c:73-77 | `n & (m - 1)` is `n mod m`, `n & m` is non-zero exactly when bit `depth` is set, and the angle fraction `(n & (m-1)) / m2` lies in `[0, 1/2)` |
| Fft.Fft | fft.c:90-100 | the call fails exactly when `n < 0` or `n >= 2^log2n`, with that index as the error; when `log2n = 0` the result is `data[0]` |
| Fft.FftLinear | fft.c:90-100 | for every valid bin, `fft` is linear in the data |
| Fft.FftOfZeros | fft.c:90-100 | every valid bin of all-zero data is 0 |
| Decimal.Format | dft.c:50 | `%ld` text is non-empty and has no space and no `#`; it starts with a digit exactly when the number is non-negative |
| Decimal.FormatParseRoundTrip | freqgraph.c:138-151 | `atol`/`atoi` of printed `%ld`/`%d` text, followed by anything that does not start with a digit, gives back the number |
| Decimal.ParseLongNonNumeric | fg/freqgraph.c:44-50 | (example) `atol` of text starting with a character that is not a space, sign or digit is 0 |
| Freqdata.New | fg/freqdata.c:14-23 | a new block has no entries and cursor 0 (the same code is at freqgraph.c:54-63) |
| Freqdata.NewWithParam | fg/freqdata.c:33-37 | equals `freqdata_new` except that the sample point is the argument |
| Freqdata.AddAmpdata | fg/freqdata.c:69-73 | appends exactly `(freq, amp)` at the end; earlier entries, the sample point and the cursor are unchanged (also freqgraph.c:83-87) |
| Freqdata.AsWrittenNeverYields | fg/freqdata.c:50-57 | `freqdata_next_ampdata` as written (`Freqdata.NextAmpdata`): from a fresh block, any sequence of add and next calls keeps the cursor at 0, and every next call returns NULL (also freqgraph.c:73-80) |
| Freqdata.AsWrittenSkipsEntry | fg/freqdata.c:52-53 | after adding one entry, the as-written next call returns NULL where the corrected one returns that entry |
| Freqdata.FixedIteratesInOrder | fg/freqdata.c:40-49 | repeated calls of the corrected iterator (`Freqdata.NextAmpdataFixed`) return the remaining entries in insertion order, then NULL on every further call |
| FreqGraph.EntryLines | fg/freqgraph.c:23-26 | one line per entry, in order, each being the frequency, a space and the amplitude text |
| FreqGraph.PrintArray | fg/freqgraph.c:17-29 | the printed text has two lines per block (the `#` line and the blank line) plus one per entry |
| FreqGraph.FirstSpace | fg/freqgraph.c:72 | `strchr(buf, ' ')`: the index of a space with no space before it, or none exactly when the line has no space |
| FreqGraph.ParseBody | fg/freqgraph.c:70-80 | the entry loop can only fail with a missing space; it never changes the block's sample point or cursor, and it never leaves more lines than it was given |
| FreqGraph.ParseBodyShape | fg/freqgraph.c:70-80 | on success the lines the entry loop leaves over are a suffix of its input |
| FreqGraph.ParseBodyKeepsEntries | fg/freqgraph.c:70-80 | on success the block's earlier entries are a prefix of its entries: the loop only appends |
| FreqGraph.ParseBodyFailsAt | fg/freqgraph.c:70-80 | the entry loop fails only at one of its input lines that is longer than one character and has no space |
| FreqGraph.ParseBlocks | freqgraph.c:126-163 | every top-level line must start with `#`, or reading fails with "Invalid format" on that line; a block's sample point is `atol` of the text after `#`; blocks come back with cursor 0 |
| FreqGraph.ReadFileWithHeader | fg/freqgraph.c:44-50 | the first line is `num_sample` and the second `interval`, and the list is exactly the blocks read from the lines after them; a one-line file takes both from its only line, and an empty file is an error (see Left out) |
| FreqGraph.EntryLineParses | fg/freqgraph.c:70-77 | a printed entry line splits at its first space into the frequency text, whose `atoi` is the frequency, and the amplitude text |
| FreqGraph.ParseBodyOfPrinted | fg/freqgraph.c:70-80 | the printed entry lines of a block, then the blank line, read back as those entries in order, frequencies exact and amplitudes through `atof` of their text |
| FreqGraph.PrintReadRoundTrip | freqgraph.c:102-169 | reading printed blocks with `read_file` (`FreqGraph.ReadFile`) gives the same number of blocks, the same sample points, entry counts and frequencies, and each amplitude as `atof` of its printed text, with the cursors at 0 |
| FreqGraph.ExactRoundTrip | freqgraph.c:102-169 | when `atof` inverts the amplitude text and every cursor is 0, reading the printed blocks gives back exactly the blocks |
| FreqGraph.HeaderPrintReadRoundTrip | fg/freqgraph.c:17-93 | two header lines followed by printed blocks read back as those two numbers, then the same number of blocks with the same sample points, entry counts and frequencies, each amplitude as `atof` of its printed text, and the cursors at 0 |
| FreqGraph.HeaderReaderRejectsEntries | fg/freqgraph.c:44-86 | headerless text whose first block has an entry is rejected by the fg/ reader with "Invalid format" at the third line: the block's second entry, or its blank line when the block has one entry |
| FreqGraph.HeaderReaderDropsEmptyBlock | fg/freqgraph.c:44-82 | headerless text starting with an empty `#0` block is read by the fg/ reader with header values 0 and without that block |
| Dft.DerivedConstants | dft.c:5-7 | (constant check) `NUM_SAMPLE` is `44100 / DELTA` = 8820, and the result array has `MAX_FREQ / DELTA` = 400 entries |
| Dft.BinCountCounts | dft.c:18 | bin `w >= 1` is computed exactly when `w <= max_freq / delta` |
| Dft.MainBinCount | dft.c:48-51 | with `MAX_FREQ` and `DELTA`, `dft` fills exactly the 400 entries of `result` |
| Dft.DftLoop | dft.c:13-31 | for every counted bin `w`, `result[w - 1]` is the norm of the two sums of the `t` loop over the first `num_sample` samples, and the entries past the counted bins are untouched; the whole array is `DftResult` with `BinMagnitude` |
| Dft.DftReadsPrefix | dft.c:21-25 | the running cos or sin sum after `n` turns of the `t` loop depends only on `sample[..n]`, so samples beyond the count do not change a bin |
| Dft.DftOverwritesAll | dft.c:18-29 | when the loop covers the whole array, what `result` held before does not matter |
| Dft.Filter | dft.c:53-56 | the threshold loop from bin `r` prints at most `400 - r` entries |
| Dft.FilterSound | dft.c:53-56 | every printed entry is `((k + 1) * 5, result[k])` for a bin `k` in range whose magnitude is above 0.5 |
| Dft.FilterIncreasing | dft.c:53-56 | frequencies within a block strictly increase |
| Dft.FilterComplete | dft.c:54 | a bin is printed exactly when its magnitude is strictly above 0.5 |
| Dft.QuietWindowHasNoEntries | dft.c:53-57 | a window with no bin above 0.5 prints no entry lines, only its `#` line and blank line |
| Dft.Windows | dft.c:49 | every positive read has between 1 and 8820 samples, and all but the last have exactly 8820 |
| Dft.ReportIsPrintedBlocks | dft.c:49-59 | the report (`main`'s loop, modelled by `Dft.Report`) has the layout of `print_g_ptr_array` applied to one block per positive read, whose offset is the running `current_ptr` and whose entries are the filtered spectrum of that window; the amplitude text is the `AmpFormat` parameter, which is `%f` here and `%8.5f` in the printers |
| Dft.BlockOffsets | dft.c:46-58 | block `k`'s offset is the starting offset plus the sizes of the reads before it |
| Dft.WindowOffsets | dft.c:46-58 | block `k`'s offset is `k * 8820` past the start, so offsets strictly increase |
| Dft.WindowsCoverSamples | dft.c:49 | the windows, joined, are exactly the samples of the stream: every complete sample once, in order |
| Dft.WindowCount | dft.c:49 | the number of blocks is the number of samples divided by 8820, rounded up |
| Dft.ReportReadsBack | freqgraph.c:138-157 | the headerless reader reads `main`'s output back into blocks with the same offsets and frequencies |
| Dft.ReportStartsWithFirstBlock | dft.c:46-50 | the output starts with `#0` directly, with no header lines; a stream with no complete sample prints nothing |
| Dft.FgReaderRejectsReport | fg/freqgraph.c:44-86 | when the first window has an entry, the fg/ reader rejects `main`'s output with "Invalid format" at its third line |
| Dft.FgReaderDropsFirstBlock | fg/freqgraph.c:44-82 | when the first window has no entry, the fg/ reader reads header values 0 and loses the first block |
| WavFile.S16 | wavfile.h:8 | the format tag is a signed 16-bit value, negative exactly when its high byte has the top bit set |
| WavFile.StrnEqualIsPrefixEquality | wavfile.c:51 | `strncmp(tmp, tag, n) == 0` for a tag without NUL bytes is equality of the first `n` bytes |
| WavFile.ReadCmp | wavfile.c:45-55 | `size >= 16` is refused; success advances by `size` bytes |
| WavFile.ReadCmpTag | wavfile.c:45-55 | a 4-byte tag check succeeds exactly when the bytes are the tag, and otherwise fails with a format error naming it |
| WavFile.ReadWavAccepts | wavfile.c:61-110 | a file is accepted exactly when it has at least 40 bytes with `RIFF`, `WAVE`, `fmt ` and `data` at 0, 8, 12 and 36; then the fields come from their fixed offsets and the data is everything from byte 44 on (none for a 40-43-byte file); a wrong tag is reported by name when the bytes it is compared with are present, and a file ending before byte 40 is an error |
| WavFile.HeaderDecidedBy | wavfile.c:84-108 | the decoded fields and the tag check depend only on header bytes other than 4-7 |
| WavFile.RiffSizeIgnored | wavfile.c:74-75 | bytes 4-7 (the RIFF size) never change the outcome |
| WavFile.EncodeHeaderDecodes | wavfile.c:84-108 | a header laid out at the fixed offsets decodes to exactly its fields, and format tag, channels, rate and bit depth are accepted whatever their values |
| WavFile.EncodeReadRoundTrip | wavfile.c:61-110 | `read_wav` of a laid-out header followed by any data gives back the fields and that data |
| WavFile.ExtendedFmtRejected | wavfile.c:83-105 | `fmtChunkSize` is not used to skip: an 18-byte fmt chunk moves `data` to offset 38, and the file is rejected at the `data` check |
| WavFile.EncodeOfSamples | wavfile.c:137-142 | the samples `read_data` loads, written back as little-endian 16-bit values, are exactly the bytes it read: no byte is lost or altered |
| WavFile.ReadData | wavfile.c:137-142 | the count is `floor(bytes read / 2)`: never more than requested, the whole request when enough bytes remain, and an odd trailing byte not counted |
| WavFile.SamplesRoundTrip | wavfile.c:137-142 | encoding 16-bit samples little-endian and reading them gives them back |

## Left out

- Floating point: `PI = 3.14159`, the cos/sin terms, scaling and square root of `dft`, `cexp` in `_fft`, `%f`/`%8.5f` and `atof`. They are parameters (`Term`, `Norm`, `Twiddle`, `AmpFormat`, `AmpParse`), the sums of `dft` are exact over reals, and complex arithmetic is exact over reals. So no claim is made about spectral accuracy or about DFT/FFT agreement.
- `max_freq` and `delta` are reals with exact division, not `double`s.
- The GUI: fg/graphview.c, `draw_graph`, `main` and `destroy` in freqgraph.c, and the GTK wiring in fg/freqgraph.c. It is drawing code.
- `FILE*` I/O: `fopen`, `fclose`, `exit` and `perror` are out. The error path of `Fread` (a read error) is also out. The open and close of the WAV file are out as well.
- WavFile.ReadWavAccepts: a file ending before byte 40 is an error (`Truncated` unless an earlier tag already differs), even where the bytes present already differ from the tag being read. The C code there compares `strncmp` against a partly uninitialised buffer, so its outcome is not determined by the file.
- WavFile.ReadWav: for a 40-43-byte file the missing bytes of `dataChunkSize` are taken as 0; the C code leaves them as whatever `malloc` returned. `read_data` does not use the field.
- The 255-character split of `fgets`: a line is one chunk whatever its length. Text is taken to contain no NUL, so `strlen` is the chunk length.
- `print_g_ptr_array` called at the end of each `read_file` is debugging output and is not modelled.
- Host-dependent loads into `WavData` (wavfile.h:6-16) and into the `short` sample buffer of `read_data` (wavfile.c:137-142): the model reads the fields as little-endian 2- and 4-byte values and each sample as a little-endian signed 16-bit value, so it describes a little-endian host; on a big-endian host the C code would swap the bytes. On a host with 8-byte `long`, the upper bytes of `fmtChunkSize` and the other long fields come from whatever `malloc` returned; the model takes them as 0.
- `dataChunkSize` is decoded, but `read_data` does not use it, so the data is read to the end of the file, as in the code.
- readwav.c is a demonstration program and not part of this model.
- Memory management (malloc/free, `g_ptr_array_free`, fg/ampdata.c allocation wrappers): an entry is a `(freq, amp)` pair.
- Decimal.FormatParseRoundTrip: `atol`/`atoi` have no overflow here. They parse unbounded integers, and a leading `+` or `-` and leading spaces are accepted as the C functions do.
- Fft.BitReverse: `result <<= 1` overflow for `log2n >= 32` is not modelled. `fft` needs `log2n < 31` for its own shift, and the model requires it there.
- Fft.Fft: the result for `log2n > 0` is stated through the lemmas on the butterfly (linearity, zeros, reads), not in closed form, because the twiddle is uninterpreted.
- Dft.DftLoop: with `num_sample == 0` the C scaling `2 * PI / num_sample` is infinite and the result is not a number. The model leaves that to the `Norm` parameter, which must return a non-negative real; `main` never calls `dft` with a zero count.
- FreqGraph.ReadFileWithHeader: an empty file is the error `MissingHeader`. The C code then runs `atol`/`atoi` on a buffer `fgets` never filled, and goes on with an empty list.

## Findings

| source | as written | input that shows it | evidently intended | confidence | as-written member | corrected member |
|---|---|---|---|---|---|---|
| fg/freqdata.c:52-53 (also freqgraph.c:75-76) | `freqdata_next_ampdata` yields only when `index_next > len`, then reads index `index_next`, which is past the end | a fresh block with one entry added: `index_next = 0 <= 1 = len`, so the first call returns NULL instead of the entry, and the cursor never moves | yield while `index_next < len`, so the entries come in insertion order, then NULL, as the function's comment says | high, not executed | Freqdata.AsWrittenSkipsEntry | Freqdata.FixedIteratesInOrder |
