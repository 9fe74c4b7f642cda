# split_data of the ConvLSTM precipitation pipeline, in Dafny

This project models `split_data` from the ConvLSTM precipitation pipeline.
The function takes a series of precipitation frames `pr` and a parallel
series of timestamps `nc_time`. It may first log-normalise the frames. It
then cuts both series into non-overlapping windows of `max_len` frames and
partitions the windows, in temporal order, into train, dev and test sets.

- `pyseq.dfy` (module `PySeq`): the Python list semantics the splitter
  relies on. `Slice` is `s[lo:hi]` with the upper bound clamped. `Concat`
  lays a list of windows end to end.
- `utils.dfy` (module `Utils`):
  - the bounds computation: the number of windows; `train_len` from
    Python's float `round(0.7 * num_seqs)`, modelled as IEEE-754 double
    arithmetic for fewer than 2^53 windows; the parity adjustment; the equal dev/test halves;
  - the window loop, as a `while` loop in `SplitData` proved equal to the
    recursive `Windows`;
  - the three partition slices, including the test slice whose upper bound
    `num_seqs*max_len` is clamped by Python;
  - the optional log normalisation, as a length-preserving frame-wise map;
  - `SplitData` itself, proved to return exactly the partitions of the
    windows of the (possibly normalised) series and of the timestamps.

A frame is an opaque type `T` and a timestamp an opaque type `U`. The
normalisation arithmetic is a function parameter
`rescale(reference, series, frame)`.

The source's comments label the three partitions "train (70%)",
"dev (15%)" and "test (15%)" (utils.py:115, 119 and 124), and the global
names `TRAIN_MIN` and `TRAIN_MAX` (utils.py:137-139) suggest training-set
statistics. The code does not always do what those labels say:

- **Ten windows.** They split 8/1/1 (`TenWindowsSplit`). `round(7.0)` is
  7, the remainder of 3 is odd, and the parity step moves one more window
  into training.
- **Four windows.** All four go to training (`FourWindowsAllTrain`), 1.2
  windows above 70%. In general the code keeps
  `7n - 5 <= 10 * train <= 7n + 15` (`PartitionCounts`).
- **Forty-five windows.** The double `0.7 * 45` lies just below 31.5, so
  `round` gives 31 and the split is 31/7/7 (`FortyFiveWindowsSplit`).
  Rounding the exact value 31.5 half to even would give 32, and then
  33/6/6.
- **Normalisation statistics.** They come from `pr[0:train_len]`, the
  first `train_len` frames, not from the frames of the training windows.
  Those frames are a strict prefix of the training frames whenever a window
  holds more than one frame (`LogReferenceShorterThanTraining`).

## Model

| member | source | states |
|---|---|---|
| Utils.WindowCount | ConvLSTM_pytorch/utils.py:91 | `len(pr) // max_len` is the unique `n` with `n*max_len <= len(pr) < (n+1)*max_len` |
| Utils.Ulp | ConvLSTM_pytorch/utils.py:92 | the spacing of doubles at the product: `q` is `start` doubled zero or more times, `p < q*2^53`, and `q*2^52 <= p` unless `q` is `start`, so it is the least such multiple |
| Utils.RoundToMultiple | ConvLSTM_pytorch/utils.py:92 | IEEE round-to-nearest-even: the result is one of the two multiples of `b` around `a`, within `b/2` of it, and on a tie its quotient is even |
| Utils.FloatProduct | ConvLSTM_pytorch/utils.py:92 | for `num_seqs < 2^53`, which converts to a double exactly, the double `0.7 * num_seqs` is exact below 2^53 units, and otherwise within a relative 2^-53 of the exact product of `num_seqs` and the double 0.7 |
| Utils.TrainRound | ConvLSTM_pytorch/utils.py:92 | for `num_seqs < 2^53`, `int(round(0.7 * num_seqs))` is the integer nearest the double, with ties going to the even one; below 2^48 windows it is within half a window of the exact 0.7 * n |
| Utils.RoundedInBand | ConvLSTM_pytorch/utils.py:92 | for fewer than 2^48 windows, rounding the double lands within half a window of the exact 0.7 * n |
| Utils.FloatTieRoundsDown | ConvLSTM_pytorch/utils.py:92 | for 45 windows, Python's rounding gives 31, not the 32 of exact half-to-even |
| Utils.AdjustCounts | ConvLSTM_pytorch/utils.py:94-98 | for any rounding within half a window of 0.7 * n: the counts sum to n, dev equals test, train moves up by one exactly when the remainder is odd, `train <= n`, and `7n-5 <= 10*train <= 7n+15` |
| Utils.PartitionCounts | ConvLSTM_pytorch/utils.py:91-98 | `train_len + dev_len + test_len == num_seqs`, so the assertion never fires; `dev_len == test_len`; `train_len` is `round(0.7 * num_seqs)` or one more, one more exactly when the remainder is odd; `train_len <= num_seqs`; at least one training window once there is a window |
| Utils.TenWindowsSplit | ConvLSTM_pytorch/utils.py:92-96 | 10 windows split 8/1/1 |
| Utils.FourWindowsAllTrain | ConvLSTM_pytorch/utils.py:92-96 | 4 windows all go to training, more than one window above 70% |
| Utils.FortyFiveWindowsSplit | ConvLSTM_pytorch/utils.py:92-96 | 45 windows split 31/7/7 |
| Utils.Windows | ConvLSTM_pytorch/utils.py:106-109 | there are `k` windows, and window `i` is `s[i*m .. (i+1)*m)` |
| Utils.WindowsStep | ConvLSTM_pytorch/utils.py:107-109 | one loop turn appends `s[i*max_len:(i+1)*max_len]`, with those bounds in range, to the first `i` windows |
| Utils.WindowLength | ConvLSTM_pytorch/utils.py:108-109 | every window holds `max_len` frames |
| Utils.WindowFrame | ConvLSTM_pytorch/utils.py:106-109 | frame `j` of window `i` is frame `i*m + j` of the series, an index below `num_seqs*max_len` |
| Utils.WindowsTilePrefix | ConvLSTM_pytorch/utils.py:106-109 | the windows laid end to end are exactly the first `num_seqs*max_len` frames, so later frames are in no window |
| Utils.WindowsPrefix | ConvLSTM_pytorch/utils.py:106-109 | the first `k` of `n` windows are the windows of a `k`-window cut |
| Utils.WindowsSameSpan | ConvLSTM_pytorch/utils.py:108-109 | window `w` of the frames and window `w` of the timestamps cover the same frame span |
| PySeq.Slice | ConvLSTM_pytorch/utils.py:116-126 | Python's `s[lo:hi]`: its length with `hi` clamped to `len(s)`; the in-range slice when `hi <= len(s)`; the suffix from `lo` when `hi >= len(s)` |
| Utils.Partition | ConvLSTM_pytorch/utils.py:116-126 | the partitions have `train_len`, `dev_len` and `test_len` windows and are the contiguous runs `[0, train_len)`, `[train_len, dev_ub)` and `[dev_ub, end)` |
| Utils.PartitionCovers | ConvLSTM_pytorch/utils.py:116-126 | train, dev and test laid end to end are the whole window list, so they are disjoint and in temporal order |
| Utils.TestSliceEnd | ConvLSTM_pytorch/utils.py:125-126 | the test slice bound `num_seqs*max_len` is at least `num_seqs`, and beyond it once windows hold more than one frame, so Python's clamping ends the test slice |
| Utils.PartitionGet | ConvLSTM_pytorch/utils.py:116-126 | partition `part` is the run of its size starting at its first window index |
| Utils.PartitionEntry | ConvLSTM_pytorch/utils.py:116-126 | entry `k` of a partition is window `offset + k` of the list |
| Utils.PartitionsAligned | ConvLSTM_pytorch/utils.py:116-126 | `train_seqs[k]` and `train_times[k]` (likewise dev and test) are cut from the same frame span of `pr` and `nc_time` |
| Utils.PartitionFrames | ConvLSTM_pytorch/utils.py:106-126 | the frames of the train, dev and test windows, in that order, are exactly the first `num_seqs*max_len` frames |
| Utils.LogNormalize | ConvLSTM_pytorch/utils.py:132-145 | the series keeps its length, and each frame is rescaled by one map built from `pr[0:train_len]` and the whole series |
| Utils.LogNormalizeAt | ConvLSTM_pytorch/utils.py:132-145 | frame `x` of the normalised series is the rescaled frame `x` |
| Utils.Normalized | ConvLSTM_pytorch/utils.py:101-106 | normalising keeps the length, so the `num_seqs` recount at line 106 equals the count at line 91; without `"log"` the series is unchanged |
| Utils.NormalizedWindows | ConvLSTM_pytorch/utils.py:101-109 | every frame of every normalised window is the rescaled frame of the matching raw window |
| Utils.LogReferenceShorterThanTraining | ConvLSTM_pytorch/utils.py:137-139 | the statistics' reference `pr[0:train_len]` is a strict prefix of the training windows' frames when `max_len > 1` |
| Utils.SplitData | ConvLSTM_pytorch/utils.py:87-128 | the six returned lists are the train/dev/test partitions of the windows of the (possibly normalised) series and of the timestamps, with the counts of `PartitionCounts`; for at least one window the training partitions are not empty |
| Utils.SomeTrainingWindow | ConvLSTM_pytorch/utils.py:91-102 | a series of at least `max_len` frames has a window and a training window, so `pr[0:train_len]` at line 137 is not empty |

## Left out

- `parse_all_args` (utils.py:18-82): command-line plumbing.
- `export_netCDF` and the NetCDF load in `main`: file I/O through an external library.
- `createLossAndOptimizer`, `ConvLSTMCell` construction and `trainNet`: wrappers over external deep-learning libraries.
- The `float32` casts and the channel axis added at utils.py:111-113. For at least one window they change only the numeric representation and the tensor shape. With no window they raise, as the Utils.SplitData line below says.
- `log_denormalize` and the process-wide scalars `TRAIN_MIN`, `TRAIN_MAX` and `MEDIAN_SHIFT_FACTOR`. Their floating-point round trip holds only up to rounding.
- Utils.LogNormalize: the `log2`/shift/scale arithmetic is the opaque parameter `rescale`. Its contract keeps only what the splitter relies on: the length is preserved and each frame is mapped independently using `pr[0:train_len]` and the whole series.
- Utils.LogNormalize: the `pr += ZERO_SHIFT_FACTOR` at utils.py:135 also changes the caller's array in place. The model works on values and does not capture that aliasing.
- Utils.FloatProduct: requires fewer than 2^53 windows. Above that, Python first rounds `num_seqs` to a double before multiplying, and the model does not capture that first rounding. Utils.TrainRound has the same requirement.
- Utils.PartitionCounts: requires fewer than 2^48 windows. Only below that bound is the float rounding proved to stay within half a window of 0.7 * n. Far larger counts would also exceed the exact range of the float division at utils.py:96.
- Utils.SplitData: requires at least `max_len` frames. With no window the source raises instead of returning: `inputs[:, :, :, :, np.newaxis]` at utils.py:112 fails on the 1-D empty array, and with `"log"` the minimum of the empty `pr[0:0]` at utils.py:137 fails first. The model has no error result for that case.
- Utils.SplitData: requires `len(nc_time) >= len(pr)`, so that every time window is full; the source does not check it. It also requires `max_len > 0`, because the source divides by it.
- Utils.Windows: `i * max_len` is written as `Start(i, max_len)`, a repeated addition that `StartIsProduct` proves equal to the product.
