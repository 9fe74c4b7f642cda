/** The sequence splitter of the ConvLSTM precipitation pipeline: cut a
    series of frames (and its parallel timestamps) into non-overlapping
    windows of `maxLen` frames, and partition the windows, in temporal
    order, into train (about 70%), dev and test (equal halves of the rest).

    A frame is an opaque `T`, a timestamp an opaque `U`. */
module Utils {
  import opened PySeq

  /** The `norm_type` argument: `"log"` or absent. */
  datatype Normalization = Unnormalized | Log

  /** The three partition sizes, in windows. */
  datatype Counts = Counts(train: nat, dev: nat, test: nat)

  /** The three partitions of a list of windows. */
  datatype Split<W> = Split(train: seq<W>, dev: seq<W>, test: seq<W>)
  {
    function Get(part: Part): seq<W>
    {
      match part
      case Train => train
      case Dev => dev
      case Test => test
    }
  }

  datatype Part = Train | Dev | Test

  /** The number of windows in a partition. */
  function Size(c: Counts, part: Part): nat
  {
    match part
    case Train => c.train
    case Dev => c.dev
    case Test => c.test
  }

  /** The index of the first window of a partition: 0 for train,
      `train_len` for dev and `dev_ub` for test. */
  function Offset(c: Counts, part: Part): nat
  {
    match part
    case Train => 0
    case Dev => c.train
    case Test => c.train + c.dev
  }

  // ---------------------------------------------------------------------
  // Bounds computation
  // ---------------------------------------------------------------------

  /** `len(pr) // max_len`: the number of full windows. It is the largest
      count whose windows fit in the series. */
  function WindowCount(frames: nat, maxLen: nat): (n: nat)
    requires maxLen > 0
    ensures Start(n, maxLen) <= frames < Start(n + 1, maxLen)
  {
    var n := frames / maxLen;
    StartIsProduct(n, maxLen);
    StartIsProduct(n + 1, maxLen);
    assert (n + 1) * maxLen == n * maxLen + maxLen;
    n
  }

  /** 0.7 as an IEEE-754 double is exactly `Point7 * 2^-52`; this value sits
      just below 0.7: `10 * Point7 == 7 * 2^52 - 2`. */
  const Point7: int := 3152519739159347
  const Two52: int := 0x10_0000_0000_0000
  const Two53: int := 0x20_0000_0000_0000

  /** The window counts for which the float arithmetic is proved to stay
      within half a window of 0.7 * n (2^48 windows). */
  const MaxWindows: int := 0x1_0000_0000_0000

  /** The unit in the last place of a 53-bit significand for the value `p`
      (in units of 2^-52): the least power of two `q >= start` with
      `p < q * 2^53`. */
  function Ulp(p: nat, start: nat): (q: nat)
    requires start > 0
    ensures PowerOfTwoTimes(q, start)
    ensures q >= start && p < q * Two53
    ensures q == start || q * Two52 <= p
    decreases p - start * Two53
  {
    if p < start * Two53 then start
    else
      var q := Ulp(p, 2 * start);
      PowerOfTwoTimesHalf(q, start);
      q
  }

  /** `q` is `start` doubled some number of times. */
  predicate PowerOfTwoTimes(q: nat, start: nat)
    decreases q
  {
    q == start || (start < q && q % 2 == 0 && PowerOfTwoTimes(q / 2, start))
  }

  lemma {:induction false} PowerOfTwoTimesHalf(q: nat, start: nat)
    requires start > 0 && PowerOfTwoTimes(q, 2 * start)
    ensures PowerOfTwoTimes(q, start)
    decreases q
  {
    if q != 2 * start {
      PowerOfTwoTimesHalf(q / 2, start);
    }
  }

  /** `a` rounded to a multiple of `b`: one of the two multiples around `a`,
      the nearer one, and on a tie the one whose quotient is even. */
  function RoundToMultiple(a: nat, b: nat): (m: nat)
    requires b > 0
    ensures m == a - a % b || m == a - a % b + b
    ensures -(b as int) <= 2 * (m - a) <= b
    ensures 2 * (m - a) == b ==> (a / b + 1) % 2 == 0
    ensures 2 * (m - a) == -(b as int) ==> (a / b) % 2 == 0
  {
    RemainderBounds(a, b);
    var below := a - a % b;
    if 2 * (a % b) < b then below
    else if 2 * (a % b) > b then below + b
    else if (a / b) % 2 == 0 then below
    else below + b
  }

  lemma {:induction false} RemainderBounds(a: nat, b: nat)
    requires b > 0
    ensures 0 <= a % b <= a && a % b < b
  {
  }

  /** `0.7 * n` as Python computes it: the exact product `n * Point7`
      (in units of 2^-52) rounded to 53 significant bits, ties to even.
      Below 2^53 the count `n` converts to a double exactly. */
  function FloatProduct(n: nat): (m: nat)
    requires n < Two53
    ensures var p := n * Point7; p < Two53 ==> m == p
    ensures var p := n * Point7; Two53 * (m - p) <= p && Two53 * (p - m) <= p
  {
    var p := n * Point7;
    var q := Ulp(p, 1);
    RoundToMultiple(p, q)
  }

  /** `int(round(0.7 * n))`: Python's `round` on the double `FloatProduct(n)
      * 2^-52`, the nearest integer with ties going to the even one. For
      realistic counts it is within half a window of the exact 0.7 * n. */
  function TrainRound(n: nat): (r: nat)
    requires n < Two53
    ensures -Two52 <= 2 * (r * Two52 - FloatProduct(n)) <= Two52
    ensures 2 * (r * Two52 - FloatProduct(n)) == Two52 ==> r % 2 == 0
    ensures 2 * (r * Two52 - FloatProduct(n)) == -Two52 ==> r % 2 == 0
    ensures n < MaxWindows ==> 7 * n - 5 <= 10 * r <= 7 * n + 5
  {
    var x := FloatProduct(n);
    var k, rem := x / Two52, x % Two52;
    var up := 2 * rem > Two52 || (2 * rem == Two52 && k % 2 == 1);
    var r := if up then k + 1 else k;
    RoundedToNearestEven(x, k, rem, up, r);
    if n < MaxWindows then RoundedInBand(n, x, r); r else r
  }

  lemma {:induction false} RoundedToNearestEven(x: nat, k: nat, rem: nat, up: bool, r: nat)
    requires k == x / Two52 && rem == x % Two52
    requires up == (2 * rem > Two52 || (2 * rem == Two52 && k % 2 == 1))
    requires r == if up then k + 1 else k
    ensures -Two52 <= 2 * (r * Two52 - x) <= Two52
    ensures 2 * (r * Two52 - x) == Two52 ==> r % 2 == 0
    ensures 2 * (r * Two52 - x) == -Two52 ==> r % 2 == 0
  {
    assert x == k * Two52 + rem && rem < Two52;
  }

  lemma {:induction false} RoundedInBand(n: nat, x: nat, r: nat)
    requires n < MaxWindows
    requires Two53 * (x - n * Point7) <= n * Point7 && Two53 * (n * Point7 - x) <= n * Point7
    requires -Two52 <= 2 * (r * Two52 - x) <= Two52
    ensures 7 * n - 5 <= 10 * r <= 7 * n + 5
  {
  }

  /** At 45 windows the exact product 31.5 would round to 32, but the double
      nearest to 0.7 is below 0.7 and the float product falls below the tie,
      so Python's round gives 31. */
  lemma {:induction false} FloatTieRoundsDown()
    ensures TrainRound(45) == 31
  {
    FloatProductAt45();
  }

  /** The double nearest to 0.7 * 45, in units of 2^-52: 53 significant
      bits leave a step of 16 units, and the product rounds down to just
      below 31.5. */
  lemma {:induction false} FloatProductAt45()
    ensures FloatProduct(45) == 141863388262170608
  {
    var p := 141863388262170615;
    assert 45 * Point7 == p;
    assert Ulp(p, 1) == Ulp(p, 2) == Ulp(p, 4) == Ulp(p, 8) == Ulp(p, 16) == 16;
    assert p % 16 == 7;
  }

  /** The parity adjustment: start the training count at a rounding `r` of
      0.7 * n, move one more window into training when the remainder is odd,
      and split the remainder equally into dev and test. Any `r` within half a
      window of 0.7 * n (the float product may fall on either side of a tie)
      gives counts that sum to `n`. The remainder is even and non-negative, so
      the source's float division by 2 is exact. */
  function AdjustCounts(n: nat, r: nat): (c: Counts)
    requires 7 * n - 5 <= 10 * r <= 7 * n + 5
    ensures c.train + c.dev + c.test == n
    ensures c.dev == c.test
    ensures c.train == r || c.train == r + 1
    ensures c.train == r + 1 <==> (n - r) % 2 == 1
    ensures c.train <= n
    ensures 7 * n - 5 <= 10 * c.train <= 7 * n + 15
  {
    var t := if (n - r) % 2 != 0 then r + 1 else r;
    var d := (n - t) / 2;
    Counts(t, d, d)
  }

  /** `train_len`, `dev_len` and `test_len` for `n` windows. */
  function PartitionCounts(n: nat): (c: Counts)
    requires n < MaxWindows
    ensures c.train + c.dev + c.test == n
    ensures c.dev == c.test
    ensures c.train == TrainRound(n) || c.train == TrainRound(n) + 1
    ensures c.train == TrainRound(n) + 1 <==> (n - TrainRound(n)) % 2 == 1
    ensures c.train <= n
    ensures 7 * n - 5 <= 10 * c.train <= 7 * n + 15
    ensures n > 0 ==> c.train > 0
  {
    AdjustCounts(n, TrainRound(n))
  }

  /** For 10 windows the split is 8/1/1: round(7.0) = 7 leaves an odd
      remainder of 3, so training takes one more. */
  lemma {:induction false} TenWindowsSplit()
    ensures PartitionCounts(10) == Counts(8, 1, 1)
  {
    FloatSevenIsExact();
    assert AdjustCounts(10, 7) == Counts(8, 1, 1);
  }

  /** The float product 0.7 * 10 is a tie between two doubles and rounds up
      to exactly 7.0. */
  lemma {:induction false} FloatSevenIsExact()
    ensures TrainRound(10) == 7
  {
    FloatProductAt10();
  }

  lemma {:induction false} FloatProductAt10()
    ensures FloatProduct(10) == 7 * Two52
  {
    var p := 31525197391593470;
    assert 10 * Point7 == p;
    assert Ulp(p, 1) == Ulp(p, 2) == Ulp(p, 4) == 4;
    assert p % 4 == 2 && (p / 4) % 2 == 1;
  }

  /** The training count can be more than one window away from 0.7 * n:
      for 4 windows, round(2.8) = 3 leaves an odd remainder, so all four
      windows go to training. */
  lemma {:induction false} FourWindowsAllTrain()
    ensures PartitionCounts(4) == Counts(4, 0, 0)
    ensures 10 * PartitionCounts(4).train - 7 * 4 > 10
  {
    var p := 12610078956637388;
    assert 4 * Point7 == p;
    assert Ulp(p, 1) == Ulp(p, 2) == 2;
    assert p % 2 == 0;
    assert FloatProduct(4) == p;
    assert TrainRound(4) == 3;
  }

  /** At 45 windows the float rounding changes the split: the exact 31.5
      would round to 32 and give 33/6/6, but Python's round gives 31 and
      the split is 31/7/7. */
  lemma {:induction false} FortyFiveWindowsSplit()
    ensures PartitionCounts(45) == Counts(31, 7, 7)
  {
    FloatTieRoundsDown();
    assert AdjustCounts(45, 31) == Counts(31, 7, 7);
  }

  // ---------------------------------------------------------------------
  // Windowing
  // ---------------------------------------------------------------------

  /** The first frame of window `i`, that is `i * m`, built up by adding the
      window length once per window (StartIsProduct); this keeps the proofs
      about window bounds in linear arithmetic. */
  function Start(i: nat, m: nat): nat
  {
    if i == 0 then 0 else Start(i - 1, m) + m
  }

  lemma {:induction false} StartIsProduct(i: nat, m: nat)
    ensures Start(i, m) == i * m
  {
    if i > 0 {
      StartIsProduct(i - 1, m);
      assert (i - 1) * m + m == i * m;
    }
  }

  lemma {:induction false} StartMonotone(a: nat, b: nat, m: nat)
    requires a <= b
    ensures Start(a, m) <= Start(b, m)
    decreases b
  {
    if a < b {
      StartMonotone(a, b - 1, m);
    }
  }

  /** With windows longer than one frame, `i > 0` windows hold more than `i`
      frames. */
  lemma {:induction false} StartExceedsCount(i: nat, m: nat)
    requires m > 1 && i > 0
    ensures Start(i, m) > i
  {
    if i > 1 {
      StartExceedsCount(i - 1, m);
    }
  }

  /** The first `k` windows of `s`: window `i` is `s[i*m .. (i+1)*m)`. */
  function Windows<T>(s: seq<T>, m: nat, k: nat): (ws: seq<seq<T>>)
    requires Start(k, m) <= |s|
    ensures |ws| == k
    ensures forall i :: 0 <= i < k ==> Start(i, m) + m <= |s| && ws[i] == s[Start(i, m)..Start(i, m) + m]
    decreases k
  {
    if k == 0 then [] else Windows(s, m, k - 1) + [s[Start(k - 1, m)..Start(k, m)]]
  }

  /** One more turn of the source's loop appends window `i`, cut with the
      source's own bounds `i*m` and `(i+1)*m`. */
  lemma {:induction false} WindowsStep<T>(s: seq<T>, m: nat, i: nat, n: nat)
    requires i < n && Start(n, m) <= |s|
    ensures Start(i, m) <= |s| && Start(i + 1, m) <= |s|
    ensures i * m == Start(i, m) && (i + 1) * m == Start(i + 1, m)
    ensures Windows(s, m, i + 1) == Windows(s, m, i) + [Slice(s, i * m, (i + 1) * m)]
  {
    StartMonotone(i + 1, n, m);
    StartIsProduct(i, m);
    StartIsProduct(i + 1, m);
  }

  /** Every window has `m` frames. */
  lemma {:induction false} WindowLength<T>(s: seq<T>, m: nat, k: nat, i: nat)
    requires Start(k, m) <= |s|
    requires i < k
    ensures |Windows(s, m, k)[i]| == m
  {
  }

  /** Frame `j` of window `i` is frame `i*m + j` of the series, and that index
      is below `k*m`: frames at or past `k*m` are in no window. */
  lemma {:induction false} WindowFrame<T>(s: seq<T>, m: nat, k: nat, i: nat, j: nat)
    requires Start(k, m) <= |s|
    requires i < k && j < m
    ensures Start(i, m) + j < Start(k, m)
    ensures Windows(s, m, k)[i][j] == s[Start(i, m) + j]
  {
    StartMonotone(i + 1, k, m);
  }

  /** The windows, laid end to end, are exactly the first `k*m` frames. */
  lemma {:induction false} WindowsTilePrefix<T>(s: seq<T>, m: nat, k: nat)
    requires Start(k, m) <= |s|
    ensures Concat(Windows(s, m, k)) == s[..Start(k, m)]
    decreases k
  {
    if k > 0 {
      WindowsTilePrefix(s, m, k - 1);
      ConcatWindowsSnoc(s, m, k);
      SliceJoin(s, Start(k - 1, m), Start(k, m));
    }
  }

  lemma {:induction false} ConcatWindowsSnoc<T>(s: seq<T>, m: nat, k: nat)
    requires 0 < k && Start(k, m) <= |s|
    ensures Concat(Windows(s, m, k)) == Concat(Windows(s, m, k - 1)) + s[Start(k - 1, m)..Start(k, m)]
  {
    var ws := Windows(s, m, k);
    assert ws[..k - 1] == Windows(s, m, k - 1);
  }

  lemma {:induction false} SliceJoin<T>(s: seq<T>, lo: nat, hi: nat)
    requires lo <= hi <= |s|
    ensures s[..lo] + s[lo..hi] == s[..hi]
  {
  }

  lemma {:induction false} MulMonotone(a: nat, b: nat, m: nat)
    requires a <= b
    ensures a * m <= b * m
  {
    assert b * m == a * m + (b - a) * m;
  }

  // ---------------------------------------------------------------------
  // Partition slicing
  // ---------------------------------------------------------------------

  /** `inputs[0:train_len]`, `inputs[train_len:dev_ub]` and
      `inputs[dev_ub:test_ub]`. The source passes `num_seqs*max_len` as
      `test_ub`, a count of frames rather than windows; Python clamps it to
      the number of windows. */
  function Partition<W>(ws: seq<W>, c: Counts, testUb: nat): (p: Split<W>)
    requires |ws| == c.train + c.dev + c.test <= testUb
    ensures |p.train| == c.train && |p.dev| == c.dev && |p.test| == c.test
    ensures p.train == ws[..c.train]
    ensures p.dev == ws[c.train..c.train + c.dev]
    ensures p.test == ws[c.train + c.dev..]
  {
    var devUb := c.train + c.dev;
    Split(Slice(ws, 0, c.train), Slice(ws, c.train, devUb), Slice(ws, devUb, testUb))
  }

  /** The three partitions are contiguous and in temporal order: laid end to
      end they are the whole list of windows. */
  lemma {:induction false} PartitionCovers<W>(ws: seq<W>, c: Counts, testUb: nat)
    requires |ws| == c.train + c.dev + c.test <= testUb
    ensures var p := Partition(ws, c, testUb); p.train + p.dev + p.test == ws
  {
    var devUb := c.train + c.dev;
    assert ws[..c.train] + ws[c.train..devUb] == ws[..devUb];
    assert ws[..devUb] + ws[devUb..] == ws;
  }

  /** `num_seqs*max_len`, the upper bound the source gives the test slice:
      a count of frames, never below the number of windows and past it as
      soon as windows hold more than one frame, where Python's clamping is
      what ends the test partition at the last window. */
  function TestSliceEnd(numSeqs: nat, maxLen: nat): (ub: nat)
    requires maxLen > 0
    ensures ub >= numSeqs
    ensures maxLen > 1 && numSeqs > 0 ==> ub > numSeqs
  {
    ProductBounds(numSeqs, maxLen);
    numSeqs * maxLen
  }

  lemma {:induction false} ProductBounds(n: nat, m: nat)
    requires m > 0
    ensures n * m >= n
    ensures m > 1 && n > 0 ==> n * m > n
  {
    MulMonotone(1, m, n);
    if m > 1 {
      MulMonotone(2, m, n);
    }
  }

  /** Window `w` of the frames and window `w` of the timestamps: both cover
      the frame span `[w*m, (w+1)*m)`. */
  ghost predicate SameSpan<T, U>(a: seq<T>, b: seq<U>, pr: seq<T>, times: seq<U>, m: nat, w: nat)
  {
    Start(w, m) + m <= |pr| && Start(w, m) + m <= |times| &&
    a == pr[Start(w, m)..Start(w, m) + m] && b == times[Start(w, m)..Start(w, m) + m]
  }

  /** Each sequence partition and its time partition come from the same
      frame span: entry `k` of a partition is window `Offset(c, part) + k`
      of both series. */
  lemma {:induction false} PartitionsAligned<T, U>(pr: seq<T>, times: seq<U>, m: nat, n: nat, c: Counts, testUb: nat, part: Part, k: nat)
    requires Start(n, m) <= |pr| && Start(n, m) <= |times|
    requires n == c.train + c.dev + c.test <= testUb
    requires k < Size(c, part)
    ensures var p, q := Partition(Windows(pr, m, n), c, testUb), Partition(Windows(times, m, n), c, testUb);
      k < |p.Get(part)| && k < |q.Get(part)| &&
      SameSpan(p.Get(part)[k], q.Get(part)[k], pr, times, m, Offset(c, part) + k)
  {
    PartitionEntry(Windows(pr, m, n), c, testUb, part, k);
    PartitionEntry(Windows(times, m, n), c, testUb, part, k);
    WindowsSameSpan(pr, times, m, n, Offset(c, part) + k);
  }

  /** Entry `k` of partition `part` is window `Offset(c, part) + k`. */
  lemma {:induction false} PartitionEntry<W>(ws: seq<W>, c: Counts, testUb: nat, part: Part, k: nat)
    requires |ws| == c.train + c.dev + c.test <= testUb
    requires k < Size(c, part)
    ensures Offset(c, part) + k < |ws|
    ensures k < |Partition(ws, c, testUb).Get(part)|
    ensures Partition(ws, c, testUb).Get(part)[k] == ws[Offset(c, part) + k]
  {
    PartitionGet(ws, c, testUb, part);
  }

  /** Partition `part` is the run of `Size(c, part)` windows starting at
      window `Offset(c, part)`. */
  lemma {:induction false} PartitionGet<W>(ws: seq<W>, c: Counts, testUb: nat, part: Part)
    requires |ws| == c.train + c.dev + c.test <= testUb
    ensures Offset(c, part) + Size(c, part) <= |ws|
    ensures Partition(ws, c, testUb).Get(part) == ws[Offset(c, part)..Offset(c, part) + Size(c, part)]
  {
  }

  /** Window `w` of the frames and window `w` of the timestamps cover the
      same span. */
  lemma {:induction false} WindowsSameSpan<T, U>(pr: seq<T>, times: seq<U>, m: nat, n: nat, w: nat)
    requires Start(n, m) <= |pr| && Start(n, m) <= |times|
    requires w < n
    ensures SameSpan(Windows(pr, m, n)[w], Windows(times, m, n)[w], pr, times, m, w)
  {
  }

  /** The frames of the train, dev and test windows, laid end to end in
      that order, are the first `num_seqs * max_len` frames of the series. */
  lemma {:induction false} PartitionFrames<T>(pr: seq<T>, m: nat, n: nat, c: Counts, testUb: nat)
    requires Start(n, m) <= |pr|
    requires n == c.train + c.dev + c.test <= testUb
    ensures var p := Partition(Windows(pr, m, n), c, testUb);
      Concat(p.train) + Concat(p.dev) + Concat(p.test) == pr[..Start(n, m)]
  {
    var p := Partition(Windows(pr, m, n), c, testUb);
    WindowsTilePrefix(pr, m, n);
    PartitionCovers(Windows(pr, m, n), c, testUb);
    ConcatAppend(p.train, p.dev);
    ConcatAppend(p.train + p.dev, p.test);
  }

  // ---------------------------------------------------------------------
  // Normalisation
  // ---------------------------------------------------------------------

  /** `log_normalize(pr, train_len)`: every frame is rescaled by the same
      map, whose statistics come from the reference frames `pr[0:train_len]`
      and from the whole series. The arithmetic is the opaque `rescale`. */
  function LogNormalize<T>(pr: seq<T>, trainLen: nat, rescale: (seq<T>, seq<T>, T) -> T): (r: seq<T>)
    ensures |r| == |pr|
    ensures forall i :: 0 <= i < |pr| ==> r[i] == rescale(Slice(pr, 0, trainLen), pr, pr[i])
  {
    var reference := Slice(pr, 0, trainLen);
    seq(|pr|, i requires 0 <= i < |pr| => rescale(reference, pr, pr[i]))
  }

  lemma {:induction false} LogNormalizeAt<T>(pr: seq<T>, trainLen: nat, rescale: (seq<T>, seq<T>, T) -> T, x: nat)
    requires x < |pr|
    ensures LogNormalize(pr, trainLen, rescale)[x] == rescale(Slice(pr, 0, trainLen), pr, pr[x])
  {
  }

  /** The series that is cut into windows: normalised when `"log"` is chosen. */
  function Normalized<T>(pr: seq<T>, norm: Normalization, trainLen: nat, rescale: (seq<T>, seq<T>, T) -> T): (r: seq<T>)
    ensures |r| == |pr|
    ensures norm == Unnormalized ==> r == pr
  {
    match norm
    case Unnormalized => pr
    case Log => LogNormalize(pr, trainLen, rescale)
  }

  /** Normalising before windowing is the same as rescaling every frame of
      every window with the one map built from `pr[0:train_len]` and the
      whole series. */
  lemma {:induction false} NormalizedWindows<T>(pr: seq<T>, trainLen: nat, rescale: (seq<T>, seq<T>, T) -> T, m: nat, k: nat, i: nat, j: nat)
    requires Start(k, m) <= |pr|
    requires i < k && j < m
    ensures Windows(LogNormalize(pr, trainLen, rescale), m, k)[i][j]
         == rescale(Slice(pr, 0, trainLen), pr, Windows(pr, m, k)[i][j])
  {
    WindowFrame(pr, m, k, i, j);
    WindowFrame(LogNormalize(pr, trainLen, rescale), m, k, i, j);
    LogNormalizeAt(pr, trainLen, rescale, Start(i, m) + j);
  }

  /** The normalisation statistics are taken from the first `train_len`
      frames, which is fewer frames than the training windows hold whenever
      a window is longer than one frame. */
  lemma {:induction false} LogReferenceShorterThanTraining<T>(pr: seq<T>, m: nat, n: nat, c: Counts, testUb: nat)
    requires m > 1
    requires Start(n, m) <= |pr|
    requires n == c.train + c.dev + c.test <= testUb && c.train > 0
    ensures var p := Partition(Windows(pr, m, n), c, testUb);
      Slice(pr, 0, c.train) < Concat(p.train)
  {
    var p := Partition(Windows(pr, m, n), c, testUb);
    WindowsPrefix(pr, m, n, c.train);
    assert p.train == Windows(pr, m, c.train);
    WindowsTilePrefix(pr, m, c.train);
    assert Concat(p.train) == pr[..Start(c.train, m)];
    StartExceedsCount(c.train, m);
    assert Slice(pr, 0, c.train) == pr[..c.train];
  }

  /** The first `k` of `n` windows are the windows of a `k`-window cut. */
  lemma {:induction false} WindowsPrefix<T>(s: seq<T>, m: nat, n: nat, k: nat)
    requires Start(n, m) <= |s| && k <= n
    ensures Start(k, m) <= |s|
    ensures Windows(s, m, n)[..k] == Windows(s, m, k)
  {
    StartMonotone(k, n, m);
  }

  // ---------------------------------------------------------------------
  // split_data
  // ---------------------------------------------------------------------

  /** A series of at least one window gives at least one training window,
      so the normalisation reference `pr[0:train_len]` is not empty. */
  lemma {:induction false} SomeTrainingWindow(frames: nat, maxLen: nat)
    requires 0 < maxLen <= frames && frames / maxLen < MaxWindows
    ensures WindowCount(frames, maxLen) > 0
    ensures PartitionCounts(WindowCount(frames, maxLen)).train > 0
  {
    assert Start(1, maxLen) == maxLen;
  }

  /** `split_data(pr, nc_time, norm_type, max_len)`: returns the train, dev
      and test windows of the (possibly normalised) series and of the
      timestamps. */
  method SplitData<T, U>(pr: seq<T>, ncTime: seq<U>, norm: Normalization, maxLen: nat,
                         rescale: (seq<T>, seq<T>, T) -> T)
    returns (trainSeqs: seq<seq<T>>, devSeqs: seq<seq<T>>, testSeqs: seq<seq<T>>,
             trainTimes: seq<seq<U>>, devTimes: seq<seq<U>>, testTimes: seq<seq<U>>)
    requires maxLen > 0 && |pr| / maxLen < MaxWindows
    requires |pr| >= maxLen
    requires |ncTime| >= |pr|
    ensures var n := WindowCount(|pr|, maxLen); var c := PartitionCounts(n);
      var series := Normalized(pr, norm, c.train, rescale);
      var ub := TestSliceEnd(n, maxLen);
      Split(trainSeqs, devSeqs, testSeqs) == Partition(Windows(series, maxLen, n), c, ub) &&
      Split(trainTimes, devTimes, testTimes) == Partition(Windows(ncTime, maxLen, n), c, ub)
    ensures |trainSeqs| > 0 && |trainTimes| > 0
  {
    // bounds for train/dev/test
    var numSeqs := WindowCount(|pr|, maxLen);
    var counts := PartitionCounts(numSeqs);
    assert counts.train + counts.test + counts.dev == numSeqs;
    SomeTrainingWindow(|pr|, maxLen);

    // normalise before the split
    var series := Normalized(pr, norm, counts.train, rescale);

    // cut the windows; normalising kept the length, so the count is unchanged
    numSeqs := WindowCount(|series|, maxLen);
    var ins: seq<seq<T>> := [];
    var times: seq<seq<U>> := [];
    var i := 0;
    while i < numSeqs
      invariant i <= numSeqs
      invariant Start(i, maxLen) <= |series| && Start(i, maxLen) <= |ncTime|
      invariant ins == Windows(series, maxLen, i)
      invariant times == Windows(ncTime, maxLen, i)
    {
      WindowsStep(series, maxLen, i, numSeqs);
      WindowsStep(ncTime, maxLen, i, numSeqs);
      ins := ins + [Slice(series, i * maxLen, (i + 1) * maxLen)];
      times := times + [Slice(ncTime, i * maxLen, (i + 1) * maxLen)];
      i := i + 1;
    }

    var testUb := TestSliceEnd(numSeqs, maxLen);
    var seqs := Partition(ins, counts, testUb);
    var stamps := Partition(times, counts, testUb);
    trainSeqs, devSeqs, testSeqs := seqs.train, seqs.dev, seqs.test;
    trainTimes, devTimes, testTimes := stamps.train, stamps.dev, stamps.test;
  }
}
