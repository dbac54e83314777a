/** The torch building blocks the tagger's forward pass is made of, as
    shape-exact functions over real numbers: embedding lookup, the regrouping
    of affix windows, a 1-D convolution padded with `kernel_size // 2` zero
    steps, 1-D max pooling padded with `pool_length // 2`, and a recurrent
    layer run over packed (variable-length) sentences.  The learned parts —
    the convolution kernel, the recurrent cells, the classifier — are
    function parameters; only how they are wired and what shapes flow
    between them is modelled. */
module Layers {
  import opened Results
  import opened Tensors

  /** A row of `n` zeros. */
  function ZeroRow(n: nat): (r: seq<real>)
    ensures |r| == n && AllZero(r, 0.0)
  {
    seq(n, _ => 0.0)
  }

  /** An all-zero row of width `n` is `ZeroRow(n)`. */
  lemma ZeroRowUnique(row: seq<real>, n: nat)
    requires |row| == n && AllZero(row, 0.0)
    ensures row == ZeroRow(n)
  {
  }

  // ---------------------------------------------------------------------
  // nn.Embedding

  /** Every id names a row of the table. */
  predicate InTable(table: seq<seq<real>>, ids: seq<int>) {
    forall t :: 0 <= t < |ids| ==> 0 <= ids[t] < |table|
  }

  /** Every sentence's ids name rows of the table. */
  predicate BatchInTable(table: seq<seq<real>>, ids: seq<seq<int>>) {
    forall i :: 0 <= i < |ids| ==> InTable(table, ids[i])
  }

  /** `nn.Embedding` on one sentence: position `t` gets the table row of its
      id; an id outside the table (negative ones included) raises
      IndexError. */
  function Embed(table: seq<seq<real>>, ids: seq<int>): (r: Result<seq<seq<real>>>)
    ensures r.Ok? <==> InTable(table, ids)
    ensures r.Ok? ==> |r.value| == |ids| && forall t :: 0 <= t < |ids| ==> r.value[t] == table[ids[t]]
  {
    if InTable(table, ids) then Ok(seq(|ids|, t requires 0 <= t < |ids| => table[ids[t]]))
    else Err(IndexError)
  }

  /** `nn.Embedding` on a batch: sentence by sentence, failing if any
      sentence fails. */
  function EmbedBatch(table: seq<seq<real>>, ids: seq<seq<int>>): (r: Result<seq<seq<seq<real>>>>)
    ensures r.Ok? <==> BatchInTable(table, ids)
    ensures r.Ok? ==> |r.value| == |ids| && forall i :: 0 <= i < |ids| ==> Embed(table, ids[i]) == Ok(r.value[i])
  {
    if BatchInTable(table, ids) then Ok(seq(|ids|, i requires 0 <= i < |ids| => Embed(table, ids[i]).value))
    else Err(IndexError)
  }

  /** Looking up a `(b, m)` id matrix in a `vocab` x `e` table gives a
      `(b, m, e)` tensor. */
  lemma EmbedBatchShape(table: seq<seq<real>>, ids: seq<seq<int>>, vocab: nat, m: nat, e: nat)
    requires IsMatrix(table, vocab, e) && IsMatrix(ids, |ids|, m) && BatchInTable(table, ids)
    ensures EmbedBatch(table, ids).Ok?
    ensures IsTensor3(EmbedBatch(table, ids).value, |ids|, m, e)
  {
  }

  // ---------------------------------------------------------------------
  // Affix windows: zero padding along time, then view(bs, ts, -1)

  /** `x.view(bs, ts, -1)` on contiguous data: refuses an empty leading shape
      (the inferred width would be ambiguous) and a size that is not a
      multiple of `bs * ts`; otherwise regroups the elements, in order. */
  function ViewBatch(flat: seq<real>, bs: nat, ts: nat): (r: Result<seq<seq<seq<real>>>>)
    ensures r.Ok? <==> bs * ts > 0 && |flat| % (bs * ts) == 0
    ensures r.Ok? ==> IsTensor3(r.value, bs, ts, |flat| / (bs * ts))
    ensures r.Ok? ==> Flatten(Flatten(r.value)) == flat
  {
    var n := bs * ts;
    if n == 0 || |flat| % n != 0 then Err(RuntimeError)
    else
      var w := |flat| / n;
      assert |flat| == n * w;
      var rows := Chunk(flat, n, w);
      FlattenChunk(flat, n, w);
      FlattenChunk(rows, bs, ts);
      ChunkOfRows(rows, bs, ts, w);
      Ok(Chunk(rows, bs, ts))
  }

  /** Regrouping `bs * ts` rows of width `w` gives a `(bs, ts, w)` tensor. */
  lemma ChunkOfRows(rows: seq<seq<real>>, bs: nat, ts: nat, w: nat)
    requires IsMatrix(rows, bs * ts, w)
    ensures IsTensor3(Chunk(rows, bs, ts), bs, ts, w)
  {
    var r := Chunk(rows, bs, ts);
    forall i, t | 0 <= i < bs && 0 <= t < ts
      ensures |r[i][t]| == w
    {
      ChunkIndex(rows, bs, ts, i, t);
    }
  }

  /** Viewing the flattening of a `(bs, ts, w)` tensor as `(bs, ts, -1)`
      gives the tensor back. */
  lemma ViewBatchFlatten(x: seq<seq<seq<real>>>, bs: nat, ts: nat, w: nat)
    requires bs * ts > 0 && IsTensor3(x, bs, ts, w)
    ensures ViewBatch(Flatten(Flatten(x)), bs, ts) == Ok(x)
  {
    var n := bs * ts;
    FlattenLength(x, bs, ts);
    FlattenKeepsWidth(x, w);
    var rows := Flatten(x);
    FlattenLength(rows, n, w);
    MulDiv(w, n);
    assert |Flatten(rows)| == w * n;
    ChunkFlatten(rows, n, w);
    ChunkFlatten(x, bs, ts);
  }

  /** Each sentence with `k` zero rows before and after it. */
  function PadSentences(x: seq<seq<seq<real>>>, k: nat, e: nat): (r: seq<seq<seq<real>>>)
    requires forall i :: 0 <= i < |x| ==> IsMatrix(x[i], |x[i]|, e)
    ensures |r| == |x|
    ensures forall i :: 0 <= i < |x| ==> r[i] == PadTime(x[i], k, e, 0.0)
  {
    seq(|x|, i requires 0 <= i < |x| => PadTime(x[i], k, e, 0.0))
  }

  /** One affix feature of `forward`: `windows` zero rows are put before and
      after every sentence's window embeddings (`torch.zeros` and
      `torch.cat(..., dim=1)`), then the batch is regrouped by
      `view(bs, ts, -1)`.  A negative window count makes `torch.zeros` fail. */
  function AffixRows(emb: seq<seq<seq<real>>>, m: nat, e: nat, windows: int, bs: nat, ts: nat): (r: Result<seq<seq<seq<real>>>>)
    requires IsTensor3(emb, |emb|, m, e)
    ensures r.Ok? <==> windows >= 0 && bs * ts > 0 && (|emb| * (m + 2 * windows) * e) % (bs * ts) == 0
    ensures r.Ok? ==> |r.value| == bs && forall i :: 0 <= i < bs ==> |r.value[i]| == ts
  {
    if windows < 0 then Err(RuntimeError)
    else
      var padded := PadSentences(emb, windows, e);
      PaddedSize(emb, m, e, windows);
      ViewBatch(Flatten(Flatten(padded)), bs, ts)
  }

  /** The padded batch holds `|emb| * (m + 2 * windows) * e` numbers. */
  lemma PaddedSize(emb: seq<seq<seq<real>>>, m: nat, e: nat, windows: nat)
    requires IsTensor3(emb, |emb|, m, e)
    ensures |Flatten(Flatten(PadSentences(emb, windows, e)))| == |emb| * (m + 2 * windows) * e
  {
    var padded := PadSentences(emb, windows, e);
    assert IsTensor3(padded, |emb|, m + 2 * windows, e);
    FlattenLength(padded, |emb|, m + 2 * windows);
    FlattenKeepsWidth(padded, e);
    FlattenLength(Flatten(padded), |emb| * (m + 2 * windows), e);
  }

  /** The `ts` feature rows of one sentence: the padded window embeddings cut
      into groups of `windows`, each group flattened. */
  function WindowGroups(h: seq<seq<real>>, e: nat, windows: nat, ts: nat): (g: seq<seq<real>>)
    requires ts >= 2 && IsMatrix(h, (ts - 2) * windows, e)
    ensures |g| == ts
  {
    assert |PadTime(h, windows, e, 0.0)| == ts * windows;
    MapFlatten(Chunk(PadTime(h, windows, e, 0.0), ts, windows))
  }

  /** Cutting the padded sentence into groups of `windows` rows gives one
      zero block, the groups of the sentence itself, and another zero block. */
  lemma PaddedChunks(h: seq<seq<real>>, e: nat, windows: nat, ts: nat)
    requires ts >= 2 && IsMatrix(h, (ts - 2) * windows, e)
    ensures |PadTime(h, windows, e, 0.0)| == ts * windows
    ensures Chunk(PadTime(h, windows, e, 0.0), ts, windows)
         == [Zeros(windows, e, 0.0)] + Chunk(h, ts - 2, windows) + [Zeros(windows, e, 0.0)]
  {
    var z := Zeros(windows, e, 0.0);
    assert PadTime(h, windows, e, 0.0) == z + h + z;
    ChunkAppend(z, h, 1, ts - 2, windows);
    ChunkAppend(z + h, z, 1 + (ts - 2), 1, windows);
    ChunkSingle(z, windows);
  }

  /** Inner position `t` of the groups holds the embeddings of windows
      `(t-1)*windows .. t*windows - 1`. */
  lemma WindowGroupAt(h: seq<seq<real>>, e: nat, windows: nat, ts: nat, t: nat)
    requires ts >= 2 && IsMatrix(h, (ts - 2) * windows, e)
    requires 1 <= t <= ts - 2
    ensures (t - 1) * windows <= t * windows <= |h|
    ensures WindowGroups(h, e, windows, ts)[t] == Flatten(h[(t - 1) * windows .. t * windows])
    ensures |WindowGroups(h, e, windows, ts)[t]| == windows * e
  {
    var inner := Chunk(h, ts - 2, windows);
    PaddedChunks(h, e, windows, ts);
    var c := Chunk(PadTime(h, windows, e, 0.0), ts, windows);
    assert c[t] == inner[t - 1];
    var a, b := (t - 1) * windows, t * windows;
    ChunkRow(h, ts - 2, windows, t - 1);
    Distrib(t - 1, t, windows);
    assert inner[t - 1] == h[a .. b];
    assert IsMatrix(h[a .. b], windows, e);
    FlattenLength(h[a .. b], windows, e);
  }

  /** START and STOP get a flattened zero block. */
  lemma WindowGroupsEnds(h: seq<seq<real>>, e: nat, windows: nat, ts: nat)
    requires ts >= 2 && IsMatrix(h, (ts - 2) * windows, e)
    ensures WindowGroups(h, e, windows, ts)[0] == Flatten(Zeros(windows, e, 0.0))
    ensures WindowGroups(h, e, windows, ts)[ts - 1] == Flatten(Zeros(windows, e, 0.0))
  {
    PaddedChunks(h, e, windows, ts);
  }

  /** The groups hold the padded sentence's elements in order. */
  lemma WindowGroupsFlatten(h: seq<seq<real>>, e: nat, windows: nat, ts: nat)
    requires ts >= 2 && IsMatrix(h, (ts - 2) * windows, e)
    ensures Flatten(WindowGroups(h, e, windows, ts)) == Flatten(PadTime(h, windows, e, 0.0))
  {
    var p := PadTime(h, windows, e, 0.0);
    assert |p| == ts * windows;
    FlattenFlatten(Chunk(p, ts, windows));
    FlattenChunk(p, ts, windows);
  }

  /** The groups of one sentence form a `ts` x `windows * e` matrix with
      zeros at START and STOP, holding the padded sentence's elements in
      order. */
  lemma WindowGroupsAlign(h: seq<seq<real>>, e: nat, windows: nat, ts: nat)
    requires ts >= 2 && IsMatrix(h, (ts - 2) * windows, e)
    ensures IsMatrix(WindowGroups(h, e, windows, ts), ts, windows * e)
    ensures AllZero(WindowGroups(h, e, windows, ts)[0], 0.0)
    ensures AllZero(WindowGroups(h, e, windows, ts)[ts - 1], 0.0)
    ensures Flatten(WindowGroups(h, e, windows, ts)) == Flatten(PadTime(h, windows, e, 0.0))
  {
    var g := WindowGroups(h, e, windows, ts);
    WindowGroupsEnds(h, e, windows, ts);
    FlattenZeros(windows, e, 0.0);
    forall t | 0 <= t < ts
      ensures |g[t]| == windows * e
    {
      if 1 <= t <= ts - 2 {
        WindowGroupAt(h, e, windows, ts, t);
      }
    }
    WindowGroupsFlatten(h, e, windows, ts);
  }

  /** Every sentence's window groups. */
  function BatchWindowGroups(emb: seq<seq<seq<real>>>, e: nat, windows: nat, ts: nat): (r: seq<seq<seq<real>>>)
    requires ts >= 2 && IsTensor3(emb, |emb|, (ts - 2) * windows, e)
    ensures |r| == |emb| && forall i :: 0 <= i < |emb| ==> r[i] == WindowGroups(emb[i], e, windows, ts)
  {
    seq(|emb|, i requires 0 <= i < |emb| => WindowGroups(emb[i], e, windows, ts))
  }

  /** With `windows` affix windows per inner word and `ts - 2` inner words,
      the affix feature is well defined and aligned with the words: position
      `t` of sentence `i` (START and STOP excluded) holds the embeddings of
      windows `(t-1)*windows .. t*windows - 1` of that sentence, in order,
      and START and STOP hold zeros. */
  lemma AffixAlignment(emb: seq<seq<seq<real>>>, e: nat, windows: nat, ts: nat)
    requires |emb| > 0 && ts >= 2
    requires IsTensor3(emb, |emb|, (ts - 2) * windows, e)
    ensures AffixRows(emb, (ts - 2) * windows, e, windows, |emb|, ts) == Ok(BatchWindowGroups(emb, e, windows, ts))
    ensures IsTensor3(BatchWindowGroups(emb, e, windows, ts), |emb|, ts, windows * e)
  {
    var bs := |emb|;
    var m := (ts - 2) * windows;
    var padded := PadSentences(emb, windows, e);
    var g := BatchWindowGroups(emb, e, windows, ts);
    forall i | 0 <= i < bs
      ensures MapFlatten(padded)[i] == MapFlatten(g)[i]
      ensures IsMatrix(g[i], ts, windows * e)
    {
      WindowGroupsAlign(emb[i], e, windows, ts);
    }
    assert MapFlatten(padded) == MapFlatten(g);
    FlattenFlatten(padded);
    FlattenFlatten(g);
    MulMono(1, bs, ts);
    ViewBatchFlatten(g, bs, ts, windows * e);
  }

  // ---------------------------------------------------------------------
  // nn.Conv1d(padding = kernel_size // 2) and ReLU

  /** Number of steps a convolution of kernel `k`, padded with `k // 2` zero
      steps on each side, produces from `ts` steps. */
  function ConvLength(ts: nat, k: nat): int {
    ts + 2 * (k / 2) - k + 1
  }

  /** An odd kernel keeps the number of steps; an even one adds one. */
  lemma ConvLengthParity(ts: nat, k: nat)
    requires k > 0
    ensures k % 2 == 1 ==> ConvLength(ts, k) == ts
    ensures k % 2 == 0 ==> ConvLength(ts, k) == ts + 1
  {
  }

  /** The `k` rows output step `t` reads: input steps `t - k/2 .. t - k/2 + k - 1`,
      with a zero row wherever that falls outside the sentence. */
  function ConvWindow(h: seq<seq<real>>, f: nat, k: nat, t: nat): seq<seq<real>> {
    seq(k, j => var s := t + j - k / 2; if 0 <= s < |h| then h[s] else ZeroRow(f))
  }

  /** Sliding over the zero-padded sentence reads exactly `ConvWindow`. */
  lemma PaddedWindow(h: seq<seq<real>>, f: nat, k: nat, t: nat)
    requires IsMatrix(h, |h|, f) && k > 0 && t < ConvLength(|h|, k)
    ensures t + k <= |PadTime(h, k / 2, f, 0.0)|
    ensures PadTime(h, k / 2, f, 0.0)[t .. t + k] == ConvWindow(h, f, k, t)
  {
    var p := PadTime(h, k / 2, f, 0.0);
    var w := ConvWindow(h, f, k, t);
    forall j | 0 <= j < k
      ensures p[t + j] == w[j]
    {
      var s := t + j - k / 2;
      if 0 <= s < |h| {
        assert p[k / 2 + s] == h[s];
      } else {
        ZeroRowUnique(p[t + j], f);
      }
    }
  }

  /** `PaddedWindow` at every output step. */
  lemma PaddedWindows(h: seq<seq<real>>, f: nat, k: nat)
    requires IsMatrix(h, |h|, f) && k > 0
    ensures |PadTime(h, k / 2, f, 0.0)| == |h| + 2 * (k / 2)
    ensures forall t :: 0 <= t < ConvLength(|h|, k) ==> PadTime(h, k / 2, f, 0.0)[t .. t + k] == ConvWindow(h, f, k, t)
  {
    var p := PadTime(h, k / 2, f, 0.0);
    forall t | 0 <= t < ConvLength(|h|, k)
      ensures p[t .. t + k] == ConvWindow(h, f, k, t)
    {
      PaddedWindow(h, f, k, t);
    }
  }

  /** `nn.Conv1d` over the time axis of one sentence of width `f`, with
      `k // 2` zero steps of padding: output step `t` is the kernel applied to
      `ConvWindow(h, f, k, t)`.  A zero kernel size, or a padded sentence
      shorter than the kernel, raises RuntimeError. */
  function Conv1d(h: seq<seq<real>>, f: nat, k: nat, kernel: seq<seq<real>> -> seq<real>): (r: Result<seq<seq<real>>>)
    requires IsMatrix(h, |h|, f)
    ensures r.Ok? <==> k > 0 && ConvLength(|h|, k) > 0
    ensures r.Ok? ==> |r.value| == ConvLength(|h|, k)
    ensures r.Ok? ==> forall t :: 0 <= t < |r.value| ==> r.value[t] == kernel(ConvWindow(h, f, k, t))
  {
    if k == 0 || ConvLength(|h|, k) <= 0 then Err(RuntimeError)
    else
      var p := PadTime(h, k / 2, f, 0.0);
      var n := ConvLength(|h|, k);
      PaddedWindows(h, f, k);
      Ok(seq(n, t requires 0 <= t < n => kernel(p[t .. t + k])))
  }

  /** `kernel` maps every `k` x `f` window to `c` numbers. */
  ghost predicate KernelFits(kernel: seq<seq<real>> -> seq<real>, k: nat, f: nat, c: nat) {
    forall w :: IsMatrix(w, k, f) ==> |kernel(w)| == c
  }

  /** Every convolution window is a `k` x `f` matrix. */
  lemma ConvWindowShape(h: seq<seq<real>>, f: nat, k: nat, t: nat)
    requires IsMatrix(h, |h|, f)
    ensures IsMatrix(ConvWindow(h, f, k, t), k, f)
  {
    var w := ConvWindow(h, f, k, t);
    forall j | 0 <= j < k
      ensures |w[j]| == f
    {
      var s := t + j - k / 2;
      if 0 <= s < |h| {
        assert w[j] == h[s];
      } else {
        assert w[j] == ZeroRow(f);
      }
    }
  }

  /** `torch.nn.ReLU`. */
  function Relu(x: real): (r: real)
    ensures r >= 0.0 && r >= x && (r == x || r == 0.0)
  {
    if x > 0.0 then x else 0.0
  }

  /** ReLU on every element of a row. */
  function ReluRow(row: seq<real>): (r: seq<real>)
    ensures |r| == |row| && forall j :: 0 <= j < |row| ==> r[j] == Relu(row[j])
  {
    seq(|row|, j requires 0 <= j < |row| => Relu(row[j]))
  }

  // ---------------------------------------------------------------------
  // nn.MaxPool1d(pool, padding = pool // 2) over the last axis

  /** Number of outputs of a max pool of size and stride `p`, padded with
      `p // 2` on each side, over `n` elements (floor mode). */
  function PoolWidth(n: nat, p: nat): int
    requires p > 0
  {
    (n + 2 * (p / 2) - p) / p + 1
  }

  /** Position `i` of the input lies in pooling window `j`. */
  predicate InPoolWindow(p: nat, j: nat, i: int) {
    j * p - p / 2 <= i < j * p - p / 2 + p
  }

  /** The largest element of a non-empty sequence. */
  function MaxOf(s: seq<real>): (r: real)
    requires |s| > 0
    ensures r in s && forall j :: 0 <= j < |s| ==> s[j] <= r
  {
    if |s| == 1 then s[0]
    else
      var m := MaxOf(s[1..]);
      assert m in s[1..];
      if s[0] >= m then s[0] else m
  }

  /** Every pooling window overlaps a non-empty row. */
  lemma PoolWindowInside(n: nat, p: nat, j: nat)
    requires n > 0 && p > 0 && j < PoolWidth(n, p)
    ensures 0 < j * p - p / 2 + p
    ensures j * p - p / 2 < n
  {
    var x := n + 2 * (p / 2) - p;
    assert x >= 0;
    assert x == (x / p) * p + x % p;
    MulMono(j, x / p, p);
  }

  /** Start and end (exclusive) of window `j`, clipped to a row of `n`. */
  function PoolLo(p: nat, j: nat): nat {
    if j * p - p / 2 < 0 then 0 else j * p - p / 2
  }
  function PoolHi(n: nat, p: nat, j: nat): nat {
    if j * p - p / 2 + p > n then n else if j * p - p / 2 + p < 0 then 0 else j * p - p / 2 + p
  }

  /** `m` is the largest element of `row` whose position lies in window `j`. */
  ghost predicate IsWindowMax(row: seq<real>, p: nat, j: nat, m: real) {
    && (forall i :: 0 <= i < |row| && InPoolWindow(p, j, i) ==> row[i] <= m)
    && (exists i :: 0 <= i < |row| && InPoolWindow(p, j, i) && row[i] == m)
  }

  /** The maximum of window `j`. */
  function PoolMax(row: seq<real>, p: nat, j: nat): (m: real)
    requires |row| > 0 && p > 0 && j < PoolWidth(|row|, p)
    ensures IsWindowMax(row, p, j, m)
  {
    PoolWindowInside(|row|, p, j);
    var lo, hi := PoolLo(p, j), PoolHi(|row|, p, j);
    var w := row[lo .. hi];
    var m := MaxOf(w);
    assert forall i :: 0 <= i < |row| && InPoolWindow(p, j, i) ==> row[i] == w[i - lo];
    var k :| 0 <= k < |w| && w[k] == m;
    assert row[lo + k] == m && InPoolWindow(p, j, lo + k);
    m
  }

  /** `MaxPool1d` on one non-empty row: output `j` is the largest element
      whose position lies in window `j` (the padding, minus infinity, never
      wins), and there are `PoolWidth` outputs. */
  function PoolRow(row: seq<real>, p: nat): (r: seq<real>)
    requires |row| > 0 && p > 0
    ensures |r| == if PoolWidth(|row|, p) < 0 then 0 else PoolWidth(|row|, p)
    ensures forall j :: 0 <= j < |r| ==> IsWindowMax(row, p, j, r[j])
  {
    var n := if PoolWidth(|row|, p) < 0 then 0 else PoolWidth(|row|, p);
    seq(n, j requires 0 <= j < n => PoolMax(row, p, j))
  }

  // ---------------------------------------------------------------------
  // nn.GRU over packed sequences

  /** A recurrent cell: the next state from the current state and one input
      step. */
  type Cell = (seq<real>, seq<real>) -> seq<real>

  /** `cell` maps an `h`-wide state and an `n`-wide input to an `h`-wide
      state. */
  ghost predicate CellFits(cell: Cell, n: nat, h: nat) {
    forall s, x :: |s| == h && |x| == n ==> |cell(s, x)| == h
  }

  /** Runs `cell` over `xs` from state `s`; the state after every step. */
  function Scan(cell: Cell, s: seq<real>, xs: seq<seq<real>>): (r: seq<seq<real>>)
    ensures |r| == |xs|
    decreases |xs|
  {
    if |xs| == 0 then []
    else
      var next := cell(s, xs[0]);
      [next] + Scan(cell, next, xs[1..])
  }

  /** The states after the first `k` steps depend only on the first `k`
      inputs. */
  lemma {:induction false} ScanPrefix(cell: Cell, s: seq<real>, xs: seq<seq<real>>, k: nat)
    requires k <= |xs|
    ensures Scan(cell, s, xs[..k]) == Scan(cell, s, xs)[..k]
    decreases k
  {
    if k > 0 {
      var next := cell(s, xs[0]);
      ScanPrefix(cell, next, xs[1..], k - 1);
      assert xs[..k][1..] == xs[1..][..k - 1];
      assert Scan(cell, s, xs)[..k] == [next] + Scan(cell, next, xs[1..])[..k - 1];
    }
  }

  /** With a fitting cell, every state has the state width. */
  lemma {:induction false} ScanWidth(cell: Cell, s: seq<real>, xs: seq<seq<real>>, n: nat, h: nat)
    requires CellFits(cell, n, h) && |s| == h && IsMatrix(xs, |xs|, n)
    ensures IsMatrix(Scan(cell, s, xs), |xs|, h)
    decreases |xs|
  {
    if |xs| > 0 {
      ScanWidth(cell, cell(s, xs[0]), xs[1..], n, h);
    }
  }

  /** The elements of `s` in reverse order. */
  function Reverse<T>(s: seq<T>): (r: seq<T>)
    ensures |r| == |s| && forall i :: 0 <= i < |s| ==> r[i] == s[|s| - 1 - i]
  {
    seq(|s|, i requires 0 <= i < |s| => s[|s| - 1 - i])
  }

  /** Width of the recurrent output: both directions side by side, or one. */
  function Directions(bidir: bool): nat {
    if bidir then 2 else 1
  }

  /** One sentence through `pack_padded_sequence`, a (bi)directional GRU
      started from the zero state, and `pad_packed_sequence` to `total`
      steps.  Only the first `len` steps are read: the forward cell runs over
      them left to right, the backward cell right to left starting at step
      `len - 1`, and the two states of a step are concatenated; the steps
      from `len` on are zero rows. */
  function RecurSentence(x: seq<seq<real>>, len: nat, total: nat, h: nat, bidir: bool,
                         fwdCell: Cell, bwdCell: Cell): (r: seq<seq<real>>)
    requires len <= |x| && len <= total
    ensures |r| == total
    ensures forall t :: len <= t < total ==> r[t] == ZeroRow(Directions(bidir) * h)
  {
    var fwd := Scan(fwdCell, ZeroRow(h), x[..len]);
    var bwd := Reverse(Scan(bwdCell, ZeroRow(h), Reverse(x[..len])));
    seq(total, t requires 0 <= t < total =>
      if t < len then (if bidir then fwd[t] + bwd[t] else fwd[t])
      else ZeroRow(Directions(bidir) * h))
  }

  /** With fitting cells every output step is `Directions(bidir) * h` wide. */
  lemma RecurSentenceWidth(x: seq<seq<real>>, len: nat, total: nat, n: nat, h: nat, bidir: bool,
                           fwdCell: Cell, bwdCell: Cell)
    requires len <= |x| && len <= total && IsMatrix(x, |x|, n)
    requires CellFits(fwdCell, n, h) && CellFits(bwdCell, n, h)
    ensures IsMatrix(RecurSentence(x, len, total, h, bidir, fwdCell, bwdCell), total, Directions(bidir) * h)
  {
    ScanWidth(fwdCell, ZeroRow(h), x[..len], n, h);
    ScanWidth(bwdCell, ZeroRow(h), Reverse(x[..len]), n, h);
  }

  /** The forward state at step `t < len` has read steps `0 .. t` and no
      others. */
  lemma RecurForwardState(x: seq<seq<real>>, len: nat, total: nat, n: nat, h: nat, bidir: bool,
                          fwdCell: Cell, bwdCell: Cell, t: nat)
    requires len <= |x| && len <= total && IsMatrix(x, |x|, n)
    requires CellFits(fwdCell, n, h) && CellFits(bwdCell, n, h)
    requires t < len
    ensures |RecurSentence(x, len, total, h, bidir, fwdCell, bwdCell)[t]| == Directions(bidir) * h
    ensures RecurSentence(x, len, total, h, bidir, fwdCell, bwdCell)[t][..h] == Scan(fwdCell, ZeroRow(h), x[..t + 1])[t]
  {
    var xs := x[..len];
    ScanPrefix(fwdCell, ZeroRow(h), xs, t + 1);
    assert xs[..t + 1] == x[..t + 1];
    ScanWidth(fwdCell, ZeroRow(h), xs, n, h);
    RecurSentenceWidth(x, len, total, n, h, bidir, fwdCell, bwdCell);
  }

  /** In a bidirectional layer the backward state at step `t < len` has read
      steps `len - 1` down to `t`: it starts at the sentence's own last step,
      never at a padded one. */
  lemma RecurBackwardState(x: seq<seq<real>>, len: nat, total: nat, n: nat, h: nat,
                           fwdCell: Cell, bwdCell: Cell, t: nat)
    requires len <= |x| && len <= total && IsMatrix(x, |x|, n)
    requires CellFits(fwdCell, n, h) && CellFits(bwdCell, n, h)
    requires t < len
    ensures |RecurSentence(x, len, total, h, true, fwdCell, bwdCell)[t]| == 2 * h
    ensures RecurSentence(x, len, total, h, true, fwdCell, bwdCell)[t][h..] == Scan(bwdCell, ZeroRow(h), Reverse(x[t..len]))[len - 1 - t]
  {
    var xs := x[..len];
    var rev := Reverse(xs);
    ScanPrefix(bwdCell, ZeroRow(h), rev, len - t);
    assert rev[..len - t] == Reverse(x[t..len]);
    ScanWidth(fwdCell, ZeroRow(h), xs, n, h);
    ScanWidth(bwdCell, ZeroRow(h), rev, n, h);
    RecurSentenceWidth(x, len, total, n, h, true, fwdCell, bwdCell);
    var fwd := Scan(fwdCell, ZeroRow(h), xs);
    var bwd := Reverse(Scan(bwdCell, ZeroRow(h), rev));
    assert RecurSentence(x, len, total, h, true, fwdCell, bwdCell)[t] == fwd[t] + bwd[t];
  }

  /** In a bidirectional layer step `t < len` is the forward state after
      steps `0 .. t` followed by the backward state after steps `len - 1`
      down to `t`. */
  lemma RecurBidirStep(x: seq<seq<real>>, len: nat, total: nat, n: nat, h: nat,
                       fwdCell: Cell, bwdCell: Cell, t: nat)
    requires len <= |x| && len <= total && IsMatrix(x, |x|, n)
    requires CellFits(fwdCell, n, h) && CellFits(bwdCell, n, h)
    requires t < len
    ensures RecurSentence(x, len, total, h, true, fwdCell, bwdCell)[t]
         == Scan(fwdCell, ZeroRow(h), x[..t + 1])[t] + Scan(bwdCell, ZeroRow(h), Reverse(x[t..len]))[len - 1 - t]
  {
    RecurForwardState(x, len, total, n, h, true, fwdCell, bwdCell, t);
    RecurBackwardState(x, len, total, n, h, fwdCell, bwdCell, t);
    var r := RecurSentence(x, len, total, h, true, fwdCell, bwdCell)[t];
    assert r == r[..h] + r[h..];
  }

  /** Whatever stands at the padded steps of a sentence does not reach the
      output. */
  lemma RecurIgnoresPadding(x: seq<seq<real>>, y: seq<seq<real>>, len: nat, total: nat, h: nat, bidir: bool,
                            fwdCell: Cell, bwdCell: Cell)
    requires len <= |x| && len <= |y| && len <= total
    requires x[..len] == y[..len]
    ensures RecurSentence(x, len, total, h, bidir, fwdCell, bwdCell) == RecurSentence(y, len, total, h, bidir, fwdCell, bwdCell)
  {
  }

  // ---------------------------------------------------------------------
  // Summing the two directions, and dropping START / STOP

  /** `h[:, :, :H] + h[:, :, H:]` on one step of a bidirectional output. */
  function SumHalves(row: seq<real>, h: nat): (r: seq<real>)
    requires |row| == 2 * h
    ensures |r| == h
  {
    seq(h, j requires 0 <= j < h => row[j] + row[h + j])
  }

  /** Summing the halves of a concatenated forward/backward step adds the
      two directions element by element. */
  lemma SumHalvesOfConcat(fwd: seq<real>, bwd: seq<real>, h: nat)
    requires |fwd| == h && |bwd| == h
    ensures |fwd + bwd| == 2 * h
    ensures forall j :: 0 <= j < h ==> SumHalves(fwd + bwd, h)[j] == fwd[j] + bwd[j]
  {
  }

  /** Two rows of equal width added entry by entry. */
  function AddRows(u: seq<real>, v: seq<real>): (r: seq<real>)
    requires |u| == |v|
    ensures |r| == |u| && forall j :: 0 <= j < |u| ==> r[j] == u[j] + v[j]
  {
    seq(|u|, j requires 0 <= j < |u| => u[j] + v[j])
  }

  /** `h[:, 1:-1]` on one sentence: drops the first and the last step; fewer
      than two steps leave nothing. */
  function Trim<T>(x: seq<T>): (r: seq<T>)
    ensures |r| == if |x| < 2 then 0 else |x| - 2
    ensures forall t :: 0 <= t < |r| ==> r[t] == x[t + 1]
  {
    if |x| < 2 then [] else x[1 .. |x| - 1]
  }

  /** Dropping the first and last step undoes one step of padding on each
      side. */
  lemma TrimPadTime<T>(x: seq<seq<T>>, w: nat, z: T)
    requires IsMatrix(x, |x|, w)
    ensures Trim(PadTime(x, 1, w, z)) == x
  {
    var p := PadTime(x, 1, w, z);
    assert |p| == |x| + 2;
    var r := Trim(p);
    assert |r| == |x|;
    forall t | 0 <= t < |x|
      ensures r[t] == x[t]
    {
      assert r[t] == p[1 + t];
    }
  }
}
