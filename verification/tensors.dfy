/** Tensors as nested sequences over an abstract element type.

    A batch tensor of shape `(bs, ts, w)` is a `seq<seq<seq<T>>>`; one
    sentence of it is a `ts` x `w` matrix `seq<seq<T>>`.  This module holds
    the shape algebra the tagger relies on: zero blocks, padding along the
    time axis, row-major flattening, regrouping a flat sequence into rows
    (`view`/`reshape`) and concatenation along the last axis. */
module Tensors {
  import opened Results

  /** `m` has `rows` rows, each exactly `cols` wide. */
  predicate IsMatrix<T>(m: seq<seq<T>>, rows: nat, cols: nat) {
    |m| == rows && forall t :: 0 <= t < |m| ==> |m[t]| == cols
  }

  /** `x` has shape `(b, t, w)`. */
  predicate IsTensor3<T>(x: seq<seq<seq<T>>>, b: nat, t: nat, w: nat) {
    |x| == b && forall i :: 0 <= i < |x| ==> IsMatrix(x[i], t, w)
  }

  /** An `n` x `w` block filled with the zero element `z` (`torch.zeros`). */
  function Zeros<T>(n: nat, w: nat, z: T): (r: seq<seq<T>>)
    ensures IsMatrix(r, n, w)
    ensures forall i, j :: 0 <= i < n && 0 <= j < w ==> r[i][j] == z
  {
    seq(n, _ => seq(w, _ => z))
  }

  /** `row` is all zero elements. */
  ghost predicate AllZero<T>(row: seq<T>, z: T) {
    forall j :: 0 <= j < |row| ==> row[j] == z
  }

  /** `k` zero rows before and after `h` along the time axis
      (`torch.cat((z, h, z), dim=1)` for one sentence). */
  function PadTime<T>(h: seq<seq<T>>, k: nat, w: nat, z: T): (r: seq<seq<T>>)
    requires IsMatrix(h, |h|, w)
    ensures IsMatrix(r, |h| + 2 * k, w)
    ensures forall t :: 0 <= t < |h| ==> r[k + t] == h[t]
    ensures forall t :: 0 <= t < k ==> AllZero(r[t], z)
    ensures forall t :: |h| + k <= t < |h| + 2 * k ==> AllZero(r[t], z)
  {
    Zeros(k, w, z) + h + Zeros(k, w, z)
  }

  /** Row-major flattening: the rows of `m` one after another. */
  function Flatten<T>(m: seq<seq<T>>): seq<T>
  {
    if |m| == 0 then [] else m[0] + Flatten(m[1..])
  }

  lemma {:induction false} FlattenAppend<T>(a: seq<seq<T>>, b: seq<seq<T>>)
    ensures Flatten(a + b) == Flatten(a) + Flatten(b)
  {
    if |a| == 0 {
      assert a + b == b;
    } else {
      assert (a + b)[1..] == a[1..] + b;
      FlattenAppend(a[1..], b);
    }
  }

  /** Flattening an `rows` x `w` matrix gives `rows * w` elements. */
  lemma {:induction false} FlattenLength<T>(m: seq<seq<T>>, rows: nat, w: nat)
    requires IsMatrix(m, rows, w)
    ensures |Flatten(m)| == rows * w
  {
    if rows > 0 {
      FlattenLength(m[1..], rows - 1, w);
    }
  }

  /** Row-major position: element `j` of row `i` sits at `i * w + j`. */
  lemma {:induction false} FlattenIndex<T>(m: seq<seq<T>>, rows: nat, w: nat, i: nat, j: nat)
    requires IsMatrix(m, rows, w)
    requires i < rows && j < w
    ensures i * w + j < |Flatten(m)|
    ensures Flatten(m)[i * w + j] == m[i][j]
  {
    FlattenLength(m, rows, w);
    if i > 0 {
      FlattenIndex(m[1..], rows - 1, w, i - 1, j);
      assert (i - 1) * w + j + w == i * w + j;
    }
  }

  /** The elements of rows `a .. b-1` are the slice `a*w .. b*w` of the flattening. */
  lemma {:induction false} FlattenSlice<T>(m: seq<seq<T>>, w: nat, a: nat, b: nat)
    requires IsMatrix(m, |m|, w)
    requires a <= b <= |m|
    ensures a * w <= b * w <= |Flatten(m)|
    ensures Flatten(m)[a * w .. b * w] == Flatten(m[a..b])
  {
    var front, mid, back := m[..a], m[a..b], m[b..];
    assert m == front + mid + back;
    FlattenAppend(front + mid, back);
    FlattenAppend(front, mid);
    var fa, fm, fb := Flatten(front), Flatten(mid), Flatten(back);
    assert Flatten(m) == fa + fm + fb;
    assert (fa + fm + fb)[|fa| .. |fa| + |fm|] == fm;
    FlattenLength(front, a, w);
    FlattenLength(mid, b - a, w);
    FlattenLength(m, |m|, w);
    Distrib(a, b, w);
    MulMono(b, |m|, w);
  }

  /** `a * w + (b - a) * w == b * w`. */
  lemma Distrib(a: nat, b: nat, w: nat)
    requires a <= b
    ensures a * w + (b - a) * w == b * w
  {
  }

  /** Multiplication by a natural number is monotone. */
  lemma {:induction false} MulMono(a: nat, b: nat, w: nat)
    requires a <= b
    ensures a * w <= b * w
  {
    if a < b {
      MulMono(a, b - 1, w);
      assert (b - 1) * w + w == b * w;
    }
  }

  /** Dividing a product by one factor gives back the other. */
  lemma MulDiv(a: nat, b: nat)
    requires b > 0
    ensures (a * b) / b == a && (a * b) % b == 0
  {
    var q, r := (a * b) / b, (a * b) % b;
    assert a * b == q * b + r && 0 <= r < b;
    if q < a {
      MulMono(q + 1, a, b);
    } else if q > a {
      MulMono(a + 1, q, b);
    }
  }

  /** Row `k` of `n` rows of width `w` ends inside `n * w` elements. */
  lemma RowEnd(k: nat, n: nat, w: nat)
    requires k < n
    ensures k * w + w <= n * w
  {
    MulMono(k + 1, n, w);
    assert k * w + w == (k + 1) * w;
  }

  /** Regroups `n * w` elements into `n` rows of width `w`, in order: the
      semantics of `view(n, w)` on contiguous data. */
  function Chunk<T>(s: seq<T>, n: nat, w: nat): (r: seq<seq<T>>)
    requires |s| == n * w
    ensures IsMatrix(r, n, w)
  {
    if n == 0 then []
    else
      assert |s| - w == (n - 1) * w;
      [s[..w]] + Chunk(s[w..], n - 1, w)
  }

  /** Element `j` of row `k` of the regrouping is element `k * w + j` of the
      flat sequence. */
  lemma {:induction false} ChunkIndex<T>(s: seq<T>, n: nat, w: nat, k: nat, j: nat)
    requires |s| == n * w
    requires k < n && j < w
    ensures k * w + j < |s| && Chunk(s, n, w)[k][j] == s[k * w + j]
  {
    assert |s| - w == (n - 1) * w;
    var r := Chunk(s, n, w);
    assert r == [s[..w]] + Chunk(s[w..], n - 1, w);
    if k == 0 {
      MulMono(1, n, w);
    } else {
      ChunkIndex(s[w..], n - 1, w, k - 1, j);
      assert r[k] == Chunk(s[w..], n - 1, w)[k - 1];
      assert (k - 1) * w + j + w == k * w + j;
    }
  }

  /** Regrouping undoes flattening. */
  lemma {:induction false} ChunkFlatten<T>(m: seq<seq<T>>, n: nat, w: nat)
    requires IsMatrix(m, n, w)
    ensures |Flatten(m)| == n * w
    ensures Chunk(Flatten(m), n, w) == m
  {
    FlattenLength(m, n, w);
    if n > 0 {
      var f := Flatten(m);
      assert f == m[0] + Flatten(m[1..]);
      assert f[..w] == m[0];
      assert f[w..] == Flatten(m[1..]);
      ChunkFlatten(m[1..], n - 1, w);
      assert Chunk(f, n, w) == [m[0]] + m[1..];
      assert [m[0]] + m[1..] == m;
    }
  }

  /** Flattening undoes regrouping. */
  lemma {:induction false} FlattenChunk<T>(s: seq<T>, n: nat, w: nat)
    requires |s| == n * w
    ensures Flatten(Chunk(s, n, w)) == s
  {
    if n > 0 {
      assert |s| - w == (n - 1) * w;
      var r := Chunk(s, n, w);
      assert r[1..] == Chunk(s[w..], n - 1, w);
      FlattenChunk(s[w..], n - 1, w);
      assert s == s[..w] + s[w..];
    }
  }

  /** `view(-1, w)` / `reshape(-1, w)` on contiguous data: refuses a zero
      width (the row count would be ambiguous) and a length that is not a
      multiple of the width; otherwise cuts the data into rows of `w`. */
  function View<T>(data: seq<T>, w: nat): (r: Result<seq<seq<T>>>)
    ensures r.Ok? <==> w > 0 && |data| % w == 0
    ensures r.Ok? ==> IsMatrix(r.value, |data| / w, w) && Flatten(r.value) == data
  {
    if w == 0 || |data| % w != 0 then Err(RuntimeError)
    else
      var n := |data| / w;
      assert |data| == n * w;
      FlattenChunk(data, n, w);
      Ok(Chunk(data, n, w))
  }

  /** Viewing the flattening of an `n` x `w` matrix (`w > 0`) gives the
      matrix back. */
  lemma ViewFlatten<T>(m: seq<seq<T>>, n: nat, w: nat)
    requires w > 0 && IsMatrix(m, n, w)
    ensures View(Flatten(m), w) == Ok(m)
  {
    ChunkFlatten(m, n, w);
    MulDiv(n, w);
  }

  /** Flattening a batch whose rows all have width `w` gives rows of width `w`. */
  lemma {:induction false} FlattenKeepsWidth<T>(x: seq<seq<seq<T>>>, w: nat)
    requires forall i, t :: 0 <= i < |x| && 0 <= t < |x[i]| ==> |x[i][t]| == w
    ensures IsMatrix(Flatten(x), |Flatten(x)|, w)
  {
    if |x| > 0 {
      FlattenKeepsWidth(x[1..], w);
      assert forall t :: 0 <= t < |x[0]| ==> |x[0][t]| == w;
    }
  }

  /** Flattens each matrix of a batch into a single row. */
  function MapFlatten<T>(x: seq<seq<seq<T>>>): (r: seq<seq<T>>)
    ensures |r| == |x| && forall i :: 0 <= i < |x| ==> r[i] == Flatten(x[i])
  {
    seq(|x|, i requires 0 <= i < |x| => Flatten(x[i]))
  }

  /** Flattening a batch twice lays out the same elements as flattening
      every matrix first and then the resulting rows. */
  lemma {:induction false} FlattenFlatten<T>(x: seq<seq<seq<T>>>)
    ensures Flatten(Flatten(x)) == Flatten(MapFlatten(x))
  {
    if |x| > 0 {
      FlattenFlatten(x[1..]);
      FlattenAppend(x[0], Flatten(x[1..]));
      assert MapFlatten(x)[1..] == MapFlatten(x[1..]);
    }
  }

  /** Regrouping distributes over concatenation at a row boundary. */
  lemma {:induction false} ChunkAppend<T>(a: seq<T>, b: seq<T>, na: nat, nb: nat, w: nat)
    requires |a| == na * w && |b| == nb * w
    ensures |a + b| == (na + nb) * w
    ensures Chunk(a + b, na + nb, w) == Chunk(a, na, w) + Chunk(b, nb, w)
  {
    Distrib(na, na + nb, w);
    if na == 0 {
      assert a + b == b;
    } else {
      MulMono(1, na, w);
      assert |a| - w == (na - 1) * w;
      ChunkAppend(a[w..], b, na - 1, nb, w);
      assert (a + b)[..w] == a[..w];
      assert (a + b)[w..] == a[w..] + b;
      assert Chunk(a + b, na + nb, w) == [a[..w]] + Chunk(a[w..] + b, na - 1 + nb, w);
    }
  }

  /** Row `k` of the regrouping is the slice `k*w .. k*w + w`. */
  lemma {:induction false} ChunkRow<T>(s: seq<T>, n: nat, w: nat, k: nat)
    requires |s| == n * w && k < n
    ensures k * w + w <= |s|
    ensures Chunk(s, n, w)[k] == s[k * w .. k * w + w]
  {
    RowEnd(k, n, w);
    assert |s| - w == (n - 1) * w;
    if k > 0 {
      ChunkRow(s[w..], n - 1, w, k - 1);
      assert (k - 1) * w + w == k * w;
      assert Chunk(s, n, w)[k] == Chunk(s[w..], n - 1, w)[k - 1];
    }
  }

  /** A block of `w` elements regrouped as one row is that row. */
  lemma ChunkSingle<T>(s: seq<T>, w: nat)
    requires |s| == w
    ensures |s| == 1 * w && Chunk(s, 1, w) == [s]
  {
    assert |s| - w == 0 * w;
    assert Chunk(s, 1, w) == [s[..w]] + Chunk(s[w..], 0, w);
    assert s[..w] == s;
  }

  /** A flattened zero block is `n * w` zero elements. */
  lemma {:induction false} FlattenZeros<T>(n: nat, w: nat, z: T)
    ensures |Flatten(Zeros(n, w, z))| == n * w
    ensures AllZero(Flatten(Zeros(n, w, z)), z)
  {
    FlattenLength(Zeros(n, w, z), n, w);
    if n > 0 {
      FlattenZeros(n - 1, w, z);
      assert Zeros(n, w, z)[1..] == Zeros(n - 1, w, z);
      var f := Flatten(Zeros(n, w, z));
      assert f == Zeros(n, w, z)[0] + Flatten(Zeros(n - 1, w, z));
      forall j | 0 <= j < |f|
        ensures f[j] == z
      {
        if j >= w {
          assert f[j] == Flatten(Zeros(n - 1, w, z))[j - w];
        }
      }
    }
  }

  /** Concatenation along the last axis, position by position. */
  function ConcatRows<T>(a: seq<seq<T>>, b: seq<seq<T>>): (r: seq<seq<T>>)
    requires |a| == |b|
    ensures |r| == |a|
    ensures forall t :: 0 <= t < |r| ==> |r[t]| == |a[t]| + |b[t]| && r[t][..|a[t]|] == a[t] && r[t][|a[t]|..] == b[t]
  {
    seq(|a|, t requires 0 <= t < |a| => a[t] + b[t])
  }

  /** Row widths add up under concatenation. */
  lemma ConcatRowsShape<T>(a: seq<seq<T>>, b: seq<seq<T>>, n: nat, wa: nat, wb: nat)
    requires IsMatrix(a, n, wa) && IsMatrix(b, n, wb)
    ensures IsMatrix(ConcatRows(a, b), n, wa + wb)
  {
  }
}
