/** The tagger's base contract (`deeptagger/models/model.py`): the fields a
    model is built from, the built flag, the masked negative-log-likelihood
    loss over row-major flattened predictions, and the probability and
    class predictions derived from the log-probabilities `forward` emits.

    Floating-point numbers are modelled as `real`; `exp` is a parameter. */
module Model {
  import opened Results
  import opened Tensors

  /** Pretrained rows attached to a vocabulary, with their column count
      (`vectors.size(1)`). */
  datatype Pretrained = Pretrained(cols: nat, rows: seq<seq<real>>)

  /** A torchtext vocabulary: tokens by id, ids by token, optional vectors. */
  datatype Vocab = Vocab(itos: seq<string>, stoi: map<string, int>, vectors: Option<Pretrained>)

  /** A torchtext field; only its vocabulary is consulted. */
  datatype Field = Field(vocab: Vocab)

  /** The `NLLLoss` object `build` installs: no class weights, and an
      ignore index. */
  datatype NllLoss = NllLoss(ignoreIndex: int)

  /** The state `Model.__init__` establishes and `build` completes. */
  datatype Base = Base(
    words: Field,
    tags: Field,
    prefixes: Option<Field>,
    suffixes: Option<Field>,
    caps: Option<Field>,
    isBuilt: bool,
    lossFn: Option<NllLoss>)

  /** `Model.__init__`: the optional feature fields default to `None`; the
      model starts unbuilt and without a loss. */
  function New(words: Field, tags: Field, prefixes: Option<Field> := None,
               suffixes: Option<Field> := None, caps: Option<Field> := None): (m: Base)
    ensures !m.isBuilt && m.lossFn == None
    ensures m.words == words && m.tags == tags
    ensures m.prefixes == prefixes && m.suffixes == suffixes && m.caps == caps
  {
    Base(words, tags, prefixes, suffixes, caps, false, None)
  }

  /** `nb_classes`: the number of entries of the tag vocabulary's `stoi`. */
  function NbClasses(m: Base): nat {
    |m.tags.vocab.stoi|
  }

  /** A model created with only the two mandatory fields has no optional
      features, is not built, has no loss, and as many classes as tags. */
  lemma NewDefaults(words: Field, tags: Field)
    ensures New(words, tags).prefixes == None
    ensures New(words, tags).suffixes == None
    ensures New(words, tags).caps == None
    ensures !New(words, tags).isBuilt && New(words, tags).lossFn == None
    ensures NbClasses(New(words, tags)) == |tags.vocab.stoi|
  {
  }

  // ---------------------------------------------------------------------
  // Masked negative log-likelihood (mean reduction, no class weights)
  // ---------------------------------------------------------------------

  /** The value of a mean-reduced loss; with every target ignored the mean
      is over zero terms. */
  datatype LossValue = Mean(value: real) | NaN

  /** Number of positions whose target is not the ignore index. */
  function Kept(gold: seq<int>, ignore: int): (k: nat)
    ensures k <= |gold|
    ensures k == 0 <==> forall n :: 0 <= n < |gold| ==> gold[n] == ignore
  {
    if |gold| == 0 then 0
    else (if gold[0] != ignore then 1 else 0) + Kept(gold[1..], ignore)
  }

  /** Every target that is not ignored names a column of its row. */
  predicate TargetsInRange(pred: seq<seq<real>>, gold: seq<int>, ignore: int)
    requires |pred| == |gold|
  {
    forall n :: 0 <= n < |gold| && gold[n] != ignore ==> 0 <= gold[n] < |pred[n]|
  }

  /** Sum of the log-probabilities picked out by the targets that are not
      ignored. */
  function PickedSum(pred: seq<seq<real>>, gold: seq<int>, ignore: int): real
    requires |pred| == |gold| && TargetsInRange(pred, gold, ignore)
  {
    if |gold| == 0 then 0.0
    else
      assert TargetsInRange(pred[1..], gold[1..], ignore) by {
        forall n | 0 <= n < |gold| - 1 && gold[1..][n] != ignore
          ensures 0 <= gold[1..][n] < |pred[1..][n]|
        {
          assert gold[1..][n] == gold[n + 1] && pred[1..][n] == pred[n + 1];
        }
      }
      (if gold[0] != ignore then pred[0][gold[0]] else 0.0) + PickedSum(pred[1..], gold[1..], ignore)
  }

  /** `NLLLoss(ignore_index=ignore)` on `(N, C)` predictions and `(N,)`
      targets: a batch-size mismatch is a `ValueError`, a target outside
      `[0, C)` that is not ignored an `IndexError`; otherwise the mean of
      the negated picked log-probabilities over the kept positions. */
  function Nll(pred: seq<seq<real>>, gold: seq<int>, ignore: int): (r: Result<LossValue>)
    ensures r.Ok? <==> |pred| == |gold| && TargetsInRange(pred, gold, ignore)
    ensures r.Ok? ==> (r.value == NaN <==> forall n :: 0 <= n < |gold| ==> gold[n] == ignore)
  {
    if |pred| != |gold| then Err(ValueError)
    else if !TargetsInRange(pred, gold, ignore) then Err(IndexError)
    else
      var k := Kept(gold, ignore);
      if k == 0 then Ok(NaN) else Ok(Mean(-PickedSum(pred, gold, ignore) / (k as real)))
  }

  /** The picked sum only reads rows whose target is kept. */
  lemma {:induction false} PickedSumIgnoresPadded(pred: seq<seq<real>>, pred': seq<seq<real>>, gold: seq<int>, ignore: int)
    requires |pred| == |gold| == |pred'|
    requires forall n :: 0 <= n < |gold| && gold[n] != ignore ==> pred[n] == pred'[n]
    requires TargetsInRange(pred, gold, ignore)
    ensures TargetsInRange(pred', gold, ignore)
    ensures PickedSum(pred, gold, ignore) == PickedSum(pred', gold, ignore)
  {
    if |gold| > 0 {
      PickedSumIgnoresPadded(pred[1..], pred'[1..], gold[1..], ignore);
    }
  }

  /** Rows at ignored positions do not influence the loss. */
  lemma NllIgnoresPadded(pred: seq<seq<real>>, pred': seq<seq<real>>, gold: seq<int>, ignore: int)
    requires |pred| == |pred'|
    requires forall n :: 0 <= n < |gold| && n < |pred| && gold[n] != ignore ==> pred[n] == pred'[n]
    ensures Nll(pred, gold, ignore) == Nll(pred', gold, ignore)
  {
    if |pred| == |gold| {
      if TargetsInRange(pred, gold, ignore) {
        PickedSumIgnoresPadded(pred, pred', gold, ignore);
      } else if TargetsInRange(pred', gold, ignore) {
        PickedSumIgnoresPadded(pred', pred, gold, ignore);
      }
    }
  }

  /** Flattening keeps, at each position, which rows agree: if `p` and `q`
      agree wherever `g` is not `ignore`, so do their flattenings. */
  lemma {:induction false} FlattenAgreesWhereKept(p: seq<seq<seq<real>>>, q: seq<seq<seq<real>>>, g: seq<seq<int>>, ignore: int)
    requires |p| == |q| == |g|
    requires forall i :: 0 <= i < |g| ==> |p[i]| == |q[i]| == |g[i]|
    requires forall i, t :: 0 <= i < |g| && 0 <= t < |g[i]| && g[i][t] != ignore ==> p[i][t] == q[i][t]
    ensures |Flatten(p)| == |Flatten(q)| == |Flatten(g)|
    ensures forall n :: 0 <= n < |Flatten(g)| && Flatten(g)[n] != ignore ==> Flatten(p)[n] == Flatten(q)[n]
  {
    if |g| > 0 {
      FlattenAgreesWhereKept(p[1..], q[1..], g[1..], ignore);
      assert Flatten(p) == p[0] + Flatten(p[1..]);
      assert Flatten(q) == q[0] + Flatten(q[1..]);
      assert Flatten(g) == g[0] + Flatten(g[1..]);
      forall n | 0 <= n < |Flatten(g)| && Flatten(g)[n] != ignore
        ensures Flatten(p)[n] == Flatten(q)[n]
      {
        if n >= |g[0]| {
          var m := n - |g[0]|;
          assert Flatten(g)[n] == Flatten(g[1..])[m];
          assert Flatten(p)[n] == Flatten(p[1..])[m];
          assert Flatten(q)[n] == Flatten(q[1..])[m];
        }
      }
    }
  }

  /** `loss`: reshapes `pred` to `(-1, nb_classes)` and `gold` to `(-1,)`,
      then calls the loss object `build` installed (calling `None` is a
      `TypeError`). */
  function Loss(m: Base, pred: seq<seq<seq<real>>>, gold: seq<seq<int>>): Result<LossValue>
  {
    var p :- View(Flatten(Flatten(pred)), NbClasses(m));
    var g := Flatten(gold);
    match m.lossFn
    case None => Err(TypeError)
    case Some(l) => Nll(p, g, l.ignoreIndex)
  }

  /** Reshaping a `(bs, ts, nb)` prediction to `(-1, nb)` is flattening
      the batch and time axes. */
  lemma ReshapeIsFlatten(pred: seq<seq<seq<real>>>, bs: nat, ts: nat, nb: nat)
    requires nb > 0 && IsTensor3(pred, bs, ts, nb)
    ensures View(Flatten(Flatten(pred)), nb) == Ok(Flatten(pred))
  {
    FlattenKeepsWidth(pred, nb);
    ViewFlatten(Flatten(pred), |Flatten(pred)|, nb);
  }

  /** On a `(bs, ts, nb)` prediction the loss is the NLL of the batch and
      time axes flattened together. */
  lemma LossFlattens(m: Base, pred: seq<seq<seq<real>>>, gold: seq<seq<int>>, bs: nat, ts: nat)
    requires NbClasses(m) > 0 && m.lossFn.Some?
    requires IsTensor3(pred, bs, ts, NbClasses(m)) && IsMatrix(gold, bs, ts)
    ensures |Flatten(pred)| == bs * ts == |Flatten(gold)|
    ensures Loss(m, pred, gold) == Nll(Flatten(pred), Flatten(gold), m.lossFn.value.ignoreIndex)
  {
    ReshapeIsFlatten(pred, bs, ts, NbClasses(m));
    assert IsMatrix(pred, bs, ts);
    FlattenLength(pred, bs, ts);
    FlattenLength(gold, bs, ts);
  }

  /** The flattening is row-major: flattened position `i * ts + t` holds
      prediction row `(i, t)` and gold tag `(i, t)`. */
  lemma LossRowMajor(pred: seq<seq<seq<real>>>, gold: seq<seq<int>>, bs: nat, ts: nat, i: nat, t: nat)
    requires IsMatrix(pred, bs, ts) && IsMatrix(gold, bs, ts)
    requires i < bs && t < ts
    ensures i * ts + t < |Flatten(gold)| && i * ts + t < |Flatten(pred)|
    ensures Flatten(pred)[i * ts + t] == pred[i][t] && Flatten(gold)[i * ts + t] == gold[i][t]
  {
    FlattenIndex(pred, bs, ts, i, t);
    FlattenIndex(gold, bs, ts, i, t);
  }

  /** Positions whose gold tag is the ignore index do not influence the
      loss: changing the prediction rows there leaves it unchanged. */
  lemma LossIgnoresPadding(m: Base, pred: seq<seq<seq<real>>>, pred': seq<seq<seq<real>>>, gold: seq<seq<int>>, bs: nat, ts: nat)
    requires NbClasses(m) > 0 && m.lossFn.Some?
    requires IsTensor3(pred, bs, ts, NbClasses(m)) && IsTensor3(pred', bs, ts, NbClasses(m))
    requires IsMatrix(gold, bs, ts)
    requires forall i, t :: 0 <= i < bs && 0 <= t < ts && gold[i][t] != m.lossFn.value.ignoreIndex ==> pred[i][t] == pred'[i][t]
    ensures Loss(m, pred, gold) == Loss(m, pred', gold)
  {
    LossFlattens(m, pred, gold, bs, ts);
    LossFlattens(m, pred', gold, bs, ts);
    FlattenAgreesWhereKept(pred, pred', gold, m.lossFn.value.ignoreIndex);
    NllIgnoresPadded(Flatten(pred), Flatten(pred'), Flatten(gold), m.lossFn.value.ignoreIndex);
  }

  /** Flattening a tensor made only of `v` gives only `v`. */
  lemma {:induction false} FlattenConstant(g: seq<seq<int>>, v: int)
    requires forall i, t :: 0 <= i < |g| && 0 <= t < |g[i]| ==> g[i][t] == v
    ensures forall n :: 0 <= n < |Flatten(g)| ==> Flatten(g)[n] == v
  {
    if |g| > 0 {
      FlattenConstant(g[1..], v);
      assert Flatten(g) == g[0] + Flatten(g[1..]);
    }
  }

  /** A gold tensor made only of the ignore index leaves no position to
      average over. */
  lemma LossAllPadding(m: Base, pred: seq<seq<seq<real>>>, gold: seq<seq<int>>, bs: nat, ts: nat)
    requires NbClasses(m) > 0 && m.lossFn.Some?
    requires IsTensor3(pred, bs, ts, NbClasses(m)) && IsMatrix(gold, bs, ts)
    requires forall i, t :: 0 <= i < bs && 0 <= t < ts ==> gold[i][t] == m.lossFn.value.ignoreIndex
    ensures Loss(m, pred, gold) == Ok(NaN)
  {
    LossFlattens(m, pred, gold, bs, ts);
    FlattenConstant(gold, m.lossFn.value.ignoreIndex);
  }

  // ---------------------------------------------------------------------
  // Predictions
  // ---------------------------------------------------------------------

  /** `f` applied to every entry of a row. */
  function MapRow(row: seq<real>, f: real -> real): (r: seq<real>)
    ensures |r| == |row| && forall j :: 0 <= j < |row| ==> r[j] == f(row[j])
  {
    seq(|row|, j requires 0 <= j < |row| => f(row[j]))
  }

  /** `torch.exp` on a `(bs, ts, C)` tensor. */
  function Exp3(x: seq<seq<seq<real>>>, exp: real -> real): (r: seq<seq<seq<real>>>)
    ensures |r| == |x|
    ensures forall i :: 0 <= i < |x| ==> |r[i]| == |x[i]|
    ensures forall i, t :: 0 <= i < |x| && 0 <= t < |x[i]| ==> r[i][t] == MapRow(x[i][t], exp)
  {
    seq(|x|, i requires 0 <= i < |x| => seq(|x[i]|, t requires 0 <= t < |x[i]| => MapRow(x[i][t], exp)))
  }

  /** `predict_proba`: `exp` of whatever `forward` returned. */
  function PredictProba(forward: Result<seq<seq<seq<real>>>>, exp: real -> real): (r: Result<seq<seq<seq<real>>>>)
    ensures r.Ok? <==> forward.Ok?
    ensures r.Ok? ==> forall b, t, w :: IsTensor3(forward.value, b, t, w) ==> IsTensor3(r.value, b, t, w)
    ensures r.Ok? ==> |r.value| == |forward.value|
    ensures r.Ok? ==> forall i :: 0 <= i < |forward.value| ==> |r.value[i]| == |forward.value[i]|
    ensures r.Ok? ==> forall i, t :: 0 <= i < |forward.value| && 0 <= t < |forward.value[i]| ==>
      |r.value[i][t]| == |forward.value[i][t]|
    ensures r.Ok? ==> forall i, t, c :: 0 <= i < |forward.value| && 0 <= t < |forward.value[i]| && 0 <= c < |forward.value[i][t]| ==>
      r.value[i][t][c] == exp(forward.value[i][t][c])
  {
    match forward
    case Err(e) => Err(e)
    case Ok(h) => Ok(Exp3(h, exp))
  }

  /** The first index of a maximal entry. */
  function ArgMax(row: seq<real>): (k: nat)
    requires |row| > 0
    ensures k < |row|
    ensures forall j :: 0 <= j < |row| ==> row[j] <= row[k]
    ensures forall j :: 0 <= j < k ==> row[j] < row[k]
  {
    if |row| == 1 then 0
    else
      var k := ArgMax(row[..|row| - 1]);
      if row[|row| - 1] > row[k] then |row| - 1 else k
  }

  ghost predicate StrictlyIncreasing(f: real -> real) {
    forall a, b :: a < b ==> f(a) < f(b)
  }

  /** The contract of `ArgMax` pins its result down: the first maximal index. */
  lemma ArgMaxUnique(row: seq<real>, k: nat)
    requires k < |row|
    requires forall j :: 0 <= j < |row| ==> row[j] <= row[k]
    requires forall j :: 0 <= j < k ==> row[j] < row[k]
    ensures ArgMax(row) == k
  {
    var a := ArgMax(row);
    assert row[a] <= row[k] && row[k] <= row[a];
  }

  /** A strictly increasing map does not move the arg-max. */
  lemma ArgMaxMonotone(row: seq<real>, f: real -> real)
    requires |row| > 0 && StrictlyIncreasing(f)
    ensures ArgMax(MapRow(row, f)) == ArgMax(row)
  {
    var k := ArgMax(row);
    var r := MapRow(row, f);
    forall j | 0 <= j < |r|
      ensures r[j] <= r[k]
    {
      if row[j] < row[k] {
        assert f(row[j]) < f(row[k]);
      } else {
        assert row[j] == row[k];
      }
    }
    forall j | 0 <= j < k
      ensures r[j] < r[k]
    {
      assert f(row[j]) < f(row[k]);
    }
    ArgMaxUnique(r, k);
  }

  /** `predict_classes`: `torch.max(..., -1)` drops the class axis and keeps
      the index of a maximal probability; an empty class axis is refused. */
  function PredictClasses(probs: seq<seq<seq<real>>>, nb: nat): (r: Result<seq<seq<nat>>>)
    requires forall i, t :: 0 <= i < |probs| && 0 <= t < |probs[i]| ==> |probs[i][t]| == nb
    ensures r.Ok? <==> nb > 0
    ensures r.Ok? ==> |r.value| == |probs|
    ensures r.Ok? ==> forall i :: 0 <= i < |probs| ==> |r.value[i]| == |probs[i]|
    ensures r.Ok? ==> forall i, t :: 0 <= i < |probs| && 0 <= t < |probs[i]| ==>
      r.value[i][t] < nb && forall c :: 0 <= c < nb ==> probs[i][t][c] <= probs[i][t][r.value[i][t]]
  {
    if nb == 0 then Err(RuntimeError)
    else Ok(seq(|probs|, i requires 0 <= i < |probs| =>
              seq(|probs[i]|, t requires 0 <= t < |probs[i]| => ArgMax(probs[i][t]))))
  }

  /** Because `exp` is strictly increasing, the classes predicted from the
      probabilities are the arg-max of the log-probabilities themselves. */
  lemma ClassesOfLogProbabilities(logp: seq<seq<seq<real>>>, nb: nat, exp: real -> real)
    requires StrictlyIncreasing(exp)
    requires forall i, t :: 0 <= i < |logp| && 0 <= t < |logp[i]| ==> |logp[i][t]| == nb
    ensures PredictClasses(PredictProba(Ok(logp), exp).value, nb) == PredictClasses(logp, nb)
  {
    var p := Exp3(logp, exp);
    assert PredictProba(Ok(logp), exp).value == p;
    if nb > 0 {
      var a, b := PredictClasses(p, nb).value, PredictClasses(logp, nb).value;
      forall i | 0 <= i < |logp|
        ensures a[i] == b[i]
      {
        forall t | 0 <= t < |logp[i]|
          ensures a[i][t] == b[i][t]
        {
          ArgMaxMonotone(logp[i][t], exp);
        }
      }
      assert a == b;
    }
  }
}
