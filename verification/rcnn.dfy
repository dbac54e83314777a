/** The recurrent convolutional tagger (`deeptagger/models/rcnn.py`).

    `Build` turns a configuration record into the widths of every layer and
    marks the model built; `Forward` runs a batch through the fixed pipeline:
    word embeddings, affix and capitalisation features aligned with the
    words, concatenation, convolution and ReLU, max pooling, a packed
    (bi)directional GRU, the optional sum of the two directions, the
    classifier, and the removal of the START and STOP positions.

    Dropout is the identity here (evaluation mode); the learned weights are
    the `Weights` parameter.  `PAD_ID` and `TAGS_PAD_ID` come from
    `deeptagger/constants.py`, which is not part of this model: they are
    parameters. */
module Rcnn {
  import opened Results
  import opened Tensors
  import opened Layers
  import Model

  /** The configuration record `build` reads. */
  datatype Options = Options(
    wordEmbeddingsSize: int,
    prefixEmbeddingsSize: int, prefixMinLength: int, prefixMaxLength: int,
    suffixEmbeddingsSize: int, suffixMinLength: int, suffixMaxLength: int,
    capsEmbeddingsSize: int,
    freezeEmbeddings: bool,
    embDropout: real,
    convSize: int, kernelSize: int, poolLength: int,
    hiddenSize: seq<int>,
    bidirectional: bool, sumBidir: bool,
    dropout: real,
    lossWeights: string)

  /** An embedding table `build` created: rows, width, and how many windows
      of it stand for one word (`prefix_length`, `suffix_length`,
      `caps_length`; 1 for words). */
  datatype Table = Table(vocab: nat, dim: nat, windows: int)

  /** The layer sizes `build` fixes. */
  datatype Arch = Arch(
    word: Table, prefix: Option<Table>, suffix: Option<Table>, caps: Option<Table>,
    featuresSize: nat,
    convSize: nat, kernelSize: nat, poolLength: int,
    gruInput: nat, hidden: nat, bidir: bool, sumBidir: bool,
    classifierIn: nat, nbClasses: nat)

  /** An `RCNN` instance: the base state and, once built, its layer sizes. */
  datatype Tagger = Tagger(base: Model.Base, arch: Option<Arch>)

  /** `RCNN.__init__`: the base state, no layers. */
  function NewTagger(base: Model.Base): (t: Tagger)
    ensures t.arch.None? && t.base == base
  {
    Tagger(base, None)
  }

  // ---------------------------------------------------------------------
  // Python and torch arithmetic used by build

  /** Python's `a // b`: rounds toward minus infinity for either sign of `b`. */
  function FloorDiv(a: int, b: int): (q: int)
    requires b != 0
    ensures b > 0 ==> q * b <= a < q * b + b
    ensures b < 0 ==> q * b >= a > q * b + b
  {
    if b > 0 then a / b else (-a) / (-b)
  }

  /** The GRU input width as `build` writes it:
      `conv_size // pool_length + pool_length // 2`. */
  function GruInputSizeAsWritten(convSize: int, poolLength: int): int
    requires poolLength != 0
  {
    FloorDiv(convSize, poolLength) + FloorDiv(poolLength, 2)
  }

  /** The GRU input width the pooled rows actually have: the output width of
      `MaxPool1d(pool_length, padding=pool_length // 2)` on rows of
      `conv_size`.  A negative pool length cannot pool at all (the forward
      pass rejects it), so there the written formula is kept. */
  function GruInputSize(convSize: nat, poolLength: int): (w: int)
    requires poolLength != 0
    ensures poolLength > 0 ==> w == PoolWidth(convSize, poolLength)
  {
    if poolLength > 0 then PoolWidth(convSize, poolLength)
    else GruInputSizeAsWritten(convSize, poolLength)
  }

  /** `n == q * p + r` with `0 <= r < p` fixes `n / p` and `n % p`. */
  lemma DivMod(n: int, p: nat, q: int, r: int)
    requires p > 0 && n == q * p + r && 0 <= r < p
    ensures n / p == q && n % p == r
  {
    var q', r' := n / p, n % p;
    assert n == q' * p + r' && 0 <= r' < p;
    if q' < q {
      MulMonoInt(q' + 1, q, p);
    } else if q' > q {
      MulMonoInt(q + 1, q', p);
    }
  }

  /** Multiplication by a natural number is monotone on integers too. */
  lemma MulMonoInt(a: int, b: int, w: nat)
    requires a <= b
    ensures a * w <= b * w
  {
    MulMono(0, b - a, w);
    assert (b - a) * w == b * w - a * w;
  }

  /** The written GRU width equals the pooled width exactly for pool lengths
      1 and 2, and for pool length 3 when `conv_size` is not a multiple of 3;
      every other positive pool length gives the GRU a width the pooled rows
      do not have. */
  lemma GruWidthAgreement(c: nat, p: nat)
    requires p > 0
    ensures GruInputSizeAsWritten(c, p) == PoolWidth(c, p) <==> p == 1 || p == 2 || (p == 3 && c % 3 != 0)
  {
    var q, r := c / p, c % p;
    assert c == q * p + r;
    if p % 2 == 0 {
      assert 2 * (p / 2) == p;
      assert PoolWidth(c, p) == q + 1;
    } else {
      assert 2 * (p / 2) == p - 1;
      assert PoolWidth(c, p) == (c - 1) / p + 1;
      if r >= 1 {
        DivMod(c - 1, p, q, r - 1);
        assert PoolWidth(c, p) == q + 1;
      } else {
        assert c - 1 == (q - 1) * p + (p - 1);
        DivMod(c - 1, p, q - 1, p - 1);
        assert PoolWidth(c, p) == q;
        if p == 3 {
          DivMod(c, 3, q, 0);
        }
      }
      if p == 3 && r >= 1 {
        DivMod(c, 3, q, r);
      }
    }
  }

  /** With `conv_size = 100` and `pool_length = 4` the pooled rows are 26
      wide but the GRU is built for 27. */
  lemma GruWidthCounterexample()
    ensures PoolWidth(100, 4) == 26
    ensures GruInputSizeAsWritten(100, 4) == 27
  {
  }

  // ---------------------------------------------------------------------
  // build

  /** `nn.Dropout(p)` accepts probabilities in `[0, 1]`. */
  predicate ValidDropout(p: real) {
    0.0 <= p <= 1.0
  }

  /** What `nn.Embedding(num, dim, padding_idx=pad, _weight=pretrained)`
      accepts. */
  predicate EmbeddingAccepted(num: nat, dim: int, padId: int, pretrained: Option<Model.Pretrained>) {
    && padId + num >= 0 && (padId > 0 ==> padId < num)
    && dim >= 0
    && (pretrained.None? ==> num > 0 || padId != 0)
    && (pretrained.Some? ==> |pretrained.value.rows| == num && pretrained.value.cols == dim)
  }

  /** `nn.Embedding(num, dim, padding_idx=pad, _weight=pretrained)`: a
      padding index outside `[-num, num)` fails an assertion; a negative
      width makes allocating the table fail; a fresh table with no rows and
      padding index 0 fails to zero that row (`weight[0].fill_(0)` in
      `reset_parameters`); pretrained vectors must be exactly `num` x
      `dim`. */
  function NewEmbedding(num: nat, dim: int, padId: int, pretrained: Option<Model.Pretrained>): (r: Result<nat>)
    ensures r.Ok? <==>
      && padId + num >= 0 && (padId > 0 ==> padId < num)
      && dim >= 0
      && (pretrained.None? ==> num > 0 || padId != 0)
      && (pretrained.Some? ==> |pretrained.value.rows| == num && pretrained.value.cols == dim)
    ensures r.Ok? ==> r.value == dim
    ensures pretrained.None? && num == 0 && padId == 0 && dim >= 0 ==> r == Err(IndexError)
    ensures r.Err? && padId != 0 && (padId >= num || padId + num < 0) ==> r.error == AssertionError
    ensures pretrained.Some? && |pretrained.value.rows| != num ==> r == Err(AssertionError)
  {
    if padId > 0 && padId >= num then Err(AssertionError)
    else if padId < 0 && padId + num < 0 then Err(AssertionError)
    else if pretrained.None? && dim < 0 then Err(RuntimeError)
    else if pretrained.None? && num == 0 && padId == 0 then Err(IndexError)
    else if pretrained.Some? && (|pretrained.value.rows| != num || pretrained.value.cols != dim) then Err(AssertionError)
    else Ok(dim)
  }

  /** The table of an optional affix or capitalisation feature. */
  function FeatureTable(field: Option<Model.Field>, dim: int, windows: int, padId: int): (r: Result<Option<Table>>)
    ensures field.None? ==> r == Ok(None)
    ensures r.Ok? && field.Some? ==> dim >= 0 && r.value == Some(Table(|field.value.vocab.itos|, dim, windows))
    ensures field.Some? ==> (r.Ok? <==> EmbeddingAccepted(|field.value.vocab.itos|, dim, padId, None))
  {
    if field.None? then Ok(None)
    else
      var d :- NewEmbedding(|field.value.vocab.itos|, dim, padId, None);
      Ok(Some(Table(|field.value.vocab.itos|, d, windows)))
  }

  /** What an optional feature adds to `features_size`: windows times width. */
  function Contribution(t: Option<Table>): int {
    if t.None? then 0 else t.value.windows * t.value.dim
  }

  /** The embedding tables `build` creates. */
  datatype Tables = Tables(word: Table, prefix: Option<Table>, suffix: Option<Table>, caps: Option<Table>)

  /** The tables come from the model's fields and the options: one per
      field that is present, with the configured width, and with
      `max - min + 1` windows per affix feature and one for capitalisation. */
  predicate TablesFrom(tb: Tables, base: Model.Base, o: Options) {
    && tb.word == Table(|base.words.vocab.itos|, tb.word.dim, 1)
    && tb.word.dim == o.wordEmbeddingsSize
    && (tb.prefix.Some? <==> base.prefixes.Some?)
    && (tb.prefix.Some? ==> (tb.prefix.value.windows == o.prefixMaxLength - o.prefixMinLength + 1
                             && tb.prefix.value.dim == o.prefixEmbeddingsSize))
    && (tb.suffix.Some? <==> base.suffixes.Some?)
    && (tb.suffix.Some? ==> (tb.suffix.value.windows == o.suffixMaxLength - o.suffixMinLength + 1
                             && tb.suffix.value.dim == o.suffixEmbeddingsSize))
    && (tb.caps.Some? <==> base.caps.Some?)
    && (tb.caps.Some? ==> (tb.caps.value.windows == 1 && tb.caps.value.dim == o.capsEmbeddingsSize))
  }

  /** The tables `build` asks for are all accepted: the word table with the
      vocabulary's pretrained vectors, and one table without vectors per
      present optional field. */
  predicate EmbeddingsAccepted(base: Model.Base, o: Options, padId: int) {
    && EmbeddingAccepted(|base.words.vocab.itos|, o.wordEmbeddingsSize, padId, base.words.vocab.vectors)
    && (base.prefixes.Some? ==> EmbeddingAccepted(|base.prefixes.value.vocab.itos|, o.prefixEmbeddingsSize, padId, None))
    && (base.suffixes.Some? ==> EmbeddingAccepted(|base.suffixes.value.vocab.itos|, o.suffixEmbeddingsSize, padId, None))
    && (base.caps.Some? ==> EmbeddingAccepted(|base.caps.value.vocab.itos|, o.capsEmbeddingsSize, padId, None))
  }

  /** The embedding half of `build`: the word table (with pretrained vectors
      when the vocabulary has them) and one table per optional feature. */
  function BuildEmbeddings(base: Model.Base, o: Options, padId: int): (r: Result<Tables>)
    ensures r.Ok? <==> EmbeddingsAccepted(base, o, padId)
    ensures r.Ok? ==> TablesFrom(r.value, base, o)
    ensures (base.words.vocab.vectors.Some?
             && |base.words.vocab.vectors.value.rows| != |base.words.vocab.itos|) ==> r == Err(AssertionError)
  {
    var vocab := base.words.vocab;
    var wordDim :- NewEmbedding(|vocab.itos|, o.wordEmbeddingsSize, padId, vocab.vectors);
    var prefix :- FeatureTable(base.prefixes, o.prefixEmbeddingsSize, o.prefixMaxLength - o.prefixMinLength + 1, padId);
    var suffix :- FeatureTable(base.suffixes, o.suffixEmbeddingsSize, o.suffixMaxLength - o.suffixMinLength + 1, padId);
    var caps :- FeatureTable(base.caps, o.capsEmbeddingsSize, 1, padId);
    Ok(Tables(Table(|vocab.itos|, wordDim, 1), prefix, suffix, caps))
  }

  /** The layer sizes after the tables agree with the tables and options. */
  predicate LayersFrom(a: Arch, tb: Tables, o: Options, hidden: int, nbClasses: nat) {
    && a.word == tb.word && a.prefix == tb.prefix && a.suffix == tb.suffix && a.caps == tb.caps
    && a.convSize == o.convSize && a.kernelSize == o.kernelSize && a.poolLength == o.poolLength
    && a.hidden == hidden && a.bidir == o.bidirectional && a.sumBidir == o.sumBidir
    && a.nbClasses == nbClasses
  }

  /** What the layer half of `build` accepts for `features` fused input
      numbers: no freezing, valid dropouts, non-negative sizes, a non-zero
      pool length, and weights `init_weights` can initialise. */
  predicate LayersAccepted(features: int, o: Options, hidden: int) {
    && !o.freezeEmbeddings && ValidDropout(o.embDropout) && ValidDropout(o.dropout)
    && features >= 0 && o.convSize >= 0 && o.kernelSize >= 0 && o.poolLength != 0
    && GruInputSize(o.convSize, o.poolLength) >= 0 && hidden >= 0
    && o.kernelSize * (features + o.convSize) != 0 && hidden != 0
  }

  /** The fused width of the tables: words plus each optional feature. */
  function TablesWidth(tb: Tables): int {
    tb.word.dim + Contribution(tb.prefix) + Contribution(tb.suffix) + Contribution(tb.caps)
  }

  /** The layer half of `build`, from the freeze flag to the classifier. */
  function BuildLayers(tb: Tables, o: Options, hidden: int, nbClasses: nat): (r: Result<Arch>)
    requires tb.caps.Some? ==> tb.caps.value.windows == 1
    ensures r.Ok? ==> !o.freezeEmbeddings && ValidDropout(o.embDropout) && ValidDropout(o.dropout)
    ensures r.Ok? ==> Consistent(r.value) && LayersFrom(r.value, tb, o, hidden, nbClasses)
    ensures o.freezeEmbeddings ==> r == Err(AttributeError)
    ensures r.Ok? <==> LayersAccepted(TablesWidth(tb), o, hidden)
    ensures r.Ok? ==> r.value.kernelSize * (r.value.featuresSize + r.value.convSize) > 0 && r.value.hidden > 0
  {
    var features := tb.word.dim + Contribution(tb.prefix) + Contribution(tb.suffix) + Contribution(tb.caps);
    if o.freezeEmbeddings then Err(AttributeError)
    else if !ValidDropout(o.embDropout) then Err(ValueError)
    else if features < 0 || o.convSize < 0 || o.kernelSize < 0 then Err(RuntimeError)
    else if o.poolLength == 0 then Err(ZeroDivisionError)
    else
      var gruInput := GruInputSize(o.convSize, o.poolLength);
      if gruInput < 0 || hidden < 0 then Err(RuntimeError)
      else if !ValidDropout(o.dropout) then Err(ValueError)
      else if o.kernelSize * (features + o.convSize) == 0 || hidden == 0 then Err(ZeroDivisionError)
      else
        var n := if o.sumBidir then 1 else Directions(o.bidirectional);
        Ok(Arch(tb.word, tb.prefix, tb.suffix, tb.caps, features,
                o.convSize, o.kernelSize, o.poolLength, gruInput, hidden,
                o.bidirectional, o.sumBidir, n * hidden, nbClasses))
  }

  /** The result of `build`: the built model and the options record, which
      `build` updates when pretrained vectors fix the word width. */
  datatype Built = Built(tagger: Tagger, options: Options)

  /** The options after `build` read the pretrained vectors' width. */
  function WordWidthOverride(base: Model.Base, opts: Options): (o: Options)
    ensures base.words.vocab.vectors.None? ==> o == opts
    ensures base.words.vocab.vectors.Some? ==> o.wordEmbeddingsSize == base.words.vocab.vectors.value.cols
    ensures o.(wordEmbeddingsSize := opts.wordEmbeddingsSize) == opts
  {
    if base.words.vocab.vectors.Some? then opts.(wordEmbeddingsSize := base.words.vocab.vectors.value.cols) else opts
  }

  /** The fused input width `build` computes as `features_size`: the word
      width plus, per present optional field, its windows times its width. */
  function FusedWidth(base: Model.Base, o: Options): int {
    o.wordEmbeddingsSize
      + (if base.prefixes.Some? then (o.prefixMaxLength - o.prefixMinLength + 1) * o.prefixEmbeddingsSize else 0)
      + (if base.suffixes.Some? then (o.suffixMaxLength - o.suffixMinLength + 1) * o.suffixEmbeddingsSize else 0)
      + (if base.caps.Some? then o.capsEmbeddingsSize else 0)
  }

  /** Tables made from the fields and options have the fused width. */
  lemma TablesWidthFrom(tb: Tables, base: Model.Base, o: Options)
    requires TablesFrom(tb, base, o)
    ensures TablesWidth(tb) == FusedWidth(base, o)
  {
  }

  /** Everything `build` checks, for options already updated by the
      pretrained vectors' width. */
  predicate BuildAccepted(base: Model.Base, o: Options, padId: int) {
    && |o.hiddenSize| > 0 && o.lossWeights != "balanced"
    && EmbeddingsAccepted(base, o, padId)
    && LayersAccepted(FusedWidth(base, o), o, o.hiddenSize[0])
  }

  /** `RCNN.build`.  In the order the code meets them: an empty
      `hidden_size` list raises IndexError; `loss_weights == 'balanced'`
      reaches `torch.FloatTensor(None)` (TypeError); the embedding tables
      are created (see `NewEmbedding`); `freeze_embeddings` reaches the
      embeddings' missing `bias` (AttributeError); an invalid dropout raises
      ValueError; negative convolution sizes fail allocation; a zero pool
      length divides by zero; negative GRU sizes fail allocation; and
      `init_weights` divides by zero in `xavier_uniform_` when a weight has
      no fan (a zero kernel, a convolution with no channels at all, or a
      zero hidden size).  On
      success the widths are fixed, the NLL loss ignores `TAGS_PAD_ID`, and
      the model is marked built.  The GRU input width is the pooled width
      (`GruInputSize`), not the written formula. */
  function Build(t: Tagger, opts: Options, padId: int, tagsPadId: int): (r: Result<Built>)
    ensures |opts.hiddenSize| == 0 ==> r == Err(IndexError)
    ensures |opts.hiddenSize| > 0 && opts.lossWeights == "balanced" ==> r == Err(TypeError)
    ensures r.Ok? <==> BuildAccepted(t.base, WordWidthOverride(t.base, opts), padId)
    ensures r.Ok? ==> !opts.freezeEmbeddings && ValidDropout(opts.embDropout) && ValidDropout(opts.dropout)
    ensures r.Ok? ==> r.value.tagger.base == t.base.(isBuilt := true, lossFn := Some(Model.NllLoss(tagsPadId)))
    ensures r.Ok? ==> r.value.options == WordWidthOverride(t.base, opts)
    ensures r.Ok? ==> r.value.tagger.arch.Some? && Consistent(r.value.tagger.arch.value)
    ensures r.Ok? ==> BuiltFrom(r.value.tagger.arch.value, t.base, r.value.options)
    ensures r.Ok? ==> opts.kernelSize > 0 && opts.hiddenSize[0] > 0
  {
    if |opts.hiddenSize| == 0 then Err(IndexError)
    else if opts.lossWeights == "balanced" then Err(TypeError)
    else
      var o := WordWidthOverride(t.base, opts);
      var tb :- BuildEmbeddings(t.base, o, padId);
      TablesWidthFrom(tb, t.base, o);
      var arch :- BuildLayers(tb, o, opts.hiddenSize[0], Model.NbClasses(t.base));
      var base := t.base.(isBuilt := true, lossFn := Some(Model.NllLoss(tagsPadId)));
      Ok(Built(Tagger(base, Some(arch)), o))
  }

  /** The widths of a built model agree with each other: the convolution
      reads the concatenated features, the GRU reads the pooled rows, and
      the classifier reads the GRU output after the optional sum. */
  predicate Consistent(a: Arch) {
    && a.featuresSize == a.word.dim + Contribution(a.prefix) + Contribution(a.suffix) + Contribution(a.caps)
    && (a.poolLength > 0 ==> a.gruInput == PoolWidth(a.convSize, a.poolLength))
    && a.classifierIn == (if a.sumBidir then 1 else Directions(a.bidir)) * a.hidden
    && (a.caps.Some? ==> a.caps.value.windows == 1)
  }

  /** The layer sizes come from the model's fields and the options. */
  predicate BuiltFrom(a: Arch, base: Model.Base, o: Options) {
    && TablesFrom(Tables(a.word, a.prefix, a.suffix, a.caps), base, o)
    && a.convSize == o.convSize && a.kernelSize == o.kernelSize && a.poolLength == o.poolLength
    && |o.hiddenSize| > 0 && a.hidden == o.hiddenSize[0]
    && a.bidir == o.bidirectional && a.sumBidir == o.sumBidir
    && a.nbClasses == Model.NbClasses(base)
  }

  /** Pretrained word vectors whose row count differs from the vocabulary
      size are refused (the table's shape assertion), whatever their width. */
  lemma BuildRejectsMisalignedVectors(t: Tagger, opts: Options, padId: int, tagsPadId: int)
    requires |opts.hiddenSize| > 0 && opts.lossWeights != "balanced"
    requires t.base.words.vocab.vectors.Some?
    requires |t.base.words.vocab.vectors.value.rows| != |t.base.words.vocab.itos|
    ensures Build(t, opts, padId, tagsPadId) == Err(AssertionError)
  {
  }

  /** A zero kernel or a zero hidden size gives weights with no fan, and
      `build` fails. */
  lemma BuildZeroSizesFail(t: Tagger, opts: Options, padId: int, tagsPadId: int)
    requires |opts.hiddenSize| > 0 && (opts.kernelSize == 0 || opts.hiddenSize[0] == 0)
    ensures Build(t, opts, padId, tagsPadId).Err?
  {
  }

  /** With every other option acceptable, a zero kernel reaches
      `init_weights` and divides by zero there. */
  lemma BuildZeroKernelScenario(base: Model.Base)
    requires base.words.vocab.vectors.None? && |base.words.vocab.itos| > 0
    requires base.prefixes.Some? ==> |base.prefixes.value.vocab.itos| > 0
    requires base.suffixes.Some? ==> |base.suffixes.value.vocab.itos| > 0
    requires base.caps.Some? ==> |base.caps.value.vocab.itos| > 0
    ensures Build(NewTagger(base), Options(4, 0, 0, 0, 0, 0, 0, 0, false, 0.0, 3, 0, 1, [1], false, false, 0.0, ""), 0, 0)
            == Err(ZeroDivisionError)
  {
  }

  /** A word vocabulary with no entries and no pretrained vectors cannot
      get its padding row zeroed when `PAD_ID` is 0: `build` raises
      IndexError. */
  lemma BuildEmptyVocabularyFails(t: Tagger, opts: Options, tagsPadId: int)
    requires |opts.hiddenSize| > 0 && opts.lossWeights != "balanced"
    requires t.base.words.vocab.vectors.None? && |t.base.words.vocab.itos| == 0
    requires opts.wordEmbeddingsSize >= 0
    ensures Build(t, opts, 0, tagsPadId) == Err(IndexError)
  {
  }

  /** Options `build` accepts: a usable hidden size, no `'balanced'`
      weights, no freezing, valid dropouts, positive layer sizes, non-empty
      vocabularies that hold the padding index, pretrained rows matching the
      vocabulary, and non-negative feature widths and window counts.  The
      model is built and, when the directions are only summed for a
      bidirectional GRU, ready to run. */
  lemma BuildSucceeds(t: Tagger, opts: Options, padId: int, tagsPadId: int)
    requires |opts.hiddenSize| > 0 && opts.hiddenSize[0] > 0 && opts.lossWeights != "balanced"
    requires !opts.freezeEmbeddings && ValidDropout(opts.embDropout) && ValidDropout(opts.dropout)
    requires opts.convSize > 0 && opts.kernelSize > 0 && opts.poolLength > 0
    requires 0 <= padId < |t.base.words.vocab.itos|
    requires t.base.words.vocab.vectors.None? ==> opts.wordEmbeddingsSize >= 0
    requires t.base.words.vocab.vectors.Some? ==> |t.base.words.vocab.vectors.value.rows| == |t.base.words.vocab.itos|
    requires t.base.prefixes.Some? ==>
      padId < |t.base.prefixes.value.vocab.itos| && opts.prefixEmbeddingsSize >= 0 && opts.prefixMaxLength >= opts.prefixMinLength
    requires t.base.suffixes.Some? ==>
      padId < |t.base.suffixes.value.vocab.itos| && opts.suffixEmbeddingsSize >= 0 && opts.suffixMaxLength >= opts.suffixMinLength
    requires t.base.caps.Some? ==> padId < |t.base.caps.value.vocab.itos| && opts.capsEmbeddingsSize >= 0
    ensures Build(t, opts, padId, tagsPadId).Ok?
    ensures var built := Build(t, opts, padId, tagsPadId).value.tagger;
      && built.base.isBuilt && built.arch.Some?
      && ((opts.sumBidir ==> opts.bidirectional) ==> Runnable(built.arch.value))
  {
    var o := WordWidthOverride(t.base, opts);
    var f := FusedWidth(t.base, o);
    assert f >= 0 by {
      var pre := if t.base.prefixes.Some? then (o.prefixMaxLength - o.prefixMinLength + 1) * o.prefixEmbeddingsSize else 0;
      var suf := if t.base.suffixes.Some? then (o.suffixMaxLength - o.suffixMinLength + 1) * o.suffixEmbeddingsSize else 0;
      if t.base.prefixes.Some? {
        NonNegProduct(o.prefixMaxLength - o.prefixMinLength + 1, o.prefixEmbeddingsSize);
      }
      if t.base.suffixes.Some? {
        NonNegProduct(o.suffixMaxLength - o.suffixMinLength + 1, o.suffixEmbeddingsSize);
      }
      assert pre >= 0 && suf >= 0;
    }
    assert o.kernelSize * (f + o.convSize) > 0 by {
      PositiveProduct(o.kernelSize, f + o.convSize);
    }
    assert GruInputSize(o.convSize, o.poolLength) >= 0 by {
      assert o.convSize + 2 * (o.poolLength / 2) - o.poolLength >= o.convSize - 1 >= 0;
    }
    assert BuildAccepted(t.base, o, padId);
  }

  lemma NonNegProduct(a: int, b: int)
    requires a >= 0 && b >= 0
    ensures a * b >= 0
  {
  }

  lemma PositiveProduct(a: int, b: int)
    requires a > 0 && b > 0
    ensures a * b > 0
  {
  }

  /** A model built from such options runs on every aligned batch whose
      weights fit it: `build` sets the flag `forward` asserts and fixes
      consistent widths. */
  lemma BuiltForwardSucceeds(t: Tagger, opts: Options, padId: int, tagsPadId: int, w: Weights, b: Batch)
    requires Build(t, opts, padId, tagsPadId).Ok? && (opts.sumBidir ==> opts.bidirectional)
    requires opts.convSize > 0 && opts.poolLength > 0
    requires var a := Build(t, opts, padId, tagsPadId).value.tagger.arch.value;
      WellFormed(b) && Fits(w, a) && Aligned(a, w, b, padId)
    ensures Forward(Build(t, opts, padId, tagsPadId).value.tagger, w, b, padId).Ok?
  {
    var built := Build(t, opts, padId, tagsPadId).value.tagger;
    assert Runnable(built.arch.value);
    ForwardSucceeds(built, w, b, padId);
  }

  /** Freezing the embeddings always fails once the tables exist. */
  lemma BuildFreezeFails(t: Tagger, opts: Options, padId: int, tagsPadId: int)
    requires opts.freezeEmbeddings
    ensures Build(t, opts, padId, tagsPadId).Err?
  {
  }

  /** A sum of the directions with `hidden_size = 128` feeds the classifier
      128 numbers per step; concatenation would feed it 256. */
  lemma SumBidirWidth(a: Arch)
    requires Consistent(a) && a.hidden == 128 && a.bidir
    ensures a.sumBidir ==> a.classifierIn == 128
    ensures !a.sumBidir ==> a.classifierIn == 256
  {
  }

  /** `prefix_min_length = 1` and `prefix_max_length = 3` give three prefix
      windows per word. */
  lemma PrefixWindowCount(t: Tagger, opts: Options, padId: int, tagsPadId: int)
    requires t.base.prefixes.Some? && opts.prefixMinLength == 1 && opts.prefixMaxLength == 3
    requires Build(t, opts, padId, tagsPadId).Ok?
    ensures Build(t, opts, padId, tagsPadId).value.tagger.arch.value.prefix.value.windows == 3
  {
  }

  // ---------------------------------------------------------------------
  // forward

  /** The learned parameters of a built model, and the two parts that are
      pure computation on them: the convolution kernel on one window, the
      GRU cells, and the classifier (`linear_out` then `log_softmax`) on one
      step. */
  datatype Weights = Weights(
    wordTable: seq<seq<real>>, prefixTable: seq<seq<real>>,
    suffixTable: seq<seq<real>>, capsTable: seq<seq<real>>,
    kernel: seq<seq<real>> -> seq<real>,
    fwdCell: Cell, bwdCell: Cell,
    classify: seq<real> -> seq<real>)

  /** The classifier maps `n` numbers to `c` class scores. */
  ghost predicate ClassifierFits(classify: seq<real> -> seq<real>, n: nat, c: nat) {
    forall x :: |x| == n ==> |classify(x)| == c
  }

  /** The embedding tables have the shapes `build` gave them. */
  predicate TablesFit(w: Weights, a: Arch) {
    && IsMatrix(w.wordTable, a.word.vocab, a.word.dim)
    && (a.prefix.Some? ==> IsMatrix(w.prefixTable, a.prefix.value.vocab, a.prefix.value.dim))
    && (a.suffix.Some? ==> IsMatrix(w.suffixTable, a.suffix.value.vocab, a.suffix.value.dim))
    && (a.caps.Some? ==> IsMatrix(w.capsTable, a.caps.value.vocab, a.caps.value.dim))
  }

  /** The weights have the shapes `build` gave the layers. */
  ghost predicate Fits(w: Weights, a: Arch) {
    && TablesFit(w, a)
    && KernelFits(w.kernel, a.kernelSize, a.featuresSize, a.convSize)
    && CellFits(w.fwdCell, a.gruInput, a.hidden) && CellFits(w.bwdCell, a.gruInput, a.hidden)
    && ClassifierFits(w.classify, a.classifierIn, a.nbClasses)
  }

  /** A batch of id tensors: words `(bs, ts)`, and the affix and
      capitalisation ids, each with its own second dimension. */
  datatype Batch = Batch(
    ts: nat, words: seq<seq<int>>,
    prefixWidth: nat, prefixes: seq<seq<int>>,
    suffixWidth: nat, suffixes: seq<seq<int>>,
    capsWidth: nat, caps: seq<seq<int>>)

  /** Tensors are rectangular. */
  predicate WellFormed(b: Batch) {
    && IsMatrix(b.words, |b.words|, b.ts)
    && IsMatrix(b.prefixes, |b.prefixes|, b.prefixWidth)
    && IsMatrix(b.suffixes, |b.suffixes|, b.suffixWidth)
    && IsMatrix(b.caps, |b.caps|, b.capsWidth)
  }

  /** `mask = h != PAD_ID; mask.int().sum(dim=-1)` on one sentence. */
  function CountNonPad(row: seq<int>, pad: int): (n: nat)
    ensures n <= |row|
    ensures n == |row| <==> forall t :: 0 <= t < |row| ==> row[t] != pad
    ensures n + multiset(row)[pad] == |row|
  {
    if |row| == 0 then 0
    else
      assert row == row[..|row| - 1] + [row[|row| - 1]];
      CountNonPad(row[..|row| - 1], pad) + (if row[|row| - 1] != pad then 1 else 0)
  }

  /** A sentence of `content` followed by `k` paddings has length
      `|content|`, when the content holds no padding id. */
  lemma {:induction false} CountTrailingPadding(content: seq<int>, k: nat, pad: int)
    requires forall t :: 0 <= t < |content| ==> content[t] != pad
    ensures CountNonPad(content + seq(k, _ => pad), pad) == |content|
  {
    var pads := seq(k, _ => pad);
    assert multiset(content + pads) == multiset(content) + multiset(pads);
    assert pad !in multiset(content);
    PaddingCount(k, pad);
  }

  /** `k` paddings hold the padding id `k` times. */
  lemma {:induction false} PaddingCount(k: nat, pad: int)
    ensures multiset(seq(k, _ => pad))[pad] == k
  {
    if k > 0 {
      assert seq(k, _ => pad) == seq(k - 1, _ => pad) + [pad];
      PaddingCount(k - 1, pad);
    }
  }

  /** The lengths of all sentences. */
  function Lengths(words: seq<seq<int>>, pad: int): (l: seq<nat>)
    ensures |l| == |words|
    ensures forall i :: 0 <= i < |words| ==> l[i] == CountNonPad(words[i], pad)
  {
    seq(|words|, i requires 0 <= i < |words| => CountNonPad(words[i], pad))
  }

  /** `torch.cat((a, b), dim=-1)`: the leading dimensions must agree. */
  function Cat(a: seq<seq<seq<real>>>, b: seq<seq<seq<real>>>): (r: Result<seq<seq<seq<real>>>>)
    ensures r.Ok? <==> |a| == |b| && forall i :: 0 <= i < |a| ==> |a[i]| == |b[i]|
    ensures r.Ok? ==> |r.value| == |a| && forall i :: 0 <= i < |a| ==> r.value[i] == ConcatRows(a[i], b[i])
  {
    if |a| == |b| && forall i :: 0 <= i < |a| ==> |a[i]| == |b[i]| then
      Ok(seq(|a|, i requires 0 <= i < |a| => ConcatRows(a[i], b[i])))
    else Err(RuntimeError)
  }

  /** Concatenating `(b, t, wa)` and `(b, t, wb)` gives `(b, t, wa + wb)`. */
  lemma CatShape(a: seq<seq<seq<real>>>, b: seq<seq<seq<real>>>, bs: nat, ts: nat, wa: nat, wb: nat)
    requires IsTensor3(a, bs, ts, wa) && IsTensor3(b, bs, ts, wb)
    ensures Cat(a, b).Ok? && IsTensor3(Cat(a, b).value, bs, ts, wa + wb)
  {
    forall i | 0 <= i < bs
      ensures IsMatrix(Cat(a, b).value[i], ts, wa + wb)
    {
      ConcatRowsShape(a[i], b[i], ts, wa, wb);
    }
  }

  /** Appends an optional feature along the last axis. */
  function CatOptional(h: seq<seq<seq<real>>>, f: Option<seq<seq<seq<real>>>>): (r: Result<seq<seq<seq<real>>>>)
    ensures f.None? ==> r == Ok(h)
    ensures f.Some? ==> r == Cat(h, f.value)
  {
    if f.None? then Ok(h) else Cat(h, f.value)
  }

  /** One affix feature of `forward` (prefixes or suffixes). */
  function AffixFeature(table: Option<Table>, w: seq<seq<real>>, ids: seq<seq<int>>, m: nat, bs: nat, ts: nat)
    : (r: Result<Option<seq<seq<seq<real>>>>>)
    requires IsMatrix(ids, |ids|, m)
    requires table.Some? ==> IsMatrix(w, table.value.vocab, table.value.dim)
    ensures table.None? ==> r == Ok(None)
    ensures r.Ok? && table.Some? ==> r.value.Some?
  {
    if table.None? then Ok(None)
    else
      var e :- EmbedBatch(w, ids);
      EmbedBatchShape(w, ids, table.value.vocab, m, table.value.dim);
      var rows :- AffixRows(e, m, table.value.dim, table.value.windows, bs, ts);
      Ok(Some(rows))
  }

  /** The capitalisation feature: one zero step before and after each
      sentence, no regrouping. */
  function CapsFeature(table: Option<Table>, w: seq<seq<real>>, ids: seq<seq<int>>, m: nat)
    : (r: Result<Option<seq<seq<seq<real>>>>>)
    requires IsMatrix(ids, |ids|, m)
    requires table.Some? ==> IsMatrix(w, table.value.vocab, table.value.dim)
    ensures table.None? ==> r == Ok(None)
    ensures r.Ok? && table.Some? ==> r.value.Some?
  {
    if table.None? then Ok(None)
    else
      var e :- EmbedBatch(w, ids);
      EmbedBatchShape(w, ids, table.value.vocab, m, table.value.dim);
      Ok(Some(PadSentences(e, 1, table.value.dim)))
  }

  /** The fused features of `forward`: word embeddings, then the enabled
      prefix, suffix and capitalisation features, concatenated along the
      last axis.  Each sentence keeps `ts` steps. */
  function Features(a: Arch, w: Weights, b: Batch): (r: Result<seq<seq<seq<real>>>>)
    requires WellFormed(b) && TablesFit(w, a)
    ensures r.Ok? ==> |r.value| == |b.words| && forall i :: 0 <= i < |b.words| ==> |r.value[i]| == b.ts
  {
    var bs := |b.words|;
    var h :- EmbedBatch(w.wordTable, b.words);
    var pre :- AffixFeature(a.prefix, w.prefixTable, b.prefixes, b.prefixWidth, bs, b.ts);
    var suf :- AffixFeature(a.suffix, w.suffixTable, b.suffixes, b.suffixWidth, bs, b.ts);
    var cap :- CapsFeature(a.caps, w.capsTable, b.caps, b.capsWidth);
    var h1 :- CatOptional(h, pre);
    var h2 :- CatOptional(h1, suf);
    CatOptional(h2, cap)
  }

  /** Every step of every sentence is `f` wide. */
  predicate Channels(x: seq<seq<seq<real>>>, f: nat) {
    forall i :: 0 <= i < |x| ==> IsMatrix(x[i], |x[i]|, f)
  }

  /** `relu(cnn_1d(h))` on every sentence: the input must have
      `features_size` channels; see `Conv1d` for the kernel conditions. */
  function ConvStage(x: seq<seq<seq<real>>>, a: Arch, kernel: seq<seq<real>> -> seq<real>): (r: Result<seq<seq<seq<real>>>>)
    requires KernelFits(kernel, a.kernelSize, a.featuresSize, a.convSize)
    ensures r.Ok? <==> Channels(x, a.featuresSize) && a.kernelSize > 0 && forall i :: 0 <= i < |x| ==> ConvLength(|x[i]|, a.kernelSize) > 0
    ensures r.Ok? ==> |r.value| == |x| && Channels(r.value, a.convSize)
    ensures r.Ok? ==> forall i :: 0 <= i < |x| ==> |r.value[i]| == ConvLength(|x[i]|, a.kernelSize)
  {
    if !Channels(x, a.featuresSize) || a.kernelSize == 0 || exists i :: 0 <= i < |x| && ConvLength(|x[i]|, a.kernelSize) <= 0 then
      Err(RuntimeError)
    else
      var r := seq(|x|, i requires 0 <= i < |x| => ConvRelu(x[i], a, kernel));
      Ok(r)
  }

  /** One sentence through the convolution and ReLU. */
  function ConvRelu(h: seq<seq<real>>, a: Arch, kernel: seq<seq<real>> -> seq<real>): (r: seq<seq<real>>)
    requires IsMatrix(h, |h|, a.featuresSize) && a.kernelSize > 0 && ConvLength(|h|, a.kernelSize) > 0
    requires KernelFits(kernel, a.kernelSize, a.featuresSize, a.convSize)
    ensures IsMatrix(r, ConvLength(|h|, a.kernelSize), a.convSize)
  {
    var c := Conv1d(h, a.featuresSize, a.kernelSize, kernel).value;
    forall t | 0 <= t < |c|
      ensures |c[t]| == a.convSize
    {
      ConvWindowShape(h, a.featuresSize, a.kernelSize, t);
    }
    seq(|c|, t requires 0 <= t < |c| => ReluRow(c[t]))
  }

  /** Every step of every sentence is a non-empty row that pools to at
      least one output. */
  predicate Poolable(x: seq<seq<seq<real>>>, p: nat)
    requires p > 0
  {
    forall i, t :: 0 <= i < |x| && 0 <= t < |x[i]| ==> |x[i][t]| > 0 && PoolWidth(|x[i][t]|, p) >= 1
  }

  /** `max_pool(h)` on `(bs, ts, conv_size)`: pools the last axis of every
      step.  A non-positive pool length, an empty row, or a pooled width
      below one raise RuntimeError. */
  function PoolStage(x: seq<seq<seq<real>>>, p: int): (r: Result<seq<seq<seq<real>>>>)
    ensures r.Ok? <==> p > 0 && Poolable(x, p)
    ensures r.Ok? ==> |r.value| == |x| && forall i :: 0 <= i < |x| ==> |r.value[i]| == |x[i]|
    ensures r.Ok? ==> forall i, t :: 0 <= i < |x| && 0 <= t < |x[i]| ==> |r.value[i][t]| == PoolWidth(|x[i][t]|, p)
  {
    if p <= 0 || !Poolable(x, p) then Err(RuntimeError)
    else
      Ok(seq(|x|, i requires 0 <= i < |x| => seq(|x[i]|, t requires 0 <= t < |x[i]| => PoolRow(x[i][t], p))))
  }

  /** Every pooled entry is the maximum of its window of the step's row. */
  lemma PoolStageWindows(x: seq<seq<seq<real>>>, p: int, i: nat, t: nat, j: nat)
    requires PoolStage(x, p).Ok?
    requires i < |x| && t < |x[i]| && j < |PoolStage(x, p).value[i][t]|
    ensures p > 0 && IsWindowMax(x[i][t], p, j, PoolStage(x, p).value[i][t][j])
  {
  }

  /** `lengths` is sorted from longest to shortest. */
  predicate NonIncreasing(l: seq<nat>) {
    forall i, j :: 0 <= i <= j < |l| ==> l[j] <= l[i]
  }

  /** What `pack_padded_sequence` accepts: a non-empty batch, positive
      lengths sorted longest first, none longer than its sentence. */
  predicate Packable(x: seq<seq<seq<real>>>, lengths: seq<nat>) {
    && |x| == |lengths| > 0
    && NonIncreasing(lengths)
    && lengths[|lengths| - 1] > 0
    && forall i :: 0 <= i < |x| ==> lengths[i] <= |x[i]|
  }

  /** `pack`, `gru` from the zero state, `unpack`: each sentence is read
      over its own length and the output has `lengths[0]` steps, the longest
      length.  Packing failures and an input width other than the GRU's
      raise RuntimeError. */
  function RecurStage(x: seq<seq<seq<real>>>, lengths: seq<nat>, a: Arch, w: Weights): (r: Result<seq<seq<seq<real>>>>)
    requires CellFits(w.fwdCell, a.gruInput, a.hidden) && CellFits(w.bwdCell, a.gruInput, a.hidden)
    ensures r.Ok? <==> Packable(x, lengths) && Channels(x, a.gruInput)
    ensures r.Ok? ==> IsTensor3(r.value, |x|, lengths[0], Directions(a.bidir) * a.hidden)
    ensures r.Ok? ==> forall i :: 0 <= i < |x| ==>
      r.value[i] == RecurSentence(x[i], lengths[i], lengths[0], a.hidden, a.bidir, w.fwdCell, w.bwdCell)
  {
    if !Packable(x, lengths) || !Channels(x, a.gruInput) then Err(RuntimeError)
    else
      var total := lengths[0];
      var r := seq(|x|, i requires 0 <= i < |x| =>
        RecurSentence(x[i], lengths[i], total, a.hidden, a.bidir, w.fwdCell, w.bwdCell));
      forall i | 0 <= i < |x|
        ensures IsMatrix(r[i], total, Directions(a.bidir) * a.hidden)
      {
        RecurSentenceWidth(x[i], lengths[i], total, a.gruInput, a.hidden, a.bidir, w.fwdCell, w.bwdCell);
      }
      Ok(r)
  }

  /** `h[:, :, :H] + h[:, :, H:]` when `sum_bidir` is set: the rows must be
      `2H` wide for the two halves to add up (a unidirectional output is
      only `H` wide, and torch refuses the addition); otherwise the identity. */
  function SumStage(x: seq<seq<seq<real>>>, a: Arch): (r: Result<seq<seq<seq<real>>>>)
    ensures !a.sumBidir ==> r == Ok(x)
    ensures a.sumBidir ==> (r.Ok? <==> Channels(x, 2 * a.hidden))
    ensures r.Ok? && a.sumBidir ==> (|r.value| == |x| && Channels(r.value, a.hidden)
                                     && forall i :: 0 <= i < |x| ==> |r.value[i]| == |x[i]|)
    ensures r.Ok? && a.sumBidir ==> forall i, t :: 0 <= i < |x| && 0 <= t < |x[i]| ==>
      |x[i][t]| == 2 * a.hidden && r.value[i][t] == SumHalves(x[i][t], a.hidden)
  {
    if !a.sumBidir then Ok(x)
    else if !Channels(x, 2 * a.hidden) then Err(RuntimeError)
    else Ok(seq(|x|, i requires 0 <= i < |x| => seq(|x[i]|, t requires 0 <= t < |x[i]| => SumHalves(x[i][t], a.hidden))))
  }

  /** In a bidirectional GRU's output, step `t < len` of sentence `i` holds
      the forward state after reading steps `0 .. t`, then the backward
      state after reading steps `len - 1` down to `t`. */
  lemma RecurStageStep(x: seq<seq<seq<real>>>, lengths: seq<nat>, a: Arch, w: Weights, i: nat, t: nat)
    requires CellFits(w.fwdCell, a.gruInput, a.hidden) && CellFits(w.bwdCell, a.gruInput, a.hidden)
    requires RecurStage(x, lengths, a, w).Ok? && a.bidir
    requires i < |x| && t < lengths[i]
    ensures t < |x[i]| && lengths[i] <= |x[i]|
    ensures i < |RecurStage(x, lengths, a, w).value| && t < |RecurStage(x, lengths, a, w).value[i]|
    ensures RecurStage(x, lengths, a, w).value[i][t]
         == Scan(w.fwdCell, ZeroRow(a.hidden), x[i][..t + 1])[t]
          + Scan(w.bwdCell, ZeroRow(a.hidden), Reverse(x[i][t .. lengths[i]]))[lengths[i] - 1 - t]
  {
    var h := RecurStage(x, lengths, a, w).value;
    var len := lengths[i];
    assert Packable(x, lengths) && Channels(x, a.gruInput);
    assert len <= lengths[0] && len <= |x[i]| && IsMatrix(x[i], |x[i]|, a.gruInput);
    assert h[i] == RecurSentence(x[i], len, lengths[0], a.hidden, true, w.fwdCell, w.bwdCell);
    RecurBidirStep(x[i], len, lengths[0], a.gruInput, a.hidden, w.fwdCell, w.bwdCell, t);
  }

  /** Summing the halves of a step that is a forward state followed by a
      backward state adds the two element by element. */
  lemma SumStageStep(h: seq<seq<seq<real>>>, a: Arch, i: nat, t: nat, fwd: seq<real>, bwd: seq<real>)
    requires a.sumBidir && SumStage(h, a).Ok?
    requires i < |h| && t < |h[i]| && h[i][t] == fwd + bwd && |fwd| == a.hidden
    ensures |bwd| == a.hidden && i < |SumStage(h, a).value| && t < |SumStage(h, a).value[i]|
    ensures |SumStage(h, a).value[i][t]| == a.hidden
    ensures forall j :: 0 <= j < a.hidden ==> SumStage(h, a).value[i][t][j] == fwd[j] + bwd[j]
  {
    SumHalvesOfConcat(fwd, bwd, a.hidden);
  }

  /** With `sum_bidir` on a bidirectional GRU, output step `t < len` is,
      entry by entry, the forward state after reading steps `0 .. t` plus
      the backward state after reading steps `len - 1` down to `t`. */
  lemma SumOfDirections(x: seq<seq<seq<real>>>, lengths: seq<nat>, a: Arch, w: Weights, i: nat, t: nat)
    requires CellFits(w.fwdCell, a.gruInput, a.hidden) && CellFits(w.bwdCell, a.gruInput, a.hidden)
    requires RecurStage(x, lengths, a, w).Ok? && a.sumBidir && a.bidir
    requires i < |x| && t < lengths[i]
    ensures t < |x[i]| && lengths[i] <= |x[i]|
    ensures SumStage(RecurStage(x, lengths, a, w).value, a).Ok?
    ensures var y := SumStage(RecurStage(x, lengths, a, w).value, a).value;
      var fwd := Scan(w.fwdCell, ZeroRow(a.hidden), x[i][..t + 1])[t];
      var bwd := Scan(w.bwdCell, ZeroRow(a.hidden), Reverse(x[i][t .. lengths[i]]))[lengths[i] - 1 - t];
      && i < |y| && t < |y[i]| && |y[i][t]| == a.hidden == |fwd| == |bwd|
      && forall j :: 0 <= j < a.hidden ==> y[i][t][j] == fwd[j] + bwd[j]
  {
    var h := RecurStage(x, lengths, a, w).value;
    RecurStageStep(x, lengths, a, w, i, t);
    var fwd := Scan(w.fwdCell, ZeroRow(a.hidden), x[i][..t + 1])[t];
    var bwd := Scan(w.bwdCell, ZeroRow(a.hidden), Reverse(x[i][t .. lengths[i]]))[lengths[i] - 1 - t];
    assert IsTensor3(h, |x|, lengths[0], 2 * a.hidden);
    assert |fwd| == a.hidden by {
      assert IsMatrix(x[i], |x[i]|, a.gruInput);
      ScanWidth(w.fwdCell, ZeroRow(a.hidden), x[i][..t + 1], a.gruInput, a.hidden);
    }
    SumStageStep(h, a, i, t, fwd, bwd);
  }

  /** `log_softmax(linear_out(h))` on every step: the rows must be
      `classifierIn` wide. */
  function ClassifyStage(x: seq<seq<seq<real>>>, a: Arch, classify: seq<real> -> seq<real>): (r: Result<seq<seq<seq<real>>>>)
    requires ClassifierFits(classify, a.classifierIn, a.nbClasses)
    ensures r.Ok? <==> Channels(x, a.classifierIn)
    ensures r.Ok? ==> (|r.value| == |x| && Channels(r.value, a.nbClasses)
                       && forall i :: 0 <= i < |x| ==> |r.value[i]| == |x[i]|)
    ensures r.Ok? ==> forall i, t :: 0 <= i < |x| && 0 <= t < |x[i]| ==> r.value[i][t] == classify(x[i][t])
  {
    if !Channels(x, a.classifierIn) then Err(RuntimeError)
    else Ok(seq(|x|, i requires 0 <= i < |x| => seq(|x[i]|, t requires 0 <= t < |x[i]| => classify(x[i][t]))))
  }

  /** Steps left after removing START and STOP from `n` steps. */
  function Trimmed(n: nat): nat {
    if n < 2 then 0 else n - 2
  }

  /** The convolutional half of `forward`: fused features, convolution
      and ReLU, max pooling. */
  function Encode(a: Arch, w: Weights, b: Batch): (r: Result<seq<seq<seq<real>>>>)
    requires WellFormed(b) && Fits(w, a)
    ensures r.Ok? ==> |r.value| == |b.words|
  {
    var x :- Features(a, w, b);
    var c :- ConvStage(x, a, w.kernel);
    PoolStage(c, a.poolLength)
  }

  /** The recurrent half of `forward`: packed GRU, optional sum of the
      directions, classifier, and removal of START and STOP. */
  function Decode(x: seq<seq<seq<real>>>, lengths: seq<nat>, a: Arch, w: Weights): (r: Result<seq<seq<seq<real>>>>)
    requires CellFits(w.fwdCell, a.gruInput, a.hidden) && CellFits(w.bwdCell, a.gruInput, a.hidden)
    requires ClassifierFits(w.classify, a.classifierIn, a.nbClasses)
    ensures r.Ok? ==> |lengths| > 0 && IsTensor3(r.value, |x|, Trimmed(lengths[0]), a.nbClasses)
  {
    var h :- RecurStage(x, lengths, a, w);
    var s :- SumStage(h, a);
    var o :- ClassifyStage(s, a, w.classify);
    var r := seq(|o|, i requires 0 <= i < |o| => Trim(o[i]));
    assert forall i :: 0 <= i < |o| ==> |o[i]| == lengths[0];
    Ok(r)
  }

  /** `RCNN.forward`: asserts the model is built, then runs the pipeline.
      The output has one row per sentence, `lengths[0] - 2` steps (the
      longest sentence's length without START and STOP) and one score per
      class. */
  function Forward(t: Tagger, w: Weights, b: Batch, padId: int): (r: Result<seq<seq<seq<real>>>>)
    requires WellFormed(b)
    requires t.arch.Some? ==> Fits(w, t.arch.value)
    ensures !t.base.isBuilt || t.arch.None? ==> r == Err(AssertionError)
    ensures r.Ok? ==> t.arch.Some? && |b.words| > 0
    ensures r.Ok? ==> IsTensor3(r.value, |b.words|, Trimmed(CountNonPad(b.words[0], padId)), t.arch.value.nbClasses)
  {
    if !t.base.isBuilt || t.arch.None? then Err(AssertionError)
    else
      var a := t.arch.value;
      var x :- Encode(a, w, b);
      Decode(x, Lengths(b.words, padId), a, w)
  }

  /** The written GRU width makes the GRU refuse the pooled rows whenever
      the two differ: with `conv_size = 100` and `pool_length = 4` every
      batch fails there. */
  lemma AsWrittenGruRejectsPooledRows(x: seq<seq<seq<real>>>, lengths: seq<nat>, a: Arch, w: Weights)
    requires CellFits(w.fwdCell, a.gruInput, a.hidden) && CellFits(w.bwdCell, a.gruInput, a.hidden)
    requires a.convSize == 100 && a.poolLength == 4 && a.gruInput == GruInputSizeAsWritten(100, 4)
    requires |x| > 0 && |x[0]| > 0 && |x[0][0]| == PoolWidth(a.convSize, a.poolLength)
    ensures RecurStage(x, lengths, a, w) == Err(RuntimeError)
  {
    GruWidthCounterexample();
  }

  /** Output step `t` of sentence `i` is the classifier applied to step
      `t + 1` of the GRU output after the optional sum: `log_softmax`
      of `linear_out` on every step, then START removed. */
  lemma DecodeStep(x: seq<seq<seq<real>>>, lengths: seq<nat>, a: Arch, w: Weights, i: nat, t: nat)
    requires CellFits(w.fwdCell, a.gruInput, a.hidden) && CellFits(w.bwdCell, a.gruInput, a.hidden)
    requires ClassifierFits(w.classify, a.classifierIn, a.nbClasses)
    requires Decode(x, lengths, a, w).Ok?
    requires |lengths| > 0 && i < |x| && t < Trimmed(lengths[0])
    ensures RecurStage(x, lengths, a, w).Ok?
    ensures SumStage(RecurStage(x, lengths, a, w).value, a).Ok?
    ensures var y := SumStage(RecurStage(x, lengths, a, w).value, a).value;
      && i < |y| && t + 1 < |y[i]|
      && Decode(x, lengths, a, w).value[i][t] == w.classify(y[i][t + 1])
  {
    var h := RecurStage(x, lengths, a, w).value;
    var y := SumStage(h, a).value;
    var o := ClassifyStage(y, a, w.classify).value;
    assert |o| == |x| && |o[i]| == |y[i]| == lengths[0];
    assert Decode(x, lengths, a, w).value[i] == Trim(o[i]);
  }

  /** The whole recurrent half on one step: with `sum_bidir` on a
      bidirectional GRU, output step `t` of sentence `i` (word `t + 1` of
      the padded sentence, inside its length) is the classifier applied to
      the forward state after steps `0 .. t + 1` plus the backward state
      after steps `len - 1` down to `t + 1`. */
  lemma DecodeSummedStep(x: seq<seq<seq<real>>>, lengths: seq<nat>, a: Arch, w: Weights, i: nat, t: nat)
    requires CellFits(w.fwdCell, a.gruInput, a.hidden) && CellFits(w.bwdCell, a.gruInput, a.hidden)
    requires ClassifierFits(w.classify, a.classifierIn, a.nbClasses)
    requires Decode(x, lengths, a, w).Ok? && a.sumBidir && a.bidir
    requires |lengths| > 0 && i < |x| && t < Trimmed(lengths[0]) && t + 1 < lengths[i]
    ensures t + 1 < |x[i]| && t < |Decode(x, lengths, a, w).value[i]|
    ensures var fwd := Scan(w.fwdCell, ZeroRow(a.hidden), x[i][..t + 2])[t + 1];
      var bwd := Scan(w.bwdCell, ZeroRow(a.hidden), Reverse(x[i][t + 1 .. lengths[i]]))[lengths[i] - 2 - t];
      && |fwd| == a.hidden == |bwd|
      && Decode(x, lengths, a, w).value[i][t] == w.classify(AddRows(fwd, bwd))
  {
    DecodeStep(x, lengths, a, w, i, t);
    SumOfDirections(x, lengths, a, w, i, t + 1);
    var y := SumStage(RecurStage(x, lengths, a, w).value, a).value;
    var fwd := Scan(w.fwdCell, ZeroRow(a.hidden), x[i][..t + 2])[t + 1];
    var bwd := Scan(w.bwdCell, ZeroRow(a.hidden), Reverse(x[i][t + 1 .. lengths[i]]))[lengths[i] - 2 - t];
    SameRow(y[i][t + 1], fwd, bwd);
  }

  /** A row whose every entry is the sum of two rows' entries is their sum. */
  lemma SameRow(y: seq<real>, fwd: seq<real>, bwd: seq<real>)
    requires |y| == |fwd| == |bwd|
    requires forall j :: 0 <= j < |y| ==> y[j] == fwd[j] + bwd[j]
    ensures y == AddRows(fwd, bwd)
  {
  }

  /** `forward` on one step: output step `s` of sentence `i` is the
      classifier applied to step `s + 1` of the summed GRU output over the
      encoded batch and its lengths. */
  lemma ForwardStep(t: Tagger, w: Weights, b: Batch, padId: int, i: nat, s: nat)
    requires WellFormed(b) && t.arch.Some? && Fits(w, t.arch.value)
    requires Forward(t, w, b, padId).Ok?
    requires i < |b.words| && s < Trimmed(CountNonPad(b.words[0], padId))
    ensures Encode(t.arch.value, w, b).Ok?
    ensures var a := t.arch.value;
      var h := RecurStage(Encode(a, w, b).value, Lengths(b.words, padId), a, w);
      && h.Ok? && SumStage(h.value, a).Ok?
      && i < |SumStage(h.value, a).value| && s + 1 < |SumStage(h.value, a).value[i]|
      && Forward(t, w, b, padId).value[i][s] == w.classify(SumStage(h.value, a).value[i][s + 1])
  {
    var a := t.arch.value;
    var x := Encode(a, w, b).value;
    var lengths := Lengths(b.words, padId);
    assert Forward(t, w, b, padId) == Decode(x, lengths, a, w);
    DecodeStep(x, lengths, a, w, i, s);
  }

  // ---------------------------------------------------------------------
  // a consistent model on an aligned batch passes every check

  /** An optional feature tensor of shape `(bs, ts, w)`, or no feature and
      no width. */
  predicate OptShape(f: Option<seq<seq<seq<real>>>>, bs: nat, ts: nat, w: int) {
    if f.None? then w == 0 else w >= 0 && IsTensor3(f.value, bs, ts, w)
  }

  /** The id tensors of an enabled feature line up with the words: one row
      per sentence, `(ts - 2) * windows` ids per row, every id in its table. */
  predicate AffixAligned(t: Option<Table>, table: seq<seq<real>>, ids: seq<seq<int>>, m: nat, bs: nat, ts: nat) {
    t.Some? ==> t.value.windows >= 0 && |ids| == bs && ts >= 2 && m == (ts - 2) * t.value.windows && BatchInTable(table, ids)
  }

  /** The id tensors of a batch fit the tables and line up with the words. */
  predicate FeaturesAligned(a: Arch, w: Weights, b: Batch) {
    && |b.words| > 0 && b.ts >= 2
    && BatchInTable(w.wordTable, b.words)
    && AffixAligned(a.prefix, w.prefixTable, b.prefixes, b.prefixWidth, |b.words|, b.ts)
    && AffixAligned(a.suffix, w.suffixTable, b.suffixes, b.suffixWidth, |b.words|, b.ts)
    && (a.caps.Some? ==> |b.caps| == |b.words| && b.capsWidth == b.ts - 2 && BatchInTable(w.capsTable, b.caps))
  }

  /** A batch `forward` can run: a non-empty batch of sentences of at least
      START and STOP, in-range ids, feature tensors aligned with the words,
      lengths sorted longest first and all positive. */
  predicate Aligned(a: Arch, w: Weights, b: Batch, padId: int) {
    && FeaturesAligned(a, w, b)
    && NonIncreasing(Lengths(b.words, padId))
    && CountNonPad(b.words[|b.words| - 1], padId) > 0
  }

  /** The sizes a model needs beyond `Consistent` for `forward` to accept
      aligned batches: a kernel, channels to pool, a positive pool length,
      and a summed output only for a bidirectional GRU. */
  predicate Runnable(a: Arch) {
    Consistent(a) && a.kernelSize > 0 && a.convSize > 0 && a.poolLength > 0 && (a.sumBidir ==> a.bidir)
  }

  lemma AffixFeatureShape(t: Option<Table>, table: seq<seq<real>>, ids: seq<seq<int>>, m: nat, bs: nat, ts: nat)
    requires IsMatrix(ids, |ids|, m) && bs > 0
    requires t.Some? ==> IsMatrix(table, t.value.vocab, t.value.dim)
    requires AffixAligned(t, table, ids, m, bs, ts)
    ensures AffixFeature(t, table, ids, m, bs, ts).Ok?
    ensures OptShape(AffixFeature(t, table, ids, m, bs, ts).value, bs, ts, Contribution(t))
  {
    if t.Some? {
      var e := t.value.dim;
      EmbedBatchShape(table, ids, t.value.vocab, m, e);
      var emb := EmbedBatch(table, ids).value;
      AffixAlignment(emb, e, t.value.windows, ts);
    }
  }

  lemma CapsFeatureShape(t: Option<Table>, table: seq<seq<real>>, ids: seq<seq<int>>, m: nat, bs: nat, ts: nat)
    requires IsMatrix(ids, |ids|, m)
    requires t.Some? ==> IsMatrix(table, t.value.vocab, t.value.dim) && t.value.windows == 1
    requires t.Some? ==> |ids| == bs && ts >= 2 && m == ts - 2 && BatchInTable(table, ids)
    ensures CapsFeature(t, table, ids, m).Ok?
    ensures OptShape(CapsFeature(t, table, ids, m).value, bs, ts, Contribution(t))
  {
    if t.Some? {
      EmbedBatchShape(table, ids, t.value.vocab, m, t.value.dim);
    }
  }

  lemma CatOptionalShape(h: seq<seq<seq<real>>>, f: Option<seq<seq<seq<real>>>>, bs: nat, ts: nat, wh: nat, wf: int)
    requires IsTensor3(h, bs, ts, wh) && OptShape(f, bs, ts, wf)
    ensures wh + wf >= 0 && CatOptional(h, f).Ok? && IsTensor3(CatOptional(h, f).value, bs, ts, wh + wf)
  {
    if f.Some? {
      CatShape(h, f.value, bs, ts, wh, wf);
    }
  }

  /** On an aligned batch the fused features are `(bs, ts, features_size)`:
      the width `build` computed is the width the concatenation produces. */
  lemma FeaturesShape(a: Arch, w: Weights, b: Batch)
    requires WellFormed(b) && TablesFit(w, a) && Consistent(a) && FeaturesAligned(a, w, b)
    ensures Features(a, w, b).Ok?
    ensures IsTensor3(Features(a, w, b).value, |b.words|, b.ts, a.featuresSize)
  {
    var bs := |b.words|;
    EmbedBatchShape(w.wordTable, b.words, a.word.vocab, b.ts, a.word.dim);
    var h := EmbedBatch(w.wordTable, b.words).value;
    AffixFeatureShape(a.prefix, w.prefixTable, b.prefixes, b.prefixWidth, bs, b.ts);
    AffixFeatureShape(a.suffix, w.suffixTable, b.suffixes, b.suffixWidth, bs, b.ts);
    CapsFeatureShape(a.caps, w.capsTable, b.caps, b.capsWidth, bs, b.ts);
    var pre := AffixFeature(a.prefix, w.prefixTable, b.prefixes, b.prefixWidth, bs, b.ts).value;
    var suf := AffixFeature(a.suffix, w.suffixTable, b.suffixes, b.suffixWidth, bs, b.ts).value;
    var cap := CapsFeature(a.caps, w.capsTable, b.caps, b.capsWidth).value;
    var w1 := a.word.dim + Contribution(a.prefix);
    var w2 := w1 + Contribution(a.suffix);
    CatOptionalShape(h, pre, bs, b.ts, a.word.dim, Contribution(a.prefix));
    var h1 := CatOptional(h, pre).value;
    CatOptionalShape(h1, suf, bs, b.ts, w1, Contribution(a.suffix));
    var h2 := CatOptional(h1, suf).value;
    CatOptionalShape(h2, cap, bs, b.ts, w2, Contribution(a.caps));
  }

  // ---------------------------------------------------------------------
  // What every step of the fused features holds

  /** Step `s` of sentence `i` of an optional feature tensor; nothing when
      the feature is absent. */
  function OptStep(f: Option<seq<seq<seq<real>>>>, i: nat, s: nat): seq<real> {
    if f.Some? && i < |f.value| && s < |f.value[i]| then f.value[i][s] else []
  }

  /** What an affix feature contributes to step `s` of sentence `i`, stated
      per word: zeros at START and STOP, and at an inner step `s` the
      embeddings of the `windows` affixes of word `s - 1`, side by side. */
  function AffixPart(t: Option<Table>, table: seq<seq<real>>, ids: seq<seq<int>>, i: nat, s: nat, ts: nat): seq<real>
    requires t.Some? ==> (t.value.windows >= 0 && i < |ids| && ts >= 2 && s < ts
                          && |ids[i]| == (ts - 2) * t.value.windows && InTable(table, ids[i]))
  {
    if t.None? then [] else AffixWindows(table, ids[i], t.value.windows, t.value.dim, s, ts)
  }

  /** The affix embeddings standing for step `s` of one sentence. */
  function AffixWindows(table: seq<seq<real>>, row: seq<int>, n: nat, e: nat, s: nat, ts: nat): seq<real>
    requires ts >= 2 && s < ts && |row| == (ts - 2) * n && InTable(table, row)
  {
    if s == 0 || s == ts - 1 then ZeroRow(n * e)
    else
      MulMono(s, ts - 2, n);
      Flatten(seq(n, j requires 0 <= j < n => table[row[(s - 1) * n + j]]))
  }

  /** A run of embedded ids is the run of their table rows. */
  lemma EmbedSlice(table: seq<seq<real>>, row: seq<int>, emb: seq<seq<real>>, lo: nat, n: nat)
    requires InTable(table, row) && Embed(table, row) == Ok(emb) && lo + n <= |row|
    ensures lo + n <= |emb|
    ensures emb[lo .. lo + n] == seq(n, j requires 0 <= j < n => table[row[lo + j]])
  {
  }

  /** Regrouping one sentence's affix embeddings puts at step `s` exactly
      the embeddings `AffixWindows` names. */
  lemma WindowGroupsStep(table: seq<seq<real>>, row: seq<int>, emb: seq<seq<real>>, n: nat, e: nat, s: nat, ts: nat)
    requires ts >= 2 && s < ts && |row| == (ts - 2) * n && InTable(table, row)
    requires IsMatrix(emb, (ts - 2) * n, e) && Embed(table, row) == Ok(emb)
    ensures WindowGroups(emb, e, n, ts)[s] == AffixWindows(table, row, n, e, s, ts)
  {
    if s == 0 || s == ts - 1 {
      var g := WindowGroups(emb, e, n, ts);
      WindowGroupsEnds(emb, e, n, ts);
      FlattenZeros(n, e, 0.0);
      ZeroRowUnique(g[s], n * e);
    } else {
      WindowGroupsInner(table, row, emb, n, e, s, ts);
    }
  }

  /** The inner steps of `WindowGroupsStep`. */
  lemma WindowGroupsInner(table: seq<seq<real>>, row: seq<int>, emb: seq<seq<real>>, n: nat, e: nat, s: nat, ts: nat)
    requires ts >= 2 && 1 <= s <= ts - 2 && |row| == (ts - 2) * n && InTable(table, row)
    requires IsMatrix(emb, (ts - 2) * n, e) && Embed(table, row) == Ok(emb)
    ensures WindowGroups(emb, e, n, ts)[s] == AffixWindows(table, row, n, e, s, ts)
  {
    var lo := (s - 1) * n;
    assert lo + n == s * n;
    MulMono(s, ts - 2, n);
    WindowGroupAt(emb, e, n, ts, s);
    EmbedSlice(table, row, emb, lo, n);
  }

  /** What the capitalisation feature contributes to step `s` of sentence
      `i`: zeros at START and STOP, the embedding of word `s - 1` inside. */
  function CapsPart(t: Option<Table>, table: seq<seq<real>>, ids: seq<seq<int>>, i: nat, s: nat, ts: nat): seq<real>
    requires t.Some? ==> (i < |ids| && ts >= 2 && s < ts && |ids[i]| == ts - 2 && InTable(table, ids[i]))
  {
    if t.None? then []
    else if s == 0 || s == ts - 1 then ZeroRow(t.value.dim)
    else table[ids[i][s - 1]]
  }

  /** Appending an optional feature appends its step to every step. */
  lemma CatOptionalStep(h: seq<seq<seq<real>>>, f: Option<seq<seq<seq<real>>>>, i: nat, s: nat)
    requires CatOptional(h, f).Ok? && i < |h| && s < |h[i]|
    ensures i < |CatOptional(h, f).value| && s < |CatOptional(h, f).value[i]|
    ensures CatOptional(h, f).value[i][s] == h[i][s] + OptStep(f, i, s)
  {
    if f.Some? {
      var r := CatOptional(h, f).value;
      assert r[i] == ConcatRows(h[i], f.value[i]);
      var k := |h[i][s]|;
      assert r[i][s] == r[i][s][..k] + r[i][s][k..];
    }
  }

  /** On aligned ids the affix feature's step `s` is `AffixPart`. */
  lemma AffixFeatureStep(t: Option<Table>, table: seq<seq<real>>, ids: seq<seq<int>>, m: nat, bs: nat, ts: nat, i: nat, s: nat)
    requires IsMatrix(ids, |ids|, m) && bs > 0
    requires t.Some? ==> IsMatrix(table, t.value.vocab, t.value.dim)
    requires AffixAligned(t, table, ids, m, bs, ts)
    requires i < bs && s < ts
    ensures AffixFeature(t, table, ids, m, bs, ts).Ok?
    ensures t.Some? ==> i < |ids| && |ids[i]| == (ts - 2) * t.value.windows && InTable(table, ids[i])
    ensures OptStep(AffixFeature(t, table, ids, m, bs, ts).value, i, s) == AffixPart(t, table, ids, i, s, ts)
  {
    AffixFeatureShape(t, table, ids, m, bs, ts);
    if t.Some? {
      var e := t.value.dim;
      var n: nat := t.value.windows;
      EmbedBatchShape(table, ids, t.value.vocab, m, e);
      var emb := EmbedBatch(table, ids).value;
      AffixAlignment(emb, e, n, ts);
      assert OptStep(AffixFeature(t, table, ids, m, bs, ts).value, i, s) == WindowGroups(emb[i], e, n, ts)[s];
      assert Embed(table, ids[i]) == Ok(emb[i]);
      WindowGroupsStep(table, ids[i], emb[i], n, e, s, ts);
    }
  }

  /** On aligned ids the capitalisation feature's step `s` is `CapsPart`. */
  lemma CapsFeatureStep(t: Option<Table>, table: seq<seq<real>>, ids: seq<seq<int>>, m: nat, bs: nat, ts: nat, i: nat, s: nat)
    requires IsMatrix(ids, |ids|, m)
    requires t.Some? ==> IsMatrix(table, t.value.vocab, t.value.dim) && t.value.windows == 1
    requires t.Some? ==> |ids| == bs && ts >= 2 && m == ts - 2 && BatchInTable(table, ids)
    requires i < bs && s < ts
    ensures CapsFeature(t, table, ids, m).Ok?
    ensures t.Some? ==> i < |ids| && |ids[i]| == ts - 2 && InTable(table, ids[i])
    ensures OptStep(CapsFeature(t, table, ids, m).value, i, s) == CapsPart(t, table, ids, i, s, ts)
  {
    CapsFeatureShape(t, table, ids, m, bs, ts);
    if t.Some? {
      var e := t.value.dim;
      EmbedBatchShape(table, ids, t.value.vocab, m, e);
      var emb := EmbedBatch(table, ids).value;
      var p := PadTime(emb[i], 1, e, 0.0);
      assert OptStep(CapsFeature(t, table, ids, m).value, i, s) == p[s];
      assert Embed(table, ids[i]) == Ok(emb[i]);
      if s == 0 || s == ts - 1 {
        ZeroRowUnique(p[s], e);
      } else {
        assert p[1 + (s - 1)] == emb[i][s - 1];
      }
    }
  }

  /** Step `s` of sentence `i` of the fused features, stated per word:
      the embedding of word `s`, then the prefix windows, the suffix
      windows and the capitalisation of word `s - 1` (zeros at START and
      STOP), each present only when its field is. */
  function FeatureStep(a: Arch, w: Weights, b: Batch, i: nat, s: nat): seq<real>
    requires WellFormed(b) && FeaturesAligned(a, w, b) && i < |b.words| && s < b.ts
    requires a.prefix.Some? ==> i < |b.prefixes| && |b.prefixes[i]| == (b.ts - 2) * a.prefix.value.windows
    requires a.suffix.Some? ==> i < |b.suffixes| && |b.suffixes[i]| == (b.ts - 2) * a.suffix.value.windows
  {
    w.wordTable[b.words[i][s]]
      + AffixPart(a.prefix, w.prefixTable, b.prefixes, i, s, b.ts)
      + AffixPart(a.suffix, w.suffixTable, b.suffixes, i, s, b.ts)
      + CapsPart(a.caps, w.capsTable, b.caps, i, s, b.ts)
  }

  /** On an aligned batch every step of the fused features is the word's
      embedding followed by its affix and capitalisation embeddings, in
      the order `forward` concatenates them. */
  lemma FeaturesContent(a: Arch, w: Weights, b: Batch, i: nat, s: nat)
    requires WellFormed(b) && TablesFit(w, a) && Consistent(a) && FeaturesAligned(a, w, b)
    requires i < |b.words| && s < b.ts
    ensures Features(a, w, b).Ok?
    ensures a.prefix.Some? ==> i < |b.prefixes| && |b.prefixes[i]| == (b.ts - 2) * a.prefix.value.windows
    ensures a.suffix.Some? ==> i < |b.suffixes| && |b.suffixes[i]| == (b.ts - 2) * a.suffix.value.windows
    ensures i < |Features(a, w, b).value| && s < |Features(a, w, b).value[i]|
    ensures Features(a, w, b).value[i][s] == FeatureStep(a, w, b, i, s)
  {
    var bs := |b.words|;
    FeaturesShape(a, w, b);
    FeaturesUnfold(a, w, b);
    WordFeatureStep(w.wordTable, b.words, a.word.vocab, b.ts, a.word.dim, i, s);
    var h := EmbedBatch(w.wordTable, b.words).value;
    AffixFeatureStep(a.prefix, w.prefixTable, b.prefixes, b.prefixWidth, bs, b.ts, i, s);
    AffixFeatureStep(a.suffix, w.suffixTable, b.suffixes, b.suffixWidth, bs, b.ts, i, s);
    CapsFeatureStep(a.caps, w.capsTable, b.caps, b.capsWidth, bs, b.ts, i, s);
    var pre := AffixFeature(a.prefix, w.prefixTable, b.prefixes, b.prefixWidth, bs, b.ts).value;
    var suf := AffixFeature(a.suffix, w.suffixTable, b.suffixes, b.suffixWidth, bs, b.ts).value;
    var cap := CapsFeature(a.caps, w.capsTable, b.caps, b.capsWidth).value;
    ConcatFeaturesStep(h, pre, suf, cap, i, s);
  }

  /** Step `s` of sentence `i`'s word embeddings is the table row of word `s`. */
  lemma WordFeatureStep(table: seq<seq<real>>, ids: seq<seq<int>>, vocab: nat, m: nat, e: nat, i: nat, s: nat)
    requires IsMatrix(table, vocab, e) && IsMatrix(ids, |ids|, m) && BatchInTable(table, ids)
    requires i < |ids| && s < m
    ensures EmbedBatch(table, ids).Ok?
    ensures var h := EmbedBatch(table, ids).value;
      i < |h| && s < |h[i]| && 0 <= ids[i][s] < |table| && h[i][s] == table[ids[i][s]]
  {
    EmbedBatchShape(table, ids, vocab, m, e);
    var h := EmbedBatch(table, ids).value;
    assert Embed(table, ids[i]) == Ok(h[i]);
  }

  /** `Features` is the word embeddings with the three optional features
      appended in turn. */
  lemma FeaturesUnfold(a: Arch, w: Weights, b: Batch)
    requires WellFormed(b) && TablesFit(w, a) && Features(a, w, b).Ok?
    ensures EmbedBatch(w.wordTable, b.words).Ok?
    ensures AffixFeature(a.prefix, w.prefixTable, b.prefixes, b.prefixWidth, |b.words|, b.ts).Ok?
    ensures AffixFeature(a.suffix, w.suffixTable, b.suffixes, b.suffixWidth, |b.words|, b.ts).Ok?
    ensures CapsFeature(a.caps, w.capsTable, b.caps, b.capsWidth).Ok?
    ensures
      var h := EmbedBatch(w.wordTable, b.words).value;
      var pre := AffixFeature(a.prefix, w.prefixTable, b.prefixes, b.prefixWidth, |b.words|, b.ts).value;
      var suf := AffixFeature(a.suffix, w.suffixTable, b.suffixes, b.suffixWidth, |b.words|, b.ts).value;
      var cap := CapsFeature(a.caps, w.capsTable, b.caps, b.capsWidth).value;
      && CatOptional(h, pre).Ok? && CatOptional(CatOptional(h, pre).value, suf).Ok?
      && Features(a, w, b) == CatOptional(CatOptional(CatOptional(h, pre).value, suf).value, cap)
  {
  }

  /** Appending three optional features appends their steps in order. */
  lemma ConcatFeaturesStep(h: seq<seq<seq<real>>>, pre: Option<seq<seq<seq<real>>>>, suf: Option<seq<seq<seq<real>>>>,
                           cap: Option<seq<seq<seq<real>>>>, i: nat, s: nat)
    requires CatOptional(h, pre).Ok? && CatOptional(CatOptional(h, pre).value, suf).Ok?
    requires CatOptional(CatOptional(CatOptional(h, pre).value, suf).value, cap).Ok?
    requires i < |h| && s < |h[i]|
    ensures var r := CatOptional(CatOptional(CatOptional(h, pre).value, suf).value, cap).value;
      i < |r| && s < |r[i]| && r[i][s] == h[i][s] + OptStep(pre, i, s) + OptStep(suf, i, s) + OptStep(cap, i, s)
  {
    var h1 := CatOptional(h, pre).value;
    CatOptionalStep(h, pre, i, s);
    var h2 := CatOptional(h1, suf).value;
    CatOptionalStep(h1, suf, i, s);
    CatOptionalStep(h2, cap, i, s);
  }

  /** On an aligned batch the convolutional half yields, per sentence, at
      least `ts` steps of `gruInput` numbers. */
  lemma EncodeShape(a: Arch, w: Weights, b: Batch)
    requires WellFormed(b) && Fits(w, a) && Runnable(a) && FeaturesAligned(a, w, b)
    ensures Encode(a, w, b).Ok?
    ensures |Encode(a, w, b).value| == |b.words| && Channels(Encode(a, w, b).value, a.gruInput)
    ensures forall i :: 0 <= i < |b.words| ==> |Encode(a, w, b).value[i]| >= b.ts
  {
    FeaturesShape(a, w, b);
    var x := Features(a, w, b).value;
    var k := a.kernelSize;
    ConvLengthParity(b.ts, k);
    assert Channels(x, a.featuresSize);
    var c := ConvStage(x, a, w.kernel).value;
    var p := a.poolLength;
    assert PoolWidth(a.convSize, p) >= 1;
    assert Poolable(c, p);
  }

  /** Rows of `gruInput` numbers that pack are read, summed and classified
      without error by a consistent model. */
  lemma DecodeSucceeds(x: seq<seq<seq<real>>>, lengths: seq<nat>, a: Arch, w: Weights)
    requires CellFits(w.fwdCell, a.gruInput, a.hidden) && CellFits(w.bwdCell, a.gruInput, a.hidden)
    requires ClassifierFits(w.classify, a.classifierIn, a.nbClasses)
    requires Consistent(a) && (a.sumBidir ==> a.bidir)
    requires Packable(x, lengths) && Channels(x, a.gruInput)
    ensures Decode(x, lengths, a, w).Ok?
  {
    var h := RecurStage(x, lengths, a, w).value;
    assert SumStage(h, a).Ok?;
    var s := SumStage(h, a).value;
    assert Channels(s, a.classifierIn);
  }

  /** No sentence is longer than the steps the convolutional half keeps. */
  lemma LengthsFit(b: Batch, padId: int, x: seq<seq<seq<real>>>)
    requires WellFormed(b) && |x| == |b.words|
    requires forall i :: 0 <= i < |x| ==> |x[i]| >= b.ts
    ensures forall i :: 0 <= i < |x| ==> Lengths(b.words, padId)[i] <= |x[i]|
  {
    forall i | 0 <= i < |x|
      ensures Lengths(b.words, padId)[i] <= |x[i]|
    {
      assert Lengths(b.words, padId)[i] <= |b.words[i]|;
    }
  }

  /** The lengths of a batch whose sentences are sorted longest first and
      not empty can be packed with the convolutional half's output. */
  lemma PackableBatch(b: Batch, padId: int, x: seq<seq<seq<real>>>)
    requires WellFormed(b) && |x| == |b.words| > 0
    requires forall i :: 0 <= i < |x| ==> |x[i]| >= b.ts
    requires NonIncreasing(Lengths(b.words, padId)) && CountNonPad(b.words[|b.words| - 1], padId) > 0
    ensures Packable(x, Lengths(b.words, padId))
  {
    LengthsFit(b, padId, x);
  }

  /** A built, consistent model whose convolutional half yields packable
      rows of the GRU's width returns a result. */
  lemma ForwardFromEncode(t: Tagger, w: Weights, b: Batch, padId: int)
    requires WellFormed(b) && t.base.isBuilt && t.arch.Some? && Fits(w, t.arch.value)
    requires Consistent(t.arch.value) && (t.arch.value.sumBidir ==> t.arch.value.bidir)
    requires Encode(t.arch.value, w, b).Ok?
    requires Packable(Encode(t.arch.value, w, b).value, Lengths(b.words, padId))
    requires Channels(Encode(t.arch.value, w, b).value, t.arch.value.gruInput)
    ensures Forward(t, w, b, padId).Ok?
  {
    var a := t.arch.value;
    var x := Encode(a, w, b).value;
    DecodeSucceeds(x, Lengths(b.words, padId), a, w);
    assert Forward(t, w, b, padId) == Decode(x, Lengths(b.words, padId), a, w);
  }

  /** On an aligned batch the convolutional half of a runnable model yields
      rows the GRU accepts. */
  lemma EncodeReady(a: Arch, w: Weights, b: Batch, padId: int)
    requires WellFormed(b) && Fits(w, a) && Runnable(a) && FeaturesAligned(a, w, b)
    requires NonIncreasing(Lengths(b.words, padId)) && CountNonPad(b.words[|b.words| - 1], padId) > 0
    ensures Encode(a, w, b).Ok?
    ensures Packable(Encode(a, w, b).value, Lengths(b.words, padId))
    ensures Channels(Encode(a, w, b).value, a.gruInput)
  {
    EncodeShape(a, w, b);
    var x := Encode(a, w, b).value;
    assert forall i :: 0 <= i < |x| ==> |x[i]| >= b.ts;
    PackableBatch(b, padId, x);
  }

  /** A consistent, runnable model on an aligned batch returns scores for
      every sentence, `lengths[0] - 2` steps, one per class. */
  lemma ForwardSucceeds(t: Tagger, w: Weights, b: Batch, padId: int)
    requires WellFormed(b) && t.base.isBuilt && t.arch.Some?
    requires Fits(w, t.arch.value) && Runnable(t.arch.value) && Aligned(t.arch.value, w, b, padId)
    ensures Forward(t, w, b, padId).Ok?
  {
    EncodeReady(t.arch.value, w, b, padId);
    ForwardFromEncode(t, w, b, padId);
  }

  /** The sentence `<s> w1 w2 </s> <pad> <pad>` (ids 2 4 5 3 0 0, padding
      0) has length 4. */
  lemma ScenarioLength()
    ensures CountNonPad([2, 4, 5, 3, 0, 0], 0) == 4
  {
    CountTrailingPadding([2, 4, 5, 3], 2, 0);
    assert [2, 4, 5, 3] + seq(2, _ => 0) == [2, 4, 5, 3, 0, 0];
  }

  /** For that sentence the tagger returns 2 steps, one per word, and not
      `ts - 2 = 4`. */
  lemma SentenceScenario(t: Tagger, w: Weights, b: Batch)
    requires t.arch.Some? ==> Fits(w, t.arch.value)
    requires WellFormed(b) && b.words == [[2, 4, 5, 3, 0, 0]]
    requires Forward(t, w, b, 0).Ok?
    ensures IsTensor3(Forward(t, w, b, 0).value, 1, 2, t.arch.value.nbClasses)
  {
    ScenarioLength();
  }

  // ---------------------------------------------------------------------
  // predictions and loss of the tagger

  /** `predict_proba` on the tagger: the probabilities of `forward`. */
  function PredictProba(t: Tagger, w: Weights, b: Batch, padId: int, exp: real -> real): (r: Result<seq<seq<seq<real>>>>)
    requires WellFormed(b) && (t.arch.Some? ==> Fits(w, t.arch.value))
    ensures r.Ok? <==> Forward(t, w, b, padId).Ok?
    ensures r.Ok? ==> IsTensor3(r.value, |b.words|, Trimmed(CountNonPad(b.words[0], padId)), t.arch.value.nbClasses)
    ensures r.Ok? ==> forall i, s, c :: 0 <= i < |r.value| && 0 <= s < |r.value[i]| && 0 <= c < |r.value[i][s]| ==>
      r.value[i][s][c] == exp(Forward(t, w, b, padId).value[i][s][c])
  {
    Model.PredictProba(Forward(t, w, b, padId), exp)
  }

  /** `predict_classes` on the tagger: the most probable class of every
      step; a model without classes cannot pick one. */
  function PredictClasses(t: Tagger, w: Weights, b: Batch, padId: int, exp: real -> real): (r: Result<seq<seq<nat>>>)
    requires WellFormed(b) && (t.arch.Some? ==> Fits(w, t.arch.value))
    ensures r.Ok? ==> Forward(t, w, b, padId).Ok? && t.arch.value.nbClasses > 0
    ensures r.Ok? ==> forall i, s :: 0 <= i < |r.value| && 0 <= s < |r.value[i]| ==> r.value[i][s] < t.arch.value.nbClasses
  {
    var p :- PredictProba(t, w, b, padId, exp);
    Model.PredictClasses(p, t.arch.value.nbClasses)
  }

  /** Since `exp` is strictly increasing, the predicted classes are the
      arg-max of the log-probabilities `forward` returns. */
  lemma PredictedClassesAreArgMax(t: Tagger, w: Weights, b: Batch, padId: int, exp: real -> real)
    requires WellFormed(b) && (t.arch.Some? ==> Fits(w, t.arch.value))
    requires Model.StrictlyIncreasing(exp) && Forward(t, w, b, padId).Ok?
    ensures PredictClasses(t, w, b, padId, exp) == Model.PredictClasses(Forward(t, w, b, padId).value, t.arch.value.nbClasses)
  {
    var logp := Forward(t, w, b, padId).value;
    Model.ClassesOfLogProbabilities(logp, t.arch.value.nbClasses, exp);
  }

  /** After `build`, the loss ignores the steps whose gold tag is
      `TAGS_PAD_ID`: changing the predictions there does not change it. */
  lemma BuiltLossIgnoresTagPadding(t: Tagger, opts: Options, padId: int, tagsPadId: int,
                                   pred: seq<seq<seq<real>>>, pred': seq<seq<seq<real>>>, gold: seq<seq<int>>, bs: nat, ts: nat)
    requires Build(t, opts, padId, tagsPadId).Ok?
    requires Model.NbClasses(t.base) > 0
    requires IsTensor3(pred, bs, ts, Model.NbClasses(t.base)) && IsTensor3(pred', bs, ts, Model.NbClasses(t.base))
    requires IsMatrix(gold, bs, ts)
    requires forall i, s :: 0 <= i < bs && 0 <= s < ts && gold[i][s] != tagsPadId ==> pred[i][s] == pred'[i][s]
    ensures var m := Build(t, opts, padId, tagsPadId).value.tagger.base;
            Model.Loss(m, pred, gold) == Model.Loss(m, pred', gold)
  {
    var m := Build(t, opts, padId, tagsPadId).value.tagger.base;
    assert Model.NbClasses(m) == Model.NbClasses(t.base);
    Model.LossIgnoresPadding(m, pred, pred', gold, bs, ts);
  }
}
