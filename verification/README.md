# deeptagger core in Dafny

This project models the core of deeptagger, a part-of-speech tagger built on
PyTorch. It covers three source files:

- `deeptagger/models/model.py`: the base model. It stores the fields the
  model is built from and a "built" flag. It reshapes predictions for the
  negative-log-likelihood loss, which ignores padded tags. It turns the
  log-probabilities into probabilities (`exp`) and into classes (arg-max).
- `deeptagger/models/rcnn.py`: the recurrent convolutional tagger.
  - `build` turns an options record into layer sizes, raising the
    exceptions the code raises along the way.
  - `forward` runs a batch through these steps:
    1. word embeddings;
    2. prefix, suffix and capitalisation features, zero-padded and
       regrouped so that they line up with the words;
    3. concatenation;
    4. convolution and ReLU;
    5. max pooling over the feature axis;
    6. a packed, optionally bidirectional GRU;
    7. the optional sum of the two directions;
    8. the classifier;
    9. removal of the START and STOP positions.
- `deeptagger/dataset/vectors.py`: the pretrained word-embedding store. It
  covers the polyglot token mapping, the `cache` loader for the four file
  formats, the lookup `__getitem__`, and the format registry.

Modules:

- `Results`: Python exceptions as a `Result` datatype.
- `Tensors`: row-major nested sequences, `view`, padding and concatenation.
- `Layers`: the shape and data flow of each torch layer.
- `Model`: `model.py`.
- `Rcnn`: `rcnn.py`.
- `Vectors`: `vectors.py`.

Tensors are nested sequences and floating-point numbers are `real`.

Learned computations are parameters: the convolution kernel on one window,
the two GRU cells, and the classifier on one step. The model fixes how they
are wired and which shapes flow between them. Constants from
`deeptagger/constants.py` are parameters, because that file is not part of
this model: `PAD_ID`, `TAGS_PAD_ID` and the spellings of the special tokens.

## Notes on the code's behaviour

These follow from the source as written; the model keeps each of them.

- **Unknown embedding format.** `cache` (`vectors.py:40-63`) has no branch
  for a format outside the four it names. Nothing is loaded and nothing is
  raised (`Vectors.ConstructUnknownFormat`).
- **Loss with every tag padded.** `NLLLoss` with mean reduction
  (`rcnn.py:136-137`) divides by the number of targets that are not
  `TAGS_PAD_ID`. When there are none, the result is NaN
  (`Model.LossAllPadding`).
- **Max pooling axis.** `max_pool` (`rcnn.py:215`) is applied to a
  `(bs, ts, conv_size)` tensor, so `MaxPool1d` pools the last axis: the
  convolution channels of each step, with the time axis kept.
- **Output length.** The comment at `rcnn.py:232` describes the output as
  `(bs, ts-2, nb_classes)`. But `pad_packed_sequence` (`rcnn.py:220`)
  unpacks to the longest sentence's length, `lengths[0]`. So `forward`
  returns `lengths[0] - 2` steps, which is fewer than `ts - 2` whenever
  every sentence ends in padding.
  - Example: the sentence with ids `2 4 5 3 0 0` gives 2 steps
    (`Rcnn.SentenceScenario`).
- **Loss weights.** Only `'balanced'` has an effect (`rcnn.py:44-47`), and
  it fails: `torch.FloatTensor(None)` raises TypeError. Any other value
  leaves the loss unweighted.

## Model

| member | source | states |
|---|---|---|
| Model.New | deeptagger/models/model.py:10-27 | a new model keeps the given fields, is not built and has no loss |
| Model.NewDefaults | deeptagger/models/model.py:10-31 | the optional feature fields default to absent, and the class count is the size of the tag vocabulary's `stoi` |
| Model.Kept | deeptagger/models/rcnn.py:136-137 | the number of positions whose tag is not ignored is zero exactly when every tag is the ignore index |
| Model.Nll | deeptagger/models/rcnn.py:136-137 | the NLL loss fails on a length mismatch or on a non-ignored target outside the class range; it is NaN exactly when every target is ignored |
| Model.PickedSumIgnoresPadded | deeptagger/models/rcnn.py:136-137 | rows at ignored positions do not contribute to the sum of picked log-probabilities |
| Model.NllIgnoresPadded | deeptagger/models/rcnn.py:136-137 | changing prediction rows at ignored positions does not change the NLL loss |
| Model.FlattenAgreesWhereKept | deeptagger/models/model.py:35-38 | predictions that agree wherever the gold tag is kept still agree there after both are flattened |
| Model.ReshapeIsFlatten | deeptagger/models/model.py:35 | `reshape(-1, nb_classes)` of a `(bs, ts, nb)` prediction is the row-major flattening of its first two axes |
| Model.LossFlattens | deeptagger/models/model.py:33-40 | the loss of a `(bs, ts, nb)` prediction is the NLL of the flattened predictions against the flattened gold tags |
| Model.LossRowMajor | deeptagger/models/model.py:35-38 | flattened position `i*ts + t` holds prediction `(i, t)` and gold tag `(i, t)`, so the two reshapes stay aligned |
| Model.LossIgnoresPadding | deeptagger/models/model.py:33-40 | predictions at positions tagged with the ignore index do not influence the loss |
| Model.LossAllPadding | deeptagger/models/model.py:33-40 | an all-padding gold tensor gives NaN |
| Model.MapRow | deeptagger/models/model.py:52 | element-wise application keeps the length and maps every entry |
| Model.Exp3 | deeptagger/models/model.py:52 | `torch.exp` keeps the shape and exponentiates every entry |
| Model.PredictProba | deeptagger/models/model.py:50-52 | the probabilities exist exactly when `forward` succeeds; they have its shape and every entry is `exp` of `forward`'s entry at the same place |
| Model.ArgMax | deeptagger/models/model.py:54-56 | the returned index holds a maximal entry and no earlier index holds one |
| Model.ArgMaxUnique | deeptagger/models/model.py:54-56 | the first maximal index is the only index meeting the arg-max contract |
| Model.ArgMaxMonotone | deeptagger/models/model.py:54-56 | a strictly increasing map of a row leaves its arg-max unchanged |
| Model.PredictClasses | deeptagger/models/model.py:54-56 | one class per step, each the index of a maximal probability; an empty class axis is refused |
| Model.ClassesOfLogProbabilities | deeptagger/models/model.py:50-56 | the classes of the probabilities are the arg-max of the log-probabilities |
| Vectors.ToPolyglot | deeptagger/dataset/vectors.py:66-75 | the four special tokens map to polyglot's spellings; every other token maps to itself |
| Vectors.ToPolyglotIdempotent | deeptagger/dataset/vectors.py:66-75 | mapping twice is mapping once when no polyglot spelling is itself a special token |
| Vectors.Init | deeptagger/dataset/vectors.py:23-30 | a fresh store has no tokens, index, width or vectors, and keeps its format, binary flag and token map |
| Vectors.ZipIndex | deeptagger/dataset/vectors.py:61 | `dict(zip(itos, range))` has exactly the listed tokens as keys; each maps to the position of its last occurrence |
| Vectors.ZipIndexInverse | deeptagger/dataset/vectors.py:60-61 | for distinct tokens the index inverts the list, `stoi[itos[i]] == i`, with one entry per token |
| Vectors.ZipIndexSize | deeptagger/dataset/vectors.py:61 | distinct tokens give as many index entries as tokens |
| Vectors.Cache | deeptagger/dataset/vectors.py:40-63 | polyglot and glove stores take the reader's `id_word` and `word_id` as `itos` and `stoi`; word2vec and fasttext take gensim's `index2word` and index it by position; a recognised format yields `dim` and rows of width `dim`; an unknown format changes nothing |
| Vectors.CacheIndexInverse | deeptagger/dataset/vectors.py:57-61 | a word2vec or fasttext file without repeated tokens gives `stoi[itos[i]] == i` for every token and one index entry per token |
| Vectors.CacheKeepsData | deeptagger/dataset/vectors.py:40-63 | the stored rows are the reader's numbers in order, cut into rows of `dim`, and loading fails exactly when that cut is impossible |
| Vectors.ConstructUnknownFormat | deeptagger/dataset/vectors.py:40-63 | an unrecognised format loads no tokens, index, width or vectors, and raises nothing |
| Vectors.IndexRow | deeptagger/dataset/vectors.py:36 | integer indexing of the vectors accepts `[-n, n)` and counts negative indices from the end |
| Vectors.Fallback | deeptagger/dataset/vectors.py:38 | a miss returns `unk_init` applied to a fresh `(1, dim)` tensor, and fails when `dim` is unset |
| Vectors.GetItem | deeptagger/dataset/vectors.py:33-38 | as written: a token absent from `stoi` gets the fallback; a present token whose mapped spelling is absent raises KeyError; otherwise the result is row `stoi[map_fn(token)]` of the vectors (TypeError when there are none) |
| Vectors.GetItemMapped | deeptagger/dataset/vectors.py:33-38 | intended lookup: never KeyError; a miss on the mapped token gets the fallback; a hit returns row `stoi[map_fn(token)]` of the vectors |
| Vectors.GetItemAgreement | deeptagger/dataset/vectors.py:33-38 | on a well-formed store the as-written and intended lookups agree exactly when the token and its mapped spelling are both in `stoi` or both absent |
| Vectors.GetItemIdentity | deeptagger/dataset/vectors.py:33-38 | with the identity map the as-written and intended lookups agree, and a hit returns row `stoi[token]` |
| Vectors.GetItemMappedWidth | deeptagger/dataset/vectors.py:33-38 | on a well-formed store the intended lookup always succeeds with `dim` entries per row |
| Vectors.GetItemMissesMappedSpecial | deeptagger/dataset/vectors.py:33-36 | a START token the file spells the polyglot way is missed by the as-written lookup and found by the intended one |
| Vectors.GetItemRaisesOnRawSpecial | deeptagger/dataset/vectors.py:33-36 | a START token the file spells the vocabulary's way raises KeyError as written and falls back when intended |
| Vectors.AvailableEmbeddings | deeptagger/dataset/vectors.py:78-88 | the registry has exactly the four formats; each binds its own format, and only polyglot binds `to_polyglot` |
| Vectors.Load | deeptagger/dataset/vectors.py:78-88 | an unknown registry key is a KeyError; a loaded store has the key's format, the `map_fn` its registry entry binds, the caller's `binary` flag, and rows of width `dim` |
| Tensors.Zeros | deeptagger/models/rcnn.py:181 | `torch.zeros(n, w)` is an `n` x `w` matrix of zeros |
| Tensors.PadTime | deeptagger/models/rcnn.py:181-182 | `cat((z, h, z))` keeps the rows of `h` at offset `k` with `k` zero rows on each side |
| Tensors.View | deeptagger/dataset/vectors.py:50 | `view(-1, w)` succeeds exactly when `w` divides the length, and its rows flatten back to the data |
| Tensors.ViewFlatten | deeptagger/dataset/vectors.py:63 | viewing the flattening of a width-`w` matrix gives the matrix back |
| Tensors.ConcatRows | deeptagger/models/rcnn.py:201 | step `t` of the concatenation is step `t` of the first tensor followed by step `t` of the second |
| Tensors.ConcatRowsShape | deeptagger/models/rcnn.py:201 | concatenating widths `wa` and `wb` gives width `wa + wb` |
| Layers.Embed | deeptagger/models/rcnn.py:172 | an embedding replaces each id by its table row; any id outside the table raises IndexError |
| Layers.EmbedBatch | deeptagger/models/rcnn.py:172 | a batch embeds sentence by sentence, and fails when any id is out of range |
| Layers.EmbedBatchShape | deeptagger/models/rcnn.py:171-172 | `(bs, m)` in-range ids give a `(bs, m, e)` tensor |
| Layers.ViewBatch | deeptagger/models/rcnn.py:184 | `view(bs, ts, -1)` succeeds exactly when `bs*ts` divides the element count, and keeps the elements in order |
| Layers.ViewBatchFlatten | deeptagger/models/rcnn.py:184 | viewing a flattened `(bs, ts, w)` tensor with `(bs, ts)` gives it back |
| Layers.PadSentences | deeptagger/models/rcnn.py:196-197 | every sentence gets `k` zero steps before and after |
| Layers.AffixRows | deeptagger/models/rcnn.py:181-184 | the affix regrouping fails exactly on a negative window count, an empty `(bs, ts)`, or an element count `bs*ts` does not divide, and otherwise has `bs` x `ts` steps |
| Layers.WindowGroupAt | deeptagger/models/rcnn.py:176-184 | inner step `t` of a sentence holds the affix embeddings of word `t-1`, all windows side by side |
| Layers.WindowGroupsEnds | deeptagger/models/rcnn.py:181-184 | the START and STOP steps hold the zero padding |
| Layers.WindowGroupsFlatten | deeptagger/models/rcnn.py:182-184 | regrouping keeps every element of the padded sentence in order |
| Layers.WindowGroupsAlign | deeptagger/models/rcnn.py:176-184 | a regrouped sentence is `ts` steps of `windows*e` numbers, zero at both ends, holding the padded data in order |
| Layers.AffixAlignment | deeptagger/models/rcnn.py:175-185 | on `(bs, (ts-2)*windows, e)` embeddings the pad-then-view code equals the window-per-word regrouping, of shape `(bs, ts, windows*e)` |
| Layers.ConvLengthParity | deeptagger/models/rcnn.py:108-111 | with padding `k // 2` an odd kernel keeps the number of steps and an even one adds one |
| Layers.PaddedWindow | deeptagger/models/rcnn.py:108-111 | sliding over the zero-padded sentence reads the input steps around `t`, with zero rows outside the sentence |
| Layers.PaddedWindows | deeptagger/models/rcnn.py:108-111 | the same holds at every output step |
| Layers.Conv1d | deeptagger/models/rcnn.py:108-111 | the convolution fails exactly for a zero kernel or a padded sentence shorter than the kernel; output step `t` is the kernel applied to window `t` |
| Layers.ConvWindowShape | deeptagger/models/rcnn.py:108-111 | every convolution window is `k` rows of the input width |
| Layers.Relu | deeptagger/models/rcnn.py:209 | ReLU is non-negative, at least its input, and equal to the input or zero |
| Layers.ReluRow | deeptagger/models/rcnn.py:209 | ReLU applies element-wise |
| Layers.MaxOf | deeptagger/models/rcnn.py:215 | the maximum is an element and bounds every element |
| Layers.PoolWindowInside | deeptagger/models/rcnn.py:113-114 | every pooling window within the output width overlaps the row |
| Layers.PoolMax | deeptagger/models/rcnn.py:113-114 | an output entry is the maximum over its padded window |
| Layers.PoolRow | deeptagger/models/rcnn.py:113-114 | `MaxPool1d(p, padding=p // 2)` yields `(n + 2*(p//2) - p)//p + 1` entries, each the maximum of its window |
| Layers.Scan | deeptagger/models/rcnn.py:219 | the GRU yields one state per input step |
| Layers.ScanPrefix | deeptagger/models/rcnn.py:218-219 | running the GRU over a prefix gives the prefix of the states |
| Layers.ScanWidth | deeptagger/models/rcnn.py:219 | every state has the hidden width |
| Layers.Reverse | deeptagger/models/rcnn.py:219 | the backward direction reads the steps in reverse |
| Layers.RecurSentence | deeptagger/models/rcnn.py:217-220 | unpacking to `total` steps zero-fills every step beyond the sentence's length |
| Layers.RecurSentenceWidth | deeptagger/models/rcnn.py:217-220 | every output step has `directions * hidden` numbers |
| Layers.RecurForwardState | deeptagger/models/rcnn.py:217-220 | the first half of step `t` is the forward state after reading steps `0..t` from the zero state |
| Layers.RecurBidirStep | deeptagger/models/rcnn.py:217-220 | a bidirectional step is the forward state followed by the backward state |
| Layers.RecurBackwardState | deeptagger/models/rcnn.py:217-220 | the second half of step `t` is the backward state after reading steps `len-1` down to `t` |
| Layers.RecurIgnoresPadding | deeptagger/models/rcnn.py:217-220 | steps beyond a sentence's length do not influence its output |
| Layers.SumHalves | deeptagger/models/rcnn.py:224-226 | summing the halves gives `hidden` numbers per step |
| Layers.SumHalvesOfConcat | deeptagger/models/rcnn.py:224-226 | on a concatenated step the sum adds the forward and backward states element-wise |
| Layers.Trim | deeptagger/models/rcnn.py:233 | `h[:, 1:-1]` drops the first and last step |
| Layers.TrimPadTime | deeptagger/models/rcnn.py:231-233 | trimming undoes one padding step on each side |
| Rcnn.NewTagger | deeptagger/models/rcnn.py:16-36 | a new tagger keeps the base state and has no layers |
| Rcnn.FloorDiv | deeptagger/models/rcnn.py:118-119 | Python's `//` rounds toward minus infinity for either sign of the divisor |
| Rcnn.GruInputSize | deeptagger/models/rcnn.py:113-119 | corrected: for a positive pool length the GRU width is the pooled row width |
| Rcnn.GruWidthAgreement | deeptagger/models/rcnn.py:113-119 | the written GRU width equals the pooled width iff the pool length is 1 or 2, or 3 with `conv_size` not a multiple of 3 |
| Rcnn.GruWidthCounterexample | deeptagger/models/rcnn.py:118-119 | with `conv_size` 100 and `pool_length` 4 the pooled width is 26 and the written GRU width is 27 |
| Rcnn.AsWrittenGruRejectsPooledRows | deeptagger/models/rcnn.py:118-119 | with the written width, the GRU refuses the pooled rows at `conv_size` 100, `pool_length` 4 |
| Rcnn.NewEmbedding | deeptagger/models/rcnn.py:54-59 | an embedding table is created exactly when the padding index is in range, the width is non-negative, a fresh table with padding index 0 has a row to zero (IndexError otherwise), and pretrained vectors have the vocabulary's shape |
| Rcnn.FeatureTable | deeptagger/models/rcnn.py:62-91 | an absent field creates no table; a present one creates a table of its vocabulary size and width, exactly when `nn.Embedding` accepts its size, width and padding index |
| Rcnn.BuildEmbeddings | deeptagger/models/rcnn.py:49-91 | the tables are created exactly when `nn.Embedding` accepts each of them; there is one table per present field, with the configured widths and `max - min + 1` windows per affix; pretrained rows that do not match the vocabulary raise AssertionError |
| Rcnn.BuildLayers | deeptagger/models/rcnn.py:93-133 | succeeds exactly when embeddings are not frozen, the dropouts are valid, the sizes are non-negative, the pool length is non-zero and every weight has a fan; freezing raises AttributeError; a success has valid dropouts, weights that `init_weights` can initialise (non-zero fans), and consistent widths taken from the tables and options, with the corrected GRU width |
| Rcnn.WordWidthOverride | deeptagger/models/rcnn.py:49-52 | pretrained vectors replace only the word width in the options |
| Rcnn.Build | deeptagger/models/rcnn.py:38-138 | succeeds exactly when `hidden_size` is non-empty, `loss_weights` is not `'balanced'`, every embedding table is accepted and the layers are accepted for the fused width `features_size`; an empty `hidden_size` raises IndexError and `'balanced'` TypeError before anything else; a success has a positive kernel and hidden size, marks the model built, installs the loss ignoring `TAGS_PAD_ID`, and fixes consistent widths drawn from the fields and options, with the corrected GRU width |
| Rcnn.BuildRejectsMisalignedVectors | deeptagger/models/rcnn.py:49-59 | pretrained word vectors with the wrong row count make `build` fail an assertion |
| Rcnn.BuildZeroSizesFail | deeptagger/models/rcnn.py:133-148 | a zero kernel size or a zero hidden size makes `build` fail |
| Rcnn.BuildEmptyVocabularyFails | deeptagger/models/rcnn.py:54-59 | with `PAD_ID` 0, an empty word vocabulary without pretrained vectors makes `build` raise IndexError |
| Rcnn.BuildZeroKernelScenario | deeptagger/models/rcnn.py:108-142 | with all other options acceptable, a zero kernel size raises ZeroDivisionError in `init_weights` |
| Rcnn.BuildSucceeds | deeptagger/models/rcnn.py:38-148 | options with positive layer sizes, valid dropouts, no freezing and vocabularies holding the padding index build a model that is marked built and, when directions are summed only for a bidirectional GRU, ready to run |
| Rcnn.BuiltForwardSucceeds | deeptagger/models/rcnn.py:38-235 | a model `build` produced runs `forward` without error on any aligned batch whose weights fit it |
| Rcnn.BuildFreezeFails | deeptagger/models/rcnn.py:93-104 | `freeze_embeddings` always makes `build` fail |
| Rcnn.SumBidirWidth | deeptagger/models/rcnn.py:126-128 | with `hidden_size` 128, a bidirectional sum feeds the classifier 128 numbers and a concatenation 256 |
| Rcnn.PrefixWindowCount | deeptagger/models/rcnn.py:68-69 | prefix lengths 1 to 3 give 3 windows |
| Rcnn.CountNonPad | deeptagger/models/rcnn.py:165-166 | a length is the number of positions whose id is not padding: with the padding ids it makes up the padded length, so it is at most that length, and equal to it iff no id is padding |
| Rcnn.PaddingCount | deeptagger/models/rcnn.py:165 | a run of `k` paddings is masked out at all `k` positions |
| Rcnn.CountTrailingPadding | deeptagger/models/rcnn.py:165-166 | content followed by padding has the content's length |
| Rcnn.Lengths | deeptagger/models/rcnn.py:163-166 | there is one length per sentence |
| Rcnn.Cat | deeptagger/models/rcnn.py:200-201 | concatenation succeeds exactly when the leading dimensions agree, and concatenates each step |
| Rcnn.CatShape | deeptagger/models/rcnn.py:200-201 | `(b, t, wa)` and `(b, t, wb)` concatenate to `(b, t, wa + wb)` |
| Rcnn.CatOptional | deeptagger/models/rcnn.py:174-201 | an absent feature leaves the features unchanged |
| Rcnn.AffixFeature | deeptagger/models/rcnn.py:175-192 | an absent affix field contributes nothing; a present one yields a tensor when it succeeds |
| Rcnn.CapsFeature | deeptagger/models/rcnn.py:194-198 | an absent capitalisation field contributes nothing; a present one yields a tensor when it succeeds |
| Rcnn.Features | deeptagger/models/rcnn.py:171-201 | the fused features keep one row per sentence and `ts` steps |
| Rcnn.CatOptionalStep | deeptagger/models/rcnn.py:200-201 | appending an optional feature appends its step to every step |
| Rcnn.ConcatFeaturesStep | deeptagger/models/rcnn.py:174-201 | concatenating the word embeddings with the three optional features appends their steps in that order |
| Rcnn.WindowGroupsStep | deeptagger/models/rcnn.py:178-184 | step `s` of a regrouped affix feature is zeros at START and STOP, and inside the embeddings of the `windows` affixes of word `s-1`, side by side |
| Rcnn.WindowGroupsInner | deeptagger/models/rcnn.py:178-184 | an inner step holds the embeddings of word `s-1`'s affixes in order |
| Rcnn.AffixFeatureStep | deeptagger/models/rcnn.py:175-192 | on aligned ids each step of an affix feature is the per-word affix embeddings, zero at START and STOP |
| Rcnn.CapsFeatureStep | deeptagger/models/rcnn.py:194-198 | on aligned ids step `s` of the capitalisation feature is the embedding of word `s-1`, zero at START and STOP |
| Rcnn.FeaturesUnfold | deeptagger/models/rcnn.py:171-201 | the fused features are the word embeddings with the prefix, suffix and caps features appended in that order |
| Rcnn.FeaturesContent | deeptagger/models/rcnn.py:171-201 | on an aligned batch step `s` is the embedding of word `s`, then the prefix windows, the suffix windows and the caps embedding of word `s-1` (zeros at START and STOP) |
| Rcnn.AffixFeatureShape | deeptagger/models/rcnn.py:175-192 | aligned affix ids give `(bs, ts, windows*dim)` |
| Rcnn.CapsFeatureShape | deeptagger/models/rcnn.py:194-198 | aligned capitalisation ids give `(bs, ts, dim)` |
| Rcnn.CatOptionalShape | deeptagger/models/rcnn.py:200-201 | appending an optional feature adds its width |
| Rcnn.FeaturesShape | deeptagger/models/rcnn.py:61-91 | the concatenated features are exactly `features_size` wide, the width `build` computed |
| Rcnn.ConvStage | deeptagger/models/rcnn.py:205-209 | the convolution requires `features_size` channels and a usable kernel; each sentence yields `conv_size` channels |
| Rcnn.ConvRelu | deeptagger/models/rcnn.py:208-209 | a sentence has the convolution's length, with `conv_size` numbers per step |
| Rcnn.PoolStage | deeptagger/models/rcnn.py:214-215 | pooling fails on a non-positive pool length or an unpoolable row, and otherwise keeps the steps and pools every row |
| Rcnn.PoolStageWindows | deeptagger/models/rcnn.py:215 | each pooled entry is the maximum of its window |
| Rcnn.RecurStage | deeptagger/models/rcnn.py:217-220 | packing accepts sorted, positive, in-range lengths and rows of the GRU width; the output has `lengths[0]` steps |
| Rcnn.SumStage | deeptagger/models/rcnn.py:223-226 | the sum needs rows of `2 * hidden` numbers, and each output step is that step's halves added; without `sum_bidir` nothing changes |
| Rcnn.RecurStageStep | deeptagger/models/rcnn.py:217-220 | in a bidirectional GRU's output, step `t < len` is the forward state after steps `0..t` followed by the backward state after steps `len-1` down to `t` |
| Rcnn.SumStageStep | deeptagger/models/rcnn.py:224-226 | summing a step made of a forward and a backward state adds them element by element |
| Rcnn.SumOfDirections | deeptagger/models/rcnn.py:217-226 | with `sum_bidir`, output entry `j` at step `t < len` is forward state `j` after steps `0..t` plus backward state `j` after steps `len-1` down to `t` |
| Rcnn.ClassifyStage | deeptagger/models/rcnn.py:228-229 | the classifier requires `classifierIn` numbers, yields one score per class, and step `t` of sentence `i` is the classifier applied to that same step |
| Rcnn.Encode | deeptagger/models/rcnn.py:171-215 | the convolutional half keeps one row per sentence |
| Rcnn.Decode | deeptagger/models/rcnn.py:217-233 | the recurrent half yields `lengths[0] - 2` steps of class scores per sentence |
| Rcnn.DecodeStep | deeptagger/models/rcnn.py:217-233 | output step `t` of sentence `i` is the classifier applied to step `t + 1` of the GRU output after the optional sum: START removed |
| Rcnn.DecodeSummedStep | deeptagger/models/rcnn.py:217-233 | with `sum_bidir` on a bidirectional GRU, output step `t` inside the sentence is the classifier applied to the forward state after steps `0..t+1` plus the backward state after steps `len-1` down to `t+1` |
| Rcnn.Forward | deeptagger/models/rcnn.py:160-235 | an unbuilt model fails the assertion; otherwise the output is `(bs, lengths[0] - 2, nb_classes)` |
| Rcnn.ForwardStep | deeptagger/models/rcnn.py:160-235 | output step `s` of sentence `i` is the classifier applied to step `s + 1` of the summed GRU output over the encoded batch and its lengths |
| Rcnn.EncodeShape | deeptagger/models/rcnn.py:205-215 | on aligned input the convolutional half yields at least `ts` steps of GRU-width rows |
| Rcnn.LengthsFit | deeptagger/models/rcnn.py:166 | no length exceeds the steps the convolution keeps |
| Rcnn.PackableBatch | deeptagger/models/rcnn.py:166-218 | sorted, non-empty sentences pack |
| Rcnn.EncodeReady | deeptagger/models/rcnn.py:205-218 | on an aligned batch the pooled rows are ready for the GRU, whose input width is the corrected one |
| Rcnn.DecodeSucceeds | deeptagger/models/rcnn.py:217-233 | packable rows of the GRU width pass the GRU, sum and classifier of a consistent model (corrected GRU width) |
| Rcnn.ForwardFromEncode | deeptagger/models/rcnn.py:160-235 | a consistent model whose convolutional half succeeds with packable rows returns a result |
| Rcnn.ForwardSucceeds | deeptagger/models/rcnn.py:160-235 | with the corrected GRU width, a consistent, runnable model on an aligned batch never raises |
| Rcnn.ScenarioLength | deeptagger/models/rcnn.py:165-166 | ids `2 4 5 3 0 0` with padding 0 have length 4 |
| Rcnn.SentenceScenario | deeptagger/models/rcnn.py:231-233 | that sentence yields 2 output steps |
| Rcnn.PredictProba | deeptagger/models/model.py:50-52 | the tagger's probabilities exist exactly when `forward` succeeds, with its shape, and each is `exp` of the matching log-probability |
| Rcnn.PredictClasses | deeptagger/models/model.py:54-56 | predicted classes are in range and exist only when `forward` succeeds with classes |
| Rcnn.PredictedClassesAreArgMax | deeptagger/models/model.py:50-56 | the tagger's predicted classes are the arg-max of `forward`'s log-probabilities |
| Rcnn.BuiltLossIgnoresTagPadding | deeptagger/models/rcnn.py:135-137 | after `build`, predictions at steps tagged `TAGS_PAD_ID` do not influence the loss |

## Left out

- Dropout is the identity: the model describes evaluation mode, and the random mask is not modelled.
- The random values `init_weights` draws (xavier) are not modelled; the weights are a parameter. Its deterministic failure on a weight with no fan is modelled (`Rcnn.BuildLayers`).
- The numeric content of the convolution kernel, GRU cells and `linear_out` plus `log_softmax` is not modelled. They are function parameters constrained only by their output widths.
- Floating-point rounding is not modelled; numbers are `real`.
- The `requires_grad` effect of freezing is not modelled, because `build` always raises before it matters.
- The hidden state that `forward` stores on the object is not modelled. The GRU starts from the zero state, which is what `init_hidden` provides.
- `save` and `load` (file I/O) are not modelled.
- `opts.py` (command-line parsing) and `modules/positional_encoding.py` are not modelled.
- `deeptagger/constants.py` is not part of this model. Its values are parameters.
- The third-party readers (polyglot's `Embedding.load` and `from_glove`, gensim's `load_word2vec_format`) are function parameters.
- gensim's missing-import branch is not modelled. It logs and then fails on an undefined name.
- torchtext's `Vectors.__init__` caching (`url`, `max_vectors`, `save_vectors`) and its default `unk_init` are not modelled. `unk_init` is a parameter.
- The contents of a fresh `torch.Tensor(1, dim)` are uninitialised memory. They are modelled as an arbitrary value.
- `pack_padded_sequence` on an empty batch is taken to raise RuntimeError. Older torch versions fail there in other ways.
- Under `sum_bidir` with a unidirectional GRU, the model raises RuntimeError at the sum.
  - For `hidden_size` 1, torch instead broadcasts the two halves and raises the same RuntimeError one step later, at `linear_out`.
- Rcnn.Forward: its contract states the output shape. The value of each step is `Rcnn.ForwardStep`, and the stages it composes are stated by `Rcnn.FeaturesContent`, `Layers.Conv1d`, `Layers.PoolRow`, `Rcnn.RecurStage` and `Rcnn.ClassifyStage`.
- Rcnn.Decode: its contract states the output shape. The value of each step is `Rcnn.DecodeStep`, and with `sum_bidir` on a bidirectional GRU `Rcnn.DecodeSummedStep`.
- Rcnn.PredictClasses: its contract states range and success only. The arg-max relation is `Rcnn.PredictedClassesAreArgMax`.
- Rcnn.Features: its contract states the number of steps. The width is `Rcnn.FeaturesShape` and the contents `Rcnn.FeaturesContent`, both under alignment.
- Rcnn.Build: the GRU input width is the pooled width (`Rcnn.GruInputSize`), not the formula at `rcnn.py:118-119`. With the formula as written, `forward` raises RuntimeError at the GRU whenever `Rcnn.GruWidthAgreement` fails (see Findings). `Rcnn.EncodeReady`, `Rcnn.DecodeSucceeds` and `Rcnn.ForwardSucceeds` are about the corrected model.
- Rcnn.Build: a zero kernel or hidden size raises ZeroDivisionError at `init_weights` (`rcnn.py:133`). Torch versions that initialise weights in the layer constructors raise the same error earlier, at `rcnn.py:108` or `rcnn.py:118`. Newer versions refuse a zero `hidden_size` in `nn.GRU` with ValueError. The model follows the first reading.
- Vectors.ConstructUnknownFormat: the model takes the store's fields to stay as `vectors.py:23-26` set them (empty). torchtext 0.4 and later, whose `cache(name, cache, url, max_vectors)` signature the override matches, reset `itos`, `stoi`, `vectors` and `dim` to None in `Vectors.__init__` before calling `cache`. Either way a later lookup raises TypeError, because the fields it reads are unset.

## Findings

| source | as written | input that shows it | evidently intended | confidence | as-written member | corrected member |
|---|---|---|---|---|---|---|
| deeptagger/models/rcnn.py:118-119 | the GRU input width is `conv_size // pool_length + pool_length // 2` | `conv_size = 100`, `pool_length = 4`: max pooling yields rows of 26 numbers but the GRU expects 27, so every `forward` raises RuntimeError | the GRU input width equals the pooled width `(conv_size + 2*(pool_length//2) - pool_length)//pool_length + 1` | not executed | Rcnn.AsWrittenGruRejectsPooledRows | Rcnn.GruInputSize |
| deeptagger/dataset/vectors.py:33-36 | membership is tested on the raw token, but `stoi` is indexed with `map_fn(token)` | polyglot store holding `<S>`, vocabulary spelling START as `<s>`: the lookup of `<s>` returns the unknown fallback. With a store holding `<s>` only, it raises KeyError | map the token first, then test membership and index with the mapped token | not executed | Vectors.GetItemMissesMappedSpecial | Vectors.GetItemMapped |
