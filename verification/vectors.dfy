/** Pretrained word-embedding store (`deeptagger/dataset/vectors.py`).

    A store holds the file's own token list (`itos`), its token-to-row
    index (`stoi`), the row width (`dim`) and the rows themselves.  The
    third-party readers (polyglot, gensim) are parameters: each is a total
    function from the file name to what that reader hands back. */
module Vectors {
  import opened Results
  import opened Tensors

  /** Spellings of the vocabulary's four special tokens UNK, PAD, START and
      STOP (the values of `deeptagger.constants`, which is not part of this
      model). */
  datatype Specials = Specials(unk: string, pad: string, start: string, stop: string)

  predicate Distinct(sp: Specials) {
    && sp.unk != sp.pad && sp.unk != sp.start && sp.unk != sp.stop
    && sp.pad != sp.start && sp.pad != sp.stop && sp.start != sp.stop
  }

  predicate IsSpecial(sp: Specials, token: string) {
    token == sp.unk || token == sp.pad || token == sp.start || token == sp.stop
  }

  /** `to_polyglot`: renames the special tokens to polyglot's spellings.
      The mapping is a dict literal, so if two specials share a spelling the
      later entry (STOP, then START, then PAD) is the one that survives. */
  function ToPolyglot(sp: Specials, token: string): (r: string)
    ensures !IsSpecial(sp, token) ==> r == token
    ensures Distinct(sp) && token == sp.unk ==> r == "<UNK>"
    ensures Distinct(sp) && token == sp.pad ==> r == "<PAD>"
    ensures Distinct(sp) && token == sp.start ==> r == "<S>"
    ensures Distinct(sp) && token == sp.stop ==> r == "</S>"
  {
    if token == sp.stop then "</S>"
    else if token == sp.start then "<S>"
    else if token == sp.pad then "<PAD>"
    else if token == sp.unk then "<UNK>"
    else token
  }

  /** Renaming twice is renaming once, as long as no polyglot spelling is
      itself one of the vocabulary's special tokens. */
  lemma ToPolyglotIdempotent(sp: Specials, token: string)
    requires !IsSpecial(sp, "<UNK>") && !IsSpecial(sp, "<PAD>")
    requires !IsSpecial(sp, "<S>") && !IsSpecial(sp, "</S>")
    ensures ToPolyglot(sp, ToPolyglot(sp, token)) == ToPolyglot(sp, token)
  {
  }

  /** The `map_fn` a store applies to a token before indexing `stoi`:
      the identity default or `to_polyglot`. */
  datatype TokenMap = Identity | PolyglotMap(sp: Specials)

  function Apply(f: TokenMap, token: string): string {
    match f
    case Identity => token
    case PolyglotMap(sp) => ToPolyglot(sp, token)
  }

  /** A `WordEmbeddings` object. */
  datatype Store<T> = Store(
    itos: seq<string>,
    stoi: map<string, int>,
    dim: Option<nat>,
    vectors: Option<seq<seq<T>>>,
    binary: bool,
    format: string,
    mapFn: TokenMap)

  /** The state `__init__` sets up before the file is read. */
  function Init<T>(format: string, binary: bool, mapFn: TokenMap): (s: Store<T>)
    ensures s.itos == [] && s.stoi == map[] && s.dim == None && s.vectors == None
    ensures s.format == format && s.binary == binary && s.mapFn == mapFn
  {
    Store([], map[], None, None, binary, format, mapFn)
  }

  /** What polyglot's `Embedding.load` / `Embedding.from_glove` return: the
      vocabulary both ways, the column count and the matrix's elements in
      row-major order. */
  datatype VocabEmbedding<T> = VocabEmbedding(idWord: seq<string>, wordId: map<string, int>, cols: nat, data: seq<T>)

  /** What gensim's `KeyedVectors.load_word2vec_format` returns. */
  datatype KeyedVectors<T> = KeyedVectors(index2word: seq<string>, vectorSize: nat, data: seq<T>)

  /** The third-party readers, keyed by what they read. */
  datatype Readers<T> = Readers(
    loadPolyglot: string -> VocabEmbedding<T>,
    fromGlove: string -> VocabEmbedding<T>,
    loadWord2Vec: (string, bool) -> KeyedVectors<T>)

  /** `dict(zip(itos, range(len(itos))))`: entries are inserted in order, so
      a repeated token keeps the index of its last occurrence. */
  function ZipIndex(itos: seq<string>): (m: map<string, int>)
    ensures m.Keys == set w | w in itos
    ensures forall w :: w in m ==> 0 <= m[w] < |itos| && itos[m[w]] == w
    ensures forall w, j :: w in m && m[w] < j < |itos| ==> itos[j] != w
  {
    if |itos| == 0 then map[]
    else
      var front := itos[..|itos| - 1];
      var m := ZipIndex(front)[itos[|itos| - 1] := |itos| - 1];
      assert forall w :: w in itos <==> w in front || w == itos[|itos| - 1] by {
        assert itos == front + [itos[|itos| - 1]];
      }
      m
  }

  /** In a list without repeats, equal entries sit at equal positions. */
  lemma DistinctAt(itos: seq<string>, i: nat, k: nat)
    requires forall i, j :: 0 <= i < j < |itos| ==> itos[i] != itos[j]
    requires i < |itos| && k < |itos| && itos[i] == itos[k]
    ensures i == k
  {
  }

  /** With distinct tokens the index is the exact inverse of the list:
      `stoi[itos[i]] == i` and there are as many entries as tokens. */
  lemma ZipIndexInverse(itos: seq<string>)
    requires forall i, j :: 0 <= i < j < |itos| ==> itos[i] != itos[j]
    ensures forall i :: 0 <= i < |itos| ==> ZipIndex(itos)[itos[i]] == i
    ensures |ZipIndex(itos)| == |itos|
  {
    var m := ZipIndex(itos);
    forall i | 0 <= i < |itos|
      ensures m[itos[i]] == i
    {
      var k := m[itos[i]];
      assert itos[k] == itos[i];
      DistinctAt(itos, i, k);
    }
    ZipIndexSize(itos);
  }

  /** Distinct tokens give one index entry each. */
  lemma {:induction false} ZipIndexSize(itos: seq<string>)
    requires forall i, j :: 0 <= i < j < |itos| ==> itos[i] != itos[j]
    ensures |ZipIndex(itos)| == |itos|
  {
    if |itos| > 0 {
      var front := itos[..|itos| - 1];
      var last := itos[|itos| - 1];
      ZipIndexSize(front);
      var mf := ZipIndex(front);
      forall w | w in mf
        ensures w != last
      {
        assert itos[mf[w]] == front[mf[w]] == w;
      }
      assert ZipIndex(itos) == mf[last := |itos| - 1];
      assert ZipIndex(itos).Keys == mf.Keys + {last};
    }
  }

  /** The four file formats `cache` recognises. */
  predicate Recognised(format: string) {
    format in ["polyglot", "glove", "word2vec", "fasttext"]
  }

  /** `cache`: reads the file with the reader its format selects and
      replaces `itos`, `stoi`, `dim` and `vectors`.  A format outside the
      four names matches no branch: the store comes back unchanged and
      nothing is raised. */
  function Cache<T>(s: Store<T>, name: string, rd: Readers<T>): (r: Result<Store<T>>)
    ensures !Recognised(s.format) ==> r == Ok(s)
    ensures r.Ok? && Recognised(s.format) ==>
      && r.value.dim.Some? && r.value.vectors.Some?
      && IsMatrix(r.value.vectors.value, |r.value.vectors.value|, r.value.dim.value)
    ensures r.Ok? ==> r.value.format == s.format && r.value.binary == s.binary && r.value.mapFn == s.mapFn
    ensures r.Ok? && s.format == "polyglot" ==>
      r.value.itos == rd.loadPolyglot(name).idWord && r.value.stoi == rd.loadPolyglot(name).wordId
    ensures r.Ok? && s.format == "glove" ==>
      r.value.itos == rd.fromGlove(name).idWord && r.value.stoi == rd.fromGlove(name).wordId
    ensures r.Ok? && (s.format == "word2vec" || s.format == "fasttext") ==>
      r.value.itos == rd.loadWord2Vec(name, s.binary).index2word
    ensures r.Ok? && (s.format == "word2vec" || s.format == "fasttext") ==> r.value.stoi == ZipIndex(r.value.itos)
  {
    if s.format == "polyglot" || s.format == "glove" then
      var e := if s.format == "polyglot" then rd.loadPolyglot(name) else rd.fromGlove(name);
      var v :- View(e.data, e.cols);
      Ok(s.(itos := e.idWord, stoi := e.wordId, dim := Some(e.cols), vectors := Some(v)))
    else if s.format == "word2vec" || s.format == "fasttext" then
      var k := rd.loadWord2Vec(name, s.binary);
      var v :- View(k.data, k.vectorSize);
      Ok(s.(itos := k.index2word, stoi := ZipIndex(k.index2word), dim := Some(k.vectorSize), vectors := Some(v)))
    else
      Ok(s)
  }

  /** The rows a recognised format stores are the reader's numbers, in
      order, cut into rows of `dim`; the load fails exactly when that cut is
      impossible. */
  lemma CacheKeepsData<T>(s: Store<T>, name: string, rd: Readers<T>)
    requires Recognised(s.format)
    ensures
      var data := if s.format == "polyglot" then rd.loadPolyglot(name).data
                  else if s.format == "glove" then rd.fromGlove(name).data
                  else rd.loadWord2Vec(name, s.binary).data;
      var dim := if s.format == "polyglot" then rd.loadPolyglot(name).cols
                 else if s.format == "glove" then rd.fromGlove(name).cols
                 else rd.loadWord2Vec(name, s.binary).vectorSize;
      && (Cache(s, name, rd).Ok? <==> dim > 0 && |data| % dim == 0)
      && (Cache(s, name, rd).Ok? ==>
            Cache(s, name, rd).value.dim == Some(dim) && Flatten(Cache(s, name, rd).value.vectors.value) == data)
  {
  }

  /** A word2vec or fastText file without repeated tokens gives a store
      whose index is the exact inverse of its token list, with one row per
      token when the numbers divide into such rows. */
  lemma CacheIndexInverse<T>(s: Store<T>, name: string, rd: Readers<T>)
    requires s.format == "word2vec" || s.format == "fasttext"
    requires Cache(s, name, rd).Ok?
    requires var words := rd.loadWord2Vec(name, s.binary).index2word;
      forall i, j :: 0 <= i < j < |words| ==> words[i] != words[j]
    ensures var c := Cache(s, name, rd).value;
      && c.itos == rd.loadWord2Vec(name, s.binary).index2word
      && |c.stoi| == |c.itos|
      && forall i :: 0 <= i < |c.itos| ==> c.itos[i] in c.stoi && c.stoi[c.itos[i]] == i
  {
    ZipIndexInverse(rd.loadWord2Vec(name, s.binary).index2word);
  }

  /** A constructed store: `__init__` followed by `cache`. */
  function Construct<T>(name: string, format: string, binary: bool, mapFn: TokenMap, rd: Readers<T>): Result<Store<T>>
  {
    Cache(Init(format, binary, mapFn), name, rd)
  }

  /** An unknown format yields an empty store without an error. */
  lemma ConstructUnknownFormat<T>(name: string, format: string, binary: bool, mapFn: TokenMap, rd: Readers<T>)
    requires !Recognised(format)
    ensures Construct(name, format, binary, mapFn, rd).Ok?
    ensures var s := Construct(name, format, binary, mapFn, rd).value;
      s.itos == [] && s.stoi == map[] && s.dim == None && s.vectors == None
  {
  }

  /** A looked-up vector: a stored row has shape `(dim,)`; the unknown-token
      fallback has shape `(1, dim)`. */
  datatype Vector<T> = Row(row: seq<T>) | Block(block: seq<seq<T>>)

  /** `tensor[i]` for an integer `i`: negative indices count from the end. */
  function IndexRow<T>(v: seq<seq<T>>, i: int): (r: Result<Vector<T>>)
    ensures r.Ok? <==> -|v| <= i < |v|
    ensures 0 <= i < |v| ==> r == Ok(Row(v[i]))
    ensures -|v| <= i < 0 ==> r == Ok(Row(v[|v| + i]))
  {
    if 0 <= i < |v| then Ok(Row(v[i]))
    else if -|v| <= i < 0 then Ok(Row(v[|v| + i]))
    else Err(IndexError)
  }

  /** The unknown-token fallback: `unk_init(torch.Tensor(1, dim))`.  The
      fresh tensor's uninitialised contents are `junk`. */
  function Fallback<T>(dim: Option<nat>, unkInit: seq<seq<T>> -> seq<seq<T>>, junk: T): (r: Result<Vector<T>>)
    ensures r.Ok? <==> dim.Some?
    ensures r.Ok? ==> r.value == Block(unkInit(Zeros(1, dim.value, junk)))
  {
    match dim
    case None => Err(TypeError)
    case Some(d) => Ok(Block(unkInit(Zeros(1, d, junk))))
  }

  /** `__getitem__` as written: membership is decided on the token as
      given, but `stoi` is then indexed with the token after `map_fn`. */
  function GetItem<T>(s: Store<T>, token: string, unkInit: seq<seq<T>> -> seq<seq<T>>, junk: T): (r: Result<Vector<T>>)
    ensures token !in s.stoi ==> r == Fallback(s.dim, unkInit, junk)
    ensures token in s.stoi && Apply(s.mapFn, token) !in s.stoi ==> r == Err(KeyError)
    ensures r.Ok? && r.value.Row? ==> token in s.stoi && Apply(s.mapFn, token) in s.stoi
    ensures token in s.stoi && Apply(s.mapFn, token) in s.stoi && s.vectors.Some? ==>
      r == IndexRow(s.vectors.value, s.stoi[Apply(s.mapFn, token)])
    ensures token in s.stoi && Apply(s.mapFn, token) in s.stoi && s.vectors.None? ==> r == Err(TypeError)
  {
    if token in s.stoi then
      var key := Apply(s.mapFn, token);
      if key !in s.stoi then Err(KeyError)
      else
        match s.vectors
        case None => Err(TypeError)
        case Some(v) => IndexRow(v, s.stoi[key])
    else
      Fallback(s.dim, unkInit, junk)
  }

  /** `__getitem__` as evidently intended: map the token first, then decide
      hit or miss on the mapped token. */
  function GetItemMapped<T>(s: Store<T>, token: string, unkInit: seq<seq<T>> -> seq<seq<T>>, junk: T): (r: Result<Vector<T>>)
    ensures r != Err(KeyError)
    ensures Apply(s.mapFn, token) !in s.stoi ==> r == Fallback(s.dim, unkInit, junk)
    ensures r.Ok? && r.value.Row? ==> Apply(s.mapFn, token) in s.stoi
    ensures Apply(s.mapFn, token) in s.stoi && s.vectors.Some? ==>
      r == IndexRow(s.vectors.value, s.stoi[Apply(s.mapFn, token)])
    ensures Apply(s.mapFn, token) in s.stoi && s.vectors.None? ==> r == Err(TypeError)
  {
    var key := Apply(s.mapFn, token);
    if key in s.stoi then
      match s.vectors
      case None => Err(TypeError)
      case Some(v) => IndexRow(v, s.stoi[key])
    else
      Fallback(s.dim, unkInit, junk)
  }

  /** A store whose rows all have `dim` entries and whose index points at
      rows that exist, as `cache` produces from a well-formed file. */
  predicate WellFormed<T>(s: Store<T>) {
    && s.dim.Some? && s.vectors.Some?
    && IsMatrix(s.vectors.value, |s.vectors.value|, s.dim.value)
    && forall w :: w in s.stoi ==> 0 <= s.stoi[w] < |s.vectors.value|
  }

  /** With the identity `map_fn` the as-written and the intended lookups
      agree: a hit returns row `stoi[token]`, a miss the fallback. */
  lemma GetItemIdentity<T>(s: Store<T>, token: string, unkInit: seq<seq<T>> -> seq<seq<T>>, junk: T)
    requires s.mapFn == Identity && WellFormed(s)
    ensures GetItem(s, token, unkInit, junk) == GetItemMapped(s, token, unkInit, junk)
    ensures token in s.stoi ==> GetItem(s, token, unkInit, junk) == Ok(Row(s.vectors.value[s.stoi[token]]))
  {
  }

  /** On a well-formed store the two lookups agree exactly when the token
      and its mapped spelling are both present or both absent; otherwise
      the as-written one raises KeyError or falls back where the intended
      one finds a row. */
  lemma GetItemAgreement<T>(s: Store<T>, token: string, unkInit: seq<seq<T>> -> seq<seq<T>>, junk: T)
    requires WellFormed(s)
    ensures GetItem(s, token, unkInit, junk) == GetItemMapped(s, token, unkInit, junk)
            <==> (token in s.stoi <==> Apply(s.mapFn, token) in s.stoi)
  {
    var key := Apply(s.mapFn, token);
    if token in s.stoi && key !in s.stoi {
      assert GetItem(s, token, unkInit, junk) == Err(KeyError);
      assert GetItemMapped(s, token, unkInit, junk).Ok?;
    } else if token !in s.stoi && key in s.stoi {
      assert GetItem(s, token, unkInit, junk).value.Block?;
      assert GetItemMapped(s, token, unkInit, junk).value.Row?;
    }
  }

  /** On a well-formed store the intended lookup never fails, and whatever
      it returns has `dim` entries per row (given an `unk_init` that keeps
      its argument's shape, as the in-place initialisers do). */
  lemma GetItemMappedWidth<T>(s: Store<T>, token: string, unkInit: seq<seq<T>> -> seq<seq<T>>, junk: T)
    requires WellFormed(s)
    requires forall m: seq<seq<T>> :: IsMatrix(m, |m|, s.dim.value) ==> IsMatrix(unkInit(m), |m|, s.dim.value)
    ensures GetItemMapped(s, token, unkInit, junk).Ok?
    ensures match GetItemMapped(s, token, unkInit, junk).value
      case Row(row) => |row| == s.dim.value
      case Block(b) => IsMatrix(b, 1, s.dim.value)
  {
    var key := Apply(s.mapFn, token);
    if key !in s.stoi {
      assert IsMatrix(Zeros(1, s.dim.value, junk), 1, s.dim.value);
    }
  }

  /** The as-written lookup misses a token whose polyglot spelling the file
      has: START spelt `<s>` is looked up as `<s>`, not `<S>`. */
  lemma GetItemMissesMappedSpecial()
    ensures
      var sp := Specials("<unk>", "<pad>", "<s>", "</s>");
      var s := Store(["<S>"], map["<S>" := 0], Some(1), Some([[7]]), true, "polyglot", PolyglotMap(sp));
      && GetItem(s, "<s>", (m: seq<seq<int>>) => m, 0) == Ok(Block([[0]]))
      && GetItemMapped(s, "<s>", (m: seq<seq<int>>) => m, 0) == Ok(Row([7]))
  {
    var sp := Specials("<unk>", "<pad>", "<s>", "</s>");
    assert "<s>"[1] != "<S>"[1];
    assert "<s>" != "<S>";
    assert ToPolyglot(sp, "<s>") == "<S>";
    var z := Zeros(1, 1, 0);
    assert z[0] == [0];
    assert z == [[0]];
  }

  /** The as-written lookup raises `KeyError` when the file spells a special
      token the vocabulary's way but not polyglot's way. */
  lemma GetItemRaisesOnRawSpecial()
    ensures
      var sp := Specials("<unk>", "<pad>", "<s>", "</s>");
      var s := Store(["<s>"], map["<s>" := 0], Some(1), Some([[7]]), true, "polyglot", PolyglotMap(sp));
      && GetItem(s, "<s>", (m: seq<seq<int>>) => m, 0) == Err(KeyError)
      && GetItemMapped(s, "<s>", (m: seq<seq<int>>) => m, 0) == Ok(Block([[0]]))
  {
    var sp := Specials("<unk>", "<pad>", "<s>", "</s>");
    assert "<s>"[1] != "<S>"[1];
    assert "<s>" != "<S>";
    assert ToPolyglot(sp, "<s>") == "<S>";
    var z := Zeros(1, 1, 0);
    assert z[0] == [0];
    assert z == [[0]];
  }

  /** A registry entry: the format and `map_fn` a `functools.partial` binds. */
  datatype Preset = Preset(format: string, mapFn: TokenMap)

  /** `AvailableEmbeddings`. */
  function AvailableEmbeddings(sp: Specials): (reg: map<string, Preset>)
    ensures reg.Keys == {"polyglot", "word2vec", "fasttext", "glove"}
    ensures forall k :: k in reg ==> reg[k].format == k && Recognised(k)
    ensures forall k :: k in reg ==> (reg[k].mapFn.PolyglotMap? <==> k == "polyglot")
    ensures forall k :: k in reg && k != "polyglot" ==> reg[k].mapFn == Identity
    ensures reg["polyglot"].mapFn == PolyglotMap(sp)
  {
    map[
      "polyglot" := Preset("polyglot", PolyglotMap(sp)),
      "word2vec" := Preset("word2vec", Identity),
      "fasttext" := Preset("fasttext", Identity),
      "glove" := Preset("glove", Identity)]
  }

  /** Loading through the registry: an unknown key is a `KeyError` of the
      registry itself; a known key builds a store of that format. */
  function Load<T>(sp: Specials, key: string, name: string, binary: bool, rd: Readers<T>): (r: Result<Store<T>>)
    ensures key !in AvailableEmbeddings(sp) ==> r == Err(KeyError)
    ensures r.Ok? ==> r.value.format == key && WidthsAgree(r.value)
    ensures r.Ok? ==> r.value.mapFn == AvailableEmbeddings(sp)[key].mapFn && r.value.binary == binary
  {
    var reg := AvailableEmbeddings(sp);
    if key !in reg then Err(KeyError)
    else Construct(name, reg[key].format, binary, reg[key].mapFn, rd)
  }

  /** Every stored row has `dim` entries. */
  predicate WidthsAgree<T>(s: Store<T>) {
    s.dim.Some? && s.vectors.Some? && IsMatrix(s.vectors.value, |s.vectors.value|, s.dim.value)
  }
}
