/**
 * `HybridLoadRetriever`: ranks freight loads against a free-form query by fusing
 * BM25 lexical scores with sentence-embedding cosine similarities.
 *
 * The retriever is a value: its fields are set once when it is built and only read
 * when it searches. The scoring libraries are parameters (`Backends`).
 */
module Retrievers {
  import opened Wrappers
  import opened PyText
  import opened PyValue
  import opened Scores

  /** A load record as the retriever sees it: its attributes by name. Search hands the same value back. */
  datatype Load = Load(attributes: map<string, Value>)

  /** `BM25Okapi(corpus).get_scores(query)`: one score per corpus document, in corpus order. */
  type Bm25 = f: (seq<seq<string>>, seq<string>) -> seq<real>
    | forall corpus, query :: |f(corpus, query)| == |corpus|
    witness (corpus: seq<seq<string>>, query: seq<string>) => seq(|corpus|, _ => 0.0)

  /**
   * The code the retriever calls but does not contain: the BM25 index, the sentence
   * encoder (`encode(..., normalize_embeddings=True)` of one text), `util.cos_sim` of
   * two embeddings, and Python's `str()` of a value that is not a string.
   */
  datatype Backends = Backends(
    bm25: Bm25,
    encode: string -> seq<real>,
    cosSim: (seq<real>, seq<real>) -> real,
    render: Value -> string)

  const DEFAULT_TEXT_FIELDS: seq<string> :=
    ["origin", "destination", "equipment_type", "commodity_type", "notes"]

  /** `text_fields or [...]`: an absent or empty field list means the five default fields. */
  function FieldsOrDefault(textFields: Option<seq<string>>): seq<string> {
    if textFields.Some? && textFields.value != [] then textFields.value else DEFAULT_TEXT_FIELDS
  }

  /** Every load carries every field that is read from it. */
  predicate HasFields(loads: seq<Load>, fields: seq<string>) {
    forall i, j :: 0 <= i < |loads| && 0 <= j < |fields| ==> fields[j] in loads[i].attributes
  }

  /** `str(getattr(load, field) or "")` */
  function FieldText(load: Load, field: string, render: Value -> string): string
    requires field in load.attributes
  {
    Text(Or(load.attributes[field], Str("")), render)
  }

  /** The texts of the fields of one load, in field order. */
  function FieldTexts(load: Load, fields: seq<string>, render: Value -> string): seq<string>
    requires forall j :: 0 <= j < |fields| ==> fields[j] in load.attributes
  {
    seq(|fields|, j requires 0 <= j < |fields| => FieldText(load, fields[j], render))
  }

  /** The document of one load: its field texts joined by single spaces. */
  function Document(load: Load, fields: seq<string>, render: Value -> string): (doc: string)
    requires forall j :: 0 <= j < |fields| ==> fields[j] in load.attributes
    ensures IsBlank(doc) <==> forall j :: 0 <= j < |fields| ==> IsBlank(FieldText(load, fields[j], render))
  {
    var texts := FieldTexts(load, fields, render);
    JoinBlank(texts);
    assert forall j :: 0 <= j < |fields| ==> texts[j] == FieldText(load, fields[j], render);
    Join(texts)
  }

  datatype HybridLoadRetriever = HybridLoadRetriever(
    loads: seq<Load>,
    textFields: seq<string>,
    tokenizedCorpus: seq<seq<string>>,
    embeddings: seq<seq<real>>,
    backends: Backends)
  {
    /**
     * One document per load, in load order: entry `i` of the lexical corpus and of the
     * embedding matrix both come from the document of load `i`.
     */
    predicate Valid() {
      && |loads| > 0
      && HasFields(loads, textFields)
      && |tokenizedCorpus| == |loads|
      && |embeddings| == |loads|
      && forall i :: 0 <= i < |loads| ==>
           && tokenizedCorpus[i] == Tokenize(Document(loads[i], textFields, backends.render))
           && embeddings[i] == backends.encode(Document(loads[i], textFields, backends.render))
    }
  }

  /**
   * `HybridLoadRetriever(loads, text_fields)`. `BM25Okapi` divides by the number of
   * documents, so an empty list of loads fails here; the model requires at least one load.
   */
  function Build(loads: seq<Load>, textFields: Option<seq<string>>, backends: Backends): (r: HybridLoadRetriever)
    requires |loads| > 0
    requires HasFields(loads, FieldsOrDefault(textFields))
    ensures r.Valid() && r.loads == loads && r.backends == backends
    ensures |r.tokenizedCorpus| == |loads| && |r.embeddings| == |loads|
    ensures textFields == None || textFields == Some([]) ==>
              r.textFields == ["origin", "destination", "equipment_type", "commodity_type", "notes"]
    ensures textFields.Some? && textFields.value != [] ==> r.textFields == textFields.value
  {
    var fields := FieldsOrDefault(textFields);
    var corpus := seq(|loads|, i requires 0 <= i < |loads| => Document(loads[i], fields, backends.render));
    HybridLoadRetriever(
      loads,
      fields,
      seq(|loads|, i requires 0 <= i < |loads| => Tokenize(corpus[i])),
      seq(|loads|, i requires 0 <= i < |loads| => backends.encode(corpus[i])),
      backends)
  }

  /**
   * The lexical corpus entry of load `i` is the tokens of its fields, field after field:
   * joining with single spaces neither merges nor splits any field's tokens.
   */
  lemma CorpusEntryIsFieldTokens(r: HybridLoadRetriever, i: nat)
    requires r.Valid() && i < |r.loads|
    ensures r.tokenizedCorpus[i] == TokenizeEach(FieldTexts(r.loads[i], r.textFields, r.backends.render))
  {
    TokenizeJoin(FieldTexts(r.loads[i], r.textFields, r.backends.render));
  }

  // ----- search -----

  /** The texts of the truthy values, in the dict's iteration order. */
  function TruthyTexts(values: seq<Value>, render: Value -> string): seq<string> {
    if values == [] then []
    else if Truthy(values[0]) then [Text(values[0], render)] + TruthyTexts(values[1..], render)
    else TruthyTexts(values[1..], render)
  }

  /** `" ".join(str(v) for v in query_dict.values() if v)`; `values` are the dict's values in order. */
  function QueryText(values: seq<Value>, render: Value -> string): (text: string)
    ensures Tokenize(text) == TokenizeEach(TruthyTexts(values, render))
  {
    TokenizeJoin(TruthyTexts(values, render));
    Join(TruthyTexts(values, render))
  }

  predicate AllBlank(texts: seq<string>) {
    forall i :: 0 <= i < |texts| ==> IsBlank(texts[i])
  }

  /** Every truthy value renders as blank text. */
  predicate TruthyValuesBlank(values: seq<Value>, render: Value -> string) {
    forall k :: 0 <= k < |values| && Truthy(values[k]) ==> IsBlank(Text(values[k], render))
  }

  /** A query text is blank exactly when every truthy value renders as blank text. */
  lemma QueryBlankIff(values: seq<Value>, render: Value -> string)
    ensures IsBlank(QueryText(values, render)) <==> TruthyValuesBlank(values, render)
  {
    TruthyTextsBlank(values, render);
    JoinBlank(TruthyTexts(values, render));
  }

  lemma {:induction false} TruthyTextsBlank(values: seq<Value>, render: Value -> string)
    ensures AllBlank(TruthyTexts(values, render)) <==> TruthyValuesBlank(values, render)
  {
    if values != [] {
      TruthyTextsBlank(values[1..], render);
      var head := Text(values[0], render);
      assert TruthyValuesBlank(values, render) <==>
             (Truthy(values[0]) ==> IsBlank(head)) && TruthyValuesBlank(values[1..], render) by {
        assert forall k :: 0 <= k < |values| - 1 ==> values[1..][k] == values[k + 1];
        assert forall k :: 1 <= k < |values| ==> values[k] == values[1..][k - 1];
      }
      if Truthy(values[0]) {
        var rest := TruthyTexts(values[1..], render);
        var all := TruthyTexts(values, render);
        assert all == [head] + rest;
        assert AllBlank(all) <==> IsBlank(head) && AllBlank(rest) by {
          assert forall i :: 1 <= i < |all| ==> all[i] == rest[i - 1];
          assert forall i :: 0 <= i < |rest| ==> rest[i] == all[i + 1];
        }
      }
    }
  }

  /** Lexical scores of the documents for a query text: `bm25.get_scores(query_text.lower().split())`. */
  function LexicalScores(r: HybridLoadRetriever, text: string): (s: seq<real>)
    requires r.Valid()
    ensures |s| == |r.loads|
  {
    r.backends.bm25(r.tokenizedCorpus, Tokenize(text))
  }

  /** Cosine similarity of the query embedding with each document embedding, in corpus order. */
  function SemanticScores(r: HybridLoadRetriever, text: string): (s: seq<real>)
    requires r.Valid()
    ensures |s| == |r.loads|
  {
    var q := r.backends.encode(text);
    seq(|r.embeddings|, i requires 0 <= i < |r.embeddings| => r.backends.cosSim(q, r.embeddings[i]))
  }

  /** The lexical scores divided by their maximum when that maximum is positive. */
  function NormalizedLexical(r: HybridLoadRetriever, text: string): (s: seq<real>)
    requires r.Valid()
    ensures |s| == |r.loads|
  {
    Normalize(LexicalScores(r, text))
  }

  /** `bm25_weight * normalised lexical + embed_weight * semantic`, one score per load. */
  function FusedScores(r: HybridLoadRetriever, text: string, bm25Weight: real, embedWeight: real): (s: seq<real>)
    requires r.Valid()
    ensures |s| == |r.loads|
  {
    Fuse(bm25Weight, NormalizedLexical(r, text), embedWeight, SemanticScores(r, text))
  }

  /**
   * The fused score of load `i` weighs the normalised lexical score of entry `i` and
   * the cosine similarity of the query embedding with the embedding of load `i`'s own
   * document.
   */
  lemma FusedScoreOfLoad(r: HybridLoadRetriever, text: string, bm25Weight: real, embedWeight: real, i: nat)
    requires r.Valid() && i < |r.loads|
    ensures var doc := Document(r.loads[i], r.textFields, r.backends.render);
            FusedScores(r, text, bm25Weight, embedWeight)[i]
            == Weighted(bm25Weight, NormalizedLexical(r, text)[i],
                        embedWeight, r.backends.cosSim(r.backends.encode(text), r.backends.encode(doc)))
  {
  }

  /**
   * With `embed_weight == 0` the fused scores are the weighted lexical scores alone;
   * with `bm25_weight == 0` they are the weighted semantic scores alone.
   */
  lemma WeightIsolation(r: HybridLoadRetriever, text: string, bm25Weight: real, embedWeight: real)
    requires r.Valid()
    ensures embedWeight == 0.0 ==>
              FusedScores(r, text, bm25Weight, embedWeight)
              == Fuse(bm25Weight, Normalize(LexicalScores(r, text)), 0.0, seq(|r.loads|, _ => 0.0))
    ensures bm25Weight == 0.0 ==>
              FusedScores(r, text, bm25Weight, embedWeight)
              == Fuse(0.0, seq(|r.loads|, _ => 0.0), embedWeight, SemanticScores(r, text))
  {
    var n := |r.loads|;
    FuseWeightIsolation(bm25Weight, Normalize(LexicalScores(r, text)), seq(n, _ => 0.0),
                        embedWeight, SemanticScores(r, text), seq(n, _ => 0.0));
  }

  /** `[(loads[i], fused[i]) for i in top]` */
  function Pairs(loads: seq<Load>, fused: seq<real>, top: seq<nat>): (res: seq<(Load, real)>)
    requires |fused| == |loads| && IndicesIn(top, |loads|)
    ensures |res| == |top| && forall j :: 0 <= j < |res| ==> res[j] == (loads[top[j]], fused[top[j]])
  {
    seq(|top|, j requires 0 <= j < |top| => (loads[top[j]], fused[top[j]]))
  }

  /**
   * `search(query_dict, top_k=5, bm25_weight=0.5, embed_weight=0.5)`: the (load, fused
   * score) pairs of the selected loads, in order.
   */
  function Search(r: HybridLoadRetriever, query: seq<Value>, topK: int := 5,
                  bm25Weight: real := 0.5, embedWeight: real := 0.5): (res: seq<(Load, real)>)
    requires r.Valid()
    ensures IsBlank(QueryText(query, r.backends.render)) ==> res == []
    ensures !IsBlank(QueryText(query, r.backends.render)) ==>
              var fused := FusedScores(r, QueryText(query, r.backends.render), bm25Weight, embedWeight);
              var sel := TopIndices(fused, topK);
              && |res| == |sel| && IndicesIn(sel, |r.loads|)
              && forall j :: 0 <= j < |res| ==> res[j] == (r.loads[sel[j]], fused[sel[j]])
  {
    var text := QueryText(query, r.backends.render);
    if Strip(text) == "" then []
    else
      var fused := FusedScores(r, text, bm25Weight, embedWeight);
      TopIndicesSelectBest(fused, topK);
      Pairs(r.loads, fused, TopIndices(fused, topK))
  }

  /**
   * An empty query dict, or one whose truthy values all render as blank text, returns
   * no results.
   */
  lemma EmptyQueryReturnsNothing(r: HybridLoadRetriever, query: seq<Value>, topK: int,
                                 bm25Weight: real, embedWeight: real)
    requires r.Valid()
    requires TruthyValuesBlank(query, r.backends.render)
    ensures Search(r, query, topK, bm25Weight, embedWeight) == []
  {
    QueryBlankIff(query, r.backends.render);
  }

  /**
   * For a query that is not blank, `search` returns `min(top_k, number of loads)` pairs
   * for `top_k >= 0`, of distinct loads, each with its own fused score, in
   * non-increasing score order, and every load left out scores no higher than any
   * load returned.
   */
  lemma SearchReturnsTopK(r: HybridLoadRetriever, query: seq<Value>, topK: int,
                          bm25Weight: real, embedWeight: real)
    requires r.Valid()
    requires !IsBlank(QueryText(query, r.backends.render))
    ensures var res := Search(r, query, topK, bm25Weight, embedWeight);
            var fused := FusedScores(r, QueryText(query, r.backends.render), bm25Weight, embedWeight);
            var sel := TopIndices(fused, topK);
            && |res| == |sel| && IndicesIn(sel, |r.loads|) && Distinct(sel)
            && (forall j :: 0 <= j < |res| ==> res[j] == (r.loads[sel[j]], fused[sel[j]]))
            && (0 <= topK ==> |res| == if topK < |r.loads| then topK else |r.loads|)
            && (forall a, b :: 0 <= a < b < |res| ==> res[a].1 >= res[b].1)
            && (forall i, j :: 0 <= i < |r.loads| && i !in sel && 0 <= j < |res| ==> fused[i] <= res[j].1)
  {
    var text := QueryText(query, r.backends.render);
    TopIndicesSelectBest(FusedScores(r, text, bm25Weight, embedWeight), topK);
  }
}
