/** `ArticleProcessor.process_article` and `process_batch`: choose and cut the
    text, ask the chat model for summary, category and sentiment, embed the
    text, and fall back to sentinel values on failure.

    `llm(text)` is the chat call on the prompt built from `text` followed by
    `json.loads`: `Some(fields)` when it yields a JSON object, `None` when the
    call or the parse raises or the JSON is not an object (then `.get`
    raises). `embed(text)` is `get_embedding`: `None` when it raises. */
module Enrichment {
  import opened Values

  /** `text[:6000]` */
  const MaxTextLength := 6000

  const FailedSummary := "Processing Failed"
  const Unclassified := "Unclassified"
  const NeutralSentiment := "Neutral"
  const DefaultSummary := "Error generating summary"

  /** `CATEGORIES` of the configuration; the prompt lists them, nothing
      checks the answer against them. */
  const Categories := ["Political", "Author Opinion", "Threatful", "Entertainment"]

  /** The keys an enrichment pass may write. */
  const EnrichmentKeys := {"llm_summary", "category", "sentiment", "embedding", "processed_at"}

  /** `article.get('full_text', '') or article.get('summary_rss', '')` */
  function SourceText(a: Record): (v: Value)
    ensures "full_text" in a && Truthy(a["full_text"]) ==> v == a["full_text"]
    ensures !("full_text" in a && Truthy(a["full_text"])) ==> v == Get(a, "summary_rss", Str(""))
  {
    Or(Get(a, "full_text", Str("")), Get(a, "summary_rss", Str("")))
  }

  /** `t` is `src` cut to its first `n` characters (or list elements). */
  predicate CutTo(t: Value, src: Value, n: nat)
  {
    || (src.Str? && t.Str? && |t.s| == (if |src.s| < n then |src.s| else n) && t.s == src.s[..|t.s|])
    || (src.Vec? && t.Vec? && |t.xs| == (if |src.xs| < n then |src.xs| else n) && t.xs == src.xs[..|t.xs|])
  }

  /** The analysed text (lines before the `try`): `None` when slicing
      raises `TypeError`, which escapes `process_article`. */
  function AnalysedText(a: Record): (t: Option<Value>)
    ensures t.Some? <==> SourceText(a).Str? || SourceText(a).Vec?
    ensures t.Some? ==> CutTo(t.value, SourceText(a), MaxTextLength)
  {
    SliceTo(SourceText(a), MaxTextLength)
  }

  /** `x[:30]` does not raise. */
  predicate Sliceable(v: Value)
  {
    v.Str? || v.Vec?
  }

  /** The `try` gets past the logging of the title and the chat call, so
      the three fields are written and the embedding is computed. */
  predicate ReachesEmbedding(a: Record, llm: Value -> Option<Record>)
  {
    AnalysedText(a).Some? && Sliceable(Get(a, "title", Null)) && llm(AnalysedText(a).value).Some?
  }

  function Sentinels(a: Record): Record
  {
    a["llm_summary" := Str(FailedSummary)]["category" := Str(Unclassified)]["sentiment" := Str(NeutralSentiment)]
  }

  /** The three fields written from a parsed answer, with their defaults. */
  function WithParsed(a: Record, parsed: Record): Record
  {
    a["llm_summary" := Get(parsed, "summary", Str(DefaultSummary))]
     ["category" := Get(parsed, "category", Str(Unclassified))]
     ["sentiment" := Get(parsed, "sentiment", Str(NeutralSentiment))]
  }

  /** The embedding field: the vector, or `[]` when `get_embedding` raised. */
  function EmbeddingField(e: Option<seq<real>>): Value
  {
    if e.Some? then Vec(e.value) else Vec([])
  }

  /** What `process_article` returns, as the code is written. Every path
      that gets into the `try` ends in its `except`: the chat call or the
      title can fail, and otherwise `pd.Timestamp` raises `NameError`
      because `pd` is bound only inside `process_batch`. */
  function Enriched(a: Record, llm: Value -> Option<Record>, embed: Value -> Option<seq<real>>): (r: Option<Record>)
    ensures r.None? <==> AnalysedText(a).None?
    ensures r.Some? ==>
      && FieldIs(r.value, "llm_summary", Str(FailedSummary))
      && FieldIs(r.value, "category", Str(Unclassified))
      && FieldIs(r.value, "sentiment", Str(NeutralSentiment))
    ensures r.Some? ==> forall k :: k !in EnrichmentKeys ==>
      (k in r.value <==> k in a) && (k in a ==> r.value[k] == a[k])
    ensures r.Some? ==>
      ("processed_at" in r.value <==> "processed_at" in a) &&
      ("processed_at" in a ==> r.value["processed_at"] == a["processed_at"])
    ensures r.Some? && ReachesEmbedding(a, llm) ==>
      FieldIs(r.value, "embedding", EmbeddingField(embed(AnalysedText(a).value)))
    ensures r.Some? && !ReachesEmbedding(a, llm) ==>
      ("embedding" in r.value <==> "embedding" in a) && ("embedding" in a ==> r.value["embedding"] == a["embedding"])
  {
    match AnalysedText(a)
    case None => None
    case Some(text) =>
      if ReachesEmbedding(a, llm) then Some(Sentinels(a["embedding" := EmbeddingField(embed(text))]))
      else Some(Sentinels(a))
  }

  /** `process_article` as written, step by step: the dict is updated in
      place and the `except` overwrites the fields the `try` already wrote. */
  method ProcessArticle(article: Record, llm: Value -> Option<Record>, embed: Value -> Option<seq<real>>)
    returns (r: Option<Record>)
    ensures r == Enriched(article, llm, embed)
  {
    var a := article;
    var text := SliceTo(SourceText(a), MaxTextLength);
    if text.None? {
      return None;
    }
    var raised := false;
    if !Sliceable(Get(a, "title", Null)) {
      raised := true;
    } else {
      var parsed := llm(text.value);
      if parsed.None? {
        raised := true;
      } else {
        a := WithParsed(a, parsed.value);
        var e := embed(text.value);
        a := a["embedding" := EmbeddingField(e)];
        // `pd.Timestamp.now()`: the name `pd` is unbound here (NameError).
        raised := true;
        assert Sentinels(a) == Sentinels(article["embedding" := EmbeddingField(e)]);
      }
    }
    if raised {
      a := Sentinels(a);
    }
    r := Some(a);
  }

  /** The evidently intended `process_article`, with the timestamp
      `processed_at := now` written and the parsed fields kept. */
  function EnrichedIntended(a: Record, llm: Value -> Option<Record>, embed: Value -> Option<seq<real>>, now: string)
    : (r: Option<Record>)
    ensures r.None? <==> AnalysedText(a).None?
    ensures r.Some? && ReachesEmbedding(a, llm) ==>
      var parsed := llm(AnalysedText(a).value).value;
      && FieldIs(r.value, "llm_summary", Get(parsed, "summary", Str(DefaultSummary)))
      && FieldIs(r.value, "category", Get(parsed, "category", Str(Unclassified)))
      && FieldIs(r.value, "sentiment", Get(parsed, "sentiment", Str(NeutralSentiment)))
      && FieldIs(r.value, "embedding", EmbeddingField(embed(AnalysedText(a).value)))
      && FieldIs(r.value, "processed_at", Str(now))
    ensures r.Some? && !ReachesEmbedding(a, llm) ==> r == Enriched(a, llm, embed)
    ensures r.Some? ==> forall k :: k !in EnrichmentKeys ==>
      (k in r.value <==> k in a) && (k in a ==> r.value[k] == a[k])
  {
    match AnalysedText(a)
    case None => None
    case Some(text) =>
      if ReachesEmbedding(a, llm) then
        Some(WithParsed(a, llm(text).value)["embedding" := EmbeddingField(embed(text))]["processed_at" := Str(now)])
      else Enriched(a, llm, embed)
  }

  /** The finding, on one input: an article with a title and a summary and
      a chat answer that parses. As written, the parsed summary is replaced
      by the sentinel and no timestamp is written; the intended version
      keeps both. */
  lemma ParsedAnswerDiscarded()
    ensures var a := map["title" := Str("India wins cricket series"), "summary_rss" := Str("Report")];
      var llm := (t: Value) => Some(map["summary" := Str("India won."), "category" := Str("Entertainment"),
                                          "sentiment" := Str("Positive")]);
      var embed := (t: Value) => Some([1.0]);
      && Enriched(a, llm, embed).Some?
      && FieldIs(Enriched(a, llm, embed).value, "llm_summary", Str(FailedSummary))
      && "processed_at" !in Enriched(a, llm, embed).value
      && EnrichedIntended(a, llm, embed, "2026-01-01T00:00:00").Some?
      && FieldIs(EnrichedIntended(a, llm, embed, "2026-01-01T00:00:00").value, "llm_summary", Str("India won."))
      && FieldIs(EnrichedIntended(a, llm, embed, "2026-01-01T00:00:00").value, "processed_at", Str("2026-01-01T00:00:00"))
  {
    var a := map["title" := Str("India wins cricket series"), "summary_rss" := Str("Report")];
    var llm := (t: Value) => Some(map["summary" := Str("India won."), "category" := Str("Entertainment"),
                                        "sentiment" := Str("Positive")]);
    var embed := (t: Value) => Some([1.0]);
    assert SourceText(a) == Str("Report");
    assert AnalysedText(a) == Some(Str("Report"));
    assert ReachesEmbedding(a, llm);
  }

  /** `process_batch`: process every article in order and collect the
      results. The `TypeError` of one article escapes and aborts the whole
      batch (nothing is written). */
  method ProcessBatch(articles: seq<Record>, llm: Value -> Option<Record>, embed: Value -> Option<seq<real>>)
    returns (out: Option<seq<Record>>)
    ensures out.Some? <==> forall i :: 0 <= i < |articles| ==> AnalysedText(articles[i]).Some?
    ensures out.Some? ==>
      |out.value| == |articles| &&
      forall i :: 0 <= i < |articles| ==> Some(out.value[i]) == Enriched(articles[i], llm, embed)
    ensures out.Some? ==> forall i :: 0 <= i < |out.value| ==> FieldIs(out.value[i], "category", Str(Unclassified))
  {
    var processed: seq<Record> := [];
    var i := 0;
    while i < |articles|
      invariant 0 <= i <= |articles|
      invariant |processed| == i
      invariant forall k :: 0 <= k < i ==> Some(processed[k]) == Enriched(articles[k], llm, embed)
    {
      var p := ProcessArticle(articles[i], llm, embed);
      if p.None? {
        return None;
      }
      processed := processed + [p.value];
      i := i + 1;
    }
    out := Some(processed);
  }
}
