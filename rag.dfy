/** The retrieval-augmented answering engine: `RAGEngine.retrieve` and
    `RAGEngine.answer_query`. The embedding model, the similarity score and
    the chat model are parameters. */
module RagEngine {
  import opened Values
  import opened Sorting

  /** Default `top_k` of `retrieve`. */
  const DefaultTopK := 5

  /** One entry of `scored_candidates`: the score, the candidate's position
      among the fetched candidates, and the document. */
  datatype Scored = Scored(score: real, pos: nat, doc: Record)

  /** The sort key of `scored_candidates.sort(key=lambda x: x[0], reverse=True)`. */
  predicate ByScore(a: Scored, b: Scored)
  {
    a.score >= b.score
  }

  function Pos(e: Scored): int
  {
    e.pos
  }

  /** The date filter is applied only when it is truthy (a non-empty string). */
  predicate FilterActive(dateFilter: Option<string>)
  {
    dateFilter.Some? && dateFilter.value != ""
  }

  /** `published` matches the filter: `$regex` only matches string fields;
      the pattern is taken literally. */
  predicate PublishedMatches(d: Record, pattern: string)
  {
    "published" in d && d["published"].Str? && Contains(d["published"].s, pattern)
  }

  /** What the MongoDB query built in `retrieve` selects. */
  predicate Eligible(d: Record, dateFilter: Option<string>)
  {
    HasEmbedding(d) && (FilterActive(dateFilter) ==> PublishedMatches(d, dateFilter.value))
  }

  /** `list(collection.find(mongo_query))`: the eligible documents in the
      collection's natural order. */
  function Candidates(docs: seq<Record>, dateFilter: Option<string>): seq<Record>
  {
    if docs == [] then []
    else (if Eligible(docs[0], dateFilter) then [docs[0]] else []) + Candidates(docs[1..], dateFilter)
  }

  /** The candidates are exactly the eligible stored documents; each has an
      `embedding`, and there are no more of them than stored documents. */
  lemma {:induction false} CandidatesSpec(docs: seq<Record>, dateFilter: Option<string>)
    ensures forall d :: d in Candidates(docs, dateFilter) <==> d in docs && Eligible(d, dateFilter)
    ensures forall i :: 0 <= i < |Candidates(docs, dateFilter)| ==> "embedding" in Candidates(docs, dateFilter)[i]
    ensures |Candidates(docs, dateFilter)| <= |docs|
  {
    if docs != [] {
      assert docs == [docs[0]] + docs[1..];
      CandidatesSpec(docs[1..], dateFilter);
      var c := Candidates(docs, dateFilter);
      forall i | 0 <= i < |c| ensures "embedding" in c[i] {
        assert c[i] in c;
      }
    }
  }

  /** Fetching distributes over concatenation: the candidates are the
      eligible documents in the order they are stored. */
  lemma {:induction false} CandidatesConcat(a: seq<Record>, b: seq<Record>, dateFilter: Option<string>)
    ensures Candidates(a + b, dateFilter) == Candidates(a, dateFilter) + Candidates(b, dateFilter)
  {
    if a != [] {
      assert (a + b)[0] == a[0] && (a + b)[1..] == a[1..] + b;
      CandidatesConcat(a[1..], b, dateFilter);
    } else {
      assert a + b == b;
    }
  }

  lemma CandidatesSingle(d: Record, dateFilter: Option<string>)
    ensures Candidates([d], dateFilter) == if Eligible(d, dateFilter) then [d] else []
  {
    assert [d][1..] == [];
  }

  /** The scoring loop: every candidate whose score is computed (the oracle
      returns `Some`) is appended with its position; one whose scoring
      raises is skipped. */
  function ScoreAll(q: seq<real>, cands: seq<Record>, score: (seq<real>, Value) -> Option<real>): (r: seq<Scored>)
    requires forall i :: 0 <= i < |cands| ==> "embedding" in cands[i]
    ensures |r| <= |cands|
  {
    if cands == [] then []
    else
      var n := |cands| - 1;
      var init := ScoreAll(q, cands[..n], score);
      match score(q, cands[n]["embedding"])
      case None => init
      case Some(s) => init + [Scored(s, n, cands[n])]
  }

  /** The scored list holds exactly the candidates whose score is computed,
      each with its own position and score, in fetch order. */
  lemma {:induction false} ScoreAllExact(q: seq<real>, cands: seq<Record>, score: (seq<real>, Value) -> Option<real>)
    requires forall i :: 0 <= i < |cands| ==> "embedding" in cands[i]
    ensures forall i, j :: 0 <= i < j < |ScoreAll(q, cands, score)| ==>
      ScoreAll(q, cands, score)[i].pos < ScoreAll(q, cands, score)[j].pos
    ensures forall e :: e in ScoreAll(q, cands, score) ==>
      e.pos < |cands| && e.doc == cands[e.pos] && score(q, cands[e.pos]["embedding"]) == Some(e.score)
    ensures forall p :: 0 <= p < |cands| && score(q, cands[p]["embedding"]).Some? ==>
      Scored(score(q, cands[p]["embedding"]).value, p, cands[p]) in ScoreAll(q, cands, score)
  {
    if cands != [] {
      var n := |cands| - 1;
      var init := ScoreAll(q, cands[..n], score);
      ScoreAllExact(q, cands[..n], score);
      var r := ScoreAll(q, cands, score);
      forall e | e in init
        ensures e.pos < n && e.doc == cands[e.pos] && score(q, cands[e.pos]["embedding"]) == Some(e.score)
      {
        assert cands[..n][e.pos] == cands[e.pos];
      }
      forall p | 0 <= p < n && score(q, cands[p]["embedding"]).Some?
        ensures Scored(score(q, cands[p]["embedding"]).value, p, cands[p]) in init
      {
        assert cands[..n][p] == cands[p];
      }
      match score(q, cands[n]["embedding"])
      case None =>
        assert r == init;
      case Some(s) =>
        assert r == init + [Scored(s, n, cands[n])];
        forall i, j | 0 <= i < j < |r| ensures r[i].pos < r[j].pos {
          assert r[i] == init[i] && init[i] in init;
          if j < |init| {
            assert r[j] == init[j];
          }
        }
    }
  }

  /** One more iteration of the scoring loop appends at most one entry. */
  lemma ScoreAllStep(q: seq<real>, cands: seq<Record>, score: (seq<real>, Value) -> Option<real>, i: nat)
    requires i < |cands|
    requires forall k :: 0 <= k < |cands| ==> "embedding" in cands[k]
    ensures ScoreAll(q, cands[..i + 1], score) ==
      match score(q, cands[i]["embedding"])
      case None => ScoreAll(q, cands[..i], score)
      case Some(s) => ScoreAll(q, cands[..i], score) + [Scored(s, i, cands[i])]
  {
    assert cands[..i + 1][..i] == cands[..i];
  }

  /** `scored_candidates` after the in-place stable descending sort. */
  function Ranking(q: seq<real>, cands: seq<Record>, score: (seq<real>, Value) -> Option<real>): seq<Scored>
    requires forall i :: 0 <= i < |cands| ==> "embedding" in cands[i]
  {
    SortDesc(ScoreAll(q, cands, score), ByScore)
  }

  function DocsOf(s: seq<Scored>): (r: seq<Record>)
    ensures |r| == |s| && forall i :: 0 <= i < |s| ==> r[i] == s[i].doc
  {
    seq(|s|, i requires 0 <= i < |s| => s[i].doc)
  }

  /** What `retrieve(query, top_k, date_filter)` returns. A failing or empty
      query embedding gives `[]`. */
  function Retrieved(docs: seq<Record>, query: string, topK: int, dateFilter: Option<string>,
                     embed: Value -> Option<seq<real>>, score: (seq<real>, Value) -> Option<real>): (r: seq<Record>)
    ensures embed(Str(query)).None? || embed(Str(query)) == Some([]) ==> r == []
    ensures topK >= 0 ==> |r| <= topK
    ensures forall d :: d in r ==> d in docs && Eligible(d, dateFilter)
  {
    match embed(Str(query))
    case None => []
    case Some(q) =>
      if q == [] then []
      else
        var cands := Candidates(docs, dateFilter);
        CandidatesSpec(docs, dateFilter);
        var top := Take(Ranking(q, cands, score), topK);
        var r := DocsOf(top);
        RankingFromCandidates(q, cands, score);
        assert forall d :: d in r ==> d in cands by {
          forall d | d in r ensures d in cands {
            var i :| 0 <= i < |r| && r[i] == d;
            assert top[i] in Ranking(q, cands, score);
          }
        }
        r
  }

  /** Every ranked entry is a fetched candidate. */
  lemma RankingFromCandidates(q: seq<real>, cands: seq<Record>, score: (seq<real>, Value) -> Option<real>)
    requires forall i :: 0 <= i < |cands| ==> "embedding" in cands[i]
    ensures forall e :: e in Ranking(q, cands, score) ==> e.doc in cands
  {
    ScoreAllExact(q, cands, score);
    forall e | e in Ranking(q, cands, score) ensures e.doc in cands {
      assert e in multiset(ScoreAll(q, cands, score));
    }
  }

  /** The scoring loop of `retrieve`: score each candidate in fetch order,
      skipping those whose scoring raises. */
  method ScoreCandidates(q: seq<real>, cands: seq<Record>, score: (seq<real>, Value) -> Option<real>)
    returns (scored: seq<Scored>)
    requires forall i :: 0 <= i < |cands| ==> "embedding" in cands[i]
    ensures scored == ScoreAll(q, cands, score)
  {
    scored := [];
    var i := 0;
    while i < |cands|
      invariant 0 <= i <= |cands|
      invariant scored == ScoreAll(q, cands[..i], score)
    {
      ScoreAllStep(q, cands, score, i);
      var s := score(q, cands[i]["embedding"]);
      if s.Some? {
        scored := scored + [Scored(s.value, i, cands[i])];
      }
      i := i + 1;
    }
    assert cands[..|cands|] == cands;
  }

  /** `RAGEngine.retrieve`: fetch the eligible documents, score them, sort
      by score descending (stably) and keep the first `top_k`. */
  method Retrieve(docs: seq<Record>, query: string, topK: int, dateFilter: Option<string>,
                  embed: Value -> Option<seq<real>>, score: (seq<real>, Value) -> Option<real>)
    returns (r: seq<Record>)
    ensures r == Retrieved(docs, query, topK, dateFilter, embed, score)
    ensures embed(Str(query)).None? || embed(Str(query)) == Some([]) ==> r == []
    ensures topK >= 0 ==> |r| <= topK
    ensures forall d :: d in r ==> d in docs && Eligible(d, dateFilter)
  {
    var queryEmbedding := embed(Str(query));
    if queryEmbedding.None? || queryEmbedding.value == [] {
      return [];
    }
    var q := queryEmbedding.value;
    var cands := Candidates(docs, dateFilter);
    CandidatesSpec(docs, dateFilter);
    var scored := ScoreCandidates(q, cands, score);
    var ranked := SortDesc(scored, ByScore);
    r := DocsOf(Take(ranked, topK));
  }

  lemma ByScoreTotalPreorder()
    ensures TotalPreorder(ByScore)
  {
  }

  /** The ranking is the scored candidates, in non-increasing score order,
      with equal scores in the order the candidates were fetched. */
  lemma {:induction false} RankingOrdered(q: seq<real>, cands: seq<Record>, score: (seq<real>, Value) -> Option<real>)
    requires forall i :: 0 <= i < |cands| ==> "embedding" in cands[i]
    ensures multiset(Ranking(q, cands, score)) == multiset(ScoreAll(q, cands, score))
    ensures forall i, j :: 0 <= i < j < |Ranking(q, cands, score)| ==>
      Ranking(q, cands, score)[i].score >= Ranking(q, cands, score)[j].score
    ensures forall i, j ::
      (0 <= i < j < |Ranking(q, cands, score)| &&
       Ranking(q, cands, score)[i].score == Ranking(q, cands, score)[j].score) ==>
      Ranking(q, cands, score)[i].pos < Ranking(q, cands, score)[j].pos
  {
    var scored := ScoreAll(q, cands, score);
    ScoreAllExact(q, cands, score);
    ByScoreTotalPreorder();
    SortDescSorted(scored, ByScore);
    SortDescStable(scored, ByScore, Pos);
  }

  /** Top-k: a scored candidate that is cut off by the slice scores no
      higher than any returned one. */
  lemma {:induction false} RetrievedDominates(q: seq<real>, cands: seq<Record>, score: (seq<real>, Value) -> Option<real>, topK: int)
    requires forall i :: 0 <= i < |cands| ==> "embedding" in cands[i]
    ensures var rk := Ranking(q, cands, score);
      forall i, j :: 0 <= i < |Take(rk, topK)| <= j < |rk| ==> rk[i].score >= rk[j].score
  {
    RankingOrdered(q, cands, score);
  }

  // ---------------------------------------------------------------------
  // answer_query

  predicate IsDigit(c: char)
  {
    '0' <= c <= '9'
  }

  /** The regex `\d{4}-\d{2}-\d{2}` matches all of `w`. */
  predicate DateShaped(w: string)
  {
    && |w| == 10
    && IsDigit(w[0]) && IsDigit(w[1]) && IsDigit(w[2]) && IsDigit(w[3])
    && w[4] == '-'
    && IsDigit(w[5]) && IsDigit(w[6])
    && w[7] == '-'
    && IsDigit(w[8]) && IsDigit(w[9])
  }

  /** A date token starts at index `i` of `q`. */
  predicate DateAt(q: string, i: int)
  {
    0 <= i <= |q| - 10 && DateShaped(q[i..i + 10])
  }

  /** `re.search` scanning from index `from`: the leftmost match. */
  function FindDateFrom(q: string, from: nat): (r: Option<nat>)
    decreases |q| - from
    ensures r.Some? ==> from <= r.value && DateAt(q, r.value)
                        && forall j :: from <= j < r.value ==> !DateAt(q, j)
    ensures r.None? ==> forall j :: from <= j ==> !DateAt(q, j)
  {
    if from + 10 > |q| then None
    else if DateShaped(q[from..from + 10]) then Some(from)
    else FindDateFrom(q, from + 1)
  }

  /** `date_filter` of `answer_query`: the leftmost `DDDD-DD-DD` substring of
      the query, or `None`. */
  function DateToken(q: string): (t: Option<string>)
    ensures t.None? <==> forall j :: !DateAt(q, j)
    ensures t.Some? ==>
      (DateShaped(t.value) &&
       exists i :: DateAt(q, i) && q[i..i + 10] == t.value && forall j :: 0 <= j < i ==> !DateAt(q, j))
  {
    match FindDateFrom(q, 0)
    case None => None
    case Some(i) => Some(q[i..i + 10])
  }

  const NoResultMessage := "No relevant news found to answer your query."

  const NoDatePrefix := "No news found specifically for the date "

  const NoDateSuffix := " matching your query."

  function NoDateMessage(date: string): string
  {
    NoDatePrefix + date + NoDateSuffix
  }

  /** `str(v)` inside the f-string; Python's float formatting is `showNum`. */
  function Render(v: Value, showNum: real -> string): string
  {
    match v
    case Null => "None"
    case Bool(b) => if b then "True" else "False"
    case Num(x) => showNum(x)
    case Str(s) => s
    case Vec(xs) => "[" + JoinNums(xs, showNum) + "]"
  }

  function JoinNums(xs: seq<real>, showNum: real -> string): string
  {
    if xs == [] then ""
    else if |xs| == 1 then showNum(xs[0])
    else showNum(xs[0]) + ", " + JoinNums(xs[1..], showNum)
  }

  /** The context block of one document. */
  function Block(d: Record, showNum: real -> string): string
  {
    "Source: " + Render(Get(d, "title", Null), showNum)
    + "\nDate: " + Render(Get(d, "published", Null), showNum)
    + "\nSummary: " + Render(Get(d, "llm_summary", Null), showNum)
  }

  /** `"\n\n".join(blocks)` over the retrieved documents. */
  function Context(docs: seq<Record>, showNum: real -> string): string
  {
    if docs == [] then ""
    else if |docs| == 1 then Block(docs[0], showNum)
    else Block(docs[0], showNum) + "\n\n" + Context(docs[1..], showNum)
  }

  /** The context is a join: the context of a concatenation is the two
      contexts separated by one blank line, so there is one block per
      document, in order. */
  lemma {:induction false} ContextConcat(a: seq<Record>, b: seq<Record>, showNum: real -> string)
    requires a != [] && b != []
    ensures Context(a + b, showNum) == Context(a, showNum) + "\n\n" + Context(b, showNum)
  {
    var sep := "\n\n";
    var head := Block(a[0], showNum);
    assert (a + b)[0] == a[0];
    if |a| == 1 {
      assert (a + b)[1..] == b;
    } else {
      assert (a + b)[1..] == a[1..] + b;
      ContextConcat(a[1..], b, showNum);
      var x, y := Context(a[1..], showNum), Context(b, showNum);
      assert Context(a + b, showNum) == head + sep + (x + sep + y);
      assert head + sep + (x + sep + y) == (head + sep + x) + sep + y;
    }
  }

  /** What `answer_query` returns. `complete(context, query)` is the chat
      call on the prompt built from the context and the question; `Err(e)`
      is an exception rendered as `e`. */
  function AnswerQuery(query: string, docs: seq<Record>, embed: Value -> Option<seq<real>>,
                       score: (seq<real>, Value) -> Option<real>,
                       complete: (string, string) -> Result<string, string>,
                       showNum: real -> string): (r: string)
    ensures var t := DateToken(query);
      Retrieved(docs, query, DefaultTopK, t, embed, score) == [] ==>
        (t.Some? ==> r == NoDateMessage(t.value)) && (t.None? ==> r == NoResultMessage)
    ensures var found := Retrieved(docs, query, DefaultTopK, DateToken(query), embed, score);
      found != [] ==>
        match complete(Context(found, showNum), query)
        case Ok(text) => r == text
        case Err(e) => r == "Error: " + e
    ensures Retrieved(docs, query, DefaultTopK, DateToken(query), embed, score) == [] ==>
      DateToken(r) == DateToken(query)
  {
    var dateFilter := DateToken(query);
    var contextDocs := Retrieved(docs, query, DefaultTopK, dateFilter, embed, score);
    if contextDocs == [] then
      if dateFilter.Some? then
        NoDateMessageNamesDate(dateFilter.value);
        NoDateMessage(dateFilter.value)
      else
        NoResultMessageHasNoDate();
        NoResultMessage
    else
      match complete(Context(contextDocs, showNum), query)
      case Ok(text) => text
      case Err(e) => "Error: " + e
  }

  lemma NoDigitsInPrefix()
    ensures forall j :: 0 <= j < |NoDatePrefix| ==> !IsDigit(NoDatePrefix[j])
  {
  }

  lemma NoDigitsInNoResult()
    ensures forall j :: 0 <= j < |NoResultMessage| ==> !IsDigit(NoResultMessage[j])
  {
  }

  /** The dated "no result" message names exactly the date it was given:
      scanning it for a date token finds that date. */
  lemma NoDateMessageNamesDate(date: string)
    requires DateShaped(date)
    ensures DateToken(NoDateMessage(date)) == Some(date)
  {
    var m := NoDateMessage(date);
    var p := |NoDatePrefix|;
    assert m[p..p + 10] == date;
    assert DateAt(m, p);
    NoDigitsInPrefix();
    forall j | 0 <= j < p ensures !DateAt(m, j) {
      assert m[j..j + 10][0] == m[j] == NoDatePrefix[j];
    }
    var r := FindDateFrom(m, 0);
    assert r.Some?;
    assert r.value == p;
  }

  /** The undated "no result" message contains no date token. */
  lemma NoResultMessageHasNoDate()
    ensures DateToken(NoResultMessage) == None
  {
    var m := NoResultMessage;
    NoDigitsInNoResult();
    forall j | 0 <= j <= |m| - 10 ensures !DateAt(m, j) {
      assert m[j..j + 10][0] == m[j];
    }
  }
}
