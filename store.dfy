/** `MongoStore`: the article collection with its unique index on `link`,
    `store_articles` (upsert by link with `$set`), `get_recent_articles` and
    `get_stats`. */
module CorpusStore {
  import opened Values
  import opened Sorting

  /** The collection's contents: documents by link, and the links in the
      collection's natural order (the order of first insertion). */
  datatype Corpus = Corpus(docs: map<Value, Record>, order: seq<Value>)

  /** The unique index: every document is stored under its own `link`,
      and the natural order lists each stored link exactly once. */
  ghost predicate Valid(c: Corpus)
  {
    && (forall i, j :: 0 <= i < j < |c.order| ==> c.order[i] != c.order[j])
    && (forall k :: k in c.docs <==> k in c.order)
    && (forall k :: k in c.docs ==> FieldIs(c.docs[k], "link", k))
  }

  /** `collection.find()`: all documents in natural order. */
  function Docs(c: Corpus): (s: seq<Record>)
    requires forall k :: k in c.order ==> k in c.docs
    ensures |s| == |c.order| && forall i :: 0 <= i < |s| ==> s[i] == c.docs[c.order[i]]
  {
    seq(|c.order|, i requires 0 <= i < |c.order| && c.order[i] in c.docs => c.docs[c.order[i]])
  }

  /** No two documents of a valid collection share a `link`. */
  lemma DocsUniqueLinks(c: Corpus)
    requires Valid(c)
    ensures forall i, j :: 0 <= i < j < |Docs(c)| ==>
      "link" in Docs(c)[i] && "link" in Docs(c)[j] && Docs(c)[i]["link"] != Docs(c)[j]["link"]
  {
    var s := Docs(c);
    forall i, j | 0 <= i < j < |s|
      ensures "link" in s[i] && "link" in s[j] && s[i]["link"] != s[j]["link"]
    {
      assert s[i] == c.docs[c.order[i]] && s[j] == c.docs[c.order[j]];
      assert c.order[i] in c.order && c.order[j] in c.order;
      assert FieldIs(c.docs[c.order[i]], "link", c.order[i]);
      assert FieldIs(c.docs[c.order[j]], "link", c.order[j]);
      assert c.order[i] != c.order[j];
    }
  }

  /** `update_one({"link": a["link"]}, {"$set": a}, upsert=True)`: merge the
      article's fields into the document with that link, or insert it. */
  function Upsert(c: Corpus, a: Record): (r: Corpus)
    requires "link" in a
    ensures a["link"] in r.docs && r.docs.Keys == c.docs.Keys + {a["link"]}
    ensures forall f :: f in a ==> FieldIs(r.docs[a["link"]], f, a[f])
    ensures a["link"] in c.docs ==>
      && r.docs[a["link"]].Keys == c.docs[a["link"]].Keys + a.Keys
      && (forall f :: f in c.docs[a["link"]] && f !in a ==> FieldIs(r.docs[a["link"]], f, c.docs[a["link"]][f]))
      && r.order == c.order
    ensures a["link"] !in c.docs ==> r.docs[a["link"]] == a && r.order == c.order + [a["link"]]
    ensures forall k :: k in c.docs && k != a["link"] ==> r.docs[k] == c.docs[k]
    ensures Valid(c) ==> Valid(r)
  {
    var link := a["link"];
    if link in c.docs then
      Corpus(c.docs[link := c.docs[link] + a], c.order)
    else
      assert map["link" := link] + a == a;
      Corpus(c.docs[link := map["link" := link] + a], c.order + [link])
  }

  /** Upserting the same article twice is upserting it once. */
  lemma UpsertIdempotent(c: Corpus, a: Record)
    requires "link" in a
    ensures Upsert(Upsert(c, a), a) == Upsert(c, a)
  {
    var once := Upsert(c, a);
    var link := a["link"];
    assert once.docs[link] + a == once.docs[link];
    assert once.docs[link := once.docs[link] + a] == once.docs;
  }

  /** The number of articles that carry a `link` (the others raise
      `KeyError` and are skipped). */
  function Linked(articles: seq<Record>): (n: nat)
    ensures n <= |articles|
  {
    if articles == [] then 0
    else Linked(articles[..|articles| - 1]) + (if "link" in articles[|articles| - 1] then 1 else 0)
  }

  /** The collection after the `store_articles` loop over `articles`. */
  function StoreAll(c: Corpus, articles: seq<Record>): (r: Corpus)
    ensures r.docs.Keys == c.docs.Keys + (set a | a in articles && "link" in a :: a["link"])
    ensures forall k :: k in c.docs && (forall a :: a in articles && "link" in a ==> a["link"] != k) ==>
      r.docs[k] == c.docs[k]
    ensures Valid(c) ==> Valid(r)
  {
    if articles == [] then c
    else
      var n := |articles| - 1;
      var init := StoreAll(c, articles[..n]);
      assert articles == articles[..n] + [articles[n]];
      if "link" in articles[n] then Upsert(init, articles[n]) else init
  }

  /** Later articles win field by field: the stored value of a field is
      the one of the last article with that link that carries the field. */
  lemma {:induction false} StoreAllLastWins(c: Corpus, articles: seq<Record>, i: nat, f: string)
    requires i < |articles| && "link" in articles[i] && f in articles[i]
    requires forall j :: i < j < |articles| && "link" in articles[j] && articles[j]["link"] == articles[i]["link"] ==>
      f !in articles[j]
    ensures articles[i]["link"] in StoreAll(c, articles).docs
    ensures FieldIs(StoreAll(c, articles).docs[articles[i]["link"]], f, articles[i][f])
  {
    var n := |articles| - 1;
    var prefix := articles[..n];
    var link := articles[i]["link"];
    var before := StoreAll(c, prefix);
    assert articles == prefix + [articles[n]];
    if i < n {
      assert prefix[i] == articles[i];
      forall j | i < j < |prefix| && "link" in prefix[j] && prefix[j]["link"] == link
        ensures f !in prefix[j]
      {
        assert prefix[j] == articles[j];
      }
      StoreAllLastWins(c, prefix, i, f);
      assert FieldIs(before.docs[link], f, articles[i][f]);
      if "link" in articles[n] {
        assert StoreAll(c, articles) == Upsert(before, articles[n]);
        if articles[n]["link"] == link {
          assert f !in articles[n];
        }
      } else {
        assert StoreAll(c, articles) == before;
      }
    } else {
      assert StoreAll(c, articles) == Upsert(before, articles[n]);
    }
  }

  /** The `MongoDB` collection, updated in place. */
  class Collection {
    var docs: map<Value, Record>
    var order: seq<Value>

    function State(): Corpus
      reads this
    {
      Corpus(docs, order)
    }

    /** A new, empty collection with its unique index on `link`. */
    constructor ()
      ensures State() == Corpus(map[], []) && Valid(State())
    {
      docs := map[];
      order := [];
    }

    /** `update_one({"link": a["link"]}, {"$set": a}, upsert=True)` */
    method UpdateOneUpsert(a: Record)
      requires "link" in a
      modifies this
      ensures State() == Upsert(old(State()), a)
    {
      var link := a["link"];
      if link in docs {
        docs := docs[link := docs[link] + a];
      } else {
        docs := docs[link := map["link" := link] + a];
        order := order + [link];
      }
    }

    /** `update_one({"_id": ...}, {"$set": {"embedding": v}})` on the document
        stored under `link`. */
    method SetEmbedding(link: Value, v: seq<real>)
      requires link in docs
      modifies this
      ensures docs == old(docs)[link := old(docs)[link]["embedding" := Vec(v)]]
      ensures order == old(order)
    {
      docs := docs[link := docs[link]["embedding" := Vec(v)]];
    }
  }

  /** `MongoStore.store_articles` on the articles read from the JSON file. */
  method StoreArticles(c: Collection, articles: seq<Record>) returns (count: nat)
    modifies c
    ensures c.State() == StoreAll(old(c.State()), articles)
    ensures count == Linked(articles) && count <= |articles|
  {
    count := 0;
    var i := 0;
    while i < |articles|
      invariant 0 <= i <= |articles|
      invariant c.State() == StoreAll(old(c.State()), articles[..i])
      invariant count == Linked(articles[..i])
    {
      assert articles[..i + 1][..i] == articles[..i];
      var article := articles[i];
      if "link" in article {
        c.UpdateOneUpsert(article);
        count := count + 1;
      }
      i := i + 1;
    }
    assert articles[..|articles|] == articles;
  }

  // ---------------------------------------------------------------------
  // get_recent_articles: `find().sort("published", -1).limit(limit)`

  /** BSON comparison order of the value types the documents hold. */
  function TypeRank(v: Value): int
  {
    match v
    case Null => 0
    case Num(_) => 1
    case Str(_) => 2
    case Vec(_) => 3
    case Bool(_) => 4
  }

  /** Binary (code point) string order, a prefix first. */
  predicate StrLeq(s: string, t: string)
  {
    s == [] || (t != [] && (s[0] < t[0] || (s[0] == t[0] && StrLeq(s[1..], t[1..]))))
  }

  lemma {:induction false} StrLeqTotal(s: string, t: string)
    ensures StrLeq(s, t) || StrLeq(t, s)
  {
    if s != [] && t != [] && s[0] == t[0] {
      StrLeqTotal(s[1..], t[1..]);
    }
  }

  lemma {:induction false} StrLeqTransitive(s: string, t: string, u: string)
    requires StrLeq(s, t) && StrLeq(t, u)
    ensures StrLeq(s, u)
  {
    if s != [] && t != [] && u != [] && s[0] == t[0] == u[0] {
      StrLeqTransitive(s[1..], t[1..], u[1..]);
    }
  }

  /** `x` sorts no lower than `y`. */
  predicate ValueGeq(x: Value, y: Value)
  {
    || TypeRank(x) > TypeRank(y)
    || (TypeRank(x) == TypeRank(y) &&
        match x
        case Num(a) => a >= y.x
        case Str(s) => StrLeq(y.s, s)
        case Bool(b) => b || !y.b
        case _ => true)
  }

  /** The sort key: a missing `published` sorts as `null`. */
  function PublishedKey(d: Record): Value
  {
    Get(d, "published", Null)
  }

  predicate NewerOrSame(a: Record, b: Record)
  {
    ValueGeq(PublishedKey(a), PublishedKey(b))
  }

  lemma NewerOrSameTotalPreorder()
    ensures TotalPreorder(NewerOrSame)
  {
    forall a: Record, b: Record ensures NewerOrSame(a, b) || NewerOrSame(b, a) {
      var x, y := PublishedKey(a), PublishedKey(b);
      if x.Str? && y.Str? {
        StrLeqTotal(x.s, y.s);
      }
    }
    forall a: Record, b: Record, c: Record | NewerOrSame(a, b) && NewerOrSame(b, c)
      ensures NewerOrSame(a, c)
    {
      var x, y, z := PublishedKey(a), PublishedKey(b), PublishedKey(c);
      if x.Str? && y.Str? && z.Str? {
        StrLeqTransitive(z.s, y.s, x.s);
      }
    }
  }

  /** How many documents `limit(n)` lets through: 0 means no limit, a
      negative limit is taken by its absolute value. */
  function LimitCount(limit: int, available: nat): (n: nat)
    ensures n <= available
    ensures limit == 0 ==> n == available
    ensures limit != 0 ==> n == if available < (if limit < 0 then -limit else limit) then available
                                else (if limit < 0 then -limit else limit)
  {
    var bound := if limit < 0 then -limit else limit;
    if limit == 0 || available < bound then available else bound
  }

  /** `get_recent_articles(limit)`: the `limit` newest documents by
      `published`, newest first; among ties, natural order. The source
      defaults `limit` to 20. */
  function GetRecentArticles(docs: seq<Record>, limit: int): (r: seq<Record>)
    ensures |r| == LimitCount(limit, |docs|)
    ensures multiset(r) <= multiset(docs)
    ensures forall i, j :: 0 <= i < j < |r| ==> NewerOrSame(r[i], r[j])
    ensures forall d, e :: d in multiset(docs) - multiset(r) && e in r ==> NewerOrSame(e, d)
  {
    var sorted := SortDesc(docs, NewerOrSame);
    var n := LimitCount(limit, |docs|);
    NewerOrSameTotalPreorder();
    SortDescSorted(docs, NewerOrSame);
    assert sorted == sorted[..n] + sorted[n..];
    assert multiset(sorted) == multiset(sorted[..n]) + multiset(sorted[n..]);
    assert forall d :: d in multiset(docs) - multiset(sorted[..n]) ==> d in sorted[n..];
    sorted[..n]
  }

  // ---------------------------------------------------------------------
  // get_stats: `aggregate([{"$group": {"_id": "$category", "count": {"$sum": 1}}}])`

  /** One output document of the aggregation. */
  datatype Group = Group(id: Value, count: nat)

  /** The grouping key: a missing `category` groups under `null`. */
  function CategoryKey(d: Record): Value
  {
    Get(d, "category", Null)
  }

  /** How many documents have category key `v`. */
  function CountCategory(docs: seq<Record>, v: Value): nat
  {
    if docs == [] then 0
    else CountCategory(docs[..|docs| - 1], v) + (if CategoryKey(docs[|docs| - 1]) == v then 1 else 0)
  }

  /** The count recorded for `id`, or 0 when there is no group for it. */
  function Lookup(gs: seq<Group>, id: Value): nat
  {
    if gs == [] then 0 else if gs[0].id == id then gs[0].count else Lookup(gs[1..], id)
  }

  function SumCounts(gs: seq<Group>): nat
  {
    if gs == [] then 0 else gs[0].count + SumCounts(gs[1..])
  }

  function Ids(gs: seq<Group>): set<Value>
  {
    set g | g in gs :: g.id
  }

  predicate DistinctIds(gs: seq<Group>)
  {
    forall i, j :: 0 <= i < j < |gs| ==> gs[i].id != gs[j].id
  }

  /** Adds one document with key `v` to the groups. */
  function Bump(gs: seq<Group>, v: Value): seq<Group>
  {
    if gs == [] then [Group(v, 1)]
    else if gs[0].id == v then [Group(v, gs[0].count + 1)] + gs[1..]
    else [gs[0]] + Bump(gs[1..], v)
  }

  /** Bumping adds `v` to the keys and one to the total, and keeps every
      count positive. */
  lemma {:induction false} BumpTotals(gs: seq<Group>, v: Value)
    ensures Ids(Bump(gs, v)) == Ids(gs) + {v}
    ensures SumCounts(Bump(gs, v)) == SumCounts(gs) + 1
    ensures (forall g :: g in gs ==> g.count > 0) ==> forall h :: h in Bump(gs, v) ==> h.count > 0
  {
    if gs != [] {
      assert gs == [gs[0]] + gs[1..];
      var r := Bump(gs, v);
      assert Ids(gs) == {gs[0].id} + Ids(gs[1..]);
      if gs[0].id == v {
        assert r[1..] == gs[1..];
        assert Ids(r) == {v} + Ids(gs[1..]);
      } else {
        BumpTotals(gs[1..], v);
        assert r[1..] == Bump(gs[1..], v);
        assert Ids(r) == {gs[0].id} + Ids(Bump(gs[1..], v));
      }
    }
  }

  /** Bumping either increments an existing group in place, or appends a
      new group of count 1 for a key no group has. */
  lemma {:induction false} BumpShape(gs: seq<Group>, v: Value)
    ensures var r := Bump(gs, v);
      || (|r| == |gs| && forall i :: 0 <= i < |gs| ==> r[i].id == gs[i].id)
      || (r == gs + [Group(v, 1)] && forall i :: 0 <= i < |gs| ==> gs[i].id != v)
  {
    if gs != [] && gs[0].id != v {
      BumpShape(gs[1..], v);
      var rest := Bump(gs[1..], v);
      var r := Bump(gs, v);
      assert r == [gs[0]] + rest;
      if |rest| == |gs[1..]| && forall i :: 0 <= i < |gs[1..]| ==> rest[i].id == gs[1..][i].id {
        forall i | 0 <= i < |gs| ensures r[i].id == gs[i].id {
          if i > 0 {
            assert r[i] == rest[i - 1] && gs[i] == gs[1..][i - 1];
          }
        }
      } else {
        assert gs == [gs[0]] + gs[1..];
        forall i | 0 <= i < |gs| ensures gs[i].id != v {
          if i > 0 {
            assert gs[i] == gs[1..][i - 1];
          }
        }
      }
    }
  }

  /** Bumping never creates a second group for a key. */
  lemma BumpDistinct(gs: seq<Group>, v: Value)
    requires DistinctIds(gs)
    ensures DistinctIds(Bump(gs, v))
  {
    BumpShape(gs, v);
    var r := Bump(gs, v);
    if |r| == |gs| && forall i :: 0 <= i < |gs| ==> r[i].id == gs[i].id {
      forall i, j | 0 <= i < j < |r| ensures r[i].id != r[j].id {
        assert r[i].id == gs[i].id && r[j].id == gs[j].id;
      }
    } else {
      forall i, j | 0 <= i < j < |r| ensures r[i].id != r[j].id {
        assert r[i] == gs[i];
        if j < |gs| {
          assert r[j] == gs[j];
        }
      }
    }
  }

  lemma {:induction false} BumpLookup(gs: seq<Group>, v: Value, id: Value)
    requires DistinctIds(gs)
    ensures Lookup(Bump(gs, v), id) == Lookup(gs, id) + (if id == v then 1 else 0)
  {
    if gs == [] {
    } else if gs[0].id == v {
      var r := Bump(gs, v);
      if id != v {
        assert r[1..] == gs[1..];
      }
    } else {
      assert DistinctIds(gs[1..]) by {
        forall i, j | 0 <= i < j < |gs[1..]| ensures gs[1..][i].id != gs[1..][j].id {
          assert gs[1..][i] == gs[i + 1] && gs[1..][j] == gs[j + 1];
        }
      }
      BumpLookup(gs[1..], v, id);
      assert Bump(gs, v)[1..] == Bump(gs[1..], v);
    }
  }

  /** `get_stats()` over the documents in natural order; groups appear in
      the order their category first occurs. */
  function GetStats(docs: seq<Record>): (r: seq<Group>)
    ensures DistinctIds(r)
    ensures Ids(r) == set d | d in docs :: CategoryKey(d)
    ensures forall v :: Lookup(r, v) == CountCategory(docs, v)
    ensures forall g :: g in r ==> g.count > 0
    ensures SumCounts(r) == |docs|
  {
    if docs == [] then []
    else
      var n := |docs| - 1;
      assert docs == docs[..n] + [docs[n]];
      var before := GetStats(docs[..n]);
      var r := Bump(before, CategoryKey(docs[n]));
      BumpTotals(before, CategoryKey(docs[n]));
      BumpDistinct(before, CategoryKey(docs[n]));
      assert forall v :: Lookup(r, v) == CountCategory(docs, v) by {
        forall v ensures Lookup(r, v) == CountCategory(docs, v) {
          BumpLookup(before, CategoryKey(docs[n]), v);
        }
      }
      r
  }

  /** Every group counts exactly the documents with its category. */
  lemma {:induction false} LookupIsCount(gs: seq<Group>, g: Group)
    requires DistinctIds(gs) && g in gs
    ensures Lookup(gs, g.id) == g.count
  {
    if gs[0] != g {
      var k :| 0 <= k < |gs| && gs[k] == g;
      assert k > 0 && gs[0].id != gs[k].id;
      assert gs[1..][k - 1] == g;
      LookupIsCount(gs[1..], g);
    }
  }
}
