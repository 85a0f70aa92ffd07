/** `repair_embeddings`: compute the embedding of every stored document whose
    embedding is missing or empty, writing only the `embedding` field.
    `embed(text)` is `get_embedding`: `None` when it raises. */
module Repair {
  import opened Values
  import opened CorpusStore
  import opened Counting

  /** The selection query: `embedding` absent, equal to `[]`, or of size 0.
      It selects exactly the documents retrieval leaves out. */
  predicate NeedsRepair(d: Record): (b: bool)
    ensures b <==> !HasEmbedding(d)
  {
    "embedding" !in d || d["embedding"] == Vec([])
  }

  /** `doc.get('full_text') or doc.get('summary_rss') or doc.get('title', '')` */
  function RepairText(d: Record): Value
  {
    Or(Or(Get(d, "full_text", Null), Get(d, "summary_rss", Null)), Get(d, "title", Str("")))
  }

  /** The vector the pass writes for `d`, if any. */
  function NewEmbedding(d: Record, embed: Value -> Option<seq<real>>): Option<seq<real>>
  {
    if !NeedsRepair(d) then None
    else
      var text := RepairText(d);
      if !Truthy(text) then None
      else
        match embed(text)
        case None => None
        case Some(v) => if v == [] then None else Some(v)
  }

  /** A vector is written exactly when the document is selected, its text
      is non-empty, and `get_embedding` returns a non-empty list; the vector
      is that list. */
  lemma NewEmbeddingSpec(d: Record, embed: Value -> Option<seq<real>>)
    ensures NewEmbedding(d, embed).Some? <==>
      NeedsRepair(d) && Truthy(RepairText(d)) && embed(RepairText(d)).Some? && embed(RepairText(d)).value != []
    ensures NewEmbedding(d, embed).Some? ==>
      NewEmbedding(d, embed) == embed(RepairText(d)) && |NewEmbedding(d, embed).value| > 0
  {
  }

  function RepairDoc(d: Record, embed: Value -> Option<seq<real>>): Record
  {
    match NewEmbedding(d, embed)
    case None => d
    case Some(v) => d["embedding" := Vec(v)]
  }

  /** The pass writes the document `d`. */
  predicate Writes(d: Record, embed: Value -> Option<seq<real>>)
  {
    NewEmbedding(d, embed).Some?
  }

  /** The collection after one pass: every document gets `RepairDoc`. */
  function Repaired(c: Corpus, embed: Value -> Option<seq<real>>): (r: Corpus)
    ensures r.order == c.order && r.docs.Keys == c.docs.Keys
  {
    Corpus(map k | k in c.docs :: RepairDoc(c.docs[k], embed), c.order)
  }

  /** A pass writes only the `embedding` field, and only of the documents
      it writes; every other document is left as it was. */
  lemma RepairedOnlyEmbedding(c: Corpus, embed: Value -> Option<seq<real>>)
    ensures forall k, f :: k in c.docs && f != "embedding" ==>
      var r := Repaired(c, embed);
      (f in r.docs[k] <==> f in c.docs[k]) && (f in c.docs[k] ==> r.docs[k][f] == c.docs[k][f])
    ensures forall k :: k in c.docs && !Writes(c.docs[k], embed) ==> Repaired(c, embed).docs[k] == c.docs[k]
  {
  }

  /** A written document gets the non-empty vector of its text, so a second
      pass no longer selects it and retrieval now considers it. */
  lemma RepairedFixes(c: Corpus, embed: Value -> Option<seq<real>>)
    ensures forall k :: k in c.docs && Writes(c.docs[k], embed) ==>
      && FieldIs(Repaired(c, embed).docs[k], "embedding", Vec(embed(RepairText(c.docs[k])).value))
      && HasEmbedding(Repaired(c, embed).docs[k])
    ensures forall k :: k in c.docs && NeedsRepair(Repaired(c, embed).docs[k]) ==>
      Repaired(c, embed).docs[k] == c.docs[k]
  {
  }

  /** A pass keeps the unique index. */
  lemma RepairedValid(c: Corpus, embed: Value -> Option<seq<real>>)
    requires Valid(c)
    ensures Valid(Repaired(c, embed))
  {
  }

  /** The keys of the selected documents, in natural order (`docs_to_repair`). */
  function SelectedKeys(order: seq<Value>, docs: map<Value, Record>): seq<Value>
    requires forall k :: k in order ==> k in docs
  {
    if order == [] then []
    else
      assert forall k :: k in order[1..] ==> k in order;
      (if NeedsRepair(docs[order[0]]) then [order[0]] else []) + SelectedKeys(order[1..], docs)
  }

  /** `docs_to_repair` lists exactly the selected documents, and no more
      than are stored. */
  lemma {:induction false} SelectedKeysMembers(order: seq<Value>, docs: map<Value, Record>)
    requires forall k :: k in order ==> k in docs
    ensures forall k :: k in SelectedKeys(order, docs) <==> k in order && NeedsRepair(docs[k])
    ensures |SelectedKeys(order, docs)| <= |order|
  {
    if order != [] {
      var rest := order[1..];
      assert order == [order[0]] + rest;
      assert forall k :: k in rest ==> k in order;
      SelectedKeysMembers(rest, docs);
    }
  }

  /** When the natural order lists each link once, so does `docs_to_repair`. */
  lemma {:induction false} SelectedKeysDistinct(order: seq<Value>, docs: map<Value, Record>)
    requires forall k :: k in order ==> k in docs
    requires forall i, j :: 0 <= i < j < |order| ==> order[i] != order[j]
    ensures forall i, j :: 0 <= i < j < |SelectedKeys(order, docs)| ==>
      SelectedKeys(order, docs)[i] != SelectedKeys(order, docs)[j]
  {
    if order != [] {
      var rest := order[1..];
      assert forall k :: k in rest ==> k in order;
      assert forall i, j :: 0 <= i < j < |rest| ==> rest[i] != rest[j] by {
        forall i, j | 0 <= i < j < |rest| ensures rest[i] != rest[j] {
          assert rest[i] == order[i + 1] && rest[j] == order[j + 1];
        }
      }
      SelectedKeysDistinct(rest, docs);
      var s, r := SelectedKeys(order, docs), SelectedKeys(rest, docs);
      if NeedsRepair(docs[order[0]]) {
        assert s == [order[0]] + r;
        assert order[0] !in r by {
          SelectedKeysMembers(rest, docs);
          forall i | 0 <= i < |rest| ensures rest[i] != order[0] {
            assert rest[i] == order[i + 1];
          }
        }
        forall i, j | 0 <= i < j < |s| ensures s[i] != s[j] {
          assert s[j] == r[j - 1] && s[j] in r;
          if i > 0 {
            assert s[i] == r[i - 1];
          }
        }
      } else {
        assert s == r;
      }
    }
  }

  /** Selection distributes over concatenation: `docs_to_repair` lists the
      selected documents in natural order. */
  lemma {:induction false} SelectedKeysConcat(a: seq<Value>, b: seq<Value>, docs: map<Value, Record>)
    requires forall k :: k in a + b ==> k in docs
    ensures SelectedKeys(a + b, docs) == SelectedKeys(a, docs) + SelectedKeys(b, docs)
  {
    if a == [] {
      assert a + b == b;
    } else {
      assert (a + b)[0] == a[0] && (a + b)[1..] == a[1..] + b;
      assert forall k :: k in a[1..] + b ==> k in a + b;
      SelectedKeysConcat(a[1..], b, docs);
    }
  }

  lemma SelectedKeysSingle(k: Value, docs: map<Value, Record>)
    requires k in docs
    ensures SelectedKeys([k], docs) == if NeedsRepair(docs[k]) then [k] else []
  {
    assert [k][1..] == [];
  }

  /** The documents one pass writes. */
  function WrittenKeys(c: Corpus, embed: Value -> Option<seq<real>>): set<Value>
  {
    set k | k in c.docs && Writes(c.docs[k], embed)
  }

  /** The final counter of a pass is the number of distinct documents it
      writes. */
  lemma CountedIsWritten(c: Corpus, embed: Value -> Option<seq<real>>)
    requires Valid(c)
    ensures CountIn(SelectedKeys(c.order, c.docs), WrittenKeys(c, embed)) == |WrittenKeys(c, embed)|
  {
    var todo := SelectedKeys(c.order, c.docs);
    var w := WrittenKeys(c, embed);
    SelectedKeysMembers(c.order, c.docs);
    SelectedKeysDistinct(c.order, c.docs);
    CountInDistinct(todo, w);
    ElemsInMembers(todo, w);
    forall k | k in w ensures k in todo {
      NewEmbeddingSpec(c.docs[k], embed);
    }
    assert ElemsIn(todo, w) == w;
  }

  /** The documents after the pass has visited the keys `visited` of the
      list it read, one `update_one` at a time. */
  function AfterVisiting(snapshot: map<Value, Record>, visited: seq<Value>, embed: Value -> Option<seq<real>>)
    : (cur: map<Value, Record>)
    ensures cur.Keys == snapshot.Keys
  {
    if visited == [] then snapshot
    else
      var cur := AfterVisiting(snapshot, visited[..|visited| - 1], embed);
      var k := visited[|visited| - 1];
      if k in snapshot && Writes(snapshot[k], embed) then
        cur[k := cur[k]["embedding" := Vec(NewEmbedding(snapshot[k], embed).value)]]
      else cur
  }

  /** Visiting a document once or several times leaves it repaired, and a
      document never visited is untouched. */
  lemma {:induction false} AfterVisitingPointwise(snapshot: map<Value, Record>, visited: seq<Value>,
                                                  embed: Value -> Option<seq<real>>)
    ensures forall k :: k in snapshot ==>
      AfterVisiting(snapshot, visited, embed)[k] == if k in visited then RepairDoc(snapshot[k], embed) else snapshot[k]
  {
    if visited != [] {
      var init, last := visited[..|visited| - 1], visited[|visited| - 1];
      AfterVisitingPointwise(snapshot, init, embed);
      assert visited == init + [last];
      forall k | k in snapshot
        ensures AfterVisiting(snapshot, visited, embed)[k]
             == if k in visited then RepairDoc(snapshot[k], embed) else snapshot[k]
      {
        assert k in visited <==> k in init || k == last;
      }
    }
  }

  /** Once every selected document has been visited, the documents are
      those of `Repaired`. */
  lemma AfterVisitingAll(snapshot: map<Value, Record>, order: seq<Value>, todo: seq<Value>,
                         embed: Value -> Option<seq<real>>)
    requires forall k :: k in snapshot && NeedsRepair(snapshot[k]) ==> k in todo
    ensures Corpus(AfterVisiting(snapshot, todo, embed), order) == Repaired(Corpus(snapshot, order), embed)
  {
    var cur := AfterVisiting(snapshot, todo, embed);
    AfterVisitingPointwise(snapshot, todo, embed);
    forall k | k in snapshot
      ensures cur[k] == RepairDoc(snapshot[k], embed)
    {
      if k !in todo {
        assert !NeedsRepair(snapshot[k]);
      }
    }
    assert cur == (map k | k in snapshot :: RepairDoc(snapshot[k], embed));
  }

  /** One iteration of the loop in `repair_embeddings` on the document `doc`
      stored under `link`: pick its text, skip it when the text is empty,
      embed it, and write the vector when it is non-empty. */
  method RepairOne(c: Collection, link: Value, doc: Record, embed: Value -> Option<seq<real>>)
    returns (wrote: bool)
    requires link in c.docs
    modifies c
    ensures wrote <==> Truthy(RepairText(doc)) && embed(RepairText(doc)).Some? && embed(RepairText(doc)).value != []
    ensures c.order == old(c.order)
    ensures wrote ==> c.docs == old(c.docs)[link := old(c.docs)[link]["embedding" := Vec(embed(RepairText(doc)).value)]]
    ensures !wrote ==> c.docs == old(c.docs)
  {
    wrote := false;
    var text := RepairText(doc);
    if Truthy(text) {
      var embedding := embed(text);
      if embedding.Some? && embedding.value != [] {
        c.SetEmbedding(link, embedding.value);
        wrote := true;
      }
    }
  }

  /** One more visited key: the key of a selected document is written
      exactly on the condition the loop body tests, and counted exactly
      when it is one of `written`. */
  lemma VisitNext(snapshot: map<Value, Record>, todo: seq<Value>, i: nat, written: set<Value>,
                  embed: Value -> Option<seq<real>>)
    requires i < |todo| && todo[i] in snapshot && NeedsRepair(snapshot[todo[i]])
    requires todo[i] in written <==> Writes(snapshot[todo[i]], embed)
    ensures var k, text := todo[i], RepairText(snapshot[todo[i]]);
      var prev := AfterVisiting(snapshot, todo[..i], embed);
      && k in prev
      && AfterVisiting(snapshot, todo[..i + 1], embed) ==
           (if Truthy(text) && embed(text).Some? && embed(text).value != []
            then prev[k := prev[k]["embedding" := Vec(embed(text).value)]]
            else prev)
      && CountIn(todo[..i + 1], written) ==
           CountIn(todo[..i], written) + (if Truthy(text) && embed(text).Some? && embed(text).value != [] then 1 else 0)
  {
    var visited := todo[..i + 1];
    assert visited[..i] == todo[..i] && visited[i] == todo[i] && |visited| == i + 1;
    NewEmbeddingSpec(snapshot[todo[i]], embed);
  }

  /** `repair_embeddings`: the loop over `docs_to_repair`, read once before
      the loop; each document is updated in place through `SetEmbedding`. */
  method RepairEmbeddings(c: Collection, embed: Value -> Option<seq<real>>) returns (updatedCount: nat)
    requires Valid(c.State())
    modifies c
    ensures c.State() == Repaired(old(c.State()), embed)
    ensures updatedCount == |WrittenKeys(old(c.State()), embed)|
    ensures updatedCount <= |SelectedKeys(old(c.order), old(c.docs))|
  {
    ghost var start := c.State();
    ghost var written := WrittenKeys(start, embed);
    var snapshot := c.docs;
    var todo := SelectedKeys(c.order, c.docs);
    SelectedKeysMembers(c.order, c.docs);
    SelectedKeysDistinct(c.order, c.docs);
    updatedCount := 0;
    var i := 0;
    assert todo[..0] == [];
    while i < |todo|
      invariant 0 <= i <= |todo|
      invariant c.order == start.order
      invariant c.docs == AfterVisiting(snapshot, todo[..i], embed)
      invariant updatedCount == CountIn(todo[..i], written)
    {
      var link := todo[i];
      var doc := snapshot[link];
      VisitNext(snapshot, todo, i, written, embed);
      var wrote := RepairOne(c, link, doc, embed);
      if wrote {
        updatedCount := updatedCount + 1;
      }
      i := i + 1;
    }
    assert todo[..|todo|] == todo;
    AfterVisitingAll(snapshot, c.order, todo, embed);
    CountedIsWritten(start, embed);
  }
}
