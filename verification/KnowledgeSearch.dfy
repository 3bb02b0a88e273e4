/**
 Building the parameterised similarity query over knowledge-base chunks: the WHERE
 conditions, the positional parameters they refer to, and what the query returns.
 */
module KnowledgeSearch {
  import opened Common
  import opened Queries

  datatype Param = Null | Number(number: int) | Text(text: string)

  /** `$n` refers to the n-th parameter, counted from 1. */
  type Placeholder = nat

  datatype Condition =
    | OrganizationIs(placeholder: Placeholder)
    | DocumentIsActive
    | DocumentIdIn(placeholders: seq<Placeholder>)
    | DocumentUuidIn(placeholders: seq<Placeholder>)
    | EmbeddingModelIs(placeholder: Placeholder)

  datatype Document = Document(uuid: string, isActive: bool)

  /** `distance` is the distance of the chunk's embedding from the query's, None
      when the chunk has no embedding. */
  datatype Chunk = Chunk(organizationId: int, documentId: int, embeddingModel: Option<string>, distance: Option<real>)

  datatype Store = Store(chunks: map<nat, Chunk>, documents: map<int, Document>)

  datatype Request = Request(
    embedding: string, organizationId: int, limit: nat, documentIds: Option<seq<int>>,
    documentUuids: Option<seq<string>>, embeddingModel: Option<string>)

  // ---------- What the search should select ----------

  predicate Wanted(chunk: Chunk, document: Document, q: Request) {
    && chunk.organizationId == q.organizationId && document.isActive
    && (q.documentIds.Some? && q.documentIds.value != [] ==> chunk.documentId in q.documentIds.value)
    && (q.documentUuids.Some? && q.documentUuids.value != [] ==> document.uuid in q.documentUuids.value)
    && (q.embeddingModel.Some? && q.embeddingModel.value != "" ==> chunk.embeddingModel == q.embeddingModel)
  }

  predicate WantedId(store: Store, q: Request, id: nat) {
    id in store.chunks && store.chunks[id].documentId in store.documents
    && Wanted(store.chunks[id], store.documents[store.chunks[id].documentId], q)
  }

  // ---------- What the generated text means ----------

  /** The parameter a placeholder is bound to; unbound placeholders match nothing. */
  function Bound(params: seq<Param>, p: Placeholder): Param {
    if 1 <= p <= |params| then params[p - 1] else Null
  }

  predicate AmongBound(params: seq<Param>, ps: seq<Placeholder>, value: Param) {
    exists i :: 0 <= i < |ps| && Bound(params, ps[i]) == value
  }

  predicate Evaluate(c: Condition, params: seq<Param>, chunk: Chunk, document: Document) {
    match c
    case OrganizationIs(p) => Bound(params, p) == Number(chunk.organizationId)
    case DocumentIsActive => document.isActive
    case DocumentIdIn(ps) => AmongBound(params, ps, Number(chunk.documentId))
    case DocumentUuidIn(ps) => AmongBound(params, ps, Text(document.uuid))
    case EmbeddingModelIs(p) => chunk.embeddingModel.Some? && Bound(params, p) == Text(chunk.embeddingModel.value)
  }

  predicate EvaluateAll(cs: seq<Condition>, params: seq<Param>, chunk: Chunk, document: Document) {
    forall i :: 0 <= i < |cs| ==> Evaluate(cs[i], params, chunk, document)
  }

  function PlaceholdersOf(c: Condition): seq<Placeholder> {
    match c
    case OrganizationIs(p) => [p]
    case DocumentIsActive => []
    case DocumentIdIn(ps) => ps
    case DocumentUuidIn(ps) => ps
    case EmbeddingModelIs(p) => [p]
  }

  /** All placeholders of the WHERE clause, in the order they are written. */
  function Written(cs: seq<Condition>): seq<Placeholder>
    decreases |cs|
  {
    if cs == [] then [] else Written(Front(cs)) + PlaceholdersOf(Last(cs))
  }

  function From(first: nat, count: nat): seq<Placeholder> {
    seq(count, i => first + i)
  }

  // ---------- The builder ----------

  /** Adding a condition whose placeholders continue the numbering. */
  lemma WrittenContinues(cs: seq<Condition>, c: Condition, next: nat, count: nat)
    requires next >= 4 && Written(cs) == [2] + From(4, next - 4) && PlaceholdersOf(c) == From(next, count)
    ensures Written(cs + [c]) == [2] + From(4, next + count - 4)
  {
    assert Front(cs + [c]) == cs;
    assert From(4, next - 4) + From(next, count) == From(4, next + count - 4);
  }

  /** New parameters do not disturb the conditions already written. */
  lemma EvaluationSurvives(cs: seq<Condition>, params: seq<Param>, more: seq<Param>, chunk: Chunk, document: Document)
    requires forall i, k :: 0 <= i < |cs| && 0 <= k < |PlaceholdersOf(cs[i])| ==>
      1 <= PlaceholdersOf(cs[i])[k] <= |params|
    ensures EvaluateAll(cs, params + more, chunk, document) == EvaluateAll(cs, params, chunk, document)
  {
    forall i | 0 <= i < |cs|
      ensures Evaluate(cs[i], params + more, chunk, document) == Evaluate(cs[i], params, chunk, document)
    {
      forall k | 0 <= k < |PlaceholdersOf(cs[i])|
        ensures Bound(params + more, PlaceholdersOf(cs[i])[k]) == Bound(params, PlaceholdersOf(cs[i])[k])
      {}
      SameBindingsSameValue(cs[i], params + more, params, chunk, document);
    }
  }

  lemma SameBindingsSameValue(c: Condition, a: seq<Param>, b: seq<Param>, chunk: Chunk, document: Document)
    requires forall k :: 0 <= k < |PlaceholdersOf(c)| ==>
      Bound(a, PlaceholdersOf(c)[k]) == Bound(b, PlaceholdersOf(c)[k])
    ensures Evaluate(c, a, chunk, document) == Evaluate(c, b, chunk, document)
  {
    if c.OrganizationIs? || c.EmbeddingModelIs? {
      assert PlaceholdersOf(c)[0] == c.placeholder;
    }
  }

  function Numbers(ids: seq<int>): seq<Param> {
    seq(|ids|, i requires 0 <= i < |ids| => Number(ids[i]))
  }

  function Texts(uuids: seq<string>): seq<Param> {
    seq(|uuids|, i requires 0 <= i < |uuids| => Text(uuids[i]))
  }

  /** Every placeholder was made for the parameter bound to it: the conditions with
      these parameters mean the same as `meaning`. */
  ghost predicate Means(cs: seq<Condition>, params: seq<Param>, q: Request) {
    forall chunk, document :: EvaluateAll(cs, params, chunk, document) <==> Wanted(chunk, document, q)
  }

  /** The placeholders are $2 and then $4 to the last parameter, each once. */
  ghost predicate Numbered(cs: seq<Condition>, params: seq<Param>) {
    |params| >= 3 && Written(cs) == [2] + From(4, |params| - 3)
  }

  lemma {:induction false} PlaceholdersAreWritten(cs: seq<Condition>, i: nat, k: nat)
    requires i < |cs| && k < |PlaceholdersOf(cs[i])|
    ensures PlaceholdersOf(cs[i])[k] in Written(cs)
    decreases |cs|
  {
    if i == |cs| - 1 {
      assert PlaceholdersOf(cs[i])[k] in PlaceholdersOf(Last(cs));
    } else {
      PlaceholdersAreWritten(Front(cs), i, k);
    }
  }

  lemma NumberedPlaceholdersAreBound(cs: seq<Condition>, params: seq<Param>)
    requires Numbered(cs, params)
    ensures forall i, k :: 0 <= i < |cs| && 0 <= k < |PlaceholdersOf(cs[i])| ==>
      1 <= PlaceholdersOf(cs[i])[k] <= |params|
  {
    forall i, k | 0 <= i < |cs| && 0 <= k < |PlaceholdersOf(cs[i])|
      ensures 1 <= PlaceholdersOf(cs[i])[k] <= |params|
    {
      PlaceholdersAreWritten(cs, i, k);
    }
  }

  /** One optional filter: a condition over new parameters bound to new placeholders. */
  lemma AddingCondition(cs: seq<Condition>, params: seq<Param>, more: seq<Param>, c: Condition, q: Request, q': Request)
    requires Numbered(cs, params) && Means(cs, params, q)
    requires PlaceholdersOf(c) == From(|params| + 1, |more|)
    requires forall chunk, document ::
      Wanted(chunk, document, q') <==> Wanted(chunk, document, q) && Evaluate(c, params + more, chunk, document)
    ensures Numbered(cs + [c], params + more) && Means(cs + [c], params + more, q')
  {
    WrittenContinues(cs, c, |params| + 1, |more|);
    NumberedPlaceholdersAreBound(cs, params);
    forall chunk, document
      ensures EvaluateAll(cs + [c], params + more, chunk, document) <==> Wanted(chunk, document, q')
    {
      EvaluationSurvives(cs, params, more, chunk, document);
      OneMoreCondition(cs, c, params + more, chunk, document);
    }
  }

  lemma OneMoreCondition(cs: seq<Condition>, c: Condition, params: seq<Param>, chunk: Chunk, document: Document)
    ensures EvaluateAll(cs + [c], params, chunk, document)
            <==> EvaluateAll(cs, params, chunk, document) && Evaluate(c, params, chunk, document)
  {
    assert (cs + [c])[|cs|] == c;
    assert forall i :: 0 <= i < |cs| ==> (cs + [c])[i] == cs[i];
  }

  lemma AmongNew(params: seq<Param>, more: seq<Param>, value: Param)
    ensures AmongBound(params + more, From(|params| + 1, |more|), value) <==> value in more
  {
    var ps := From(|params| + 1, |more|);
    forall i | 0 <= i < |more| ensures Bound(params + more, ps[i]) == more[i] {}
  }

  lemma AddingDocumentIds(cs: seq<Condition>, params: seq<Param>, ids: seq<int>, q: Request)
    requires Numbered(cs, params) && Means(cs, params, q) && q.documentIds.None? && ids != []
    ensures var c := DocumentIdIn(From(|params| + 1, |ids|));
      Numbered(cs + [c], params + Numbers(ids))
      && Means(cs + [c], params + Numbers(ids), q.(documentIds := Some(ids)))
  {
    var c := DocumentIdIn(From(|params| + 1, |ids|));
    forall chunk: Chunk
      ensures AmongBound(params + Numbers(ids), c.placeholders, Number(chunk.documentId)) <==> chunk.documentId in ids
    {
      AmongNew(params, Numbers(ids), Number(chunk.documentId));
      NumbersHold(ids, chunk.documentId);
    }
    AddingCondition(cs, params, Numbers(ids), c, q, q.(documentIds := Some(ids)));
  }

  lemma AddingDocumentUuids(cs: seq<Condition>, params: seq<Param>, uuids: seq<string>, q: Request)
    requires Numbered(cs, params) && Means(cs, params, q) && q.documentUuids.None? && uuids != []
    ensures var c := DocumentUuidIn(From(|params| + 1, |uuids|));
      Numbered(cs + [c], params + Texts(uuids))
      && Means(cs + [c], params + Texts(uuids), q.(documentUuids := Some(uuids)))
  {
    var c := DocumentUuidIn(From(|params| + 1, |uuids|));
    forall document: Document
      ensures AmongBound(params + Texts(uuids), c.placeholders, Text(document.uuid)) <==> document.uuid in uuids
    {
      AmongNew(params, Texts(uuids), Text(document.uuid));
      TextsHold(uuids, document.uuid);
    }
    AddingCondition(cs, params, Texts(uuids), c, q, q.(documentUuids := Some(uuids)));
  }

  lemma AddingModel(cs: seq<Condition>, params: seq<Param>, model: string, q: Request)
    requires Numbered(cs, params) && Means(cs, params, q) && q.embeddingModel.None? && model != ""
    ensures var c := EmbeddingModelIs(|params| + 1);
      Numbered(cs + [c], params + [Text(model)])
      && Means(cs + [c], params + [Text(model)], q.(embeddingModel := Some(model)))
  {
    var c := EmbeddingModelIs(|params| + 1);
    assert Bound(params + [Text(model)], c.placeholder) == Text(model);
    assert PlaceholdersOf(c) == From(|params| + 1, 1);
    AddingCondition(cs, params, [Text(model)], c, q, q.(embeddingModel := Some(model)));
  }

  /** The filters a search carries in effect: empty ones are dropped. */
  function EffectiveIds(q: Request): Option<seq<int>> {
    if q.documentIds.Some? && q.documentIds.value == [] then None else q.documentIds
  }

  function EffectiveUuids(q: Request): Option<seq<string>> {
    if q.documentUuids.Some? && q.documentUuids.value == [] then None else q.documentUuids
  }

  function EffectiveModel(q: Request): Option<string> {
    if q.embeddingModel.Some? && q.embeddingModel.value == "" then None else q.embeddingModel
  }

  lemma BindingEmbedding(cs: seq<Condition>, params: seq<Param>, asked: Request, q: Request)
    requires Numbered(cs, params) && Means(cs, params, asked) && asked == q.(documentIds := EffectiveIds(q),
      documentUuids := EffectiveUuids(q), embeddingModel := EffectiveModel(q))
    ensures Numbered(cs, params[0 := Text(q.embedding)]) && Means(cs, params[0 := Text(q.embedding)], q)
  {
    SettingEmbeddingKeepsMeaning(cs, params, Text(q.embedding));
    forall chunk, document
      ensures EvaluateAll(cs, params[0 := Text(q.embedding)], chunk, document) <==> Wanted(chunk, document, q)
    {
      assert Wanted(chunk, document, asked) <==> Wanted(chunk, document, q);
    }
  }

  /** The search as built so far: conditions, parameters and the next free number. */
  datatype Builder = Builder(conditions: seq<Condition>, params: seq<Param>, paramIndex: nat)

  ghost predicate Built(b: Builder, q: Request) {
    Numbered(b.conditions, b.params) && Means(b.conditions, b.params, q) && b.paramIndex == |b.params| + 1
  }

  method AddDocumentIds(b: Builder, q: Request, ghost asked: Request) returns (b': Builder)
    requires Built(b, asked) && asked.documentIds.None?
    ensures Built(b', asked.(documentIds := EffectiveIds(q))) && b.params <= b'.params
  {
    b' := b;
    if q.documentIds.Some? && q.documentIds.value != [] {
      var ids := q.documentIds.value;
      AddingDocumentIds(b.conditions, b.params, ids, asked);
      b' := Builder(b.conditions + [DocumentIdIn(From(b.paramIndex, |ids|))], b.params + Numbers(ids),
                    b.paramIndex + |ids|);
    }
  }

  method AddDocumentUuids(b: Builder, q: Request, ghost asked: Request) returns (b': Builder)
    requires Built(b, asked) && asked.documentUuids.None?
    ensures Built(b', asked.(documentUuids := EffectiveUuids(q))) && b.params <= b'.params
  {
    b' := b;
    if q.documentUuids.Some? && q.documentUuids.value != [] {
      var uuids := q.documentUuids.value;
      AddingDocumentUuids(b.conditions, b.params, uuids, asked);
      b' := Builder(b.conditions + [DocumentUuidIn(From(b.paramIndex, |uuids|))], b.params + Texts(uuids),
                    b.paramIndex + |uuids|);
    }
  }

  method AddEmbeddingModel(b: Builder, q: Request, ghost asked: Request) returns (b': Builder)
    requires Built(b, asked) && asked.embeddingModel.None?
    ensures Built(b', asked.(embeddingModel := EffectiveModel(q))) && b.params <= b'.params
  {
    b' := b;
    if q.embeddingModel.Some? && q.embeddingModel.value != "" {
      AddingModel(b.conditions, b.params, q.embeddingModel.value, asked);
      b' := Builder(b.conditions + [EmbeddingModelIs(b.paramIndex)], b.params + [Text(q.embeddingModel.value)],
                    b.paramIndex + 1);
    }
  }

  class KnowledgeBaseClient {
    var store: Store

    method BuildSearch(q: Request) returns (conditions: seq<Condition>, params: seq<Param>)
      ensures Numbered(conditions, params) && Means(conditions, params, q)
      ensures params[0] == Text(q.embedding) && params[2] == Number(q.limit)
    {
      ghost var asked := q.(documentIds := None, documentUuids := None, embeddingModel := None);
      BaseConditions(asked);
      var b := Builder([OrganizationIs(2), DocumentIsActive], [Null, Number(q.organizationId), Number(q.limit)], 4);
      b := AddDocumentIds(b, q, asked);
      asked := asked.(documentIds := EffectiveIds(q));
      b := AddDocumentUuids(b, q, asked);
      asked := asked.(documentUuids := EffectiveUuids(q));
      b := AddEmbeddingModel(b, q, asked);
      asked := asked.(embeddingModel := EffectiveModel(q));
      BindingEmbedding(b.conditions, b.params, asked, q);
      conditions, params := b.conditions, b.params[0 := Text(q.embedding)];
    }

    method SearchSimilarChunks(q: Request) returns (rows: seq<nat>)
      ensures IsNearest(store, q, rows)
      ensures ByDistance(store, rows) && |rows| <= q.limit
      ensures forall id :: id in rows ==> Eligible(store, q, id)
      // a wanted chunk is left out only when `limit` chunks no farther than it were taken
      ensures forall id :: Eligible(store, q, id) && id !in rows ==>
        |rows| == q.limit && ByDistance(store, rows + [id])
    {
      var conditions, params := BuildSearch(q);
      rows := Fetch(store, q, conditions, params);
      NearestIsByDistance(store, q, rows);
    }
  }

  /** The database's side: the rows the condition selects, by distance, up to $3. */
  method Fetch(store: Store, q: Request, conditions: seq<Condition>, params: seq<Param>) returns (rows: seq<nat>)
    requires Means(conditions, params, q) && |params| > 2 && params[2] == Number(q.limit)
    ensures IsNearest(store, q, rows)
  {
    var wanted := set id | id in store.chunks && store.chunks[id].documentId in store.documents
      && EvaluateAll(conditions, params, store.chunks[id], store.documents[store.chunks[id].documentId]);
    forall id ensures id in wanted <==> WantedId(store, q, id) {
      if id in store.chunks && store.chunks[id].documentId in store.documents {
        assert EvaluateAll(conditions, params, store.chunks[id], store.documents[store.chunks[id].documentId])
               <==> Wanted(store.chunks[id], store.documents[store.chunks[id].documentId], q);
      }
    }
    var before := (a: nat, b: nat) => NotFarther(store, a, b);
    rows := TakeFirst(wanted, before, params[2].number);
    FirstAreNearest(store, q, wanted, before, rows);
  }

  lemma FirstAreNearest(store: Store, q: Request, wanted: set<nat>, before: Order, rows: seq<nat>)
    requires forall id :: id in wanted <==> WantedId(store, q, id)
    requires forall a: nat, b: nat :: before(a, b) <==> NotFarther(store, a, b)
    requires AreFirst(wanted, before, q.limit, rows)
    ensures IsNearest(store, q, rows)
  {
  }

  lemma NumbersHold(ids: seq<int>, id: int)
    ensures Number(id) in Numbers(ids) <==> id in ids
  {
    if i :| 0 <= i < |ids| && ids[i] == id {
      assert Numbers(ids)[i] == Number(id);
    }
  }

  lemma TextsHold(uuids: seq<string>, uuid: string)
    ensures Text(uuid) in Texts(uuids) <==> uuid in uuids
  {
    if i :| 0 <= i < |uuids| && uuids[i] == uuid {
      assert Texts(uuids)[i] == Text(uuid);
    }
  }

  lemma BaseConditions(q: Request)
    requires q.documentIds.None? && q.documentUuids.None? && q.embeddingModel.None?
    ensures var cs := [OrganizationIs(2), DocumentIsActive];
      var params := [Null, Number(q.organizationId), Number(q.limit)];
      Numbered(cs, params) && Means(cs, params, q)
  {
    var cs := [OrganizationIs(2), DocumentIsActive];
    var params := [Null, Number(q.organizationId), Number(q.limit)];
    assert Front(cs) == [OrganizationIs(2)] && Front([OrganizationIs(2)]) == [];
    assert Written([OrganizationIs(2)]) == [2];
    forall chunk, document ensures EvaluateAll(cs, params, chunk, document) <==> Wanted(chunk, document, q) {
      assert EvaluateAll(cs, params, chunk, document)
             <==> Evaluate(cs[0], params, chunk, document) && Evaluate(cs[1], params, chunk, document);
    }
  }

  /** $1, bound last, is named by no condition. */
  lemma SettingEmbeddingKeepsMeaning(cs: seq<Condition>, params: seq<Param>, embedding: Param)
    requires Numbered(cs, params)
    ensures forall chunk, document ::
      EvaluateAll(cs, params[0 := embedding], chunk, document) == EvaluateAll(cs, params, chunk, document)
  {
    forall chunk, document, i | 0 <= i < |cs|
      ensures Evaluate(cs[i], params[0 := embedding], chunk, document) == Evaluate(cs[i], params, chunk, document)
    {
      forall k | 0 <= k < |PlaceholdersOf(cs[i])|
        ensures Bound(params[0 := embedding], PlaceholdersOf(cs[i])[k]) == Bound(params, PlaceholdersOf(cs[i])[k])
      {
        PlaceholdersAreWritten(cs, i, k);
      }
      SameBindingsSameValue(cs[i], params[0 := embedding], params, chunk, document);
    }
  }

  /** The numbering leaves no gap and reuses no number. */
  lemma FilterPlaceholdersAreExactlyTheFilterParameters(cs: seq<Condition>, params: seq<Param>)
    requires Numbered(cs, params)
    ensures Distinct(Written(cs))
    ensures forall p :: p in Written(cs) <==> p == 2 || 4 <= p <= |params|
  {
    var filters := From(4, |params| - 3);
    forall p ensures p in filters <==> 4 <= p <= |params| {
      if 4 <= p <= |params| {
        assert filters[p - 4] == p;
      }
    }
  }

  // ---------- The answer ----------

  /** Ascending distance, nulls last. */
  predicate NotFarther(store: Store, a: nat, b: nat) {
    a in store.chunks && b in store.chunks
    && (store.chunks[b].distance.None?
        || (store.chunks[a].distance.Some? && store.chunks[a].distance.value <= store.chunks[b].distance.value))
  }

  /** Each chunk is at least as near as the later ones; those without an embedding come last. */
  ghost predicate ByDistance(store: Store, rows: seq<nat>) {
    && (forall i :: 0 <= i < |rows| ==> rows[i] in store.chunks)
    && (forall i, j :: 0 <= i < j < |rows| ==>
          var x, y := store.chunks[rows[i]].distance, store.chunks[rows[j]].distance;
          (x.None? ==> y.None?) && (x.Some? && y.Some? ==> x.value <= y.value))
  }

  /** What the caller asks of a chunk and its document; an empty list or model asks for nothing. */
  predicate Eligible(store: Store, q: Request, id: nat) {
    id in store.chunks && store.chunks[id].documentId in store.documents
    && var chunk, document := store.chunks[id], store.documents[store.chunks[id].documentId];
       && chunk.organizationId == q.organizationId && document.isActive
       && (match q.documentIds case None => true case Some(ids) => |ids| > 0 ==> chunk.documentId in ids)
       && (match q.documentUuids case None => true case Some(uuids) => |uuids| > 0 ==> document.uuid in uuids)
       && (match q.embeddingModel
           case None => true
           case Some(model) => |model| > 0 ==> chunk.embeddingModel == Some(model))
  }

  lemma NearestIsByDistance(store: Store, q: Request, rows: seq<nat>)
    requires IsNearest(store, q, rows)
    ensures ByDistance(store, rows)
    ensures forall id :: Eligible(store, q, id) <==> WantedId(store, q, id)
    ensures forall id :: WantedId(store, q, id) && id !in rows ==>
      |rows| == q.limit && ByDistance(store, rows + [id])
  {
    forall i | 0 <= i < |rows| ensures rows[i] in store.chunks {
      assert rows[i] in rows;
    }
    forall id, i | WantedId(store, q, id) && id !in rows && 0 <= i < |rows| ensures NotFarther(store, rows[i], id) {
      assert rows[i] in rows;
    }
  }

  /** The `limit` nearest wanted chunks, nearest first. */
  ghost predicate IsNearest(store: Store, q: Request, rows: seq<nat>) {
    && Distinct(rows) && |rows| <= q.limit && (forall id :: id in rows ==> WantedId(store, q, id))
    && (forall i, j :: 0 <= i < j < |rows| ==> NotFarther(store, rows[i], rows[j]))
    && (forall id :: WantedId(store, q, id) && id !in rows ==>
          |rows| == q.limit && forall r :: r in rows ==> NotFarther(store, r, id))
  }
}
