/** prepareBatch (buffer.go): the documents of a flush, with their vectors asked for thirty-two texts at a time. */
module Embedding {
  import opened Wrappers
  import opened Nostr

  const MAX_EMBED_BATCH := 32

  type Vector = seq<real>

  /** text: what BuildEmbedText makes of the document. */
  datatype AmbDoc = AmbDoc(ev: Event, text: string, embedding: Option<Vector>)

  /** The embed service: the lists of texts it was called with, and what call k answers. */
  class Embedder {
    var calls: seq<seq<string>>
    const answers: nat -> Result<seq<Vector>>

    constructor (answers: nat -> Result<seq<Vector>>)
      ensures calls == [] && this.answers == answers
    {
      this.answers, calls := answers, [];
    }

    method Embed(texts: seq<string>) returns (vectors: Result<seq<Vector>>)
      modifies this
      ensures calls == old(calls) + [texts] && vectors == answers(|old(calls)|)
    {
      vectors := answers(|calls|);
      calls := calls + [texts];
    }
  }

  /** The documents of the events that convert, in order; convert gives the embed text. */
  function Converted(events: seq<Event>, convert: Event -> Result<string>): seq<AmbDoc>
    decreases |events|
  {
    if events == [] then []
    else
      var last := events[|events| - 1];
      var before := Converted(events[..|events| - 1], convert);
      match convert(last)
      case Ok(text) => before + [AmbDoc(last, text, None)]
      case Err(_) => before
  }

  /** The documents with something to embed. */
  function Pending(docs: seq<AmbDoc>): seq<nat>
    decreases |docs|
  {
    if docs == [] then []
    else
      var last := |docs| - 1;
      var before := Pending(docs[..last]);
      if docs[last].text == "" then before else before + [last]
  }

  /** pending lists, ascending, exactly the documents with something to embed. */
  ghost predicate Lists(pending: seq<nat>, docs: seq<AmbDoc>) {
    && (forall q :: 0 <= q < |pending| ==> pending[q] < |docs| && docs[pending[q]].text != "")
    && (forall p, q :: 0 <= p < q < |pending| ==> pending[p] < pending[q])
    && (forall i: nat :: i < |docs| && docs[i].text != "" ==> i in pending)
  }

  lemma {:induction false} PendingLists(docs: seq<AmbDoc>)
    ensures Lists(Pending(docs), docs)
    decreases |docs|, 0
  {
    if docs != [] {
      PendingStep(docs[..|docs| - 1], docs[|docs| - 1]);
      assert docs[..|docs| - 1] + [docs[|docs| - 1]] == docs;
    }
  }

  lemma {:induction false} PendingStep(docs: seq<AmbDoc>, doc: AmbDoc)
    ensures Lists(Pending(docs + [doc]), docs + [doc])
    decreases |docs|, 1
  {
    PendingLists(docs);
    assert Pending(docs + [doc]) == if doc.text == "" then Pending(docs) else Pending(docs) + [|docs|] by {
      assert (docs + [doc])[..|docs|] == docs;
    }
    hide Pending, Lists;
    ListsStep(Pending(docs), docs, doc);
  }

  lemma ListsStep(pending: seq<nat>, docs: seq<AmbDoc>, doc: AmbDoc)
    requires Lists(pending, docs)
    ensures Lists(if doc.text == "" then pending else pending + [|docs|], docs + [doc])
  {
    var more := if doc.text == "" then pending else pending + [|docs|];
    assert forall q :: 0 <= q < |pending| ==> more[q] == pending[q];
    forall i: nat | i < |docs + [doc]| && (docs + [doc])[i].text != "" ensures i in more {
      if i < |docs| {
        var q :| 0 <= q < |pending| && pending[q] == i;
        assert more[q] == i;
      } else {
        assert more[|pending|] == i;
      }
    }
  }

  /** The vector of the q-th pending document: the (q % 32)-th answer to its own call, the (q / 32)-th. */
  function VectorOf(q: nat, first: nat, answers: nat -> Result<seq<Vector>>): Option<Vector> {
    match answers(first + q / MAX_EMBED_BATCH)
    case Ok(vectors) => if q % MAX_EMBED_BATCH < |vectors| then Some(vectors[q % MAX_EMBED_BATCH]) else None
    case Err(_) => None
  }

  /** docs are those of origin, with the vectors of the first done pending ones. */
  ghost predicate Embedded(docs: seq<AmbDoc>, origin: seq<AmbDoc>, pending: seq<nat>, done: nat, first: nat,
                           answers: nat -> Result<seq<Vector>>) {
    && |docs| == |origin|
    && (forall i :: 0 <= i < |docs| ==> docs[i].(embedding := None) == origin[i])
    && (forall i :: 0 <= i < |docs| && origin[i].text == "" ==> docs[i].embedding == None)
    && (forall q :: 0 <= q < |pending| ==> pending[q] < |docs|)
    && (forall q :: 0 <= q < |pending| ==> docs[pending[q]].embedding == if q < done then VectorOf(q, first,
          answers) else None)
  }

  /** How many calls n texts take, rounded up. */
  function CallsFor(n: nat): nat {
    (n + MAX_EMBED_BATCH - 1) / MAX_EMBED_BATCH
  }

  /** Call k sent the next thirty-two texts, or all that were left. */
  ghost predicate Asked(calls: seq<seq<string>>, k: nat, first: nat, origin: seq<AmbDoc>, pending: seq<nat>) {
    first <= k < |calls| &&
    var start := MAX_EMBED_BATCH * (k - first);
    && start < |pending|
    && |calls[k]| == (if |pending| - start < MAX_EMBED_BATCH then |pending| - start else MAX_EMBED_BATCH)
    && forall j :: 0 <= j < |calls[k]| ==>
         pending[start + j] < |origin| && calls[k][j] == origin[pending[start + j]].text
  }

  ghost predicate AllAsked(calls: seq<seq<string>>, first: nat, origin: seq<AmbDoc>, pending: seq<nat>) {
    forall k: nat :: first <= k < |calls| ==> Asked(calls, k, first, origin, pending)
  }

  lemma Aligned(start: nat, q: nat)
    requires start % MAX_EMBED_BATCH == 0 && start <= q < start + MAX_EMBED_BATCH
    ensures q / MAX_EMBED_BATCH == start / MAX_EMBED_BATCH && q % MAX_EMBED_BATCH == q - start
  {
  }

  /** One document more. */
  lemma AttachStep(docs: seq<AmbDoc>, more: seq<AmbDoc>, origin: seq<AmbDoc>, pending: seq<nat>, q: nat, first: nat,
                   answers: nat -> Result<seq<Vector>>)
    requires Lists(pending, origin) && q < |pending| && Embedded(docs, origin, pending, q, first, answers)
    requires more == docs[pending[q] := docs[pending[q]].(embedding := VectorOf(q, first, answers))]
    ensures Embedded(more, origin, pending, q + 1, first, answers)
  {
    hide VectorOf;
  }

  /** Attaches the answers of one chunk; a failed call leaves its documents without a vector. */
  method Attach(docs: array<AmbDoc>, start: nat, end: nat, vectors: Result<seq<Vector>>, pending: seq<nat>,
                ghost origin: seq<AmbDoc>, ghost first: nat, ghost answers: nat -> Result<seq<Vector>>)
    requires Lists(pending, origin) && start % MAX_EMBED_BATCH == 0 && start <= end <= start + MAX_EMBED_BATCH &&
             end <= |pending|
    requires vectors == answers(first + start / MAX_EMBED_BATCH)
    requires Embedded(docs[..], origin, pending, start, first, answers)
    modifies docs
    ensures Embedded(docs[..], origin, pending, end, first, answers)
  {
    hide Lists;
    for i := start to end
      invariant Embedded(docs[..], origin, pending, i, first, answers)
    {
      Aligned(start, i);
      ghost var before := docs[..];
      assert before[pending[i]].embedding == None;
      if vectors.Ok? && i - start < |vectors.value| {
        docs[pending[i]] := docs[pending[i]].(embedding := Some(vectors.value[i - start]));
      }
      assert docs[..] == before[pending[i] := before[pending[i]].(embedding := VectorOf(i, first, answers))];
      AttachStep(before, docs[..], origin, pending, i, first, answers);
    }
  }

  /**
   One call for every thirty-two texts, each text sent once and in order; every document ends with the vector
   answered for its own text, or with none where that call failed or fell short.
   */
  method PrepareBatch(events: seq<Event>, convert: Event -> Result<string>, enabled: bool, embedder: Embedder)
    returns (docs: array<AmbDoc>, errs: nat)
    modifies embedder
    ensures fresh(docs) && docs.Length + errs == |events| && old(embedder.calls) <= embedder.calls
    ensures var origin, first := Converted(events, convert), |old(embedder.calls)|;
            var pending := Pending(origin);
            && Embedded(docs[..], origin, pending, if enabled then |pending| else 0, first, embedder.answers)
            && |embedder.calls| == first + (if enabled then CallsFor(|pending|) else 0)
            && AllAsked(embedder.calls, first, origin, pending)
  {
    hide Pending, Converted, Embedded, Lists, Asked, VectorOf;
    var list: seq<AmbDoc>;
    list, errs := Convert(events, convert);
    docs := new AmbDoc[|list|](i requires 0 <= i < |list| => list[i]);
    assert docs[..] == list;
    ghost var first := |embedder.calls|;
    PendingLists(list);
    FreshEmbedded(events, convert, first, embedder.answers);
    if !enabled { return; }
    var pending := Pending(list);
    var start := 0;
    ghost var c := 0;
    while start < |pending|
      invariant start == (if MAX_EMBED_BATCH * c < |pending| then MAX_EMBED_BATCH * c else |pending|)
      invariant MAX_EMBED_BATCH * c < |pending| + MAX_EMBED_BATCH
      invariant fresh(docs) && docs.Length == |list| &&
                Embedded(docs[..], list, pending, start, first, embedder.answers)
      invariant old(embedder.calls) <= embedder.calls && |embedder.calls| == first + c
      invariant AllAsked(embedder.calls, first, list, pending)
    {
      var end := if start + MAX_EMBED_BATCH > |pending| then |pending| else start + MAX_EMBED_BATCH;
      var texts := TextsOf(list, pending, start, end);
      AskMore(embedder.calls, first, list, pending, texts);
      var vectors := embedder.Embed(texts);
      Attach(docs, start, end, vectors, pending, list, first, embedder.answers);
      start := end;
      c := c + 1;
    }
  }

  /** The next chunk. */
  lemma AskMore(calls: seq<seq<string>>, first: nat, origin: seq<AmbDoc>, pending: seq<nat>, texts: seq<string>)
    requires AllAsked(calls, first, origin, pending) && Lists(pending, origin) && first <= |calls|
    requires var start := MAX_EMBED_BATCH * (|calls| - first);
             && start < |pending|
             && |texts| == (if |pending| - start < MAX_EMBED_BATCH then |pending| - start else MAX_EMBED_BATCH)
             && forall j :: 0 <= j < |texts| ==> texts[j] == origin[pending[start + j]].text
    ensures AllAsked(calls + [texts], first, origin, pending)
  {
    var more := calls + [texts];
    forall k: nat | first <= k < |more| ensures Asked(more, k, first, origin, pending) {
      if k < |calls| {
        assert more[k] == calls[k] && Asked(calls, k, first, origin, pending);
      } else {
        assert more[k] == texts;
      }
    }
  }

  method TextsOf(docs: seq<AmbDoc>, pending: seq<nat>, start: nat, end: nat) returns (texts: seq<string>)
    requires Lists(pending, docs) && start <= end <= |pending|
    ensures |texts| == end - start && forall j :: 0 <= j < |texts| ==> texts[j] == docs[pending[start + j]].text
  {
    texts := [];
    for j := start to end
      invariant |texts| == j - start && forall k :: 0 <= k < |texts| ==> texts[k] == docs[pending[start + k]].text
    {
      texts := texts + [docs[pending[j]].text];
    }
  }

  method Convert(events: seq<Event>, convert: Event -> Result<string>) returns (docs: seq<AmbDoc>, errs: nat)
    ensures docs == Converted(events, convert) && |docs| + errs == |events|
  {
    docs, errs := [], 0;
    for i := 0 to |events|
      invariant docs == Converted(events[..i], convert) && |docs| + errs == i
    {
      assert events[..i + 1][..i] == events[..i];
      match convert(events[i])
      case Ok(text) => docs := docs + [AmbDoc(events[i], text, None)];
      case Err(_) => errs := errs + 1;
    }
    assert events[..|events|] == events;
  }

  lemma {:induction false} ConvertedBare(events: seq<Event>, convert: Event -> Result<string>)
    ensures forall i :: 0 <= i < |Converted(events, convert)| ==> Converted(events, convert)[i].embedding == None
    decreases |events|
  {
    if events != [] { ConvertedBare(events[..|events| - 1], convert); }
  }

  lemma FreshEmbedded(events: seq<Event>, convert: Event -> Result<string>, first: nat,
                      answers: nat -> Result<seq<Vector>>)
    ensures var list := Converted(events, convert); Embedded(list, list, Pending(list), 0, first, answers)
  {
    hide Converted, Pending;
    ConvertedBare(events, convert);
    PendingLists(Converted(events, convert));
  }

  /** The vector came with the answer to a call that sent this text at that place. */
  ghost predicate AnsweredBy(k: nat, j: nat, calls: seq<seq<string>>, answers: nat -> Result<seq<Vector>>,
                             text: string, vector: Vector) {
    && k < |calls| && j < |calls[k]| && calls[k][j] == text
    && answers(k).Ok? && j < |answers(k).value| && answers(k).value[j] == vector
  }

  /** A vector on a document is one the service returned for that document's own text. */
  lemma OwnVector(docs: seq<AmbDoc>, origin: seq<AmbDoc>, calls: seq<seq<string>>, first: nat,
                  answers: nat -> Result<seq<Vector>>, i: nat)
    requires Embedded(docs, origin, Pending(origin), |Pending(origin)|, first, answers) && i < |docs| &&
             docs[i].embedding.Some?
    requires |calls| == first + CallsFor(|Pending(origin)|) && AllAsked(calls, first, origin, Pending(origin))
    ensures exists k, j :: AnsweredBy(k, j, calls, answers, docs[i].text, docs[i].embedding.value)
  {
    hide Pending, Asked;
    var pending := Pending(origin);
    PendingLists(origin);
    assert docs[i].(embedding := None) == origin[i];
    assert i in pending;
    var q :| 0 <= q < |pending| && pending[q] == i;
    var k, j := first + q / MAX_EMBED_BATCH, q % MAX_EMBED_BATCH;
    assert docs[pending[q]].embedding == VectorOf(q, first, answers);
    assert Asked(calls, k, first, origin, pending);
    SentAt(calls, first, origin, pending, q);
    assert AnsweredBy(k, j, calls, answers, docs[i].text, docs[i].embedding.value);
  }

  lemma SentAt(calls: seq<seq<string>>, first: nat, origin: seq<AmbDoc>, pending: seq<nat>, q: nat)
    requires q < |pending| && Asked(calls, first + q / MAX_EMBED_BATCH, first, origin, pending)
    ensures var k, j := first + q / MAX_EMBED_BATCH, q % MAX_EMBED_BATCH;
            j < |calls[k]| && pending[q] < |origin| && calls[k][j] == origin[pending[q]].text
  {
    var k, j := first + q / MAX_EMBED_BATCH, q % MAX_EMBED_BATCH;
    assert MAX_EMBED_BATCH * (k - first) + j == q;
    var text := calls[k][j];
    assert pending[MAX_EMBED_BATCH * (k - first) + j] < |origin|;
  }
}
