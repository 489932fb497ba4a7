/**
 The question-answering service's bookkeeping over its chunk collection: the
 budgeted context it builds from retrieved chunks, the document list it derives
 from chunk metadata, the chunks a deletion selects, and the guards in front of
 the streamed answer. The vector store's similarity search, the embedding model,
 the tokenizer and the completion stream are inputs.
 */
module Retrieval {
  import opened Base
  import opened Text

  /** One chunk's metadata as ingestion writes it; a missing key reads as `None`. */
  datatype Meta = Meta(documentId: Option<string>, source: Option<string>, chunkId: Option<int>)

  /** The stored chunks: ids, metadata and texts, aligned by position. */
  datatype Collection = Collection(ids: seq<string>, metas: seq<Meta>, documents: seq<string>)

  /** One entry of the document list. */
  datatype DocumentInfo = DocumentInfo(documentId: Option<string>, filename: Option<string>)

  /** What a deletion removes: the chunk ids, and the upload file names it then deletes from disk. */
  datatype Deletion = Deletion(ids: seq<string>, filenames: set<Option<string>>)

  /** Context budget handed to the context builder, counted in tokens. */
  const MaxContextChars: int := 4000

  /** A collection as the store keeps it: aligned lists and unique ids. */
  predicate WellFormed(c: Collection) {
    && |c.ids| == |c.metas| == |c.documents|
    && forall i, j :: 0 <= i < j < |c.ids| ==> c.ids[i] != c.ids[j]
  }


  // ---------------------------------------------------------------------------
  // build_context
  // ---------------------------------------------------------------------------

  /** Python's f-string rendering of an optional string: the string, or `None`. */
  function ShowStr(o: Option<string>): string {
    match o
    case Some(s) => s
    case None => "None"
  }

  /** Python's f-string rendering of an optional integer. */
  function ShowInt(o: Option<int>): string {
    match o
    case Some(n) => IntToDecimal(n)
    case None => "None"
  }

  /** The header naming a chunk's source file and chunk number. */
  function Header(meta: Meta): string {
    "\n--- Source: " + ShowStr(meta.source) + " | Chunk: " + ShowInt(meta.chunkId) + " ---\n"
  }

  /** One formatted chunk: header, stripped text, newline. */
  function Piece(doc: string, meta: Meta): (p: string)
    ensures |p| > 0 && p[0] == '\n' && p[|p| - 1] == '\n'
  {
    Header(meta) + Strip(doc) + "\n"
  }

  /** Every candidate piece, pairing texts and metadata position by position (`zip` stops at the shorter). */
  function Pieces(documents: seq<string>, metas: seq<Meta>): (ps: seq<string>)
    ensures |ps| == Min(|documents|, |metas|)
    ensures forall i :: 0 <= i < |ps| ==> ps[i] == Piece(documents[i], metas[i])
  {
    seq(Min(|documents|, |metas|), i requires 0 <= i < Min(|documents|, |metas|) => Piece(documents[i], metas[i]))
  }

  /** Total tokens of a list of pieces under the tokenizer's count. */
  function Cost(ps: seq<string>, count: string -> nat): nat {
    if ps == [] then 0 else Cost(ps[..|ps| - 1], count) + count(ps[|ps| - 1])
  }

  /** The first `k` pieces fit the budget (taking none always does). */
  predicate Fits(ps: seq<string>, k: nat, maxChars: int, count: string -> nat)
    requires k <= |ps|
  {
    k == 0 || Cost(ps[..k], count) <= maxChars
  }

  /** A longer prefix never costs less: token counts are non-negative. */
  lemma {:induction false} CostMonotone(ps: seq<string>, i: nat, j: nat, count: string -> nat)
    requires i <= j <= |ps|
    ensures Cost(ps[..i], count) <= Cost(ps[..j], count)
    decreases j - i
  {
    if i < j {
      CostMonotone(ps, i, j - 1, count);
      assert ps[..j][..j - 1] == ps[..j - 1];
    }
  }

  /**
   The loop of `build_context` over the candidate pieces: keep each piece while
   the running total stays within the budget, and stop at the first piece that
   would exceed it.
   */
  method TakeWithinBudget(ps: seq<string>, maxChars: int, count: string -> nat) returns (formatted: seq<string>)
    ensures |formatted| <= |ps| && formatted == ps[..|formatted|]
    ensures Fits(ps, |formatted|, maxChars, count)
    ensures |formatted| < |ps| ==> Cost(ps[..|formatted| + 1], count) > maxChars
  {
    formatted := [];
    var total: nat := 0;
    var i := 0;
    while i < |ps|
      invariant i <= |ps|
      invariant formatted == ps[..i]
      invariant total == Cost(formatted, count)
      invariant Fits(ps, i, maxChars, count)
    {
      var piece := ps[i];
      if total + count(piece) > maxChars {
        assert ps[..i + 1][..i] == ps[..i];
        return;
      }
      assert ps[..i + 1] == formatted + [piece];
      assert (formatted + [piece])[..i] == formatted;
      formatted := formatted + [piece];
      total := total + count(piece);
      i := i + 1;
    }
  }

  /**
   `build_context`: the pieces of the zipped pairs that fit the budget, in
   order, joined with newlines. `included` is how many pieces were used.
   */
  method BuildContext(documents: seq<string>, metas: seq<Meta>, maxChars: int, count: string -> nat)
    returns (context: string, included: nat)
    ensures var ps := Pieces(documents, metas);
      && included <= |ps|
      && context == Join("\n", ps[..included])
      && Fits(ps, included, maxChars, count)
      && (included < |ps| ==> Cost(ps[..included + 1], count) > maxChars)
  {
    var ps := Pieces(documents, metas);
    var formatted := TakeWithinBudget(ps, maxChars, count);
    context := Join("\n", formatted);
    included := |formatted|;
  }

  /**
   `ctx` is what `build_context` returns for these pieces: the longest run of
   leading pieces within the budget, stopping at the first that overflows it.
   */
  predicate BudgetedContext(ps: seq<string>, ctx: string, maxChars: int, count: string -> nat) {
    exists n :: 0 <= n <= |ps| && ctx == Join("\n", ps[..n]) && Fits(ps, n, maxChars, count)
      && (n < |ps| ==> Cost(ps[..n + 1], count) > maxChars)
  }

  /**
   Greedy stop: once a piece would overflow the budget, no longer prefix fits,
   so no later piece is used even when it alone is small.
   */
  lemma NoLongerPrefixFits(ps: seq<string>, k: nat, j: nat, maxChars: int, count: string -> nat)
    requires k < j <= |ps|
    requires Cost(ps[..k + 1], count) > maxChars
    ensures !Fits(ps, j, maxChars, count)
  {
    CostMonotone(ps, k + 1, j, count);
  }

  /** The context is empty exactly when no piece was used; pieces are never empty. */
  lemma ContextEmptyIffNoPieces(ps: seq<string>)
    requires forall i :: 0 <= i < |ps| ==> |ps[i]| > 0
    ensures Join("\n", ps) == "" <==> ps == []
  {
  }

  // ---------------------------------------------------------------------------
  // list_documents
  // ---------------------------------------------------------------------------

  /** Position of the first chunk of a document, or the length when there is none. */
  function FirstIndex(metas: seq<Meta>, id: Option<string>): (k: nat)
    ensures k <= |metas|
    ensures k < |metas| ==> metas[k].documentId == id
    ensures forall j :: 0 <= j < k ==> metas[j].documentId != id
  {
    if metas == [] then 0
    else if metas[0].documentId == id then 0
    else 1 + FirstIndex(metas[1..], id)
  }

  function InfoOf(m: Meta): DocumentInfo {
    DocumentInfo(m.documentId, m.source)
  }

  function IdsOf(docs: seq<DocumentInfo>): set<Option<string>> {
    set k | 0 <= k < |docs| :: docs[k].documentId
  }

  function MetaIds(metas: seq<Meta>): set<Option<string>> {
    set i | 0 <= i < |metas| :: metas[i].documentId
  }

  /**
   The document list promised for a run of chunks: the ids listed are exactly
   the ids present, each entry is the first chunk of its document, and entries
   come in the order their documents were first seen (so no id repeats).
   */
  predicate ListsFirstSeen(metas: seq<Meta>, r: seq<DocumentInfo>) {
    && IdsOf(r) == MetaIds(metas)
    && (forall k :: 0 <= k < |r| ==>
         FirstIndex(metas, r[k].documentId) < |metas| && r[k] == InfoOf(metas[FirstIndex(metas, r[k].documentId)]))
    && (forall a, b :: 0 <= a < b < |r| ==>
         FirstIndex(metas, r[a].documentId) < FirstIndex(metas, r[b].documentId))
  }

  /** The de-duplication loop of `list_documents`, keyed by document id in insertion order. */
  function Distinct(metas: seq<Meta>): (r: seq<DocumentInfo>)
    ensures ListsFirstSeen(metas, r)
  {
    if metas == [] then []
    else
      var init := metas[..|metas| - 1];
      var m := metas[|metas| - 1];
      var prev := Distinct(init);
      assert init + [m] == metas;
      DistinctStep(init, m, prev);
      if m.documentId in IdsOf(prev) then prev else prev + [InfoOf(m)]
  }

  /** One more chunk: a known id changes nothing, a new id is listed last. */
  lemma DistinctStep(init: seq<Meta>, m: Meta, prev: seq<DocumentInfo>)
    requires ListsFirstSeen(init, prev)
    ensures ListsFirstSeen(init + [m], if m.documentId in IdsOf(prev) then prev else prev + [InfoOf(m)])
  {
    MetaIdsSnoc(init, m);
    if m.documentId in IdsOf(prev) {
      KnownIdStep(init, m, prev);
    } else {
      NewIdStep(init, m, prev);
    }
  }

  /** A listed entry keeps its first position and its first chunk when a chunk is appended. */
  lemma EntryStable(init: seq<Meta>, m: Meta, e: DocumentInfo)
    requires FirstIndex(init, e.documentId) < |init| && e == InfoOf(init[FirstIndex(init, e.documentId)])
    ensures FirstIndex(init + [m], e.documentId) == FirstIndex(init, e.documentId)
    ensures e == InfoOf((init + [m])[FirstIndex(init + [m], e.documentId)])
  {
    FirstIndexSnoc(init, m, e.documentId);
  }

  lemma KnownIdStep(init: seq<Meta>, m: Meta, prev: seq<DocumentInfo>)
    requires ListsFirstSeen(init, prev) && m.documentId in IdsOf(prev)
    requires MetaIds(init + [m]) == MetaIds(init) + {m.documentId}
    ensures ListsFirstSeen(init + [m], prev)
  {
    forall k | 0 <= k < |prev|
      ensures FirstIndex(init + [m], prev[k].documentId) == FirstIndex(init, prev[k].documentId)
      ensures prev[k] == InfoOf((init + [m])[FirstIndex(init + [m], prev[k].documentId)])
    {
      EntryStable(init, m, prev[k]);
    }
  }

  lemma NewIdStep(init: seq<Meta>, m: Meta, prev: seq<DocumentInfo>)
    requires ListsFirstSeen(init, prev) && m.documentId !in IdsOf(prev)
    requires MetaIds(init + [m]) == MetaIds(init) + {m.documentId}
    ensures ListsFirstSeen(init + [m], prev + [InfoOf(m)])
  {
    var metas := init + [m];
    var r := prev + [InfoOf(m)];
    IdsSnoc(prev, InfoOf(m));
    FirstIndexSnoc(init, m, m.documentId);
    FirstIndexFound(init, m.documentId);
    assert metas[|init|] == m;
    forall k | 0 <= k < |prev|
      ensures FirstIndex(metas, r[k].documentId) == FirstIndex(init, prev[k].documentId)
      ensures r[k] == InfoOf(metas[FirstIndex(metas, r[k].documentId)])
    {
      assert r[k] == prev[k];
      EntryStable(init, m, prev[k]);
    }
  }

  /** The ids listed after one more entry. */
  lemma IdsSnoc(docs: seq<DocumentInfo>, e: DocumentInfo)
    ensures IdsOf(docs + [e]) == IdsOf(docs) + {e.documentId}
  {
    var r := docs + [e];
    forall x | x in IdsOf(r) ensures x in IdsOf(docs) + {e.documentId} {
      var k :| 0 <= k < |r| && r[k].documentId == x;
      if k < |docs| { assert r[k] == docs[k]; }
    }
    forall x | x in IdsOf(docs) ensures x in IdsOf(r) {
      var k :| 0 <= k < |docs| && docs[k].documentId == x;
      assert r[k] == docs[k];
    }
    assert r[|docs|].documentId == e.documentId;
  }

  /** The ids present after one more chunk. */
  lemma MetaIdsSnoc(init: seq<Meta>, m: Meta)
    ensures MetaIds(init + [m]) == MetaIds(init) + {m.documentId}
  {
    var metas := init + [m];
    forall x | x in MetaIds(metas) ensures x in MetaIds(init) + {m.documentId} {
      var i :| 0 <= i < |metas| && metas[i].documentId == x;
      if i < |init| { assert init[i] == metas[i]; }
    }
    forall x | x in MetaIds(init) ensures x in MetaIds(metas) {
      var i :| 0 <= i < |init| && init[i].documentId == x;
      assert metas[i] == init[i];
    }
    assert metas[|init|].documentId == m.documentId;
  }

  /** A document's first chunk is found exactly when some chunk carries its id. */
  lemma FirstIndexFound(metas: seq<Meta>, id: Option<string>)
    ensures FirstIndex(metas, id) < |metas| <==> id in MetaIds(metas)
  {
    if id in MetaIds(metas) {
      var i :| 0 <= i < |metas| && metas[i].documentId == id;
    }
  }

  /** Appending a chunk leaves an earlier first position alone; a new id is first seen at the end. */
  lemma {:induction false} FirstIndexSnoc(metas: seq<Meta>, m: Meta, id: Option<string>)
    ensures FirstIndex(metas, id) < |metas| ==> FirstIndex(metas + [m], id) == FirstIndex(metas, id)
    ensures FirstIndex(metas, id) == |metas| && m.documentId == id ==> FirstIndex(metas + [m], id) == |metas|
  {
    if metas == [] {
      assert [] + [m] == [m];
    } else {
      FirstIndexSnoc(metas[1..], m, id);
      assert (metas + [m])[1..] == metas[1..] + [m];
      assert (metas + [m])[0] == metas[0];
    }
  }

  /** `list_documents`: an empty collection lists nothing; otherwise the distinct documents. */
  function ListDocuments(c: Collection): (r: seq<DocumentInfo>)
    ensures |c.ids| == 0 ==> r == []
    ensures |c.ids| > 0 ==> IdsOf(r) == MetaIds(c.metas)
    ensures forall a, b :: 0 <= a < b < |r| ==> r[a].documentId != r[b].documentId
  {
    if |c.ids| == 0 then [] else Distinct(c.metas)
  }

  // ---------------------------------------------------------------------------
  // delete_document
  // ---------------------------------------------------------------------------

  predicate BelongsTo(m: Meta, documentId: string) {
    m.documentId == Some(documentId)
  }

  /** The ids paired with metadata of the given document, in order (`zip` stops at the shorter). */
  function SelectIds(ids: seq<string>, metas: seq<Meta>, documentId: string): (r: seq<string>)
    ensures forall x :: x in r <==>
      exists i :: 0 <= i < Min(|ids|, |metas|) && ids[i] == x && BelongsTo(metas[i], documentId)
  {
    if ids == [] || metas == [] then []
    else
      var rest := SelectIds(ids[1..], metas[1..], documentId);
      forall x ensures x in rest <==>
        exists i :: 0 <= i < Min(|ids|, |metas|) && 0 < i && ids[i] == x && BelongsTo(metas[i], documentId)
      {
        if x in rest {
          var i :| 0 <= i < Min(|ids[1..]|, |metas[1..]|) && ids[1..][i] == x && BelongsTo(metas[1..][i], documentId);
          assert ids[i + 1] == x && metas[i + 1] == metas[1..][i];
        }
        if exists i :: 0 <= i < Min(|ids|, |metas|) && 0 < i && ids[i] == x && BelongsTo(metas[i], documentId) {
          var i :| 0 <= i < Min(|ids|, |metas|) && 0 < i && ids[i] == x && BelongsTo(metas[i], documentId);
          assert ids[1..][i - 1] == x && metas[1..][i - 1] == metas[i];
        }
      }
      if BelongsTo(metas[0], documentId) then [ids[0]] + rest else rest
  }

  /**
   `delete_document`: on a non-empty collection, the ids whose metadata names
   the document and the source names of its chunks; nothing when no chunk matches.
   */
  function DeletePlan(c: Collection, documentId: string): (d: Deletion)
    ensures d.ids == [] ==> d.filenames == {}
    ensures forall x :: x in d.ids <==>
      exists i :: 0 <= i < Min(|c.ids|, |c.metas|) && c.ids[i] == x && BelongsTo(c.metas[i], documentId)
  {
    if |c.ids| == 0 then Deletion([], {})
    else
      var selected := SelectIds(c.ids, c.metas, documentId);
      if selected == [] then Deletion([], {})
      else Deletion(selected, set i | 0 <= i < |c.metas| && BelongsTo(c.metas[i], documentId) :: c.metas[i].source)
  }

  /** Positions of the records whose id is not deleted, in increasing order. */
  function Kept(ids: seq<string>, gone: seq<string>): (ks: seq<nat>)
    ensures forall k :: 0 <= k < |ks| ==> ks[k] < |ids| && ids[ks[k]] !in gone
    ensures forall i :: 0 <= i < |ids| && ids[i] !in gone ==> i in ks
    ensures forall a, b :: 0 <= a < b < |ks| ==> ks[a] < ks[b]
  {
    if ids == [] then []
    else
      var n := |ids| - 1;
      var init := Kept(ids[..n], gone);
      if ids[n] in gone then init else init + [n]
  }

  /**
   The store after deleting the selected ids (the store's own `delete`): exactly
   the records at the kept positions remain, in their original order.
   */
  function RemoveIds(c: Collection, gone: seq<string>): (r: Collection)
    requires |c.ids| == |c.metas| == |c.documents|
    ensures |r.ids| == |r.metas| == |r.documents| == |Kept(c.ids, gone)|
    ensures forall k :: 0 <= k < |r.ids| ==>
      var i := Kept(c.ids, gone)[k];
      r.ids[k] == c.ids[i] && r.metas[k] == c.metas[i] && r.documents[k] == c.documents[i]
    decreases |c.ids|
  {
    if c.ids == [] then c
    else
      var n := |c.ids| - 1;
      var rest := RemoveIds(Collection(c.ids[..n], c.metas[..n], c.documents[..n]), gone);
      if c.ids[n] in gone then rest
      else Collection(rest.ids + [c.ids[n]], rest.metas + [c.metas[n]], rest.documents + [c.documents[n]])
  }

  /** In a store with unique ids, a deleted id belongs to a chunk of the deleted document. */
  lemma SelectedBelongs(c: Collection, documentId: string, i: int)
    requires WellFormed(c) && 0 <= i < |c.ids|
    ensures c.ids[i] in DeletePlan(c, documentId).ids <==> BelongsTo(c.metas[i], documentId)
  {
    if c.ids[i] in DeletePlan(c, documentId).ids {
      var j :| 0 <= j < Min(|c.ids|, |c.metas|) && c.ids[j] == c.ids[i] && BelongsTo(c.metas[j], documentId);
      assert i == j;
    }
  }

  /**
   Deleting a document from a well-formed store removes every chunk of it and
   keeps every chunk of every other document, so it drops out of the list.
   */
  lemma DeleteRemovesExactlyTheDocument(c: Collection, documentId: string)
    requires WellFormed(c)
    ensures var r := RemoveIds(c, DeletePlan(c, documentId).ids);
      && (forall k :: 0 <= k < |r.metas| ==> !BelongsTo(r.metas[k], documentId))
      && (forall i :: 0 <= i < |c.metas| && !BelongsTo(c.metas[i], documentId) ==> c.metas[i] in r.metas)
      && Some(documentId) !in IdsOf(ListDocuments(r))
  {
    var gone := DeletePlan(c, documentId).ids;
    var r := RemoveIds(c, gone);
    var ks := Kept(c.ids, gone);
    forall k | 0 <= k < |r.metas| ensures !BelongsTo(r.metas[k], documentId) {
      SelectedBelongs(c, documentId, ks[k]);
    }
    forall i | 0 <= i < |c.metas| && !BelongsTo(c.metas[i], documentId) ensures c.metas[i] in r.metas {
      SelectedBelongs(c, documentId, i);
      var k :| 0 <= k < |ks| && ks[k] == i;
      assert r.metas[k] == c.metas[i];
    }
    if |r.ids| > 0 {
      assert Some(documentId) !in MetaIds(r.metas);
    }
  }

  // ---------------------------------------------------------------------------
  // answer_question_stream
  // ---------------------------------------------------------------------------

  const EmptyQuestion: string := "Question cannot be empty."
  const EmptyStore: string := "Vector database is empty. Run ingestion first."
  const UnknownDocument: string := "Invalid document_id. Document not found."
  const NothingRetrieved: string := "Not found in document"

  /** The user message sent to the completion model. */
  function Prompt(context: string, question: string): string {
    "Context:\n" + context + "\n\nQuestion: " + question
  }

  /** All the text the completion stream carries, in order; a missing delta carries none. */
  function DeltaText(deltas: seq<Option<string>>): string {
    if deltas == [] then ""
    else (if deltas[0].Some? then deltas[0].value else "") + DeltaText(deltas[1..])
  }

  /**
   The completion deltas that carry text: missing and empty ones are skipped, so
   the replies spell out exactly the streamed text, in order.
   */
  function NonEmptyDeltas(deltas: seq<Option<string>>): (r: seq<string>)
    ensures forall k :: 0 <= k < |r| ==> r[k] != ""
    ensures forall k :: 0 <= k < |r| ==> Some(r[k]) in deltas
    ensures forall i :: 0 <= i < |deltas| && deltas[i].Some? && deltas[i].value != "" ==> deltas[i].value in r
    ensures Concat(r) == DeltaText(deltas)
    ensures |r| <= |deltas|
  {
    if deltas == [] then []
    else
      var rest := NonEmptyDeltas(deltas[1..]);
      assert forall k :: 0 <= k < |rest| ==> Some(rest[k]) in deltas by {
        forall k | 0 <= k < |rest| ensures Some(rest[k]) in deltas {
          var j :| 0 <= j < |deltas[1..]| && deltas[1..][j] == Some(rest[k]);
          assert deltas[j + 1] == Some(rest[k]);
        }
      }
      forall i | 0 < i < |deltas| && deltas[i].Some? && deltas[i].value != "" ensures deltas[i].value in rest {
        assert deltas[1..][i - 1] == deltas[i];
      }
      if deltas[0].Some? && deltas[0].value != "" then
        ConcatAppend([deltas[0].value], rest);
        assert Concat([deltas[0].value]) == deltas[0].value by { assert [deltas[0].value][..0] == []; }
        [deltas[0].value] + rest
      else rest
  }

  /**
   `answer_question_stream`: the guard messages, in the order the service checks
   them, each yielded alone; otherwise the prompt built from the retrieved chunks
   and the completion's non-empty deltas. `retrieved` and `retrievedMetas` are the
   similarity search's answer; `deltas` the completion stream.
   */
  method AnswerStream(question: string, documentId: string, c: Collection,
                      retrieved: seq<string>, retrievedMetas: seq<Meta>,
                      count: string -> nat, deltas: seq<Option<string>>)
    returns (prompt: Option<string>, replies: seq<string>)
    ensures AllPySpace(question) ==> prompt == None && replies == [EmptyQuestion]
    ensures !AllPySpace(question) && |c.ids| == 0 ==> prompt == None && replies == [EmptyStore]
    ensures !AllPySpace(question) && |c.ids| > 0 && !(exists i :: 0 <= i < |c.metas| && BelongsTo(c.metas[i], documentId))
      ==> prompt == None && replies == [UnknownDocument]
    ensures prompt.None? && replies != [EmptyQuestion] && replies != [EmptyStore] && replies != [UnknownDocument]
      ==> replies == [NothingRetrieved] && retrieved == []
    ensures !AllPySpace(question) && |c.ids| > 0 && (exists i :: 0 <= i < |c.metas| && BelongsTo(c.metas[i], documentId))
      ==> (prompt.None? <==> retrieved == []) && (retrieved == [] ==> replies == [NothingRetrieved])
    ensures prompt.Some? ==> retrieved != [] && replies == NonEmptyDeltas(deltas)
    ensures prompt.Some? ==> exists ctx ::
      (prompt.value == Prompt(ctx, question) && BudgetedContext(Pieces(retrieved, retrievedMetas), ctx, MaxContextChars, count))
  {
    if Strip(question) == "" {
      return None, [EmptyQuestion];
    }
    if |c.ids| == 0 {
      return None, [EmptyStore];
    }
    var found := exists i :: 0 <= i < |c.metas| && BelongsTo(c.metas[i], documentId);
    if !found {
      return None, [UnknownDocument];
    }
    if retrieved == [] {
      return None, [NothingRetrieved];
    }
    var context, included := BuildContext(retrieved, retrievedMetas, MaxContextChars, count);
    assert BudgetedContext(Pieces(retrieved, retrievedMetas), context, MaxContextChars, count);
    prompt := Some(Prompt(context, question));
    replies := NonEmptyDeltas(deltas);
  }
}
