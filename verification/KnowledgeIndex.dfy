/** Indexing one knowledge source: embedding its chunks in batches, publishing them, and the states in between. */
module KnowledgeIndex {
  import opened Outcomes
  import opened Chunker

  const BATCH := 64
  const STALE_AFTER := 15 * 60

  datatype Value = Finite(v: real) | NotFinite
  type Vector = seq<Value>

  datatype Signature = Signature(provider: string, model: string, dimension: nat)
  datatype Embedded = Embedded(draft: Chunk, vector: Vector)

  /** The gateway's answer for a batch. */
  datatype Answer = Vectors(provider: string, model: string, vectors: seq<Vector>) | RoutingFails(code: string, retryable: bool)
  datatype Failure = Failure(code: string, retryable: bool)
  datatype EmbedOutcome = Indexed(signature: Signature, chunks: seq<Embedded>) | Rejected(why: Failure)

  // ---------------------------------------------------------------- one batch

  predicate IsUsable(vector: Vector) {
    vector != [] && forall i :: 0 <= i < |vector| ==> vector[i].Finite?
  }

  predicate IsZero(vector: Vector) {
    forall i :: 0 <= i < |vector| ==> vector[i] == Finite(0.0)
  }

  /** _validate_vector over a batch: the first vector that is not acceptable decides. */
  function FirstInvalid(vectors: seq<Vector>): Option<Failure> {
    if vectors == [] then None
    else if !IsUsable(vectors[0]) then Some(Failure("knowledge_embedding_invalid", false))
    else if IsZero(vectors[0]) then Some(Failure("knowledge_embedding_zero_vector", false))
    else FirstInvalid(vectors[1..])
  }

  lemma {:induction false} ValidVectors(vectors: seq<Vector>)
    ensures FirstInvalid(vectors).None?
            <==> forall i :: 0 <= i < |vectors| ==> IsUsable(vectors[i]) && !IsZero(vectors[i])
  {
    if vectors != [] {
      ValidVectors(vectors[1..]);
      assert forall i :: 1 <= i < |vectors| ==> vectors[i] == vectors[1..][i - 1];
    }
  }

  predicate SameDimension(vectors: seq<Vector>) {
    forall i, j :: 0 <= i < |vectors| && 0 <= j < |vectors| ==> |vectors[i]| == |vectors[j]|
  }

  /** What is wrong with the answer for a batch of `size` chunks, checks in the order of the source. */
  function Objection(answer: Answer, size: nat): Option<Failure> {
    match answer
    case RoutingFails(code, retryable) => Some(Failure(code, retryable))
    case Vectors(_, _, vectors) =>
      if |vectors| != size then Some(Failure("knowledge_embedding_count_mismatch", true))
      else if FirstInvalid(vectors).Some? then FirstInvalid(vectors)
      else if !SameDimension(vectors) || vectors == [] then Some(Failure("knowledge_embedding_dimension_mismatch", true))
      else None
  }

  function SignatureOf(answer: Answer): Signature {
    if answer.Vectors? && answer.vectors != [] then Signature(answer.provider, answer.model, |answer.vectors[0]|)
    else Signature("", "", 0)
  }

  function Batches(n: nat): nat {
    (n + BATCH - 1) / BATCH
  }

  function BatchSize(n: nat, k: nat): nat
    requires k < Batches(n)
  {
    if (k + 1) * BATCH <= n then BATCH else n - k * BATCH
  }

  /** Batch k can be taken: nothing to object, and the signature of the first batch. */
  predicate BatchFits(n: nat, answers: seq<Answer>, k: nat)
    requires |answers| == Batches(n) && k < |answers|
  {
    Objection(answers[k], BatchSize(n, k)).None? && SignatureOf(answers[k]) == SignatureOf(answers[0])
  }

  /** Chunk i belongs to batch i / 64 and is paired with the vector at i % 64 of its answer. */
  ghost predicate Paired(chunks: seq<Chunk>, answers: seq<Answer>, i: nat, e: Embedded)
    requires i < |chunks|
  {
    && e.draft == chunks[i]
    && i / BATCH < |answers| && answers[i / BATCH].Vectors? && i % BATCH < |answers[i / BATCH].vectors|
    && e.vector == answers[i / BATCH].vectors[i % BATCH]
  }

  /** What is stored: something, and every vector of the signature's dimension. */
  predicate IsPublishable(signature: Signature, embedded: seq<Embedded>) {
    embedded != [] && forall i :: 0 <= i < |embedded| ==> |embedded[i].vector| == signature.dimension
  }

  lemma BatchOfIndex(n: nat, k: nat, j: nat)
    requires k < Batches(n) && j < BatchSize(n, k)
    ensures k * BATCH + j < n && (k * BATCH + j) / BATCH == k && (k * BATCH + j) % BATCH == j
  {
  }

  predicate AllBatchesFit(n: nat, answers: seq<Answer>)
    requires |answers| == Batches(n)
  {
    n > 0 && forall k :: 0 <= k < |answers| ==> BatchFits(n, answers, k)
  }

  /** The error of an embedding that fails: nothing to embed, or the first batch that does not fit. */
  ghost predicate IsEmbedError(chunks: seq<Chunk>, answers: seq<Answer>, why: Failure)
    requires |answers| == Batches(|chunks|)
  {
    if chunks == [] then why == Failure("knowledge_embedding_empty", false)
    else exists k :: 0 <= k < |answers| && !BatchFits(|chunks|, answers, k)
                     && (forall b :: 0 <= b < k ==> BatchFits(|chunks|, answers, b))
                     && why == BatchError(|chunks|, answers, k)
  }

  /** _embed_chunks: batches of 64 in order. It succeeds exactly when there are chunks and every batch fits, and then
      the result pairs the chunks with the vectors one by one, under one signature; otherwise the first batch that does
      not fit decides the error. */
  method EmbedChunks(chunks: seq<Chunk>, answers: seq<Answer>) returns (r: EmbedOutcome)
    requires |answers| == Batches(|chunks|)
    ensures r.Indexed? <==> AllBatchesFit(|chunks|, answers)
    ensures r.Indexed? ==> r.signature == SignatureOf(answers[0]) && IsPublishable(r.signature, r.chunks)
    ensures r.Indexed? ==> |r.chunks| == |chunks|
    ensures r.Indexed? ==> forall i :: 0 <= i < |chunks| ==> Paired(chunks, answers, i, r.chunks[i])
    ensures r.Rejected? ==> IsEmbedError(chunks, answers, r.why)
  {
    hide Objection, SignatureOf, BatchFits, PairedUpTo, BatchError, Paired, IsSound;
    var signature: Option<Signature> := None;
    var embedded: seq<Embedded> := [];
    var k := 0;
    NothingPaired(chunks, answers);
    while k * BATCH < |chunks|
      invariant k <= |answers|
      invariant forall b :: 0 <= b < k ==> BatchFits(|chunks|, answers, b)
      invariant |embedded| == if k * BATCH <= |chunks| then k * BATCH else |chunks|
      invariant PairedUpTo(chunks, answers, embedded)
      invariant signature == if k == 0 then None else Some(SignatureOf(answers[0]))
      decreases |chunks| - k * BATCH
    {
      var offset := k * BATCH;
      var end := if offset + BATCH <= |chunks| then offset + BATCH else |chunks|;
      var batch := chunks[offset..end];
      FitsIs(|chunks|, answers, k);
      var objection := Objection(answers[k], |batch|);
      if objection.Some? { return Rejected(objection.value); }
      var batchSignature := SignatureOf(answers[k]);
      if signature.None? {
        signature := Some(batchSignature);
      } else if signature.value != batchSignature {
        return Rejected(Failure("knowledge_embedding_signature_changed", true));
      }
      SizesAgree(answers[k], |batch|);
      var pairs := Pairs(batch, answers[k].vectors);
      MorePairs(chunks, answers, k, embedded, pairs);
      embedded := embedded + pairs;
      k := k + 1;
    }
    AllPaired(chunks, answers, embedded);
    if signature.None? || embedded == [] { return Rejected(Failure("knowledge_embedding_empty", false)); }
    return Indexed(signature.value, embedded);
  }

  /** The chunks taken so far, paired, all of the first batch's dimension. */
  ghost predicate PairedUpTo(chunks: seq<Chunk>, answers: seq<Answer>, embedded: seq<Embedded>) {
    && |embedded| <= |chunks|
    && forall i :: 0 <= i < |embedded| ==>
         Paired(chunks, answers, i, embedded[i]) && |embedded[i].vector| == SignatureOf(answers[0]).dimension
  }

  lemma NothingPaired(chunks: seq<Chunk>, answers: seq<Answer>)
    ensures PairedUpTo(chunks, answers, [])
  {
  }

  lemma AllPaired(chunks: seq<Chunk>, answers: seq<Answer>, embedded: seq<Embedded>)
    requires PairedUpTo(chunks, answers, embedded)
    ensures forall i :: 0 <= i < |embedded| ==> Paired(chunks, answers, i, embedded[i])
    ensures forall i :: 0 <= i < |embedded| ==> |embedded[i].vector| == SignatureOf(answers[0]).dimension
  {
  }

  lemma FitsIs(n: nat, answers: seq<Answer>, k: nat)
    requires |answers| == Batches(n) && k < |answers|
    ensures BatchFits(n, answers, k) <==> Objection(answers[k], BatchSize(n, k)).None?
                                          && SignatureOf(answers[k]) == SignatureOf(answers[0])
    ensures Objection(answers[k], BatchSize(n, k)).Some?
            ==> BatchError(n, answers, k) == Objection(answers[k], BatchSize(n, k)).value
    ensures Objection(answers[k], BatchSize(n, k)).None?
            ==> BatchError(n, answers, k) == Failure("knowledge_embedding_signature_changed", true)
  {
  }

  lemma MorePairs(chunks: seq<Chunk>, answers: seq<Answer>, k: nat, embedded: seq<Embedded>, pairs: seq<Embedded>)
    requires |answers| == Batches(|chunks|) && k < |answers| && BatchFits(|chunks|, answers, k)
    requires PairedUpTo(chunks, answers, embedded) && |embedded| == k * BATCH
    requires answers[k].Vectors? && |answers[k].vectors| == BatchSize(|chunks|, k)
    requires pairs == Pairs(chunks[k * BATCH..k * BATCH + BatchSize(|chunks|, k)], answers[k].vectors)
    ensures PairedUpTo(chunks, answers, embedded + pairs)
  {
    hide Objection, SignatureOf, Pairs;
    SizesAgree(answers[k], BatchSize(|chunks|, k));
    var all := embedded + pairs;
    forall i | 0 <= i < |all|
      ensures Paired(chunks, answers, i, all[i]) && |all[i].vector| == SignatureOf(answers[0]).dimension {
      if i >= |embedded| { BatchOfIndex(|chunks|, k, i - |embedded|); }
    }
  }

  lemma SizesAgree(answer: Answer, size: nat)
    requires Objection(answer, size).None?
    ensures answer.Vectors? && |answer.vectors| == size
    ensures forall j :: 0 <= j < size ==> |answer.vectors[j]| == SignatureOf(answer).dimension
  {
  }

  /** The error of a batch that does not fit. */
  function BatchError(n: nat, answers: seq<Answer>, k: nat): Failure
    requires |answers| == Batches(n) && k < |answers|
  {
    var objection := Objection(answers[k], BatchSize(n, k));
    if objection.Some? then objection.value else Failure("knowledge_embedding_signature_changed", true)
  }

  function Pairs(chunks: seq<Chunk>, vectors: seq<Vector>): (pairs: seq<Embedded>)
    requires |chunks| == |vectors|
    ensures |pairs| == |chunks|
    ensures forall j :: 0 <= j < |pairs| ==> pairs[j] == Embedded(chunks[j], vectors[j])
  {
    seq(|chunks|, j requires 0 <= j < |chunks| => Embedded(chunks[j], vectors[j]))
  }

  // ---------------------------------------------------------------- publication

  datatype Status = Queued | Processing | Ready | Failed
  datatype Source = Source(status: Status, error: Option<string>, chunkCount: nat, signature: Option<Signature>,
                           updatedAt: int)
  datatype Row = Row(ordinal: nat, content: string, vector: Vector, signature: Signature)

  /** A source and its chunk rows. */
  datatype SourceIndex = SourceIndex(source: Source, rows: seq<Row>)

  const NEW := SourceIndex(Source(Queued, None, 0, None, 0), [])

  /** _claim_source: whether the caller may index; an error when another worker is at it. Taking over a stale source
      assigns what is already there, so no column changes and its update time stays old. */
  function Claim(s: SourceIndex, now: int): (SourceIndex, Result<bool>) {
    if s.source.status.Ready? || s.source.status.Failed? then (s, Ok(false))
    else if s.source.status.Processing? && s.source.updatedAt >= now - STALE_AFTER then (s, Err("knowledge_source_busy"))
    else
      var taken := s.source.(status := Processing, error := None);
      (s.(source := if taken == s.source then taken else taken.(updatedAt := now)), Ok(true))
  }

  /** _set_source_state after a failure: queued again or failed, and no signature either way. It asks for no state. */
  function Abandon(s: SourceIndex, why: Failure): SourceIndex {
    s.(source := s.source.(status := if why.retryable then Queued else Failed, error := Some(why.code), signature := None))
  }

  function Rows(signature: Signature, embedded: seq<Embedded>): seq<Row> {
    if embedded == [] then []
    else
      var n := |embedded| - 1;
      Rows(signature, embedded[..n]) + [Row(n + 1, embedded[n].draft.content, embedded[n].vector, signature)]
  }

  const STATE_CHANGED := Failure("knowledge_source_state_changed", true)

  /** _persist_index. */
  function Persist(s: SourceIndex, signature: Signature, embedded: seq<Embedded>): (SourceIndex, Option<Failure>) {
    if !s.source.status.Processing? then (s, Some(STATE_CHANGED))
    else (SourceIndex(s.source.(status := Ready, error := None, chunkCount := |embedded|, signature := Some(signature)),
                Rows(signature, embedded)), None)
  }

  /** The reindex route, refused while a worker is at it; signature, rows and count stay. */
  function Reindex(s: SourceIndex): (SourceIndex, bool) {
    if s.source.status.Processing? then (s, false)
    else (s.(source := s.source.(status := Queued, error := None)), true)
  }

  class SourceTables {
    var source: Source
    var rows: seq<Row>

    ghost function Contents(): SourceIndex
      reads this
    {
      SourceIndex(source, rows)
    }

    method ClaimSource(now: int) returns (r: Result<bool>)
      modifies this
      ensures (Contents(), r) == Claim(old(Contents()), now)
    {
      if source.status.Ready? || source.status.Failed? { return Ok(false); }
      if source.status.Processing? && source.updatedAt >= now - STALE_AFTER { return Err("knowledge_source_busy"); }
      if source != source.(status := Processing, error := None) {
        source := source.(status := Processing, error := None, updatedAt := now);
      }
      return Ok(true);
    }

    method SetSourceState(status: Status, error: Option<string>)
      modifies `source
      ensures source == old(source).(status := status, error := error,
                                     signature := if status.Ready? then old(source).signature else None)
    {
      source := source.(status := status, error := error);
      if !status.Ready? { source := source.(signature := None); }
    }

    method PersistIndex(signature: Signature, embedded: seq<Embedded>) returns (refused: Option<Failure>)
      modifies this
      ensures (Contents(), refused) == Persist(old(Contents()), signature, embedded)
    {
      if !source.status.Processing? { return Some(STATE_CHANGED); }
      rows := [];
      for k := 0 to |embedded|
        invariant rows == Rows(signature, embedded[..k]) && source == old(source)
      {
        assert embedded[..k + 1][..k] == embedded[..k];
        rows := rows + [Row(k + 1, embedded[k].draft.content, embedded[k].vector, signature)];
      }
      assert embedded[..|embedded|] == embedded;
      source := source.(status := Ready, error := None, chunkCount := |embedded|, signature := Some(signature));
      return None;
    }

    /** process_knowledge_source after the claim, once the stored object has been parsed into chunks. */
    method IndexChunks(chunks: seq<Chunk>, answers: seq<Answer>) returns (done: bool)
      requires |answers| == Batches(|chunks|)
      modifies this
      ensures done <==> old(source).status.Processing? && AllBatchesFit(|chunks|, answers)
      ensures done ==> source == old(source).(status := Ready, error := None, chunkCount := |chunks|,
                                              signature := Some(SignatureOf(answers[0])))
      ensures done ==> |rows| == |chunks| && forall i :: 0 <= i < |rows| ==> IsRowOf(chunks, answers, i, rows[i])
      ensures !done ==> exists why :: Contents() == Abandon(old(Contents()), why)
                                      && if AllBatchesFit(|chunks|, answers) then why == STATE_CHANGED
                                         else IsEmbedError(chunks, answers, why)
    {
      hide AllBatchesFit, SignatureOf, IsEmbedError, Rows;
      var r := EmbedChunks(chunks, answers);
      var failed := if r.Rejected? then Some(r.why) else None;
      if r.Indexed? {
        failed := PersistIndex(r.signature, r.chunks);
        RowsAre(r.signature, r.chunks);
      }
      if failed.Some? {
        SetSourceState(if failed.value.retryable then Queued else Failed, Some(failed.value.code));
        assert Contents() == Abandon(old(Contents()), failed.value);
        return false;
      }
      forall i | 0 <= i < |rows| ensures IsRowOf(chunks, answers, i, rows[i]) {
        assert Paired(chunks, answers, i, r.chunks[i]);
      }
      return true;
    }
  }

  /** Row i of a published index: chunk i under ordinal i + 1 with its own vector and the signature of them all. */
  ghost predicate IsRowOf(chunks: seq<Chunk>, answers: seq<Answer>, i: nat, row: Row)
    requires i < |chunks| && |answers| == Batches(|chunks|)
  {
    && row.ordinal == i + 1 && row.content == chunks[i].content && row.signature == SignatureOf(answers[0])
    && answers[i / BATCH].Vectors? && i % BATCH < |answers[i / BATCH].vectors|
    && row.vector == answers[i / BATCH].vectors[i % BATCH]
  }

  lemma {:induction false} RowsAre(signature: Signature, embedded: seq<Embedded>)
    ensures |Rows(signature, embedded)| == |embedded|
    ensures forall i :: 0 <= i < |embedded|
                        ==> Rows(signature, embedded)[i] == Row(i + 1, embedded[i].draft.content, embedded[i].vector, signature)
  {
    if embedded != [] { RowsAre(signature, embedded[..|embedded| - 1]); }
  }

  /** A vector the index accepts: finite, not empty, not zero. */
  predicate IsSound(vector: Vector) {
    && vector != [] && (forall i :: 0 <= i < |vector| ==> vector[i].Finite?)
    && exists i :: 0 <= i < |vector| && vector[i] != Finite(0.0)
  }

  lemma SoundExactly(vector: Vector)
    ensures IsSound(vector) <==> IsUsable(vector) && !IsZero(vector)
  {
  }

  /** The first vector of an answer that is not sound decides the error, and no other try would help. */
  lemma {:induction false} FirstUnsoundDecides(vectors: seq<Vector>)
    ensures FirstInvalid(vectors).None? <==> forall j :: 0 <= j < |vectors| ==> IsSound(vectors[j])
    ensures forall j :: 0 <= j < |vectors| && !IsSound(vectors[j]) && (forall b :: 0 <= b < j ==> IsSound(vectors[b])) ==>
              FirstInvalid(vectors) == Some(Failure(if vectors[j] == [] || exists i :: 0 <= i < |vectors[j]| && vectors[j][i].NotFinite?
                                                    then "knowledge_embedding_invalid" else "knowledge_embedding_zero_vector", false))
  {
    hide IsSound;
    if vectors != [] {
      SoundExactly(vectors[0]);
      FirstUnsoundDecides(vectors[1..]);
      assert forall j :: 1 <= j < |vectors| ==> vectors[j] == vectors[1..][j - 1];
      if IsSound(vectors[0]) {
        forall j | 0 <= j < |vectors| && !IsSound(vectors[j]) && (forall b :: 0 <= b < j ==> IsSound(vectors[b]))
          ensures FirstInvalid(vectors) == FirstInvalid(vectors[1..]) && !IsSound(vectors[1..][j - 1])
                  && forall b :: 0 <= b < j - 1 ==> IsSound(vectors[1..][b]) {
          forall b | 0 <= b < j - 1 ensures IsSound(vectors[1..][b]) { assert vectors[1..][b] == vectors[b + 1]; }
        }
      }
    }
  }

  /** What is wrong with an answer, in the order of the checks; a wrong number or mixed dimensions may be tried again. */
  lemma ObjectionExactly(answer: Answer, size: nat)
    ensures answer.RoutingFails? ==> Objection(answer, size) == Some(Failure(answer.code, answer.retryable))
    ensures answer.Vectors? && |answer.vectors| != size ==>
              Objection(answer, size) == Some(Failure("knowledge_embedding_count_mismatch", true))
    ensures answer.Vectors? && |answer.vectors| == size > 0 && (forall j :: 0 <= j < size ==> IsSound(answer.vectors[j])) ==>
              Objection(answer, size) == if forall j :: 0 <= j < size ==> |answer.vectors[j]| == |answer.vectors[0]| then None
                                         else Some(Failure("knowledge_embedding_dimension_mismatch", true))
    ensures answer.Vectors? && |answer.vectors| == size && (exists j :: 0 <= j < size && !IsSound(answer.vectors[j])) ==>
              Objection(answer, size).Some? && Objection(answer, size) == FirstInvalid(answer.vectors)
  {
    hide IsSound, FirstInvalid;
    if answer.Vectors? { FirstUnsoundDecides(answer.vectors); }
  }

  /** A batch of at most 64 chunks is taken exactly when the gateway answers with one sound vector for each, all of the
      dimension, provider and model of the first batch. */
  lemma BatchFitsExactly(n: nat, answers: seq<Answer>, k: nat)
    requires |answers| == Batches(n) && k < |answers|
    requires answers[0].Vectors? && answers[0].vectors != []
    ensures BatchSize(n, k) == if n - 64 * k < 64 then n - 64 * k else 64
    ensures BatchFits(n, answers, k)
            <==> && answers[k].Vectors? && answers[k].provider == answers[0].provider && answers[k].model == answers[0].model
                 && |answers[k].vectors| == BatchSize(n, k)
                 && forall j :: 0 <= j < |answers[k].vectors| ==>
                      IsSound(answers[k].vectors[j]) && |answers[k].vectors[j]| == |answers[0].vectors[0]|
  {
    hide IsSound, Objection, BatchSize;
    SizeIs(n, k);
    ObjectionExactly(answers[k], BatchSize(n, k));
  }

  lemma SizeIs(n: nat, k: nat)
    requires k < Batches(n)
    ensures BatchSize(n, k) == if n - 64 * k < 64 then n - 64 * k else 64
    ensures BatchSize(n, k) > 0
  {
  }
}
