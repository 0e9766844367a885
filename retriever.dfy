/**
 * Rule retrieval: the vector store is asked for twice the wanted number of
 * candidates, and its answer is filtered by the similarity threshold,
 * de-duplicated by chunk id (first wins) and cut to `top_k`.
 *
 * The embedding call and the store query are one parameter, `store(query, n,
 * filter)`, which answers with the store's scored chunks or a failure.
 * Scores and thresholds are in thousandths.
 */
module Retriever {
  import opened Wrappers
  import opened Models
  import opened Dedup
  import QueryBuilder

  /** The settings' defaults: `top_k_rules` and `similarity_threshold` (0.7). */
  const DefaultTopK: int := 10
  const DefaultThreshold: int := 700

  /** The chunks scoring at least the threshold, in order. */
  function AboveThreshold(rs: seq<RuleChunk>, threshold: int): seq<RuleChunk>
    decreases |rs|
  {
    if |rs| == 0 then []
    else
      AboveThreshold(rs[..|rs| - 1], threshold)
      + (if rs[|rs| - 1].relevanceScore >= threshold then [rs[|rs| - 1]] else [])
  }

  /** The filter keeps exactly the chunks at or above the threshold, in their order. */
  lemma {:induction false} AboveThresholdCorrect(rs: seq<RuleChunk>, threshold: int) returns (idx: seq<int>)
    ensures forall r :: r in AboveThreshold(rs, threshold) <==> r in rs && r.relevanceScore >= threshold
    ensures SubseqAt(AboveThreshold(rs, threshold), rs, idx)
    decreases |rs|
  {
    if |rs| == 0 {
      idx := [];
    } else {
      var init := rs[..|rs| - 1];
      var last := rs[|rs| - 1];
      idx := AboveThresholdCorrect(init, threshold);
      assert init + [last] == rs;
      if last.relevanceScore >= threshold {
        SubseqSnoc(AboveThreshold(init, threshold), init, idx, last);
        idx := idx + [|init|];
      } else {
        SubseqExtend(AboveThreshold(init, threshold), init, idx, last);
      }
    }
  }

  /** Chunks are de-duplicated by chunk id. */
  function IdOf(r: RuleChunk): string {
    r.chunk.chunkId
  }

  /** `_deduplicate_chunks`: the first chunk of each id, in order. */
  method DeduplicateChunks(chunks: seq<RuleChunk>) returns (deduplicated: seq<RuleChunk>)
    ensures deduplicated == DedupBy(chunks, IdOf)
  {
    if |chunks| == 0 {
      return [];
    }
    var seenIds: set<string>;
    deduplicated, seenIds := DedupOnto([], {}, [], chunks, IdOf);
    assert [] + chunks == chunks;
  }

  /** Python's `s[:k]`: a negative `k` counts from the end. */
  function Take<T>(s: seq<T>, k: int): (r: seq<T>)
    ensures k >= 0 ==> r == s[..if k < |s| then k else |s|]
    ensures k < 0 ==> r == s[..if |s| + k > 0 then |s| + k else 0]
  {
    if k >= 0 then s[..if k < |s| then k else |s|]
    else s[..if |s| + k > 0 then |s| + k else 0]
  }

  /** What `retrieve_rules` returns for the store's candidates. */
  function PostProcess(candidates: seq<RuleChunk>, topK: int, threshold: int): (r: seq<RuleChunk>)
    ensures topK >= 0 ==> |r| <= topK
  {
    Take(DedupBy(AboveThreshold(candidates, threshold), IdOf), topK)
  }

  /** Every returned rule is a candidate scoring at least the threshold. */
  lemma PostProcessAboveThreshold(candidates: seq<RuleChunk>, topK: int, threshold: int)
    ensures forall r :: r in PostProcess(candidates, topK, threshold) ==>
              r in candidates && r.relevanceScore >= threshold
  {
    var filtered := AboveThreshold(candidates, threshold);
    var i1 := AboveThresholdCorrect(candidates, threshold);
    var deduplicated := DedupBy(filtered, IdOf);
    var i2 := DedupSubsequence(filtered, IdOf);
    var r := PostProcess(candidates, topK, threshold);
    assert r == deduplicated[..|r|];
    forall x | x in r
      ensures x in candidates && x.relevanceScore >= threshold
    {
      var k :| 0 <= k < |r| && r[k] == x;
      assert x == deduplicated[k] == filtered[i2[k]];
    }
  }

  /**
   * The store builds `RuleChunk` records, whose scores lie between 0.0 and
   * 1.0; post-processing keeps every returned rule a valid record scoring at
   * least the threshold.
   */
  lemma PostProcessValid(candidates: seq<RuleChunk>, topK: int, threshold: int)
    requires forall r :: r in candidates ==> ValidRuleChunk(r)
    ensures forall r :: r in PostProcess(candidates, topK, threshold) ==>
              ValidRuleChunk(r) && threshold <= r.relevanceScore
  {
    PostProcessAboveThreshold(candidates, topK, threshold);
  }

  /** Returned chunk ids are pairwise distinct. */
  lemma PostProcessDistinct(candidates: seq<RuleChunk>, topK: int, threshold: int)
    ensures DistinctKeys(PostProcess(candidates, topK, threshold), IdOf)
  {
    var deduplicated := DedupBy(AboveThreshold(candidates, threshold), IdOf);
    DedupKeys(AboveThreshold(candidates, threshold), IdOf);
    var r := PostProcess(candidates, topK, threshold);
    assert r == deduplicated[..|r|];
  }

  /** The result keeps some of the store's candidates, in the store's order. */
  lemma PostProcessSubsequence(candidates: seq<RuleChunk>, topK: int, threshold: int)
    ensures IsSubsequence(PostProcess(candidates, topK, threshold), candidates)
  {
    var filtered := AboveThreshold(candidates, threshold);
    var i1 := AboveThresholdCorrect(candidates, threshold);
    var deduplicated := DedupBy(filtered, IdOf);
    var i2 := DedupSubsequence(filtered, IdOf);
    var r := PostProcess(candidates, topK, threshold);
    assert r == deduplicated[..|r|];
    SubseqPrefix(deduplicated, |r|);
    SubseqCompose(r, deduplicated, filtered);
    SubseqCompose(r, filtered, candidates);
  }

  /** De-duplication keeps an empty list empty and is idempotent. */
  lemma DeduplicateIdempotent(chunks: seq<RuleChunk>)
    ensures chunks == [] ==> DedupBy(chunks, IdOf) == []
    ensures DedupBy(DedupBy(chunks, IdOf), IdOf) == DedupBy(chunks, IdOf)
  {
    DedupIdempotent(chunks, IdOf);
  }

  /**
   * What retrieval answers for resolved `topK` and `threshold`: the store's
   * failure, or its candidates filtered, de-duplicated and truncated.
   */
  function Retrieved(anchorTags: seq<string>, topK: int, threshold: int,
                     store: (string, int, Option<map<string, string>>) -> Result<seq<RuleChunk>, string>)
    : (r: Result<seq<RuleChunk>, string>)
    ensures store(QueryBuilder.BuildQuery(anchorTags), 2 * topK, None).Failure? <==> r.Failure?
    ensures r.Success? ==> r.value == PostProcess(store(QueryBuilder.BuildQuery(anchorTags), 2 * topK, None).value, topK, threshold)
  {
    match store(QueryBuilder.BuildQuery(anchorTags), 2 * topK, None)
    case Failure(e) => Failure(e)
    case Success(candidates) => Success(PostProcess(candidates, topK, threshold))
  }

  /**
   * `retrieve_rules`: resolve the defaults, query the store for `2 * top_k`
   * candidates with the (always empty, hence absent) metadata filter, then
   * filter, de-duplicate and truncate. A store failure propagates.
   */
  method RetrieveRules(anchorTags: seq<string>, topK: Option<int>, similarityThreshold: Option<int>,
                       settingsTopK: int, settingsThreshold: int,
                       store: (string, int, Option<map<string, string>>) -> Result<seq<RuleChunk>, string>)
    returns (r: Result<seq<RuleChunk>, string>)
    ensures r == Retrieved(anchorTags, OrDefault(topK, settingsTopK), OrDefault(similarityThreshold, settingsThreshold), store)
  {
    var k := OrDefault(topK, settingsTopK);
    var th := OrDefault(similarityThreshold, settingsThreshold);
    var query := QueryBuilder.BuildQuery(anchorTags);
    var metadataFilter := QueryBuilder.BuildMetadataFilter(anchorTags);
    var ruleChunks := store(query, k * 2, if metadataFilter != map[] then Some(metadataFilter) else None);
    if ruleChunks.Failure? {
      return Failure(ruleChunks.error);
    }
    var filtered := AboveThreshold(ruleChunks.value, th);
    var deduplicated := DeduplicateChunks(filtered);
    r := Success(Take(deduplicated, k));
  }
}
