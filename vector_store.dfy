/** The retrieval-mode dispatcher returned by `get_retriever`: one of three
    strategies over a vector index, chosen by a mode string. The index (a
    similarity lookup, a scored similarity search and an MMR search) is a set
    of oracles; each call either answers or raises (`None`). Every call the
    dispatcher issues is recorded, in order, so that what it asks the index
    is part of its observable behaviour. */
module VectorStore {
  import opened Common
  import opened PyValues
  import opened Documents
  import opened Sorting
  import IncidentTokens

  /** The metadata filters the dispatcher sends. */
  datatype Filter =
    | IncidentNumberIs(number: string)   // {"incident_number": number}
    | TypeIn(types: seq<string>)         // {"type": {"$in": types}}

  const RelevantTypes: seq<string> := ["incident_details", "incident_resolution"]

  datatype IndexCall =
    | Lookup(query: string, k: nat, filter: Filter)        // similarity_search
    | ScoredSearch(query: string, k: nat, filter: Filter)  // similarity_search_with_score
    | Mmr(query: string, k: nat, fetchK: nat, lambda: real) // max_marginal_relevance_search

  datatype Index = Index(
    lookup: (string, nat, Filter) -> Option<seq<Document>>,
    scored: (string, nat, Filter) -> Option<seq<(Document, real)>>,
    mmr: (string, nat, nat, real) -> Option<seq<Document>>)

  /** What `get_retriever` binds: the index, the confidence threshold and the
      default mode. */
  datatype Retriever = Retriever(index: Index, minConfidence: real, searchMode: string)

  const DefaultMinConfidence: real := 0.5
  const DefaultSearchMode: string := "general"

  datatype Retrieval = Retrieval(docs: seq<Document>, calls: seq<IndexCall>)

  /** A lookup that honours its filter returns only documents carrying the
      requested incident number. */
  ghost predicate LookupHonoursFilter(index: Index) {
    forall q, k, t :: index.lookup(q, k, IncidentNumberIs(t)).Some? ==>
      forall d :: d in index.lookup(q, k, IncidentNumberIs(t)).value ==> HasMeta(d, "incident_number", t)
  }

  /** An MMR search that returns at most `k` documents. */
  ghost predicate MmrHonoursK(index: Index) {
    forall q, k, f, l :: index.mmr(q, k, f, l).Some? ==> |index.mmr(q, k, f, l).value| <= k
  }

  function OrEmpty<T>(reply: Option<seq<T>>): seq<T> {
    if reply.Some? then reply.value else []
  }

  function Min(a: int, b: int): int { if a <= b then a else b }

  /** `search_mode_override if search_mode_override else search_mode` */
  function EffectiveMode(bound: string, override: Option<string>): string {
    if override.Some? && override.value != "" then override.value else bound
  }

  function Score(p: (Document, real)): real { p.1 }

  function DocsOf(ps: seq<(Document, real)>): (ds: seq<Document>)
    ensures |ds| == |ps| && forall i :: 0 <= i < |ps| ==> ds[i] == ps[i].0
  {
    if ps == [] then [] else [ps[0].0] + DocsOf(ps[1..])
  }

  function WithScore(ds: seq<Document>, s: real): (ps: seq<(Document, real)>)
    ensures |ps| == |ds| && forall i :: 0 <= i < |ds| ==> ps[i] == (ds[i], s)
  {
    if ds == [] then [] else [(ds[0], s)] + WithScore(ds[1..], s)
  }

  // ----- incident_number mode -----

  function LookupCall(t: string): IndexCall {
    Lookup(t, 5, IncidentNumberIs(t))
  }

  /** The documents one token's lookup contributes: none if it raised. */
  function HitsOf(index: Index, t: string): seq<Document> {
    OrEmpty(index.lookup(t, 5, IncidentNumberIs(t)))
  }

  /** The concatenation, in token order, of every token's lookup. */
  function Hits(index: Index, tokens: seq<string>): seq<Document>
    decreases |tokens|
  {
    if tokens == [] then [] else Hits(index, tokens[..|tokens| - 1]) + HitsOf(index, tokens[|tokens| - 1])
  }

  function LookupCalls(tokens: seq<string>): (cs: seq<IndexCall>)
    ensures |cs| == |tokens| && forall i :: 0 <= i < |tokens| ==> cs[i] == LookupCall(tokens[i])
  {
    seq(|tokens|, i requires 0 <= i < |tokens| => LookupCall(tokens[i]))
  }

  lemma {:induction false} WithScoreConcat(a: seq<Document>, b: seq<Document>, s: real)
    ensures WithScore(a + b, s) == WithScore(a, s) + WithScore(b, s)
  {
    var whole := WithScore(a + b, s);
    var parts := WithScore(a, s) + WithScore(b, s);
    forall i | 0 <= i < |whole|
      ensures whole[i] == parts[i]
    {
      if i < |a| {
        assert (a + b)[i] == a[i];
      } else {
        assert (a + b)[i] == b[i - |a|];
      }
    }
  }

  lemma WithScoreSorted(ds: seq<Document>, s: real)
    ensures SortedDesc(WithScore(ds, s), Score, RealLe())
  {
  }

  /** One more token: one more lookup call, its hits appended. */
  lemma HitsStep(index: Index, tokens: seq<string>, i: nat)
    requires i < |tokens|
    ensures Hits(index, tokens[..i + 1]) == Hits(index, tokens[..i]) + HitsOf(index, tokens[i])
    ensures LookupCalls(tokens[..i + 1]) == LookupCalls(tokens[..i]) + [LookupCall(tokens[i])]
  {
    assert tokens[..i + 1][..i] == tokens[..i];
  }

  function IncidentNumberRetrieval(index: Index, query: string): Retrieval {
    var tokens := IncidentTokens.Extract(query);
    Retrieval(Hits(index, tokens), LookupCalls(tokens))
  }

  // ----- mmr_only mode -----

  function MmrOnlyRetrieval(index: Index, query: string): Retrieval {
    Retrieval(OrEmpty(index.mmr(query, 10, 20, 0.6)), [Mmr(query, 10, 20, 0.6)])
  }

  // ----- general mode -----

  /** The raw results whose score reaches the threshold, in raw order. */
  function AboveThreshold(raw: seq<(Document, real)>, minConfidence: real): (kept: seq<(Document, real)>)
    ensures |kept| <= |raw|
    ensures forall p :: p in kept <==> p in raw && p.1 >= minConfidence
  {
    if raw == [] then []
    else (if raw[0].1 >= minConfidence then [raw[0]] else []) + AboveThreshold(raw[1..], minConfidence)
  }

  /** The candidates handed to MMR: those above the threshold, or else the two
      best-scoring raw results under a stable descending sort. */
  function Survivors(raw: seq<(Document, real)>, minConfidence: real): seq<(Document, real)> {
    var kept := AboveThreshold(raw, minConfidence);
    if kept != [] then kept
    else
      var sorted := SortDesc(raw, Score, RealLe());
      SortDescPermutation(raw, Score, RealLe());
      assert |sorted| == |raw| by { assert |multiset(sorted)| == |multiset(raw)|; }
      sorted[..Min(2, |raw|)]
  }

  function GeneralRetrieval(r: Retriever, query: string): Retrieval {
    var first := ScoredSearch(query, 10, TypeIn(RelevantTypes));
    var raw := r.index.scored(query, 10, TypeIn(RelevantTypes));
    if raw.None? || raw.value == [] then Retrieval([], [first])
    else
      var n := |Survivors(raw.value, r.minConfidence)|;
      Retrieval(OrEmpty(r.index.mmr(query, Min(3, n), n, 0.6)), [first, Mmr(query, Min(3, n), n, 0.6)])
  }

  /** The dispatcher, as a function of the bound retriever, the query and the
      override. */
  function Dispatch(r: Retriever, query: string, override: Option<string>): Retrieval {
    var mode := EffectiveMode(r.searchMode, override);
    if mode == "incident_number" then IncidentNumberRetrieval(r.index, query)
    else if mode == "mmr_only" then MmrOnlyRetrieval(r.index, query)
    else GeneralRetrieval(r, query)
  }

  /** The `incident_number` branch of `custom_retriever`: one filtered lookup
      per extracted token, every hit scored 1.0, then the stable sort. */
  method IncidentNumberSearch(index: Index, query: string)
    returns (docs: seq<Document>, calls: seq<IndexCall>)
    ensures Retrieval(docs, calls) == IncidentNumberRetrieval(index, query)
  {
    var tokens := IncidentTokens.Extract(query);
    calls := [];
    if tokens == [] {
      return [], [];
    }
    var results: seq<(Document, real)> := [];
    var i := 0;
    while i < |tokens|
      invariant 0 <= i <= |tokens|
      invariant results == WithScore(Hits(index, tokens[..i]), 1.0)
      invariant calls == LookupCalls(tokens[..i])
    {
      var t := tokens[i];
      var matches := index.lookup(t, 5, IncidentNumberIs(t));
      calls := calls + [LookupCall(t)];
      if matches.Some? && matches.value != [] {
        results := results + WithScore(matches.value, 1.0);
      }
      HitsStep(index, tokens, i);
      WithScoreConcat(Hits(index, tokens[..i]), HitsOf(index, t), 1.0);
      i := i + 1;
    }
    assert tokens[..i] == tokens;
    if results == [] {
      return [], calls;
    }
    WithScoreSorted(Hits(index, tokens), 1.0);
    SortDescOfSorted(results, Score, RealLe());
    results := SortDesc(results, Score, RealLe());
    docs := DocsOf(results);
  }

  /** The `general` branch: the scored search, the threshold or the top-two
      fallback, then MMR over the whole index with `k = min(3, n)`. */
  method GeneralSearch(r: Retriever, query: string)
    returns (docs: seq<Document>, calls: seq<IndexCall>)
    ensures Retrieval(docs, calls) == GeneralRetrieval(r, query)
  {
    var reply := r.index.scored(query, 10, TypeIn(RelevantTypes));
    calls := [ScoredSearch(query, 10, TypeIn(RelevantTypes))];
    if reply.None? || reply.value == [] {
      return [], calls;
    }
    var filtered := Survivors(reply.value, r.minConfidence);
    var n := |filtered|;
    var mmrReply := r.index.mmr(query, Min(3, n), n, 0.6);
    calls := calls + [Mmr(query, Min(3, n), n, 0.6)];
    docs := OrEmpty(mmrReply);
  }

  /** `custom_retriever(query, search_mode_override)`: the effective mode picks
      the branch; anything other than the two named modes is `general`. */
  method CustomRetriever(r: Retriever, query: string, override: Option<string>)
    returns (docs: seq<Document>, calls: seq<IndexCall>)
    ensures Retrieval(docs, calls) == Dispatch(r, query, override)
  {
    var mode := EffectiveMode(r.searchMode, override);
    if mode == "incident_number" {
      docs, calls := IncidentNumberSearch(r.index, query);
    } else if mode == "mmr_only" {
      docs := OrEmpty(r.index.mmr(query, 10, 20, 0.6));
      calls := [Mmr(query, 10, 20, 0.6)];
    } else {
      docs, calls := GeneralSearch(r, query);
    }
  }

  // ----- properties -----

  /** A non-empty override picks the mode, else the bound mode does; any mode
      other than the two named ones runs the general branch. */
  lemma ModeSelection(r: Retriever, query: string, override: Option<string>)
    ensures override.Some? && override.value != "" ==> EffectiveMode(r.searchMode, override) == override.value
    ensures override.None? || override.value == "" ==> EffectiveMode(r.searchMode, override) == r.searchMode
    ensures EffectiveMode(r.searchMode, override) !in {"incident_number", "mmr_only"} ==>
      Dispatch(r, query, override) == GeneralRetrieval(r, query)
  {
  }

  /** `mmr_only` issues exactly one MMR call, with `k = 10`, `fetch_k = 20`
      and `lambda = 0.6`, and returns its answer unchanged, or nothing when
      it raises. */
  lemma MmrOnlySingleCall(r: Retriever, query: string, override: Option<string>)
    requires EffectiveMode(r.searchMode, override) == "mmr_only"
    ensures Dispatch(r, query, override).calls == [Mmr(query, 10, 20, 0.6)]
    ensures r.index.mmr(query, 10, 20, 0.6).Some? ==>
      Dispatch(r, query, override).docs == r.index.mmr(query, 10, 20, 0.6).value
    ensures r.index.mmr(query, 10, 20, 0.6).None? ==> Dispatch(r, query, override).docs == []
  {
  }

  lemma {:induction false} HitsConcat(index: Index, a: seq<string>, b: seq<string>)
    ensures Hits(index, a + b) == Hits(index, a) + Hits(index, b)
    decreases |b|
  {
    if b == [] {
      assert a + b == a;
    } else {
      var b' := b[..|b| - 1];
      HitsConcat(index, a, b');
      assert (a + b)[..|a + b| - 1] == a + b';
    }
  }

  /** A lookup that raises drops that token's hits and nothing else. */
  lemma RaisingLookupSkipped(index: Index, a: seq<string>, t: string, b: seq<string>)
    requires index.lookup(t, 5, IncidentNumberIs(t)).None?
    ensures Hits(index, a + [t] + b) == Hits(index, a) + Hits(index, b)
  {
    HitsConcat(index, a + [t], b);
    HitsConcat(index, a, [t]);
    assert [t][..0] == [];
  }

  /** With a lookup that honours its filter, every document the
      incident-number mode returns carries one of the query's incident
      numbers. */
  lemma {:induction false} HitsCarryQueriedNumber(index: Index, tokens: seq<string>)
    requires LookupHonoursFilter(index)
    ensures forall d :: d in Hits(index, tokens) ==>
      exists j :: 0 <= j < |tokens| && HasMeta(d, "incident_number", tokens[j])
    decreases |tokens|
  {
    if tokens != [] {
      var init := tokens[..|tokens| - 1];
      var t := tokens[|tokens| - 1];
      HitsCarryQueriedNumber(index, init);
      forall d | d in Hits(index, tokens)
        ensures exists j :: 0 <= j < |tokens| && HasMeta(d, "incident_number", tokens[j])
      {
        if d in Hits(index, init) {
          var j :| 0 <= j < |init| && HasMeta(d, "incident_number", init[j]);
          assert tokens[j] == init[j];
        } else {
          assert d in HitsOf(index, t);
          assert HasMeta(d, "incident_number", tokens[|tokens| - 1]);
        }
      }
    }
  }

  /** The incident-number mode issues no call and returns nothing exactly when
      the upper-cased query holds no `INC` followed by a digit. */
  lemma IncidentModeSilentIff(index: Index, query: string)
    ensures var u := Text.Upper(query);
      IncidentNumberRetrieval(index, query).calls == [] <==> forall i :: 0 <= i < |u| ==> !IncidentTokens.MatchAt(u, i)
    ensures IncidentNumberRetrieval(index, query).calls == [] ==> IncidentNumberRetrieval(index, query).docs == []
  {
    var u := Text.Upper(query);
    var tokens := IncidentTokens.Extract(query);
    assert tokens == IncidentTokens.Scan(u);
    IncidentTokens.ScanEmptyIff(u);
    var calls := IncidentNumberRetrieval(index, query).calls;
    assert calls == LookupCalls(tokens);
    assert calls == [] <==> tokens == [];
    assert tokens == [] <==> forall i :: 0 <= i < |u| ==> !IncidentTokens.MatchAt(u, i);
  }

  /** When some raw result reaches the threshold, MMR is given exactly those
      results: all of them reach it and none that reaches it is missing. */
  lemma SurvivorsAboveThreshold(raw: seq<(Document, real)>, minConfidence: real)
    requires exists p :: p in raw && p.1 >= minConfidence
    ensures forall p :: p in Survivors(raw, minConfidence) <==> p in raw && p.1 >= minConfidence
  {
    var p :| p in raw && p.1 >= minConfidence;
    assert p in AboveThreshold(raw, minConfidence);
  }

  /** When none reaches the threshold, the fallback keeps the first
      `min(2, len(raw))` of the stably sorted raw results: they are raw
      results, and no raw result left out scores higher than one kept. */
  lemma SurvivorsFallback(raw: seq<(Document, real)>, minConfidence: real)
    requires raw != []
    requires forall p :: p in raw ==> p.1 < minConfidence
    ensures var surv := Survivors(raw, minConfidence);
      var sorted := SortDesc(raw, Score, RealLe());
      && |sorted| == |raw| && |surv| == Min(2, |raw|) && surv == sorted[..|surv|]
      && multiset(surv) <= multiset(raw)
      && forall i, j :: 0 <= i < |surv| <= j < |sorted| ==> sorted[j].1 <= surv[i].1
  {
    var sorted := SortDesc(raw, Score, RealLe());
    FallbackIsSortedHead(raw, minConfidence);
    SortDescPermutation(raw, Score, RealLe());
    SortDescSorted(raw, Score, RealLe());
    HeadOfPermutation(sorted, raw, Min(2, |raw|));
    HeadScoresHigher(sorted, Min(2, |raw|));
  }

  /** With none above the threshold, the survivors are the head of the
      sorted raw results. */
  lemma FallbackIsSortedHead(raw: seq<(Document, real)>, minConfidence: real)
    requires forall p :: p in raw ==> p.1 < minConfidence
    ensures var sorted := SortDesc(raw, Score, RealLe());
      |sorted| == |raw| && Survivors(raw, minConfidence) == sorted[..Min(2, |raw|)]
  {
    NoneAboveThreshold(raw, minConfidence);
    SortDescPermutation(raw, Score, RealLe());
    var sorted := SortDesc(raw, Score, RealLe());
    assert |sorted| == |raw| by { assert |multiset(sorted)| == |multiset(raw)|; }
  }

  /** The head of a permutation holds nothing the original lacks. */
  lemma HeadOfPermutation(sorted: seq<(Document, real)>, raw: seq<(Document, real)>, n: nat)
    requires multiset(sorted) == multiset(raw) && n <= |sorted|
    ensures multiset(sorted[..n]) <= multiset(raw)
  {
    assert sorted == sorted[..n] + sorted[n..];
  }

  /** In a list sorted by descending score, nothing after the first `n`
      scores higher than one of them. */
  lemma HeadScoresHigher(sorted: seq<(Document, real)>, n: nat)
    requires SortedDesc(sorted, Score, RealLe()) && n <= |sorted|
    ensures forall i, j :: 0 <= i < n <= j < |sorted| ==> sorted[j].1 <= sorted[i].1
  {
  }

  lemma {:induction false} NoneAboveThreshold(raw: seq<(Document, real)>, minConfidence: real)
    requires forall p :: p in raw ==> p.1 < minConfidence
    ensures AboveThreshold(raw, minConfidence) == []
  {
    if raw != [] {
      assert raw[0] in raw;
      NoneAboveThreshold(raw[1..], minConfidence);
    }
  }

  /** A non-empty raw result always leaves at least one candidate. */
  lemma SurvivorsNonEmpty(raw: seq<(Document, real)>, minConfidence: real)
    requires raw != []
    ensures Survivors(raw, minConfidence) != []
  {
    if AboveThreshold(raw, minConfidence) == [] {
      SortDescPermutation(raw, Score, RealLe());
      var sorted := SortDesc(raw, Score, RealLe());
      assert |sorted| == |raw| by { assert |multiset(sorted)| == |multiset(raw)|; }
    }
  }

  /** With an MMR search that honours `k`, the general mode returns at most
      three documents, and at most two when nothing reached the threshold;
      MMR is always asked for at least one. */
  lemma GeneralBounded(r: Retriever, query: string)
    requires MmrHonoursK(r.index)
    ensures |GeneralRetrieval(r, query).docs| <= 3
    ensures var raw := r.index.scored(query, 10, TypeIn(RelevantTypes));
      (raw.Some? && raw.value != [] && (forall p :: p in raw.value ==> p.1 < r.minConfidence))
      ==> |GeneralRetrieval(r, query).docs| <= 2
    ensures |GeneralRetrieval(r, query).calls| == 2 ==> GeneralRetrieval(r, query).calls[1].k >= 1
  {
    var raw := r.index.scored(query, 10, TypeIn(RelevantTypes));
    if raw.Some? && raw.value != [] {
      var n := |Survivors(raw.value, r.minConfidence)|;
      SurvivorsNonEmpty(raw.value, r.minConfidence);
      if forall p :: p in raw.value ==> p.1 < r.minConfidence {
        SurvivorsFallback(raw.value, r.minConfidence);
      }
      assert r.index.mmr(query, Min(3, n), n, 0.6).Some? ==> |r.index.mmr(query, Min(3, n), n, 0.6).value| <= Min(3, n);
    }
  }

  /** The documents the general mode returns come from MMR over the whole
      index, not from the filtered candidates: an index whose MMR search
      answers with an `incident_status_count` document makes the general mode
      return it although the scored search never produced it. */
  lemma GeneralMayReturnUnfilteredDocument()
    ensures var detail := Document("Incident Number: INC1", map["type" := Str("incident_details")]);
      var counts := Document("Total incidents: 3", map["type" := Str("incident_status_count")]);
      var index := Index((q, k, f) => None, (q, k, f) => Some([(detail, 0.9)]), (q, k, f, l) => Some([counts]));
      var r := Retriever(index, DefaultMinConfidence, DefaultSearchMode);
      && Dispatch(r, "status", None).docs == [counts]
      && counts !in DocsOf(Survivors([(detail, 0.9)], DefaultMinConfidence))
  {
    var detail := Document("Incident Number: INC1", map["type" := Str("incident_details")]);
    var counts := Document("Total incidents: 3", map["type" := Str("incident_status_count")]);
    assert AboveThreshold([(detail, 0.9)], DefaultMinConfidence) == [(detail, 0.9)];
    assert detail != counts;
  }
}
