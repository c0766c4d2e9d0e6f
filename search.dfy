/**
 * The filter construction of the `/search` handler (routes/search.py).
 *
 * The handler reads five optional string query parameters, grows a list of
 * "must" conditions for the vector-search service one conditional append at a
 * time, wraps that list into a filter (or sends no filter when it is empty),
 * and finally projects every returned point onto an `{id, score, payload}`
 * record. The embedding calls and the vector-search query itself are external
 * services; here the points they return are a parameter.
 */
module Search {
  import opened Wrappers

  // ---------------------------------------------------------------------------
  // Query parameters

  /** The optional filter parameters of `GET /search`; a missing one is `None`. */
  datatype Params = Params(
    requestType: Option<string>,
    attachments: Option<string>,
    isInternal: Option<string>,
    dateFrom: Option<string>,
    dateTo: Option<string>)

  /** Python truthiness of a `str | None` value: neither `None` nor the empty string. */
  predicate Truthy(s: Option<string>)
  {
    s.Some? && s.value != ""
  }

  // ---------------------------------------------------------------------------
  // The filter objects handed to the vector-search client

  /** The value a field must equal (`MatchValue(value=...)`). */
  datatype MatchValue = BoolMatch(b: bool) | StrMatch(s: string)

  /** A date interval (`DatetimeRange`); each bound is optional and kept as an opaque string. */
  datatype DatetimeRange = DatetimeRange(
    lt: Option<string>,
    gt: Option<string>,
    gte: Option<string>,
    lte: Option<string>)

  /** A condition on one payload field: either an exact match or a date range. */
  datatype FieldCondition =
    | MatchCondition(key: string, value: MatchValue)
    | RangeCondition(key: string, range: DatetimeRange)

  /** A filter whose conditions must all hold. */
  datatype Filter = Filter(must: seq<FieldCondition>)

  /** The payload keys the handler filters on, in the order it considers them. */
  const FilterKeys: seq<string> := ["attachments", "is_internal", "request_type", "date"]

  /** Position of a key in `FilterKeys`; 4 for a key the handler never uses. */
  function Rank(key: string): (r: nat)
    ensures r <= 4
    ensures r < 4 <==> key in FilterKeys
    ensures r < 4 ==> FilterKeys[r] == key
  {
    if key == "attachments" then 0
    else if key == "is_internal" then 1
    else if key == "request_type" then 2
    else if key == "date" then 3
    else 4
  }

  /** Every key is one of `FilterKeys` and keys appear in strictly increasing `FilterKeys` order. */
  predicate Ranked(conds: seq<FieldCondition>)
  {
    (forall i :: 0 <= i < |conds| ==> Rank(conds[i].key) < 4) &&
    (forall i, j :: 0 <= i < j < |conds| ==> Rank(conds[i].key) < Rank(conds[j].key))
  }

  /** The keys of a condition list, in order. */
  function Keys(conds: seq<FieldCondition>): (ks: seq<string>)
    ensures |ks| == |conds|
    ensures forall i :: 0 <= i < |conds| ==> ks[i] == conds[i].key
  {
    if conds == [] then [] else [conds[0].key] + Keys(conds[1..])
  }

  // ---------------------------------------------------------------------------
  // Specification of the condition list

  /** `[MatchCondition("attachments", true)]` when `attachments` is exactly "true". */
  function AttachmentsSegment(p: Params): seq<FieldCondition>
  {
    if p.attachments == Some("true") then [MatchCondition("attachments", BoolMatch(true))] else []
  }

  /** `[MatchCondition("is_internal", true)]` when `is_internal` is exactly "true". */
  function InternalSegment(p: Params): seq<FieldCondition>
  {
    if p.isInternal == Some("true") then [MatchCondition("is_internal", BoolMatch(true))] else []
  }

  /** A match on the given request type, unless it is missing, empty or "all". */
  function RequestTypeSegment(p: Params): seq<FieldCondition>
  {
    if Truthy(p.requestType) && p.requestType.value != "all"
    then [MatchCondition("request_type", StrMatch(p.requestType.value))]
    else []
  }

  /** A date range over the truthy bounds, when at least one bound is truthy. */
  function DateSegment(p: Params): seq<FieldCondition>
  {
    if Truthy(p.dateFrom) || Truthy(p.dateTo)
    then [RangeCondition("date", DatetimeRange(
            None, None,
            if Truthy(p.dateFrom) then p.dateFrom else None,
            if Truthy(p.dateTo) then p.dateTo else None))]
    else []
  }

  /**
   * The condition list the handler sends: one optional segment per filter,
   * in the order attachments, is_internal, request_type, date.
   */
  function Conditions(p: Params): seq<FieldCondition>
  {
    AttachmentsSegment(p) + InternalSegment(p) + RequestTypeSegment(p) + DateSegment(p)
  }

  // ---------------------------------------------------------------------------
  // The handler's steps

  /** Value of `key` in a keyword-argument dictionary, `None` when the key is absent. */
  function Kwarg(kwargs: map<string, string>, key: string): (r: Option<string>)
    ensures r.Some? <==> key in kwargs
    ensures r.Some? ==> r.value == kwargs[key]
  {
    if key in kwargs then Some(kwargs[key]) else None
  }

  /**
   * `DatetimeRange(**kwargs)` for the dictionary the handler fills, which only
   * ever holds `gte` and `lte`: each of those is set exactly when the
   * dictionary names it, and the strict bounds stay unset.
   */
  function RangeFromKwargs(kwargs: map<string, string>): (r: DatetimeRange)
    requires kwargs.Keys <= {"gte", "lte"}
    ensures r.lt.None? && r.gt.None?
    ensures r.gte.Some? <==> "gte" in kwargs
    ensures r.gte.Some? ==> r.gte.value == kwargs["gte"]
    ensures r.lte.Some? <==> "lte" in kwargs
    ensures r.lte.Some? ==> r.lte.value == kwargs["lte"]
  {
    DatetimeRange(Kwarg(kwargs, "lt"), Kwarg(kwargs, "gt"), Kwarg(kwargs, "gte"), Kwarg(kwargs, "lte"))
  }

  /**
   * Grows the "must" condition list one conditional append at a time, and
   * builds the date bounds as a dictionary filled key by key.
   */
  method BuildConditions(p: Params) returns (conds: seq<FieldCondition>)
    ensures conds == Conditions(p)
  {
    conds := [];

    if p.attachments == Some("true") {
      conds := conds + [MatchCondition("attachments", BoolMatch(true))];
    }

    if p.isInternal == Some("true") {
      conds := conds + [MatchCondition("is_internal", BoolMatch(true))];
    }

    if Truthy(p.requestType) && p.requestType.value != "all" {
      conds := conds + [MatchCondition("request_type", StrMatch(p.requestType.value))];
    }

    if Truthy(p.dateFrom) || Truthy(p.dateTo) {
      var rangeFilter: map<string, string> := map[];
      if Truthy(p.dateFrom) {
        rangeFilter := rangeFilter["gte" := p.dateFrom.value];
      }
      if Truthy(p.dateTo) {
        rangeFilter := rangeFilter["lte" := p.dateTo.value];
      }
      conds := conds + [RangeCondition("date", RangeFromKwargs(rangeFilter))];
    }
  }

  /** `Filter(must=conds) if conds else None`. */
  function QueryFilter(conds: seq<FieldCondition>): (r: Option<Filter>)
    ensures r.None? <==> conds == []
    ensures r.Some? ==> r.value.must == conds
  {
    if conds != [] then Some(Filter(conds)) else None
  }

  // ---------------------------------------------------------------------------
  // Results

  /** A point returned by the vector-search service; its fields are opaque here. */
  datatype ScoredPoint<Id, Score, Payload> = ScoredPoint(id: Id, score: Score, payload: Payload)

  /** One entry of the JSON response: `{"id": ..., "score": ..., "payload": ...}`. */
  datatype ResultEntry<Id, Score, Payload> = ResultEntry(id: Id, score: Score, payload: Payload)

  /** The response list, one entry per returned point, in the service's order. */
  function Results<Id, Score, Payload>(hits: seq<ScoredPoint<Id, Score, Payload>>): (r: seq<ResultEntry<Id, Score, Payload>>)
    ensures |r| == |hits|
    ensures forall i :: 0 <= i < |hits| ==>
      r[i].id == hits[i].id && r[i].score == hits[i].score && r[i].payload == hits[i].payload
  {
    if hits == [] then []
    else [ResultEntry(hits[0].id, hits[0].score, hits[0].payload)] + Results(hits[1..])
  }

  /**
   * The handler's own work around the external query: the filter it sends and
   * the response it builds from the points the service answers with.
   */
  method Search<Id, Score, Payload>(p: Params, hits: seq<ScoredPoint<Id, Score, Payload>>)
    returns (queryFilter: Option<Filter>, results: seq<ResultEntry<Id, Score, Payload>>)
    ensures queryFilter == QueryFilter(Conditions(p))
    ensures queryFilter.None? <==>
      p.attachments != Some("true") && p.isInternal != Some("true") &&
      (!Truthy(p.requestType) || p.requestType.value == "all") &&
      !Truthy(p.dateFrom) && !Truthy(p.dateTo)
    ensures results == Results(hits)
  {
    var conds := BuildConditions(p);
    NoConditionsIff(p);
    queryFilter := QueryFilter(conds);
    results := Results(hits);
  }

  // ---------------------------------------------------------------------------
  // Properties of the condition list

  /** The keys of a concatenation are the keys of its parts, in order. */
  lemma {:induction false} KeysAppend(a: seq<FieldCondition>, b: seq<FieldCondition>)
    ensures Keys(a + b) == Keys(a) + Keys(b)
  {
    if a == [] {
      assert a + b == b;
    } else {
      assert (a + b)[1..] == a[1..] + b;
      KeysAppend(a[1..], b);
    }
  }

  /** The key list of the conditions, spelled out per filter. */
  lemma ConditionKeys(p: Params)
    ensures Keys(Conditions(p)) ==
      (if p.attachments == Some("true") then ["attachments"] else [])
      + (if p.isInternal == Some("true") then ["is_internal"] else [])
      + (if Truthy(p.requestType) && p.requestType.value != "all" then ["request_type"] else [])
      + (if Truthy(p.dateFrom) || Truthy(p.dateTo) then ["date"] else [])
  {
    var a, i, r, d := AttachmentsSegment(p), InternalSegment(p), RequestTypeSegment(p), DateSegment(p);
    KeysAppend(a, i);
    KeysAppend(a + i, r);
    KeysAppend(a + i + r, d);
  }

  /** A condition of the list comes from the segment of its key's rank. */
  lemma ConditionSegment(p: Params, c: FieldCondition)
    requires c in Conditions(p)
    ensures Rank(c.key) == 0 ==> c in AttachmentsSegment(p)
    ensures Rank(c.key) == 1 ==> c in InternalSegment(p)
    ensures Rank(c.key) == 2 ==> c in RequestTypeSegment(p)
    ensures Rank(c.key) == 3 ==> c in DateSegment(p)
  {
    SegmentKeys(p);
    var a, i, r, d := AttachmentsSegment(p), InternalSegment(p), RequestTypeSegment(p), DateSegment(p);
    assert c in a || c in i || c in r || c in d;
  }

  lemma AttachmentsConditionIff(p: Params)
    ensures "attachments" in Keys(Conditions(p)) <==> p.attachments == Some("true")
    ensures forall c :: c in Conditions(p) && c.key == "attachments" ==>
      c == MatchCondition("attachments", BoolMatch(true))
  {
    ConditionKeys(p);
    forall c | c in Conditions(p) && c.key == "attachments"
      ensures c in AttachmentsSegment(p)
    {
      ConditionSegment(p, c);
    }
  }

  lemma InternalConditionIff(p: Params)
    ensures "is_internal" in Keys(Conditions(p)) <==> p.isInternal == Some("true")
    ensures forall c :: c in Conditions(p) && c.key == "is_internal" ==>
      c == MatchCondition("is_internal", BoolMatch(true))
  {
    ConditionKeys(p);
    forall c | c in Conditions(p) && c.key == "is_internal"
      ensures c in InternalSegment(p)
    {
      ConditionSegment(p, c);
    }
  }

  lemma RequestTypeConditionIff(p: Params)
    ensures "request_type" in Keys(Conditions(p)) <==> Truthy(p.requestType) && p.requestType.value != "all"
    ensures forall c :: c in Conditions(p) && c.key == "request_type" ==>
      p.requestType.Some? && c == MatchCondition("request_type", StrMatch(p.requestType.value))
  {
    ConditionKeys(p);
    forall c | c in Conditions(p) && c.key == "request_type"
      ensures c in RequestTypeSegment(p)
    {
      ConditionSegment(p, c);
    }
  }

  lemma DateConditionIff(p: Params)
    ensures "date" in Keys(Conditions(p)) <==> Truthy(p.dateFrom) || Truthy(p.dateTo)
    ensures forall c :: c in Conditions(p) && c.key == "date" ==>
      c.RangeCondition? && c.range.lt.None? && c.range.gt.None? &&
      (c.range.gte.Some? <==> Truthy(p.dateFrom)) && (c.range.gte.Some? ==> c.range.gte == p.dateFrom) &&
      (c.range.lte.Some? <==> Truthy(p.dateTo)) && (c.range.lte.Some? ==> c.range.lte == p.dateTo)
  {
    ConditionKeys(p);
    forall c | c in Conditions(p) && c.key == "date"
      ensures c in DateSegment(p)
    {
      ConditionSegment(p, c);
    }
  }

  /** Every condition in `s` has a key of rank below `k`. */
  predicate RanksBelow(s: seq<FieldCondition>, k: nat)
  {
    forall i :: 0 <= i < |s| ==> Rank(s[i].key) < k
  }

  /** Appending at most one condition of rank `k` to a ranked list whose ranks are below `k`. */
  lemma RankedAppendSegment(a: seq<FieldCondition>, b: seq<FieldCondition>, k: nat)
    requires Ranked(a) && RanksBelow(a, k)
    requires k < 4 && |b| <= 1
    requires forall c :: c in b ==> Rank(c.key) == k
    ensures Ranked(a + b) && RanksBelow(a + b, k + 1)
  {
    if |b| == 1 {
      assert b[0] in b;
      var ab := a + b;
      forall i | 0 <= i < |a|
        ensures Rank(ab[i].key) < Rank(ab[|a|].key)
      {
        assert ab[i] == a[i] && ab[|a|] == b[0];
      }
    } else {
      assert a + b == a;
    }
  }

  /** Each segment holds at most one condition, carrying that segment's key. */
  lemma SegmentKeys(p: Params)
    ensures |AttachmentsSegment(p)| <= 1 && forall c :: c in AttachmentsSegment(p) ==> Rank(c.key) == 0
    ensures |InternalSegment(p)| <= 1 && forall c :: c in InternalSegment(p) ==> Rank(c.key) == 1
    ensures |RequestTypeSegment(p)| <= 1 && forall c :: c in RequestTypeSegment(p) ==> Rank(c.key) == 2
    ensures |DateSegment(p)| <= 1 && forall c :: c in DateSegment(p) ==> Rank(c.key) == 3
  {
  }

  lemma ConditionsRanked(p: Params)
    ensures Ranked(Conditions(p))
  {
    var a, i, r, d := AttachmentsSegment(p), InternalSegment(p), RequestTypeSegment(p), DateSegment(p);
    SegmentKeys(p);
    RankedAppendSegment([], a, 0);
    assert [] + a == a;
    RankedAppendSegment(a, i, 1);
    RankedAppendSegment(a + i, r, 2);
    RankedAppendSegment(a + i + r, d, 3);
  }

  /** Strictly increasing ranks below 4 mean the i-th key has rank at least i. */
  lemma {:induction false} RankAtLeastIndex(conds: seq<FieldCondition>, i: nat)
    requires Ranked(conds)
    requires i < |conds|
    ensures Rank(conds[i].key) >= i
  {
    if i > 0 {
      RankAtLeastIndex(conds, i - 1);
    }
  }

  /** A ranked list has at most four conditions and never repeats a key. */
  lemma RankedBoundedAndDistinct(conds: seq<FieldCondition>)
    requires Ranked(conds)
    ensures |conds| <= |FilterKeys|
    ensures forall i, j :: 0 <= i < j < |conds| ==> conds[i].key != conds[j].key
  {
    if |conds| > 0 {
      RankAtLeastIndex(conds, |conds| - 1);
    }
  }

  lemma ConditionsBoundedAndDistinct(p: Params)
    ensures |Conditions(p)| <= 4
    ensures forall i, j :: 0 <= i < j < |Conditions(p)| ==> Conditions(p)[i].key != Conditions(p)[j].key
  {
    ConditionsRanked(p);
    RankedBoundedAndDistinct(Conditions(p));
  }

  lemma NoConditionsIff(p: Params)
    ensures Conditions(p) == [] <==>
      p.attachments != Some("true") && p.isInternal != Some("true") &&
      (!Truthy(p.requestType) || p.requestType.value == "all") &&
      !Truthy(p.dateFrom) && !Truthy(p.dateTo)
  {
  }
}
