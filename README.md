# Search filter construction of the ticket-assistant `/search` endpoint

The `/search` handler of the ticket assistant takes a free-text query plus five
optional string parameters (`request_type`, `attachments`, `is_internal`,
`date_from`, `date_to`). It turns the five parameters into an ordered list of
"must" conditions for the vector-search service, sends a filter holding that
list (or no filter at all when the list is empty), and answers with one
`{id, score, payload}` record per point the service returns.

This project models that logic in Dafny (module `Search` in `search.dfy`;
`Option` lives in `wrappers.dfy`):

- `Params` holds the five parameters; a missing one is `None`. `Truthy` is
  Python's truthiness of a `str | None`: both `None` and `""` are false.
- `FieldCondition`, `MatchValue`, `DatetimeRange` and `Filter` mirror the client
  library's filter objects. Date bounds are opaque strings.
- `BuildConditions` is a method that grows the list one conditional append at
  a time, as the handler does. It fills the date bounds into a dictionary key
  by key and turns it into a range with `RangeFromKwargs` (`DatetimeRange(**range_filter)`).
  Its postcondition ties the list to the specification function `Conditions`.
- `Conditions` is the concatenation of four optional segments, one per filter.
  The lemmas state for each filter when its condition is present and what it
  holds. They also prove that keys come in the fixed order
  attachments, is_internal, request_type, date, that there are at most four and
  that no key repeats.
- `QueryFilter` is the filter-or-nothing choice; `Results` is the projection of
  returned points onto response records; `Search` composes them with the
  returned points given as a parameter.

The handler in routes/search.py neither deduplicates results by ticket id nor
computes precision@10/recall@10, so the model has neither.

A comment in the handler speaks of a `created_at` payload field. The code
filters on the key `"date"`, and so does the model.

## Model

| member | source | states |
|---|---|---|
| `Search.BuildConditions` | routes/search.py:53-93 | the list grown step by step equals the specification `Conditions` of the five parameters |
| `Search.RangeFromKwargs` | routes/search.py:83-91 | for a dictionary holding only `gte`/`lte` (all the handler ever puts in it), `gte` and `lte` are set exactly when the dictionary names them and then carry its values; `lt` and `gt` stay unset |
| `Search.Kwarg` | routes/search.py:91 | a keyword argument is present exactly when its key is in the dictionary, and then carries that key's value |
| `Search.AttachmentsConditionIff` | routes/search.py:56-62 | an `attachments` condition is present iff `attachments` is exactly `"true"`, and it is a match on `true` |
| `Search.InternalConditionIff` | routes/search.py:65-71 | an `is_internal` condition is present iff `is_internal` is exactly `"true"`, and it is a match on `true` |
| `Search.RequestTypeConditionIff` | routes/search.py:73-79 | a `request_type` condition is present iff `request_type` is present, non-empty and not `"all"`, and it matches exactly the given value |
| `Search.DateConditionIff` | routes/search.py:82-93 | a `date` condition is present iff `date_from` or `date_to` is truthy; `gte` is set iff `date_from` is truthy and then equals it, `lte` likewise with `date_to`; `lt` and `gt` are never set |
| `Search.ConditionKeys` | routes/search.py:53-93 | the key list is attachments, is_internal, request_type, date, each included exactly when its parameter triggers it |
| `Search.ConditionsRanked` | routes/search.py:53-93 | every key is one of the four filter keys and keys appear in strictly increasing fixed order |
| `Search.ConditionsBoundedAndDistinct` | routes/search.py:53-93 | there are at most four conditions and no key appears twice |
| `Search.NoConditionsIff` | routes/search.py:53-93 | the list is empty iff no parameter triggers a condition (absent, empty, `"all"` or not `"true"`) |
| `Search.QueryFilter` | routes/search.py:116 | no filter exactly when the list is empty; otherwise a must-filter holding the whole list unchanged |
| `Search.Results` | routes/search.py:119-126 | one record per returned point, same length and order, with id, score and payload copied unchanged |
| `Search.Search` | routes/search.py:53-126 | the handler sends `QueryFilter(Conditions(p))`, which is absent iff no parameter triggers a condition, and answers with `Results` of the returned points |

## Left out

- The dense embedding call to the OpenAI-compatible service and the BM25 sparse embedding (routes/search.py:20, 48-52): foreign model and library calls.
- The vector-search client and its hybrid prefetch/fusion query, including the prefetch limits and `limit=9` (routes/search.py:22-24, 95-118): ranking and capping are done by the external service; its answer is a parameter of `Search`.
- Static file mounting and the `home` handler (routes/search.py:33-38): file I/O.
- Configuration read from the environment and the debugging `print` calls (routes/search.py:11-15, 47, 94).
- main.py: application wiring, server startup and worker count, with no logic.
- Validation or parsing of date strings by the client library's `DatetimeRange`: dates are opaque strings here.
- Point ids, scores and payloads are opaque type parameters; floating-point scores are not modelled.
- Deduplication by ticket id and precision@10/recall@10: the handler's code does neither.
