# Star Wars API query sets, modelled in Dafny

This project models the core of `starwars_api/models.py`: the pagination
cursor `BaseQuerySet`, which turns the page-based SWAPI listing of people or
films into a flat sequence of model objects, together with the model objects
themselves (`BaseModel`, `People`, `Films`) and the class-level entry points
`get` and `all`.

The cursor is a pure state machine over an immutable `Cursor` value:
`counter` (records returned so far), `iterCount` (index within the current
page), `token` (the current page token, `page` in the source), `data` (the
current page, `json_data`) and `resultCount` (the total captured from page 1).
`QuerySet.Next` is one call of `__next__`. Every operation reports the
queries it sent to the client, in order, so the number and order of page
fetches are stated facts.

The SWAPI client is not part of this model. Its two uses, `get_people` /
`get_films` applied to a page query and applied to a resource id, become the
two abstract functions of `Api.Client`. Either of them may fail. A failed
page fetch surfaces from the cursor as `QuerySet.ClientFailure(e)`, carrying
the client's error `e`; a failed item fetch is returned by `Registry.Get` as
`Failure(e)` with that error itself.

Files and modules:

- `wrappers.dfy` (`Wrappers`): `Option` and `Result`.
- `records.dfy` (`Records`): decoded JSON values, items, the resource kinds, model objects, and the attribute-copying constructor.
- `api.dfy` (`Api`): the page and client interface.
- `page_token.dfy` (`PageToken`): the `^.*page=(.*)` extraction of the next page token.
- `query_set.dfy` (`QuerySet`): construction, `__next__`, `count`, and repeated calls.
- `consumption.dfy` (`Consumption`): what iterating to the end yields over a well-formed page chain.
- `registry.dfy` (`Registry`): `get` and `all`.

Behaviour of the code that the model keeps:

- Entering a new page sets the index to 1 and returns item 0 in the same call, so the next call reads item 1. `Consumption.FullConsumption` proves that no item is skipped or repeated.
- A boundary with no `next` URL fails because `re.match` is applied to None; a `next` URL without `page=` in its first line fails because `.group` is called on None. The model names these two failures `MissingNext` and `NoPageParameter`.
- An empty freshly fetched page fails with an index error after the page has been replaced, the counter incremented and the index set to 1. The model's cursor after that failure is exactly that state.
- The boundary branch fires whenever the index is at or past the end of the page, since that is when indexing raises. After an empty page, for example, the index is 1 and the page has no items.
- Kind dispatch is a comparison of the class's resource name with `people` and `films`. Any other name falls through and returns None.

## Model

| member | source | states |
|---|---|---|
| Records.Construct | starwars_api/models.py:9-15 | The constructed object has the class's kind and exactly the decoded item's keys, each with its value; it is therefore the object `Record(kind, item)` that `QuerySet.Next` and `Registry.Get` return. |
| Records.ParseKind | starwars_api/models.py:25-29 | A resource name selects a kind exactly when it is that kind's name (`people`, `films`). Every other name selects nothing. |
| PageToken.FirstLineSpec | starwars_api/models.py:96 | The text `.` can range over is the longest newline-free prefix of the URL. |
| PageToken.LastMarkerBelowSpec | starwars_api/models.py:96 | The backward search finds the last occurrence of `page=`, and finds none only when there is none. |
| PageToken.ExtractTokenSpec | starwars_api/models.py:96 | The pattern matches exactly when the first line holds `page=`. The group is then the newline-free rest of that line after its last `page=`. |
| PageToken.ExtractQueryRoundTrip | starwars_api/models.py:96-97 | A `next` URL ending in `?page=` plus a token (with no newline and no `page=` in it) gives that token back. |
| QuerySet.Open | starwars_api/models.py:70-76 | Construction sends exactly one query, `?page=1`. It sets both counters to 0, holds the fetched page, and takes the total from that page. A client failure is raised unchanged. |
| QuerySet.Next | starwars_api/models.py:81-100 | Kind and total never change, and `counter <= resultCount` is kept. End of iteration is signalled exactly when `counter == resultCount`, and then nothing changes or is fetched. A returned record adds 1 to `counter` and is the item just before the index left behind. There is at most one fetch, and only at a page boundary. |
| QuerySet.InPageStep | starwars_api/models.py:90-94 | Within a page the call returns the record of the item at the index. Both counters go up by 1, the page is kept, and nothing is fetched. |
| QuerySet.BoundaryQuery | starwars_api/models.py:95-97 | At a boundary with records owed, one query is sent exactly when `next` is present and matches. That query is `?page=` plus the token after the last `page=`. |
| QuerySet.BoundaryStep | starwars_api/models.py:95-100 | Crossing to a non-empty page fetches it once and replaces the old page. It returns item 0 with `counter + 1` and the index at 1. |
| QuerySet.BoundaryFailures | starwars_api/models.py:95-100 | No `next` URL, or one the pattern rejects, fails with no change and no fetch. A client failure moves only the token. An empty fetched page fails after page, counter and index have moved. |
| QuerySet.CountIsStable | starwars_api/models.py:105-111 | `count()` returns the same total after any number of `__next__` calls, and it takes no client. |
| QuerySet.RunKeepsValid | starwars_api/models.py:87-100 | No sequence of calls makes the cursor return more records than the total. |
| QuerySet.EndIsTerminal | starwars_api/models.py:87-88 | Once the end is signalled, every later call signals it again, changes nothing and fetches nothing. |
| QuerySet.Drain | starwars_api/models.py:81-100 | A `for` loop over the cursor terminates. It returns at most the records still owed, and exactly that many when it ends without an error; which records they are is stated by `Consumption.ChainDrain`. |
| Consumption.ChainStep | starwars_api/models.py:90-100 | On a well-formed chain with records owed, one call returns the next item of the chain. It moves at most one page on and fetches only that page's query. |
| Consumption.ChainDrain | starwars_api/models.py:81-100 | From any position on a well-formed chain, the loop returns the remaining announced items in order and ends without error. It fetches exactly the remaining pages, in order. |
| Consumption.FullConsumption | starwars_api/models.py:70-100 | A fresh query set over a well-formed chain returns exactly `count` records: the chain's items in page-then-index order, none skipped or repeated. It sends exactly one query per page: page 1 at construction, each later page when it is reached. |
| Consumption.MissingNextFails | starwars_api/models.py:87-96 | If records are still owed past a page without `next`, the loop returns the rest of that page. It then fails with `MissingNext` and fetches nothing. |
| Consumption.ShortLastPageFails | starwars_api/models.py:70-96 | If page 1 announces more items than it holds and has no `next`, the loop returns its items and then fails, after the single fetch of page 1. |
| Consumption.FirstRecordWithoutFetch | starwars_api/models.py:70-94 | If page 1 holds an item and announces one, the first call returns that item without fetching, so a query set abandoned then made one request. |
| Registry.Get | starwars_api/models.py:19-29 | A known name fetches the item of that kind and wraps it in a model object of that kind, and a client failure is raised unchanged. Any other name returns None. |
| Registry.All | starwars_api/models.py:32-43 | A known name opens a fresh query set of that kind, whose construction fetches page 1. Any other name returns None and fetches nothing. |
| Registry.AllDispatchesByName | starwars_api/models.py:39-43 | `people` opens the people query set and `films` the films query set, each with its own request for page 1. |

## Left out

- HTTP transport and JSON decoding of the SWAPI client: `starwars_api/client.py` and `starwars_api/exceptions.py` are not part of this model. Page and item requests are the abstract functions of `Api.Client`.
- The global `api_client` singleton and the `getattr(api_client, 'get_<name>')` lookup: replaced by the `Kind` passed to the client functions.
- Decoding faults such as a page without `results`, `count` or `next` keys, or an item that is not a mapping. Decoded pages and items are typed values here.
- A non-integer or negative `count`: the total is a natural number. Non-integer JSON numbers in items are not modelled either; `Value.Number` holds integers.
- General regular-expression semantics: only the fixed pattern `^.*page=(.*)` is modelled, including its stop at the first newline.
- `get` and `all` called on a class without `RESOURCE_NAME` (raises AttributeError): the model takes the resource name as a string.
- `setattr` of attribute names that would clash with Python object internals: a model object is a kind plus a field map.
- The `__repr__` methods (display only) and the iterator plumbing (`__iter__`, `next = __next__`).
- Resource ids: `get` passes any `resource_id` (an integer or a string such as `'1'`) to the client unchanged; the model types the id as a natural number, and nothing else in it depends on the id.
- The initial `page = 1` is an integer in the source and a string token afterwards. The model uses the token `"1"`, which gives the same query `?page=1`.
