# waveguide ACLED ingestion core, in Dafny

A model of `AcledSource`, the part of waveguide that pages through the ACLED
events API region by region and hands every page of raw event records to an
output store. The model has six modules:

- `Results`: `Option`, `Result`, and the exceptions that can escape the core.
- `DataTypes`: the `PgType` storage types and the raw JSON records.
- `Decimal`: Python's base-10 `int()` and `str()`, used by `get_iso_codes`
  and when request parameters are written out.
- `Dates`: `date.isoformat()` and its reader.
- `Sources`: the pure part of `AcledSource`. That is `get_iso_codes`,
  `build_request_params`, the default field table and `objects_to_features`.
- `Fetch`: `fetch_and_store_from` and `fetch_and_store`, run against a
  scripted API.

The API is modelled as a script: the sequence of answers it gives, one per
request, in the order the requests are sent. Each answer is a `Response`.
`Classify` turns it into the `Step` the loop body takes:

- stop the region (a zero `count`);
- save the page (a non-zero `count` whose records all have coordinates);
- abort with the exception the body raises.

`Paginate` and `FetchAll` are reference definitions of the two loops over
those steps. Each returns a `Run`, which holds:

- the trace of GETs and saves;
- how the run ended: `Completed`, `Failed(error)`, or `Exhausted` when the
  script ran out first;
- how many answers it consumed.

The methods `FetchAndStoreFrom` and `FetchAndStore` are the loops as the
source writes them, and each is proved equal to its reference definition.

## Model

| member | source | states |
|---|---|---|
| `Sources.GetIsoCodes` | sources.py:27-28 | The result is a success exactly when `int()` accepts every code text. Then it has one region per entry, in order: the ISO3 letters copied and the code equal to the text's value. Otherwise it is `ValueError` for the first text `int()` refuses. |
| `Sources.IsoCodesRoundTrip` | sources.py:27-28 | Region codes written in decimal and read back by `get_iso_codes` give the same regions in the same order. |
| `Decimal.ParsePaddedShowInt` | sources.py:28 | `int()` reads `str(n)` back as `n`, while the digits stay within Python's 4300-digit limit. This also holds with whitespace around the text, where whitespace means what `int()` skips: ASCII tab to carriage return, space, and the non-ASCII Unicode spaces. |
| `Decimal.RejectsLeadingSeparator` | sources.py:28 | `int()` refuses a text that starts with one of the ASCII separators 0x1C-0x1F. `str.isspace` counts these as space, but `int()` does not skip them. |
| `Decimal.RejectsTooManyDigits` | sources.py:28 | `int()` refuses a digit string longer than 4300 digits, whatever its value. |
| `Decimal.RejectsWithoutDigits` | sources.py:28 | `int()` refuses any text that holds no digit. |
| `Dates.ParseIsoFormat` | sources.py:77-78 | Reading back what `isoformat()` writes gives the same date. |
| `Dates.IsoFormatOfParse` | sources.py:77-78 | Every text the date reader accepts is exactly what `isoformat()` writes for that date: each date has one spelling. |
| `Sources.EventDateRoundTrip` | sources.py:77-85 | The `event_date` filter `start|end` names exactly the two dates it was built from. |
| `Sources.EventDateOfParse` | sources.py:77-85 | Every filter text that reads as two dates is the one built from them. |
| `Sources.RequestDateRange` | sources.py:76-87 | Every page request filters on the source's start and end dates, whatever the page or region. |
| `Sources.RequestReadBack` | sources.py:76-87 | The server reads back from a page request the source's key and e-mail, the requested page and region code, the source's date range and the `BETWEEN` mode. |
| `Sources.QueryRoundTrip` | sources.py:104 | The query string made from `asdict(params)` carries every field of the request, so the server reads back the same request. |
| `Sources.DefaultPropertiesShape` | sources.py:39-73 | In the default field table exactly one field is a point, and it is `geom`. `fatalities` and `geo_precision` are integers and `latitude` and `longitude` are floats. Every other field is text. |
| `DataTypes.OrdinalRoundTrip` | data_types.py:16-20 | The four storage types have the values 0 to 3. Looking a value up finds exactly the type that has it, and fails outside 0 to 3. |
| `Sources.ObjectsToFeaturesSpec` | sources.py:93-98 | The result is a success exactly when every record has both coordinates. Each record then becomes one feature, in order, with the point (longitude, latitude) and the record itself as properties. Otherwise it is `KeyError` for the key the first such record lacks, `longitude` first. |
| `Sources.FeaturesKeepRecords` | sources.py:93-98 | The features' properties are the input records, unchanged and in order. |
| `Fetch.ClassifyCases` | sources.py:104-113 | A page ends its region exactly when it passes the status check, is JSON and has `count` zero, whatever its `data` holds. A page is saved exactly when its count is non-zero and all its records have both coordinates, and what is saved is the raw `data`. Otherwise the body raises the exception its first failing check raises: connection, HTTP status, JSON decoding, the missing `count` or `data` key, or the first missing coordinate. |
| `Fetch.Paginate` | sources.py:100-114 | A region consumes answers up to the one that stops it. If it completed, that last answer is a zero count. If it failed, that answer raised the run's error. If the script ran out, it consumed all of it. |
| `Fetch.NextPage` | sources.py:103 | The request for the next page is the current one with the page number one higher, which is what `build_request_params` builds for that page. |
| `Fetch.PaginateRequests` | sources.py:100-114 | A region sends one GET per consumed answer, for consecutive pages starting at the first one. |
| `Fetch.RegionRequests` | sources.py:100-104 | A region requests exactly pages 1 to n, where n is the number of answers it consumed, each as `build_request_params` builds it. |
| `Fetch.PaginateSentTo` | sources.py:104 | Every GET of a region goes to the source's URL. |
| `Fetch.PaginateContinues` | sources.py:102-114 | Every answer a region consumed before its last one was a saved page. If the script ran out, every answer was. |
| `Fetch.PaginateAlternates` | sources.py:102-114 | Within a region, GETs and saves alternate, starting with a GET: each page is saved before the next one is requested. |
| `Fetch.PaginateDataPages` | sources.py:107-113 | Within a region the store receives exactly the data of the consumed pages that had data, in order. |
| `Fetch.PaginateLastPages` | sources.py:108-110 | A region's consumed answers hold one zero count when it completed and none otherwise. |
| `Fetch.PaginateStopsAt` | sources.py:102-114 | A region stops at the first step that is not a saved page. It has then consumed exactly up to that step and ends as that step says. |
| `Fetch.ScriptStopsAt` | sources.py:100-114 | Suppose `k` saved pages come before an answer that is not saved. Then the region requests pages 1 to k+1, saves the k pages' data in order, and ends on answer k. |
| `Fetch.StopsAtFirstEmptyPage` | sources.py:108-110 | After k full pages and an answer with `count` zero, the region completes. It has requested pages 1 to k+1 and saved the k pages' data in order. |
| `Fetch.ErrorStatusStops` | sources.py:105 | A 4xx or 5xx answer fails the run with that status at once. Nothing after it is requested, and only the pages before it were saved. |
| `Fetch.FetchAll` | sources.py:89-91 | A run consumes a prefix of the script. A failed run's last consumed answer raised its error. A run that hit the end of the script consumed all of it. |
| `Fetch.FetchAllSentTo` | sources.py:89-91 | Every GET of the whole run goes to the source's URL. |
| `Fetch.FetchAllSavedAfterGet` | sources.py:89-91 | Every save comes right after the GET that fetched its page. |
| `Fetch.FetchAllSaves` | sources.py:89-91 | Across all regions the store receives exactly the data of the consumed pages that had data, in answer order. |
| `Fetch.FetchAllRegionsEnded` | sources.py:89-91 | A completed run consumed exactly as many zero counts as there are configured regions. `Fetch.RegionsInOrder` places one at the end of each region's block. |
| `Fetch.FetchAllFailFast` | sources.py:89-91 | Fail-fast: the only failing answer a run can consume is its last one, and the run then failed with that answer's error. |
| `Fetch.PaginateEndsOnGet` | sources.py:102-110 | A region that completed or failed ends on the GET for its last page. Nothing is saved after the zero count or the failing answer. |
| `Fetch.FetchAllRequests` | sources.py:89-91 | The whole run sends exactly one GET per answer it consumed, so the i-th request is the one the i-th answer answers. |
| `Fetch.FetchAllEndsOnGet` | sources.py:89-91 | A failed run's last event is the GET whose answer failed. |
| `Fetch.FailingAnswerEndsRun` | sources.py:90-91 | If answer i fails, the run fails with its error, and the GET it answered is the run's last request and last event. No later page of that region and no later region is requested, and nothing more is saved. |
| `Fetch.RegionsInOrder` | sources.py:89-91 | The requests are blocks in configuration order, one block per region reached, each for pages 1 to some n > 0. The block sizes add up to the number of answers consumed. Every block but the last closes on a zero-count answer, before the next region's first request. A completed run reached every region, and its last block closes on a zero count. A failed run's last block closes on the failing answer. |
| `Fetch.FetchAndStoreFrom` | sources.py:100-114 | The source's `while True` loop computes exactly the reference pagination of the region from page 1. |
| `Fetch.FetchAndStore` | sources.py:89-91 | The source's loop over the configured regions computes exactly the reference run over all regions. |

## Left out

- HTTP and JSON I/O are not modelled. `requests.get`, `raise_for_status` and
  `resp.json()` become the scripted `Response` values: a failed connection,
  or a status with a body. The body is either undecodable or a JSON object
  whose `count` and `data` keys may be missing.
- JSON that decodes to something other than an object is not modelled. On a
  list, `json_response["count"]` raises `TypeError`.
- A `count` that is not an integer is not modelled. `count` is an integer,
  and zero is compared as in `count == 0`.
- Percent-encoding of the query string is not modelled.
  `Sources.QueryParams` stops at the list of parameter names and texts.
- `int()` on non-ASCII Unicode digits is not modelled. `Decimal.ParseInt`
  accepts ASCII digits only, with the whitespace `int()` skips, an optional sign
  and single underscores between digits.
- The `Exhausted` outcome exists only in the model. It says the script ended
  before the loop did. The real loop would go on requesting.
- The serialisation of `pygeojson` features is not modelled.
  `objects_to_features` is modelled as far as the point's coordinate order
  and the properties.
- `pygeojson` is not part of this model. The model assumes that
  `Point(a, b)` takes `(a, b)` as its coordinates, whatever their values,
  and never raises.
- A `data` value that is not a list of JSON objects is not modelled.
  Examples are `null`, a number, or a list holding a non-object.
  `objects_to_features` then raises `TypeError` before `store.save`.
  An empty string or empty object would instead be saved as it is.
  `Body.data` holds only lists of records.
- `stores.py` and `main.py` are not part of this model. The store appears
  only as the `Save` events of the trace.
- The `OutputStore` and `InputSource` protocol classes are not modelled.
  They declare signatures and hold no behaviour.
- Dictionary order and size of the default field table are not modelled.
  The map holds the same 32 entries.
- Table creation and row insertion are not modelled. `PgStore.save`
  (stores.py:9-10) only prints the number of features. The code creates no
  table and inserts no rows.
- `sources.py` imports the storage types as `ValueType` from `data_types.py`,
  which defines them as `PgType`. The model treats the two names as the one
  type `DataTypes.PgType`.
