# SWAPI loader — a Dafny model

This project models the `load_swapi` management command of the `sw` Django
app. The command reads the planets, films and people collections of the Star
Wars API (SWAPI) and upserts them into the app's three models: `Planet`,
`Film` and `Character`.

The command has two parts:

- `fetch_all` builds a collection URL from a base and an endpoint. It follows
  the collection's `next` links and concatenates every page's `results`.
  After a transport failure it retries, with exponential back-off. The
  cursor and the records already collected carry over to the retry, so the
  next attempt resumes at the page that failed.
- `Command.handle` fetches all three collections before writing anything.
  It optionally truncates the people, then runs three loops:
  - normalise each record's name or title;
  - `get_or_create` the row by that natural key;
  - overwrite the film columns;
  - replace each film's planet set and each character's film set with the
    rows the record's URLs resolve to;
  - remember each planet and film row under its record's `url`.

  The whole handler is one database transaction.

Files:

- `wrappers.dfy`: `Option` and `Result`.
- `text.dfy`: Python's `strip`, `rstrip('/')` and `strip('/')`.
- `values.dfy`: decoded JSON values, plus the Python behaviour the loader
  leans on: truthiness for `x or default`, `dict.get`, iteration, and hashing
  as a dict key.
- `fetch.dfy`: `fetch_all`. The network is a value: a map from URL to
  response body, a fault oracle per attempt and URL, and a fuel bound on the
  number of pages.
- `orm.dfy`: one table, with `get`, which reports one match, none or
  several, and with `get_or_create` followed by saving every field.
- `models.dfy`: the three models and the invariants of their fields.
- `errors.dfy`: the exceptions `handle` can raise within this model (see
  "Left out" for those it does not model), plus `Endless` for a `next`
  chain longer than the fetch fuel.
- `upsert.dfy`: the shared shape of the three loops, over any kind of row.
- `loader.dfy`: `handle` itself, with the decoding of each kind of record.
  `Load` adds `@transaction.atomic`.
- `loader_facts.dfy`: what a load guarantees.

Python exceptions are values here:

- `.get` on a record that is not an object, and `.strip()` on a name that is
  not a string, raise `AttributeError`.
- Iterating `None`, a boolean or a number raises `TypeError`, and so does
  hashing a list or an object.
- `results: null` in a page makes `extend(None)` raise `TypeError`, which
  `fetch_all` does not catch.
- `get_or_create` on a title or name that already has two rows raises
  `MultipleObjectsReturned`.

Every one of these aborts the command, and the transaction returns the
store unchanged.

## Model

| member | source | states |
|---|---|---|
| Fetch.CollectionUrl | sw/management/commands/load_swapi.py:11 | the URL is the base without trailing slashes, one `/`, the endpoint without surrounding slashes, and a final `/` |
| Fetch.CollectionUrlIgnoresSlashes | sw/management/commands/load_swapi.py:11 | extra slashes after the base or around the endpoint give the same URL |
| Fetch.CollectionUrlPlain | sw/management/commands/load_swapi.py:11 | a base not ending in `/` and a non-empty endpoint with no `/` at either end give exactly `base/endpoint/` |
| Text.TrimEnd | sw/management/commands/load_swapi.py:11 | `rstrip` keeps a prefix that is empty or ends in a kept character, and drops only dropped characters |
| Text.TrimStart | sw/management/commands/load_swapi.py:11 | `lstrip`, the first half of `strip`, keeps a suffix that is empty or starts with a kept character, and drops only dropped characters |
| Fetch.Request | sw/management/commands/load_swapi.py:16-18 | a request yields the served body iff the cursor is a string URL that is served and the oracle reports no fault for it in this attempt; a failed request carries the oracle's SSL or other fault, and a non-string or unserved URL a plain `requests` fault |
| Fetch.ReadPage | sw/management/commands/load_swapi.py:18-20 | a body that is not an object has no `get`; missing `results` adds nothing; a present `results` adds exactly what iterating it yields (a list its items) and a non-iterable one, `null` included, raises `TypeError`; the next cursor is `next` or `None` |
| Fetch.Walk | sw/management/commands/load_swapi.py:15-20 | every request of one attempt carries its number, the first asks for the cursor, and a transport fault stops the walk at the URL whose request failed, which is the last one asked for |
| Fetch.Attempts | sw/management/commands/load_swapi.py:13-29 | the retry loop sleeps `backoff ** k` after each failed attempt `k` except the last; a re-raised fault comes after exactly `retries - attempt` sleeps |
| Fetch.FetchAll | sw/management/commands/load_swapi.py:10-30 | with `retries < 1` no request is made and `[]` is returned; the sleep exponents are `1, 2, …` and there are at most `retries - 1` of them |
| Fetch.AttemptsWithin | sw/management/commands/load_swapi.py:13-29 | every request belongs to an attempt between the first and `retries` |
| Fetch.AttemptsSlept | sw/management/commands/load_swapi.py:23-29 | the run sleeps once per attempt before the one that made its last request, and never when it made no request |
| Fetch.AttemptsResume | sw/management/commands/load_swapi.py:12-29 | each retry's first request asks for the very URL on which the previous attempt failed |
| Fetch.WalkSound | sw/management/commands/load_swapi.py:15-20 | a finished attempt returns the collected records followed by the whole chain; a fault leaves exactly the chain before the failed URL collected; a malformed page or an endless chain means there is no collection |
| Fetch.AttemptsSound | sw/management/commands/load_swapi.py:13-29 | a returned list is the collection the cursor leads to, behind the records already collected |
| Fetch.AttemptsLastFault | sw/management/commands/load_swapi.py:22-29 | a re-raised fault is the one met by the last request of attempt number `retries` |
| Fetch.LastAttemptRaises | sw/management/commands/load_swapi.py:22-24 | a fault in attempt number `retries` is re-raised at once, with no further sleep or request |
| Fetch.AttemptsAllFail | sw/management/commands/load_swapi.py:13-29 | if every request fails with the same fault, the run re-raises that fault |
| Fetch.FetchAllUnreachable | sw/management/commands/load_swapi.py:10-30 | if every request fails with the same fault, `fetch_all` sleeps `backoff ** 1 … backoff ** (retries-1)` and re-raises that fault |
| Fetch.AttemptsStart | sw/management/commands/load_swapi.py:15-16 | a run that makes a request asks first for the cursor it was given |
| Fetch.FetchAllSound | sw/management/commands/load_swapi.py:10-30 | on success every record of the collection is returned once, in link order, even if attempts failed along the way |
| Fetch.FetchAllRecovers | sw/management/commands/load_swapi.py:13-29 | if the collection is complete and the last attempt sees no fault, `fetch_all` returns the whole collection; with no fault at all it never sleeps |
| Text.TrimInfix | sw/management/commands/load_swapi.py:11 | `strip` returns the infix cut only at dropped characters, which starts and ends with a kept character |
| Text.TrimIdempotent | sw/management/commands/load_swapi.py:65 | stripping twice is stripping once |
| Text.TrimAllDropped | sw/management/commands/load_swapi.py:65 | a string of dropped characters strips to `""` |
| Values.Or | sw/management/commands/load_swapi.py:72-75 | `v or default` is one of its operands, `v` exactly when `v` is truthy, and is truthy iff either operand is |
| Values.Lookup | sw/management/commands/load_swapi.py:18 | a decoded object's value for a key is the last member with that key, and absent iff no member has it |
| Values.GetOr | sw/management/commands/load_swapi.py:19-20 | `get` raises `AttributeError` exactly on non-objects; on an object it returns the key's (last) value, or the default when the key is absent |
| Values.ObjectKeys | sw/management/commands/load_swapi.py:93 | iterating a dict yields exactly the keys its members have, each once |
| Values.Iterate | sw/management/commands/load_swapi.py:93 | `None`, booleans and numbers are not iterable; a list yields its items; a string yields one string per character; an object yields each of its keys exactly once |
| Values.KeyOf | sw/management/commands/load_swapi.py:94 | lists and objects are unhashable; `None`, integers and strings are keys of their own; `True` and `False` hash as `1` and `0` |
| Values.KeyOfCollides | sw/management/commands/load_swapi.py:94-98 | two hashable values are the same dict key only if they are equal or are a boolean and the integer it equals |
| Orm.Find | sw/management/commands/load_swapi.py:102 | `get` reports no row iff no row has the key; one row only when that row is the single match; several iff two distinct rows match |
| Orm.UniqueNeverAmbiguous | sw/models.py:4 | on a unique column `get` never finds several rows |
| Orm.PutFacts | sw/management/commands/load_swapi.py:77-90 | storing a row after `get_or_create` makes `get` find exactly it, creates at most one row, and changes no other row or other key's lookup |
| Orm.RewriteSameKey | sw/management/commands/load_swapi.py:86-90 | overwriting a row's fields without changing its key changes no lookup |
| Upsert.PassFinds | sw/management/commands/load_swapi.py:64-67 | after a loop every record's key has exactly one row, and the table only grew |
| Upsert.Step | sw/management/commands/load_swapi.py:64-67 | one iteration: a key that cannot be computed, or that several rows have (`MultipleObjectsReturned`), aborts before any write; a stored step deletes no row, reuses no id and forgets no URL. Its effect on the rows is stated by `Orm.PutFacts` and `Upsert.StepFacts` |
| Upsert.Pass | sw/management/commands/load_swapi.py:64-107 | the loop over all records in order: an empty list leaves the table and the URL map unchanged, and a successful loop deletes no row and forgets no URL. What it stores is stated by `PassLastWins`, `PassFrame`, `PassUrlMap` and `PassIdempotent` |
| Upsert.PassDecodes | sw/management/commands/load_swapi.py:64-107 | a loop succeeds only if every record's key, row and URL key could be computed |
| Upsert.PassKeepsFound | sw/management/commands/load_swapi.py:100-102 | a row `get` found before the loop is still the one it finds after, untouched if no record has its key |
| Upsert.PassLastWins | sw/management/commands/load_swapi.py:77-90 | records that share a key end in one row holding what the last of them decodes to |
| Upsert.PassUrlMap | sw/management/commands/load_swapi.py:67 | the URL map sends the last record's URL to the row `get` finds for that record's key |
| Upsert.PassUrlTargets | sw/management/commands/load_swapi.py:98 | the URL map only holds ids of rows of the table |
| Upsert.PassFrame | sw/management/commands/load_swapi.py:102 | a loop creates at most one row per record, each with a fresh id and one record's key; no key changes; rows with other keys keep their contents |
| Upsert.PassRows | sw/management/commands/load_swapi.py:86-90 | a property every stored row and every decoded row has holds of every row afterwards |
| Upsert.PassUnique | sw/models.py:4 | a loop keeps a unique column unique |
| Upsert.PassIdempotent | sw/management/commands/load_swapi.py:64-107 | running a loop again over its own outcome gives the same table and URL map |
| Loader.Reraise | sw/management/commands/load_swapi.py:54-57 | an SSL fault and any other `requests` fault become a `CommandError` naming the base; other errors pass through |
| Loader.FetchCollections | sw/management/commands/load_swapi.py:50-57 | planets, films and people are fetched in that order with the default retries, and the first failure ends the command with its mapped error |
| Loader.Collect | sw/management/commands/load_swapi.py:50-57 | one `fetch_all` inside the `try`: its records on success, otherwise the fault mapped by `Reraise` (see `LoaderFacts.PlanetsUnreachable`) |
| Loader.LimitPeople | sw/management/commands/load_swapi.py:59-60 | the kept people are a prefix: `min(N, len)` records for `N > 0`, all for no limit or `0`, and all but the last `abs(N)` for `N < 0` |
| Loader.NameOf | sw/management/commands/load_swapi.py:65 | a missing or falsy name gives the stripped default, a string its stripped self; a non-object record or a truthy non-string name raises `AttributeError` |
| Loader.ResolveItems | sw/management/commands/load_swapi.py:94-96 | the linked rows are exactly the map's targets for the hashable items; any unhashable item raises `TypeError` |
| Loader.Resolve | sw/management/commands/load_swapi.py:92-96 | a falsy list links nothing; a non-iterable raises `TypeError`; otherwise the links are the resolved URLs, and unknown URLs are skipped |
| Loader.UrlKey | sw/management/commands/load_swapi.py:98 | the row is remembered under the record's `url` (`None` when absent); a list or object there raises `TypeError` |
| Loader.FilmRow | sw/management/commands/load_swapi.py:71-96 | a film row holds the title it was found by, `""` for a missing or empty text column, `None` for a missing release date, and exactly the resolved planets |
| Loader.CharacterRow | sw/management/commands/load_swapi.py:101-107 | a character row holds its name and exactly the resolved films |
| Loader.Apply | sw/management/commands/load_swapi.py:62-107 | the three loops in order; on success no row of any table is deleted. Validity and idempotence are `LoaderFacts.ApplyValid` and `LoaderFacts.ApplyIdempotent` |
| Loader.Handle | sw/management/commands/load_swapi.py:43-107 | a fetch failure ends the handler before any loop; a success fetched every collection and deleted no row. See `LoaderFacts.LoadValid` and `LoaderFacts.HandleIdempotent` |
| Loader.Load | sw/management/commands/load_swapi.py:42 | an error leaves the store unchanged; success stores what the whole handler produced |
| LoaderFacts.NameIsStripped | sw/management/commands/load_swapi.py:101 | a loaded name has no surrounding whitespace and strips to itself |
| LoaderFacts.BlankNameIsEmpty | sw/management/commands/load_swapi.py:65 | a whitespace-only name is stored as `""`, not as the default |
| LoaderFacts.FilmRowOk | sw/models.py:11-17 | a decoded film fills the three non-null columns and links only to loaded planets |
| LoaderFacts.CharacterRowOk | sw/models.py:24 | a decoded character links only to loaded films |
| LoaderFacts.ApplyValid | sw/models.py:3-24 | the three loops keep the store valid: ids in range, unique planet names, non-null film columns, links to existing rows |
| LoaderFacts.LoadValid | sw/management/commands/load_swapi.py:42-107 | whatever happens, the store after the command is valid and is either the old one or the full result |
| LoaderFacts.FetchFailureAborts | sw/management/commands/load_swapi.py:50-57 | a fetch failure ends the command with its mapped error before any write, whatever the store holds |
| LoaderFacts.PlanetsUnreachable | sw/management/commands/load_swapi.py:50-57 | if every planets request fails with an SSL fault the command raises the SSL `CommandError` naming the base, otherwise the HTTP one, and the store is unchanged |
| LoaderFacts.PeopleUnreachable | sw/management/commands/load_swapi.py:50-57 | the same for the people fetch after planets and films arrived: nothing fetched is written |
| LoaderFacts.ApplyIdempotent | sw/management/commands/load_swapi.py:62-107 | the three loops over their own outcome create and change nothing |
| LoaderFacts.HandleIdempotent | sw/management/commands/load_swapi.py:43-107 | loading the same service twice ends in the store the first load produced |
| LoaderFacts.PlanetStored | sw/management/commands/load_swapi.py:64-67 | a planet record's name has exactly one row, whose string form is that name, and the last record with a URL maps it to that row |
| LoaderFacts.FilmLastWins | sw/management/commands/load_swapi.py:70-98 | the row `get` finds for a title holds the scalars and planet set of the last record with that title, replacing earlier links |
| LoaderFacts.CharacterLastWins | sw/management/commands/load_swapi.py:100-107 | the row `get` finds for a name links exactly the films of the last record with that name, replacing earlier links |
| LoaderFacts.CharactersFromKeptPeople | sw/management/commands/load_swapi.py:59-60 | the character loop creates at most one row per kept person, each named like a kept record; characters no kept record names are untouched |

## Left out

- HTTP, TLS, `raise_for_status` and JSON decoding. A response is the decoded
  body in the page map, or a fault from the oracle. Faults depend only on the
  TLS setting, the attempt and the URL.
- Timeouts, `time.sleep` and the float `backoff`. A run records the
  exponent `k` of each `backoff ** k` delay instead of sleeping.
- The fuel bound on pages. The Python loop reads any number of pages; the
  model stops after `fuel` pages and reports `Endless`, for a chain that
  never ends and equally for a finite chain longer than `fuel` pages. The
  model, and every property proved of it, describes the command only when
  `fuel` is at least the length of each collection's `next` chain.
- An undecodable response body counts as a retried `requests` fault. This
  assumes `requests` 2.27 or later, where the JSON decode error is a
  `RequestException`; with older versions it would escape `fetch_all`
  without a retry.
- JSON numbers are integers only. Floats in a payload are not modelled.
- The `SWAPI_BASE` environment default, argparse and the two stdout messages.
  The options arrive as an `Options` value.
- ORM value conversion on save. A film column holds the JSON value the
  loader assigned, so these are not modelled:
  - converting that value to text;
  - parsing `release_date` as a date, including the validation error for a
    malformed date;
  - the declared `max_length` of 100, 200, 500 and 120. The model assumes
    a database backend that does not enforce it, as SQLite does not; a
    backend that rejects an over-long value would make such a save fail.
- `producers` stores the record's `producer` value as it is. Splitting it
  on commas is not something the loader does.
- Each row is saved at the end of its record's processing. The intermediate
  states inside one record, such as between `save()` and `planets.clear()`,
  are not modelled. No error can interleave with them and change the final
  store.
- Reverse accessors `Planet.films` and `Film.characters`. They are queries
  over the forward relations, with no state of their own.
- `Models.Planet.Str`, `Models.Film.Str`, `Models.Character.Str`: the
  `__str__` methods are plain field reads. Only the planet's appears in a
  lemma, `LoaderFacts.PlanetStored`.
- `sw/schema.py` (the GraphQL layer) and `sw/admin.py` (admin
  configuration) are not part of this model.

`limit_people` is applied as the code writes it, `people_data[:limit_people]`.
A negative limit therefore drops that many records from the end, rather
than keeping `min(N, len)` of them.
