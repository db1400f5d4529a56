/**
 `Command.handle` of the `load_swapi` management command: fetch the
 planets, films and people collections, optionally truncate the people,
 then upsert planets, films and characters in that order, linking films to
 planets and characters to films through the records' `url` fields. The
 whole command is one transaction: any error leaves the store as it was.
 */
module Loader {
  import opened Wrappers
  import opened Values
  import Text
  import opened Fetch
  import opened Orm
  import opened Errors
  import opened Upsert
  import opened Models

  /** The options `handle` reads: `--base`, `--insecure` and `--limit-people`. */
  datatype Options = Options(base: string, insecure: bool, limitPeople: Option<int>)

  /** The service as each of the three fetches finds it; every call sees its own faults. */
  datatype Network = Network(planets: Net, films: Net, people: Net)

  /** `fetch_all`'s default number of attempts, which `handle` keeps. */
  const Retries: int := 3

  /** The three fetched collections, people already truncated. */
  datatype Fetches = Fetches(planets: seq<Json>, films: seq<Json>, people: seq<Json>)

  /** A Python exception raised while processing records, as a load error. */
  function Raise<T>(r: Result<T, PyError>): (r': Result<T, LoadError>)
    ensures r.Success? <==> r'.Success?
    ensures r.Success? ==> r'.value == r.value
    ensures r.Failure? ==> r'.error == Uncaught(r.error)
  {
    match r
    case Success(v) => Success(v)
    case Failure(e) => Failure(Uncaught(e))
  }

  /**
   `handle`'s two `except` clauses around the fetches: an SSL error and any
   other `requests` error become a `CommandError` naming the base URL;
   everything else passes through.
   */
  function Reraise(base: string, e: FetchError): (r: LoadError)
    ensures r.SslCommandError? <==> e == Raised(SslFault)
    ensures r.HttpCommandError? <==> e == Raised(RequestFault)
    ensures r.SslCommandError? || r.HttpCommandError? ==> r.base == base
    ensures r.Uncaught? <==> e.Crash?
    ensures e.Crash? ==> r.error == e.error
    ensures r.Endless? <==> e.NoTermination?
  {
    match e
    case Raised(SslFault) => SslCommandError(base)
    case Raised(RequestFault) => HttpCommandError(base)
    case Crash(error) => Uncaught(error)
    case NoTermination => Endless
  }

  /** One `fetch_all(endpoint, base, verify=verify)` call inside the `try`. */
  function Collect(net: Net, verify: bool, endpoint: string, base: string): (r: Result<seq<Json>, LoadError>)
    ensures var o := FetchAll(net, verify, endpoint, base, Retries).outcome;
      && (r.Success? <==> o.Success?)
      && (r.Success? ==> r.value == o.value)
      && (r.Failure? ==> r.error == Reraise(base, o.error))
  {
    match FetchAll(net, verify, endpoint, base, Retries).outcome
    case Success(records) => Success(records)
    case Failure(e) => Failure(Reraise(base, e))
  }

  /** The end of Python's slice `[:n]` on a sequence of length `len`: a negative `n` counts from the end. */
  function SliceEnd(len: nat, n: int): nat
  {
    if n >= 0 then (if n < len then n else len)
    else if len + n >= 0 then len + n else 0
  }

  /**
   `if limit_people: people_data = people_data[:limit_people]`: a positive
   limit keeps the first `limit` records (all if there are fewer), a
   negative one drops that many from the end, and no limit or zero keeps
   every record.
   */
  function LimitPeople(people: seq<Json>, limit: Option<int>): (r: seq<Json>)
    ensures r <= people
    ensures limit.None? || limit.value == 0 ==> r == people
    ensures limit.Some? && limit.value > 0 ==>
      |r| == (if limit.value < |people| then limit.value else |people|)
    ensures limit.Some? && limit.value < 0 ==>
      |r| == (if |people| + limit.value > 0 then |people| + limit.value else 0)
  {
    if limit.None? || limit.value == 0 then people
    else people[..SliceEnd(|people|, limit.value)]
  }

  /**
   All fetches before any write: planets, films, then people, each with
   `handle`'s error mapping; the first failure stops the rest.
   */
  function FetchCollections(nw: Network, opts: Options): (r: Result<Fetches, LoadError>)
    ensures var verify := !opts.insecure;
            var p := FetchAll(nw.planets, verify, "planets", opts.base, Retries).outcome;
            var f := FetchAll(nw.films, verify, "films", opts.base, Retries).outcome;
            var c := FetchAll(nw.people, verify, "people", opts.base, Retries).outcome;
      && (r.Success? <==> p.Success? && f.Success? && c.Success?)
      && (r.Success? ==> r.value == Fetches(p.value, f.value, LimitPeople(c.value, opts.limitPeople)))
      && (p.Failure? ==> r == Failure(Reraise(opts.base, p.error)))
      && (p.Success? && f.Failure? ==> r == Failure(Reraise(opts.base, f.error)))
      && (p.Success? && f.Success? && c.Failure? ==> r == Failure(Reraise(opts.base, c.error)))
  {
    var verify := !opts.insecure;
    var planets :- Collect(nw.planets, verify, "planets", opts.base);
    var films :- Collect(nw.films, verify, "films", opts.base);
    var people :- Collect(nw.people, verify, "people", opts.base);
    Success(Fetches(planets, films, LimitPeople(people, opts.limitPeople)))
  }

  /**
   `(rec.get(field) or default).strip()`: a missing or falsy value gives
   the stripped default, a string its stripped self; a record that is not
   an object, or a truthy value that is not a string, has no such method.
   */
  function NameOf(rec: Json, field: string, default: string): (r: Result<string, PyError>)
    ensures !rec.JObj? ==> r == Failure(AttributeError)
    ensures rec.JObj? && !Truthy(FieldOr(rec.fields, field, JNull)) ==> r == Success(Text.Strip(default))
    ensures rec.JObj? && Truthy(FieldOr(rec.fields, field, JNull)) ==>
      match FieldOr(rec.fields, field, JNull)
      case JStr(s) => r == Success(Text.Strip(s))
      case _ => r == Failure(AttributeError)
  {
    var v :- GetOr(rec, field, JNull);
    match Or(v, JStr(default))
    case JStr(s) => Success(Text.Strip(s))
    case _ => Failure(AttributeError)
  }

  /** The rows that the hashable `items` name in `urls`: what the `add` calls link. */
  function Targets(urls: map<Key, nat>, items: seq<Json>): set<nat>
  {
    set x | x in items && KeyOf(x).Some? && KeyOf(x).value in urls :: urls[KeyOf(x).value]
  }

  /**
   `for u in items: obj = urls.get(u); if obj: rel.add(obj)`: hashing an
   item that is a list or an object raises `TypeError`; a URL that is not
   in the map is skipped. A model instance is always truthy, so every
   found row is linked.
   */
  function ResolveItems(urls: map<Key, nat>, items: seq<Json>): (r: Result<set<nat>, PyError>)
    ensures r.Failure? <==> exists i :: 0 <= i < |items| && KeyOf(items[i]).None?
    ensures r.Failure? ==> r.error == TypeError
    ensures r.Success? ==> r.value == Targets(urls, items)
    decreases |items|
  {
    if items == [] then Success({})
    else
      match KeyOf(items[0])
      case None => Failure(TypeError)
      case Some(u) =>
        var rest :- ResolveItems(urls, items[1..]);
        assert items == [items[0]] + items[1..];
        Success((if u in urls then {urls[u]} else {}) + rest)
  }

  /**
   `for u in v or []: …`: the relation a record's `planets` or `films`
   value resolves to. A falsy value links nothing; a truthy boolean or
   number is not iterable (iterating `None` never happens, since it is falsy).
   */
  function Resolve(urls: map<Key, nat>, v: Json): (r: Result<set<nat>, PyError>)
    ensures !Truthy(v) ==> r == Success({})
    ensures Truthy(v) && Iterate(v).None? ==> r == Failure(TypeError)
    ensures Truthy(v) && Iterate(v).Some? ==>
      && (r.Failure? <==> exists i :: 0 <= i < |Iterate(v).value| && KeyOf(Iterate(v).value[i]).None?)
      && (r.Success? ==> r.value == Targets(urls, Iterate(v).value))
    ensures r.Failure? ==> r.error == TypeError
    ensures r.Success? ==> forall id :: id in r.value ==> exists u :: u in urls && urls[u] == id
  {
    match Iterate(Or(v, JArr([])))
    case None => Failure(TypeError)
    case Some(items) => ResolveItems(urls, items)
  }

  /** `rec.get("url")` as a key of the URL map; a list or object there is unhashable. */
  function UrlKey(rec: Json): (r: Result<Option<Key>, LoadError>)
    ensures !rec.JObj? ==> r == Failure(Uncaught(AttributeError))
    ensures rec.JObj? ==>
      match KeyOf(FieldOr(rec.fields, "url", JNull))
      case Some(u) => r == Success(Some(u))
      case None => r == Failure(Uncaught(TypeError))
  {
    var u :- Raise(Get(rec, "url"));
    match KeyOf(u)
    case Some(key) => Success(Some(key))
    case None => Failure(Uncaught(TypeError))
  }

  /** `(p.get("name") or "Unknown").strip()`. */
  function PlanetKey(rec: Json): Result<string, LoadError>
  {
    Raise(NameOf(rec, "name", "Unknown"))
  }

  /** `get_or_create(name=name)` stores nothing but the name. */
  function PlanetRow(rec: Json): (r: Result<Planet, LoadError>)
    ensures r.Success? <==> PlanetKey(rec).Success?
    ensures r.Success? ==> r.value == Planet(PlanetKey(rec).value)
  {
    var name :- PlanetKey(rec);
    Success(Planet(name))
  }

  /** The planet loop: keyed by name, remembered under its URL. */
  function PlanetKind(): Kind<Planet>
  {
    Kind("Planet", PlanetName, PlanetKey, PlanetRow, UrlKey)
  }

  /** `(f.get("title") or "Untitled").strip()`. */
  function FilmKey(rec: Json): Result<string, LoadError>
  {
    Raise(NameOf(rec, "title", "Untitled"))
  }

  /**
   The film a record is stored as: the title it was found by, the three
   text columns with `""` for a missing or empty value, `release_date`
   with `None` for one, and exactly the planets its `planets` list
   resolves to through the planet URL map.
   */
  function FilmRow(planetUrls: map<Key, nat>, rec: Json): (r: Result<Film, LoadError>)
    ensures r.Success? ==>
      && rec.JObj? && FilmKey(rec) == Success(r.value.title)
      && r.value.openingCrawl == Or(FieldOr(rec.fields, "opening_crawl", JNull), JStr(""))
      && r.value.director == Or(FieldOr(rec.fields, "director", JNull), JStr(""))
      && r.value.producers == Or(FieldOr(rec.fields, "producer", JNull), JStr(""))
      && r.value.releaseDate == Or(FieldOr(rec.fields, "release_date", JNull), JNull)
      && Resolve(planetUrls, FieldOr(rec.fields, "planets", JNull)) == Success(r.value.planets)
    ensures r.Failure? <==>
      FilmKey(rec).Failure? || Resolve(planetUrls, FieldOr(rec.fields, "planets", JNull)).Failure?
  {
    match rec
    case JObj(fields) =>
      var title :- FilmKey(rec);
      var planets :- Raise(Resolve(planetUrls, FieldOr(fields, "planets", JNull)));
      Success(Film(title,
                   Or(FieldOr(fields, "opening_crawl", JNull), JStr("")),
                   Or(FieldOr(fields, "director", JNull), JStr("")),
                   Or(FieldOr(fields, "producer", JNull), JStr("")),
                   Or(FieldOr(fields, "release_date", JNull), JNull),
                   planets))
    case _ => Failure(Uncaught(AttributeError))
  }

  /** The film loop: keyed by title, linked through the planet URL map, remembered under its URL. */
  function FilmKind(planetUrls: map<Key, nat>): Kind<Film>
  {
    Kind("Film", FilmTitle, FilmKey, (rec: Json) => FilmRow(planetUrls, rec), UrlKey)
  }

  /** `(c.get("name") or "Unknown").strip()`. */
  function CharacterKey(rec: Json): Result<string, LoadError>
  {
    Raise(NameOf(rec, "name", "Unknown"))
  }

  /** The character a record is stored as: its name and exactly the films its `films` list resolves to. */
  function CharacterRow(filmUrls: map<Key, nat>, rec: Json): (r: Result<Character, LoadError>)
    ensures r.Success? ==>
      && rec.JObj? && CharacterKey(rec) == Success(r.value.name)
      && Resolve(filmUrls, FieldOr(rec.fields, "films", JNull)) == Success(r.value.films)
    ensures r.Failure? <==>
      CharacterKey(rec).Failure? || Resolve(filmUrls, FieldOr(rec.fields, "films", JNull)).Failure?
  {
    match rec
    case JObj(fields) =>
      var name :- CharacterKey(rec);
      var films :- Raise(Resolve(filmUrls, FieldOr(fields, "films", JNull)));
      Success(Character(name, films))
    case _ => Failure(Uncaught(AttributeError))
  }

  /** A character is not remembered under any URL. */
  function NoUrl(rec: Json): Result<Option<Key>, LoadError>
  {
    Success(None)
  }

  /** The character loop: keyed by name, linked through the film URL map. */
  function CharacterKind(filmUrls: map<Key, nat>): Kind<Character>
  {
    Kind("Character", CharacterName, CharacterKey, (rec: Json) => CharacterRow(filmUrls, rec), NoUrl)
  }

  /** The three loops over fetched data, each starting from an empty URL map. */
  function Apply(data: Fetches, s: Store): (r: Result<Store, LoadError>)
    ensures r.Success? ==>
      && s.planets.rows.Keys <= r.value.planets.rows.Keys
      && s.films.rows.Keys <= r.value.films.rows.Keys
      && s.characters.rows.Keys <= r.value.characters.rows.Keys
  {
    var planets :- Pass(PlanetKind(), s.planets, map[], data.planets);
    var films :- Pass(FilmKind(planets.1), s.films, map[], data.films);
    var characters :- Pass(CharacterKind(films.1), s.characters, map[], data.people);
    Success(Store(planets.0, films.0, characters.0))
  }

  /** `handle` without its transaction: the new store, or the error that ends it. */
  function Handle(nw: Network, opts: Options, s: Store): (r: Result<Store, LoadError>)
    ensures FetchCollections(nw, opts).Failure? ==> r == Failure(FetchCollections(nw, opts).error)
    ensures r.Success? ==>
      && FetchCollections(nw, opts).Success?
      && s.planets.rows.Keys <= r.value.planets.rows.Keys
      && s.films.rows.Keys <= r.value.films.rows.Keys
      && s.characters.rows.Keys <= r.value.characters.rows.Keys
  {
    var data :- FetchCollections(nw, opts);
    Apply(data, s)
  }

  /**
   `@transaction.atomic def handle`: the store after the command and the
   error it raised, if any; an error rolls every write back.
   */
  function Load(nw: Network, opts: Options, s: Store): (r: (Store, Option<LoadError>))
    ensures r.1.None? <==> Handle(nw, opts, s).Success?
    ensures r.1.Some? ==> r.0 == s && Handle(nw, opts, s) == Failure(r.1.value)
    ensures r.1.None? ==> r.0 == Handle(nw, opts, s).value
  {
    match Handle(nw, opts, s)
    case Success(s') => (s', None)
    case Failure(e) => (s, Some(e))
  }
}
