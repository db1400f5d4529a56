/**
 What a load guarantees: the store stays valid, a failed load changes
 nothing, a second load with the same data changes nothing, and every row
 a record names holds what the last such record says.
 */
module LoaderFacts {
  import opened Wrappers
  import opened Values
  import Text
  import opened Fetch
  import opened Orm
  import opened Errors
  import opened Upsert
  import opened Models
  import opened Loader

  lemma PlanetConsistent()
    ensures Consistent(PlanetKind())
  {
  }

  lemma FilmConsistent(planetUrls: map<Key, nat>)
    ensures Consistent(FilmKind(planetUrls))
  {
  }

  lemma CharacterConsistent(filmUrls: map<Key, nat>)
    ensures Consistent(CharacterKind(filmUrls))
  {
  }

  /**
   A loaded name has no surrounding whitespace, so loading it again finds
   it unchanged; a name made of whitespace only is stored as `""`.
   */
  lemma NameIsStripped(rec: Json, field: string, default: string)
    requires NameOf(rec, field, default).Success?
    ensures var n := NameOf(rec, field, default).value;
      && Text.Strip(n) == n
      && (n == [] || (!Text.IsSpace(n[0]) && !Text.IsSpace(n[|n| - 1])))
  {
    var v := Or(FieldOr(rec.fields, field, JNull), JStr(default));
    var lo, hi := Text.TrimInfix(v.s, Text.IsSpace);
    Text.TrimIdempotent(v.s, Text.IsSpace);
  }

  lemma BlankNameIsEmpty(rec: Json, field: string, default: string)
    requires rec.JObj? && FieldOr(rec.fields, field, JNull).JStr?
    requires forall i :: 0 <= i < |FieldOr(rec.fields, field, JNull).s| ==>
               Text.IsSpace(FieldOr(rec.fields, field, JNull).s[i])
    requires FieldOr(rec.fields, field, JNull).s != []
    ensures NameOf(rec, field, default) == Success("")
  {
    Text.TrimAllDropped(FieldOr(rec.fields, field, JNull).s, Text.IsSpace);
  }

  /** A film row built through a URL map into `planets` links only to `planets` and fills its NOT NULL columns. */
  lemma FilmRowOk(planetUrls: map<Key, nat>, planets: set<nat>, rec: Json)
    requires forall u :: u in planetUrls ==> planetUrls[u] in planets
    ensures FilmRow(planetUrls, rec).Success? ==>
      FilmColumns(FilmRow(planetUrls, rec).value) && FilmLinks(FilmRow(planetUrls, rec).value, planets)
  {
  }

  /** A character row built through a URL map into `films` links only to `films`. */
  lemma CharacterRowOk(filmUrls: map<Key, nat>, films: set<nat>, rec: Json)
    requires forall u :: u in filmUrls ==> filmUrls[u] in films
    ensures CharacterRow(filmUrls, rec).Success? ==> CharacterLinks(CharacterRow(filmUrls, rec).value, films)
  {
  }

  /** The three loops keep the store valid. */
  lemma ApplyValid(data: Fetches, s: Store)
    requires Valid(s) && Apply(data, s).Success?
    ensures Valid(Apply(data, s).value)
  {
    PlanetConsistent();
    var p := Pass(PlanetKind(), s.planets, map[], data.planets).value;
    PassFinds(PlanetKind(), s.planets, map[], data.planets);
    PassUnique(PlanetKind(), s.planets, map[], data.planets);
    PassUrlTargets(PlanetKind(), s.planets, map[], data.planets);

    FilmConsistent(p.1);
    var fk := FilmKind(p.1);
    var f := Pass(fk, s.films, map[], data.films).value;
    PassFinds(fk, s.films, map[], data.films);
    PassUrlTargets(fk, s.films, map[], data.films);
    var filmOk := (x: Film) => FilmColumns(x) && FilmLinks(x, p.0.rows.Keys);
    forall rec | fk.row(rec).Success?
      ensures filmOk(fk.row(rec).value)
    {
      FilmRowOk(p.1, p.0.rows.Keys, rec);
    }
    PassRows(fk, s.films, map[], data.films, filmOk);

    CharacterConsistent(f.1);
    var ck := CharacterKind(f.1);
    PassFinds(ck, s.characters, map[], data.people);
    var characterOk := (x: Character) => CharacterLinks(x, f.0.rows.Keys);
    forall rec | ck.row(rec).Success?
      ensures characterOk(ck.row(rec).value)
    {
      CharacterRowOk(f.1, f.0.rows.Keys, rec);
    }
    PassRows(ck, s.characters, map[], data.people, characterOk);
  }

  /**
   `@transaction.atomic`: whatever happens, the store after the command is
   valid, and it is either the old store (after an error) or the store the
   whole command produced.
   */
  lemma LoadValid(nw: Network, opts: Options, s: Store)
    requires Valid(s)
    ensures Valid(Load(nw, opts, s).0)
    ensures Load(nw, opts, s).0 == s || Load(nw, opts, s).1.None?
  {
    if Handle(nw, opts, s).Success? {
      ApplyValid(FetchCollections(nw, opts).value, s);
    }
  }

  /**
   All three collections are fetched before any write: when a fetch fails,
   the command fails with the mapped error whatever the store holds, and
   the store is left as it was.
   */
  lemma FetchFailureAborts(nw: Network, opts: Options, s: Store)
    requires FetchCollections(nw, opts).Failure?
    ensures Handle(nw, opts, s) == Failure(FetchCollections(nw, opts).error)
    ensures Load(nw, opts, s) == (s, Some(FetchCollections(nw, opts).error))
  {
  }

  /** The `CommandError` `handle` raises for a fetch that kept failing with `f`. */
  function CommandErrorFor(base: string, f: Fault): LoadError
  {
    match f
    case SslFault => SslCommandError(base)
    case RequestFault => HttpCommandError(base)
  }

  /**
   A service that fails every planets request with `f`: `fetch_all`
   re-raises `f` after its last attempt, `handle` turns it into the
   `CommandError` for `f` naming the base, and the store is left as it was.
   */
  lemma PlanetsUnreachable(nw: Network, opts: Options, s: Store, f: Fault)
    requires AlwaysFails(nw.planets, !opts.insecure, f) && nw.planets.fuel > 0
    ensures Load(nw, opts, s) == (s, Some(CommandErrorFor(opts.base, f)))
  {
    FetchAllUnreachable(nw.planets, !opts.insecure, "planets", opts.base, Retries, f);
  }

  /**
   The same for the last fetch: planets and films arrive, every people
   request fails with `f`, and nothing fetched is written.
   */
  lemma PeopleUnreachable(nw: Network, opts: Options, s: Store, f: Fault)
    requires FetchAll(nw.planets, !opts.insecure, "planets", opts.base, Retries).outcome.Success?
    requires FetchAll(nw.films, !opts.insecure, "films", opts.base, Retries).outcome.Success?
    requires AlwaysFails(nw.people, !opts.insecure, f) && nw.people.fuel > 0
    ensures Load(nw, opts, s) == (s, Some(CommandErrorFor(opts.base, f)))
  {
    FetchAllUnreachable(nw.people, !opts.insecure, "people", opts.base, Retries, f);
  }

  /** Running the three loops again over their own outcome changes nothing. */
  lemma ApplyIdempotent(data: Fetches, s: Store)
    requires Wf(s.planets) && Wf(s.films) && Wf(s.characters) && Apply(data, s).Success?
    ensures Apply(data, Apply(data, s).value) == Apply(data, s)
  {
    PlanetConsistent();
    PassIdempotent(PlanetKind(), s.planets, map[], data.planets);
    var p := Pass(PlanetKind(), s.planets, map[], data.planets).value;
    FilmConsistent(p.1);
    PassIdempotent(FilmKind(p.1), s.films, map[], data.films);
    var f := Pass(FilmKind(p.1), s.films, map[], data.films).value;
    CharacterConsistent(f.1);
    PassIdempotent(CharacterKind(f.1), s.characters, map[], data.people);
  }

  /**
   Loading the same service twice: the second load creates no row and
   changes none, so it ends in the store the first one produced.
   */
  lemma HandleIdempotent(nw: Network, opts: Options, s: Store)
    requires Wf(s.planets) && Wf(s.films) && Wf(s.characters) && Handle(nw, opts, s).Success?
    ensures Handle(nw, opts, Handle(nw, opts, s).value) == Handle(nw, opts, s)
  {
    ApplyIdempotent(FetchCollections(nw, opts).value, s);
  }

  /**
   A planet record ends up as the one row `get(name=…)` finds for its
   normalised name, and that row's string form is the name. The last
   record with a given URL makes the planet URL map send that URL to it.
   */
  lemma PlanetStored(data: Fetches, s: Store, i: nat)
    requires Wf(s.planets) && Apply(data, s).Success? && i < |data.planets|
    requires forall j :: i < j < |data.planets| ==> UrlKey(data.planets[j]) != UrlKey(data.planets[i])
    ensures var rec := data.planets[i];
            var (t, urls) := Pass(PlanetKind(), s.planets, map[], data.planets).value;
      && PlanetKey(rec).Success? && UrlKey(rec).Success? && UrlKey(rec).value.Some?
      && var f := Find(t, PlanetName, PlanetKey(rec).value);
         && f.Found? && t.rows[f.id].Str() == PlanetKey(rec).value
         && UrlKey(rec).value.value in urls && urls[UrlKey(rec).value.value] == f.id
  {
    var recs := data.planets;
    var k := PlanetKind();
    PlanetConsistent();
    PassFinds(k, s.planets, map[], recs);
    KeysIndex(k, recs, i);
    assert UrlKey(recs[i]).Success?;
    var u := UrlKey(recs[i]).value.value;
    var rest := recs[i + 1..];
    forall j | 0 <= j < |rest|
      ensures k.url(rest[j]) != Success(Some(u))
    {
      assert rest[j] == recs[i + 1 + j];
    }
    NotAUrlKey(k, rest, u);
    PassUrlMap(k, s.planets, map[], recs, i);
  }

  /**
   A film's row holds what the last record with its title says: the three
   text columns and the release date with their defaults, and exactly the
   planets its `planets` list resolves to, whatever the row linked before;
   URLs that name no loaded planet are skipped.
   */
  lemma FilmLastWins(data: Fetches, s: Store, i: nat)
    requires Wf(s.planets) && Wf(s.films) && Apply(data, s).Success? && i < |data.films|
    requires forall j :: i < j < |data.films| ==> FilmKey(data.films[j]) != FilmKey(data.films[i])
    ensures var rec := data.films[i];
            var planetUrls := Pass(PlanetKind(), s.planets, map[], data.planets).value.1;
            var films := Apply(data, s).value.films;
      && FilmKey(rec).Success?
      && var f := Find(films, FilmTitle, FilmKey(rec).value);
         && f.Found? && FilmRow(planetUrls, rec) == Success(films.rows[f.id])
  {
    var p := Pass(PlanetKind(), s.planets, map[], data.planets).value;
    var k := FilmKind(p.1);
    var recs := data.films;
    FilmConsistent(p.1);
    PassFinds(k, s.films, map[], recs);
    var key := FilmKey(recs[i]).value;
    var rest := recs[i + 1..];
    forall j | 0 <= j < |rest|
      ensures k.key(rest[j]) != Success(key)
    {
      assert rest[j] == recs[i + 1 + j];
    }
    NotAKey(k, rest, key);
    PassLastWins(k, s.films, map[], recs, i);
  }

  /**
   A character's row holds exactly the films the last record with its name
   lists, through the film URL map, whatever it linked before.
   */
  lemma CharacterLastWins(data: Fetches, s: Store, i: nat)
    requires Wf(s.planets) && Wf(s.films) && Wf(s.characters) && Apply(data, s).Success? && i < |data.people|
    requires forall j :: i < j < |data.people| ==> CharacterKey(data.people[j]) != CharacterKey(data.people[i])
    ensures var rec := data.people[i];
            var p := Pass(PlanetKind(), s.planets, map[], data.planets).value;
            var filmUrls := Pass(FilmKind(p.1), s.films, map[], data.films).value.1;
            var characters := Apply(data, s).value.characters;
      && CharacterKey(rec).Success?
      && var c := Find(characters, CharacterName, CharacterKey(rec).value);
         && c.Found? && CharacterRow(filmUrls, rec) == Success(characters.rows[c.id])
  {
    var p := Pass(PlanetKind(), s.planets, map[], data.planets).value;
    var f := Pass(FilmKind(p.1), s.films, map[], data.films).value;
    var k := CharacterKind(f.1);
    var recs := data.people;
    CharacterConsistent(f.1);
    PassFinds(k, s.characters, map[], recs);
    var key := CharacterKey(recs[i]).value;
    var rest := recs[i + 1..];
    forall j | 0 <= j < |rest|
      ensures k.key(rest[j]) != Success(key)
    {
      assert rest[j] == recs[i + 1 + j];
    }
    NotAKey(k, rest, key);
    PassLastWins(k, s.characters, map[], recs, i);
  }

  /**
   Only the people kept by `--limit-people` reach the store: the character
   loop creates at most one row per kept record, each named like one of
   them, and a character no kept record names is left untouched.
   */
  lemma CharactersFromKeptPeople(data: Fetches, s: Store)
    requires Wf(s.planets) && Wf(s.films) && Wf(s.characters) && Apply(data, s).Success?
    ensures var old_ := s.characters;
            var c := Apply(data, s).value.characters;
      && c.next <= old_.next + |data.people|
      && (forall id :: id in c.rows && id !in old_.rows ==>
            old_.next <= id < c.next
            && exists j :: 0 <= j < |data.people| && CharacterKey(data.people[j]) == Success(c.rows[id].name))
      && (forall id :: id in old_.rows && (forall j :: 0 <= j < |data.people| ==>
                                            CharacterKey(data.people[j]) != Success(old_.rows[id].name)) ==>
            id in c.rows && c.rows[id] == old_.rows[id])
  {
    var p := Pass(PlanetKind(), s.planets, map[], data.planets).value;
    var f := Pass(FilmKind(p.1), s.films, map[], data.films).value;
    var k := CharacterKind(f.1);
    CharacterConsistent(f.1);
    PassFinds(k, s.characters, map[], data.people);
    PassFrame(k, s.characters, map[], data.people);
    var c := Apply(data, s).value.characters;
    forall id | id in c.rows && id !in s.characters.rows
      ensures exists j :: 0 <= j < |data.people| && CharacterKey(data.people[j]) == Success(c.rows[id].name)
    {
      KeysWitness(k, data.people, c.rows[id].name);
    }
    forall id | id in s.characters.rows && (forall j :: 0 <= j < |data.people| ==>
                                              CharacterKey(data.people[j]) != Success(s.characters.rows[id].name))
      ensures id in c.rows && c.rows[id] == s.characters.rows[id]
    {
      NotAKey(k, data.people, s.characters.rows[id].name);
    }
  }
}
