/**
 The three models of the `sw` app as the rows of a store, and the
 invariants their field declarations impose on it.
 */
module Models {
  import opened Values
  import opened Orm

  /** A planet: `name` is a unique column. */
  datatype Planet = Planet(name: string) {
    /** `__str__`. */
    function Str(): string { name }
  }

  /**
   A film. The four scalar columns hold the value the loader assigned to
   them; `planets` is the many-to-many relation, as the set of linked
   planet ids.
   */
  datatype Film = Film(title: string, openingCrawl: Json, director: Json, producers: Json,
                       releaseDate: Json, planets: set<nat>) {
    /** `__str__`. */
    function Str(): string { title }
  }

  /** A character: `name` is not unique; `films` is the set of linked film ids. */
  datatype Character = Character(name: string, films: set<nat>) {
    /** `__str__`. */
    function Str(): string { name }
  }

  /** The columns `get_or_create` looks rows up by. */
  function PlanetName(p: Planet): string { p.name }
  function FilmTitle(f: Film): string { f.title }
  function CharacterName(c: Character): string { c.name }

  /** The database: one table per model. */
  datatype Store = Store(planets: Table<Planet>, films: Table<Film>, characters: Table<Character>)

  /** `opening_crawl`, `director` and `producers` are NOT NULL; `release_date` alone may be null. */
  predicate FilmColumns(f: Film) {
    f.openingCrawl != JNull && f.director != JNull && f.producers != JNull
  }

  /** A film links to existing planets only. */
  predicate FilmLinks(f: Film, planets: set<nat>) {
    f.planets <= planets
  }

  /** A character links to existing films only. */
  predicate CharacterLinks(c: Character, films: set<nat>) {
    c.films <= films
  }

  /**
   What the schema guarantees of every store: ids below each table's next
   id, unique planet names, non-null film columns, and relations that
   point at existing rows.
   */
  ghost predicate Valid(s: Store) {
    && Wf(s.planets) && Wf(s.films) && Wf(s.characters)
    && UniqueKeys(s.planets, PlanetName)
    && (forall id :: id in s.films.rows ==>
          FilmColumns(s.films.rows[id]) && FilmLinks(s.films.rows[id], s.planets.rows.Keys))
    && (forall id :: id in s.characters.rows ==> CharacterLinks(s.characters.rows[id], s.films.rows.Keys))
  }
}
