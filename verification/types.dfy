/**
 * The records of types.ts that the core reads and stores. Descriptive fields
 * the core only carries along (overview, backdrop, dates, original titles)
 * are left out; `popularity` is a float in the source and an ordered integer
 * key here.
 */
module Types {
  import opened Wrappers

  datatype MediaKind = Movie | Tv

  /** The identity of a title everywhere in the core: (`id`, `media_type`). */
  datatype MediaKey = MediaKey(id: nat, kind: MediaKind)

  /** `SearchResult`: a movie carries a `title`, a show a `name`. */
  datatype Media =
    | MovieResult(id: nat, title: string, posterPath: Option<string>, popularity: int)
    | TvResult(id: nat, name: string, posterPath: Option<string>, popularity: int)
  {
    function Kind(): MediaKind {
      if MovieResult? then Movie else Tv
    }

    function Key(): MediaKey {
      MediaKey(id, Kind())
    }

    /** The display title: `title` for a movie, `name` for a show. */
    function Title(): string {
      if MovieResult? then title else name
    }
  }

  /** `WatchProgress`: both fields optional; `{}` is "no episodic position". */
  datatype Progress = Progress(season: Option<nat>, episode: Option<nat>)

  const NoProgress: Progress := Progress(None, None)

  /** `WatchProgressItem`: one row of the continue-watching list. */
  datatype Entry = Entry(media: Media, progress: Progress, savedAt: int, cleanPosterPath: Option<string>)

  /** `ImageInfo`, reduced to the language tag and the file path. */
  datatype ImageInfo = ImageInfo(language: Option<string>, filePath: string)

  datatype Season = Season(seasonNumber: nat, episodeCount: nat)

  /** `TVDetails`. */
  datatype TvDetails = TvDetails(id: nat, name: string, posterPath: Option<string>, popularity: int, seasons: seq<Season>)
  {
    /** The `TVSearchResult` App.tsx builds from the details before saving. */
    function AsMedia(): Media {
      TvResult(id, name, posterPath, popularity)
    }
  }

  /** What the movie-details request returns, typed `MovieSearchResult` by the source. */
  datatype MovieDetails = MovieDetails(id: nat, title: string, posterPath: Option<string>, popularity: int)
  {
    /** The answer as a movie: its declared type promises `media_type: 'movie'`, which the model takes as given. */
    function AsMedia(): Media {
      MovieResult(id, title, posterPath, popularity)
    }
  }

  datatype Episode = Episode(episodeNumber: nat, name: string)

  /** JavaScript truthiness of a `string | null`: present and non-empty. */
  predicate Truthy(p: Option<string>) {
    p.Some? && p.value != ""
  }

  /** `a || b` on two `string | null` values. */
  function OrElse(a: Option<string>, b: Option<string>): Option<string> {
    if Truthy(a) then a else b
  }
}
