/**
 * The derived fields of one card of the continue-watching grid
 * (components/ContinueWatchingCard.tsx): the title, the poster path and
 * URL, and the progress label. The image
 * base URL comes from a constants file and is a parameter here.
 */
module ContinueWatchingCard {
  import opened Wrappers
  import opened Text
  import opened Types
  import opened Storage
  import opened LinkPatterns
  import App

  /** The title shown on the card follows the media kind. */
  lemma CardTitle(e: Entry)
    ensures e.media.MovieResult? ==> e.media.Title() == e.media.title
    ensures e.media.TvResult? ==> e.media.Title() == e.media.name
  {
  }

  /** `cleanPosterPath || media.poster_path`. */
  function PosterPath(e: Entry): (r: Option<string>)
    ensures Truthy(e.cleanPosterPath) ==> r == e.cleanPosterPath
    ensures !Truthy(e.cleanPosterPath) ==> r == e.media.posterPath
  {
    OrElse(e.cleanPosterPath, e.media.posterPath)
  }

  /** The image URL: the poster under the image base, or a placeholder seeded by the id. */
  function PosterUrl(e: Entry, imageBase: string): (r: string)
    ensures Truthy(PosterPath(e)) ==> r == imageBase + PosterPath(e).value
    ensures !Truthy(PosterPath(e)) ==> r == "https://picsum.photos/seed/" + NatToString(e.media.id) + "/500/750"
  {
    var path := PosterPath(e);
    if Truthy(path) then imageBase + path.value
    else "https://picsum.photos/seed/" + NatToString(e.media.id) + "/500/750"
  }

  /** A season or episode number that JavaScript treats as true: present and not 0. */
  predicate Set(x: Option<nat>) {
    x.Some? && x.value > 0
  }

  /** `progressText`. */
  function ProgressLabel(e: Entry): (r: string)
    ensures e.media.TvResult? && Set(e.progress.season) && Set(e.progress.episode) ==>
      r == "S" + NatToString(e.progress.season.value) + " E" + NatToString(e.progress.episode.value)
    ensures e.media.MovieResult? ==> r == "Continue Watching"
    ensures e.media.TvResult? && !(Set(e.progress.season) && Set(e.progress.episode)) ==> r == "Saved"
  {
    if e.media.TvResult? && Set(e.progress.season) && Set(e.progress.episode) then
      "S" + NatToString(e.progress.season.value) + " E" + NatToString(e.progress.episode.value)
    else if e.media.MovieResult? then "Continue Watching"
    else "Saved"
  }

  /**
   * The three labels tell the three cases apart: "Continue Watching"
   * exactly for a movie, "Saved" exactly for a show without a full
   * position, and a label with a digit after its "S" exactly for a show
   * with one.
   */
  lemma ProgressLabelCases(e: Entry)
    ensures ProgressLabel(e) == "Continue Watching" <==> e.media.MovieResult?
    ensures ProgressLabel(e) == "Saved" <==> e.media.TvResult? && !(Set(e.progress.season) && Set(e.progress.episode))
    ensures (|ProgressLabel(e)| > 1 && IsDigit(ProgressLabel(e)[1])) <==>
      e.media.TvResult? && Set(e.progress.season) && Set(e.progress.episode)
  {
    var r := ProgressLabel(e);
    if e.media.TvResult? && Set(e.progress.season) && Set(e.progress.episode) {
      var d := NatToString(e.progress.season.value);
      assert r[1] == d[0];
      assert r != "Continue Watching" && r != "Saved";
    }
  }

  /**
   * After an episode link re-saves a stored show with a real season and
   * episode, that show's card reads "S<season> E<episode>".
   */
  lemma LabelAfterEpisodeLink(stored: seq<Entry>, url: string, now: int, x: Entry)
    requires UniqueKeys(stored)
    requires Parse(url).EpisodeLink? && Parse(url).season > 0 && Parse(url).episode > 0
    requires App.Decide(NewestFirst(stored), Parse(url)).Resave?
    requires var a := App.Decide(NewestFirst(stored), Parse(url));
      x in SavedList(stored, a.media, a.progress, a.poster, now) && KeyOf(x) == MediaKey(Parse(url).id, Tv)
    ensures ProgressLabel(x) == "S" + NatToString(Parse(url).season) + " E" + NatToString(Parse(url).episode)
  {
    var link := Parse(url);
    App.ResaveUpdatesProgress(stored, url, now);
    assert x.progress == Progress(Some(link.season), Some(link.episode));
    assert x.media.Kind() == Tv;
  }
}
