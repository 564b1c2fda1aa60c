/**
 * The player modal of components/EmbedLinkModal.tsx: it builds the player
 * deep link for the open title, picks the season and episode, resolves a
 * clean poster, saves the title with its progress, and accepts a pasted
 * link for the same show. The player base URLs come from a constants file
 * and are parameters here (`movieBase`, `tvBase`).
 */
module EmbedLinkModal {
  import opened Wrappers
  import opened Text
  import opened Types
  import opened Sorting
  import opened Storage
  import opened LinkPatterns
  import opened Posters
  import App

  const MovieQuery: string := "?autoPlay=true&theme=E50914"
  const TvQuery: string := "?autoPlay=true&nextButton=true" + "&autoNext=true&theme=E50914"

  const InvalidTvLink: string := "Invalid TV show link. Please paste a valid VidFast TV show URL."

  function Mismatch(linkedName: string, name: string): string {
    "Link mismatch. Pasted link is for '" + linkedName + "'. Please use a link for '" + name + "'."
  }

  function MismatchUnknown(name: string): string {
    "Link mismatch. The pasted link is for a different show. Please use a link for '" + name + "'."
  }

  // ---- the player link ----

  /**
   * `embedLink`: the movie link always; the episode link once the show's
   * details have loaded; otherwise the empty string.
   */
  function EmbedLink(item: Media, detailsLoaded: bool, season: nat, episode: nat, movieBase: string, tvBase: string): (link: string)
    ensures link == "" <==> item.TvResult? && !detailsLoaded
  {
    if item.MovieResult? then
      movieBase + NatToString(item.id) + MovieQuery
    else if detailsLoaded then
      tvBase + NatToString(item.id) + "/" + NatToString(season) + "/" + NatToString(episode) + TvQuery
    else ""
  }

  /** The movie query string holds no `v`, so it cannot start a pattern. */
  lemma MovieQueryHasNoV()
    ensures NoV(MovieQuery) && !IsDigit(MovieQuery[0])
  {
    forall j | 0 <= j < |MovieQuery| ensures MovieQuery[j] != 'v' {
    }
  }

  lemma AutoPlayHasNoV()
    ensures NoV("?autoPlay=true&nextButton=true")
  {
    var x := "?autoPlay=true&nextButton=true";
    forall j | 0 <= j < |x| ensures x[j] != 'v' {
    }
  }

  lemma AutoNextHasNoV()
    ensures NoV("&autoNext=true&theme=E50914")
  {
    var y := "&autoNext=true&theme=E50914";
    forall j | 0 <= j < |y| ensures y[j] != 'v' {
    }
  }

  /** The episode query string holds no `v` either. */
  lemma TvQueryHasNoV()
    ensures NoV(TvQuery) && !IsDigit(TvQuery[0])
  {
    var x, y := "?autoPlay=true&nextButton=true", "&autoNext=true&theme=E50914";
    AutoPlayHasNoV();
    AutoNextHasNoV();
    assert TvQuery == x + y;
    forall j | 0 <= j < |TvQuery| ensures TvQuery[j] != 'v' {
      if j < |x| {
        assert TvQuery[j] == x[j];
      } else {
        assert TvQuery[j] == y[j - |x|];
      }
    }
  }

  /**
   * The link the modal builds for an episode is read back by the link
   * parser as that very episode, when the base URL is some `v`-free prefix
   * (such as "https://") followed by `vidfast.pro/tv/`.
   */
  lemma EpisodeLinkParsesBack(item: Media, season: nat, episode: nat, movieBase: string, p: string)
    requires item.TvResult? && NoV(p)
    ensures Parse(EmbedLink(item, true, season, episode, movieBase, p + TvPath)) == EpisodeLink(item.id, season, episode)
  {
    TvQueryHasNoV();
    assert EmbedLink(item, true, season, episode, movieBase, p + TvPath) == EpisodeUrl(p, item.id, season, episode, TvQuery);
    EpisodeUrlParses(p, item.id, season, episode, TvQuery);
  }

  /** Likewise the movie link is read back as that movie. */
  lemma MovieLinkParsesBack(item: Media, detailsLoaded: bool, season: nat, episode: nat, p: string, tvBase: string)
    requires item.MovieResult? && NoV(p)
    ensures Parse(EmbedLink(item, detailsLoaded, season, episode, p + MoviePath, tvBase)) == MovieLink(item.id)
  {
    MovieQueryHasNoV();
    assert EmbedLink(item, detailsLoaded, season, episode, p + MoviePath, tvBase) == MovieUrl(p, item.id, MovieQuery);
    MovieUrlParses(p, item.id, MovieQuery);
  }

  // ---- season and episode ----

  /** `x || 1` for an optional season or episode number. */
  function OrOne(x: Option<nat>): (r: nat)
    ensures r >= 1
    ensures x.Some? && x.value > 0 ==> r == x.value
    ensures (x.None? || x.value == 0) ==> r == 1
  {
    if x.Some? && x.value > 0 then x.value else 1
  }

  /** The (season, episode) the modal opens on. */
  function InitialSelection(initial: Option<Progress>): (r: (nat, nat))
    ensures r.0 >= 1 && r.1 >= 1
    ensures initial.None? ==> r == (1, 1)
    ensures initial.Some? ==> r == (OrOne(initial.value.season), OrOne(initial.value.episode))
  {
    if initial.Some? then (OrOne(initial.value.season), OrOne(initial.value.episode)) else (1, 1)
  }

  /** The index of the first season numbered above 0 (season 0 holds specials). */
  function FirstNumbered(seasons: seq<Season>): (r: Option<nat>)
    ensures r.Some? ==> r.value < |seasons| && seasons[r.value].seasonNumber > 0
    ensures r.Some? ==> forall j | 0 <= j < r.value :: seasons[j].seasonNumber == 0
    ensures r.None? <==> forall j | 0 <= j < |seasons| :: seasons[j].seasonNumber == 0
  {
    if |seasons| == 0 then None
    else if seasons[0].seasonNumber > 0 then Some(0)
    else match FirstNumbered(seasons[1..])
      case None => None
      case Some(i) => Some(i + 1)
  }

  /**
   * The season once the show's details arrive:
   * `initialProgress?.season || (first season > 0 || seasons[0])?.season_number`,
   * applied only when that is truthy.
   */
  function SeasonAfterLoad(initial: Option<Progress>, seasons: seq<Season>, current: nat): (r: nat)
    ensures initial.Some? && initial.value.season.Some? && initial.value.season.value > 0
      ==> r == initial.value.season.value
    ensures !(initial.Some? && initial.value.season.Some? && initial.value.season.value > 0) ==>
      match FirstNumbered(seasons)
      case Some(i) => r == seasons[i].seasonNumber
      case None => r == current
  {
    var fromInitial := if initial.Some? && initial.value.season.Some? then initial.value.season.value else 0;
    if fromInitial > 0 then fromInitial
    else
      var pick := match FirstNumbered(seasons)
        case Some(i) => Some(seasons[i])
        case None => if |seasons| > 0 then Some(seasons[0]) else None;
      if pick.Some? && pick.value.seasonNumber > 0 then pick.value.seasonNumber else current
  }

  /** Loading the details never leaves the modal on season 0 when it was not on it. */
  lemma SeasonAfterLoadPositive(initial: Option<Progress>, seasons: seq<Season>, current: nat)
    requires current >= 1
    ensures SeasonAfterLoad(initial, seasons, current) >= 1
  {
  }

  /** The seasons offered in the picker: numbered above 0 and with at least one episode. */
  function SeasonOptions(seasons: seq<Season>): (r: seq<Season>)
    ensures forall x :: x in r <==> x in seasons && x.seasonNumber > 0 && x.episodeCount > 0
    ensures forall x :: multiset(r)[x] == if x.seasonNumber > 0 && x.episodeCount > 0 then multiset(seasons)[x] else 0
    ensures IsSubseq(r, seasons)
  {
    if |seasons| == 0 then []
    else
      var rest := SeasonOptions(seasons[1..]);
      SeasonStepCounts(seasons, rest);
      if seasons[0].seasonNumber > 0 && seasons[0].episodeCount > 0 then [seasons[0]] + rest else rest
  }

  /** One step of the season filter keeps each listed season exactly as often as it occurs. */
  lemma SeasonStepCounts(seasons: seq<Season>, rest: seq<Season>)
    requires seasons != []
    requires forall x :: multiset(rest)[x] == if x.seasonNumber > 0 && x.episodeCount > 0 then multiset(seasons[1..])[x] else 0
    ensures var x0 := seasons[0]; var r := if x0.seasonNumber > 0 && x0.episodeCount > 0 then [x0] + rest else rest;
      forall x :: multiset(r)[x] == if x.seasonNumber > 0 && x.episodeCount > 0 then multiset(seasons)[x] else 0
  {
    assert seasons == [seasons[0]] + seasons[1..];
    assert multiset(seasons) == multiset{seasons[0]} + multiset(seasons[1..]);
    assert multiset([seasons[0]] + rest) == multiset{seasons[0]} + multiset(rest);
  }

  // ---- poster ----

  /** What the image request delivered: the posters, or a failure (possibly an abort). */
  datatype PosterOutcome = PostersLoaded(posters: seq<ImageInfo>) | PostersFailed(aborted: bool)

  /** The clean poster once the images have arrived. */
  function ResolvePoster(item: Media, posters: seq<ImageInfo>): (r: Option<string>)
    ensures r == ChoosePoster(posters, item.posterPath)
    ensures r == item.posterPath || exists i | 0 <= i < |posters| :: r == Some(posters[i].filePath)
  {
    ChoosePosterFrom(posters, item.posterPath);
    if |posters| == 0 then item.posterPath else ChoosePoster(posters, item.posterPath)
  }

  // ---- saving and pasting ----

  /** The arguments `handleOpenAndSave` passes to `onSave`. */
  datatype SaveCall = SaveCall(item: Media, progress: Progress, poster: Option<string>)

  /** No save until the poster is resolved; a show is saved with its season and episode, a movie with `{}`. */
  function OpenAndSave(item: Media, season: nat, episode: nat, cleanPoster: Option<string>): (r: Option<SaveCall>)
    ensures r.None? <==> cleanPoster.None?
    ensures r.Some? ==> r.value.item == item && r.value.poster == cleanPoster
    ensures r.Some? && item.TvResult? ==> r.value.progress == Progress(Some(season), Some(episode))
    ensures r.Some? && item.MovieResult? ==> r.value.progress == NoProgress
  {
    if cleanPoster.None? then None
    else
      var progress := if item.TvResult? then Progress(Some(season), Some(episode)) else NoProgress;
      Some(SaveCall(item, progress, cleanPoster))
  }

  /** What submitting a pasted link does. */
  datatype PasteResult = NoEffect | Rejected(message: string) | Forwarded(url: string)

  /**
   * `handleUpdateFromPastedLink`: only a non-blank link whose first
   * `vidfast.pro/tv/<id>` names the open show is forwarded, trimmed, to the
   * update-from-link handler. `linkedName` is the catalogue's name for a
   * mismatching id, `None` when that lookup failed.
   */
  function PastedLink(item: Media, pasted: string, linkedName: Option<string>): (r: PasteResult)
    ensures r.NoEffect? <==> Trim(pasted) == "" || !item.TvResult?
    ensures r.Forwarded? <==> Trim(pasted) != "" && item.TvResult? && ShowIdOf(Trim(pasted)) == Some(item.id)
    ensures r.Forwarded? ==> r.url == Trim(pasted)
    ensures r.Rejected? && ShowIdOf(Trim(pasted)).None? ==> r.message == InvalidTvLink
    ensures r.Rejected? && ShowIdOf(Trim(pasted)).Some? ==>
      r.message == (if linkedName.Some? then Mismatch(linkedName.value, item.name) else MismatchUnknown(item.name))
  {
    var url := Trim(pasted);
    if url == "" || !item.TvResult? then NoEffect
    else match ShowIdOf(url)
      case None => Rejected(InvalidTvLink)
      case Some(id) =>
        if id != item.id then
          Rejected(if linkedName.Some? then Mismatch(linkedName.value, item.name) else MismatchUnknown(item.name))
        else Forwarded(url)
  }

  /** Pasting back a player link built for the open show is always forwarded. */
  lemma OwnLinkForwarded(item: Media, season: nat, episode: nat, movieBase: string, p: string, linkedName: Option<string>)
    requires item.TvResult? && NoV(p) && (p == [] || !IsWhitespace(p[0]))
    ensures var link := EmbedLink(item, true, season, episode, movieBase, p + TvPath);
      PastedLink(item, link, linkedName) == Forwarded(link)
  {
    var link := EmbedLink(item, true, season, episode, movieBase, p + TvPath);
    TvQueryHasNoV();
    assert link == EpisodeUrl(p, item.id, season, episode, TvQuery);
    assert link[|link| - 1] == TvQuery[|TvQuery| - 1];
    assert p == [] ==> link[0] == TvPath[0];
    assert p != [] ==> link[0] == p[0];
    TrimFramed(link);
    EpisodeUrlShowId(p, item.id, season, episode, TvQuery);
  }

  /** The modal's state for one open title. */
  class Modal {
    const item: Media
    const initial: Option<Progress>
    var details: Option<TvDetails>
    var season: nat
    var episode: nat
    var cleanPoster: Option<string>
    var open: bool

    constructor(item: Media, initial: Option<Progress>)
      ensures this.item == item && this.initial == initial
      ensures (season, episode) == InitialSelection(initial)
      ensures details.None? && cleanPoster.None? && open
    {
      this.item := item;
      this.initial := initial;
      details := None;
      var selection := InitialSelection(initial);
      season := selection.0;
      episode := selection.1;
      cleanPoster := None;
      open := true;
    }

    /** The player link for the current selection. */
    function Link(movieBase: string, tvBase: string): string
      reads this
    {
      EmbedLink(item, details.Some?, season, episode, movieBase, tvBase)
    }

    /** The image request has settled; an aborted request changes nothing. */
    method PostersArrived(outcome: PosterOutcome)
      modifies this
      ensures outcome.PostersLoaded? ==> cleanPoster == ResolvePoster(item, outcome.posters)
      ensures outcome.PostersFailed? && !outcome.aborted ==> cleanPoster == item.posterPath
      ensures outcome.PostersFailed? && outcome.aborted ==> cleanPoster == old(cleanPoster)
      ensures details == old(details) && season == old(season) && episode == old(episode) && open == old(open)
    {
      match outcome {
        case PostersLoaded(posters) =>
          cleanPoster := ResolvePoster(item, posters);
        case PostersFailed(aborted) =>
          if !aborted {
            cleanPoster := item.posterPath;
          }
      }
    }

    /** The show's details have arrived: keep them and pick the season. */
    method DetailsArrived(d: TvDetails)
      modifies this
      ensures details == Some(d)
      ensures season == SeasonAfterLoad(initial, d.seasons, old(season))
      ensures episode == old(episode) && cleanPoster == old(cleanPoster) && open == old(open)
    {
      details := Some(d);
      season := SeasonAfterLoad(initial, d.seasons, season);
    }

    /** Picking another season starts it at episode 1. */
    method ChangeSeason(n: nat)
      modifies this
      ensures season == n && episode == 1
      ensures details == old(details) && cleanPoster == old(cleanPoster) && open == old(open)
    {
      season := n;
      episode := 1;
    }

    /** Picking an episode of the current season. */
    method SelectEpisode(n: nat)
      modifies this
      ensures episode == n && season == old(season)
      ensures details == old(details) && cleanPoster == old(cleanPoster) && open == old(open)
    {
      episode := n;
    }

    /** `handleCopy`: the text put on the clipboard, nothing when there is no link. */
    method Copy(movieBase: string, tvBase: string) returns (clip: Option<string>)
      ensures clip.None? <==> item.TvResult? && details.None?
      ensures clip.Some? ==> clip.value == Link(movieBase, tvBase) && clip.value != ""
    {
      var link := Link(movieBase, tvBase);
      if link == "" {
        return None;
      }
      return Some(link);
    }

    /** `handleOpenAndSave`, saving through the continue-watching store. */
    method SaveTo(store: Store, now: int)
      modifies store
      ensures match OpenAndSave(item, season, episode, cleanPoster)
        case None => store.raw == old(store.raw)
        case Some(call) => store.raw == Items(SavedList(old(store.Contents()), call.item, call.progress, call.poster, now))
    {
      match OpenAndSave(item, season, episode, cleanPoster) {
        case None =>
        case Some(call) =>
          store.Save(call.item, call.progress, call.poster, now);
      }
    }

    /** `handleRemove`: drop the open title from the store and close. */
    method RemoveFrom(store: Store)
      modifies this, store
      ensures store.raw == Items(Without(NewestFirst(old(store.Contents())), item.Key()))
      ensures !open
      ensures details == old(details) && season == old(season) && episode == old(episode) && cleanPoster == old(cleanPoster)
    {
      store.Remove(item.id, item.Kind());
      open := false;
    }

    /**
     * `handleUpdateFromPastedLink`: a rejected link only sets the toast and
     * closes; a forwarded one is handed to the app's update-from-link
     * handler and closes; blank input or a movie does nothing.
     */
    method SubmitPastedLink(app: App.AppState, pasted: string, linkedName: Option<string>, now: int)
      returns (r: PasteResult)
      modifies this, app, app.store
      ensures r == PastedLink(item, pasted, linkedName)
      ensures details == old(details) && season == old(season) && episode == old(episode)
      ensures cleanPoster == old(cleanPoster)
      ensures r.NoEffect? ==> unchanged(this) && unchanged(app) && unchanged(app.store)
      ensures r.Rejected? ==>
        && !open && app.View() == old(app.View()).(feedback := Some(r.message))
        && unchanged(app`confirmation, app`timer, app`inFlight, app`trail) && unchanged(app.store)
      ensures r.Forwarded? ==> !open && app.confirmation == old(app.confirmation) && app.timer == old(app.timer)
    {
      r := PastedLink(item, pasted, linkedName);
      if r.Rejected? {
        Reject(app, r.message);
      } else if r.Forwarded? {
        Forward(app, r.url, now);
      }
    }

    /** The rejected path: only the toast is set, and the modal closes. */
    method Reject(app: App.AppState, message: string)
      modifies this, app
      ensures !open && details == old(details) && season == old(season) && episode == old(episode)
      ensures cleanPoster == old(cleanPoster)
      ensures app.View() == old(app.View()).(feedback := Some(message))
      ensures unchanged(app`confirmation, app`timer, app`inFlight, app`trail)
    {
      app.feedback := Some(message);
      open := false;
    }

    /** The forwarded path: hand the link to the app's update-from-link handler and close. */
    method Forward(app: App.AppState, url: string, now: int)
      modifies this, app, app.store
      ensures !open && details == old(details) && season == old(season) && episode == old(episode)
      ensures cleanPoster == old(cleanPoster)
      ensures app.confirmation == old(app.confirmation) && app.timer == old(app.timer)
    {
      app.UpdateFromLink(url, now);
      open := false;
    }
  }
}
