/**
 * The "update from link" flow of App.tsx: a pasted player link is parsed,
 * reconciled with the continue-watching list, and either re-saves a stored
 * title at once, stages an unknown title for confirmation, or only reports
 * feedback.
 *
 * The asynchronous handler is split at its first `await`: `UpdateFromLink`
 * is the synchronous part, and a request that has to wait for the catalogue
 * is queued in `inFlight`; `Resume` applies the continuation `Complete`
 * once the catalogue has answered (or failed). The timed success animation is a
 * recorded sequence of `LinkView` snapshots in `trail`, one per step.
 */
module App {
  import opened Wrappers
  import opened Text
  import opened Types
  import opened Storage
  import opened LinkPatterns
  import opened Posters

  /** `linkUpdateStatus`. */
  datatype Status = Idle | Loading | Success

  /** What the link box shows: its text, its status, whether it is fading out, and the toast. */
  datatype LinkView = LinkView(input: string, status: Status, fading: bool, feedback: Option<string>)

  /** A catalogue lookup the handler is waiting for. */
  datatype Request =
    | TvRequest(id: nat, season: nat, episode: nat)
    | MovieRequest(id: nat)
    | ShowRequest(id: nat)

  /** `confirmationState` while open: the title to add and what `onConfirm` will save. */
  datatype Pending = Pending(item: Media, progress: Progress, episode: Option<Episode>, poster: Option<string>)

  /**
   * The catalogue's answers to one request; `None` is a request that failed.
   * A show request reads only `tv`, a movie request `movie` and `images`.
   */
  datatype Answers = Answers(
    tv: Option<TvDetails>,
    seasonEpisodes: Option<seq<Episode>>,
    movie: Option<MovieDetails>,
    images: Option<seq<ImageInfo>>)

  /** What the synchronous part of the handler decides. */
  datatype Action =
    | Resave(media: Media, progress: Progress, poster: Option<string>, message: string)
    | Fetch(request: Request)
    | Reject(message: string)

  /** What the continuation decides once the catalogue has answered. */
  datatype Outcome =
    | Staged(pending: Pending)
    | Report(message: string)

  // ---- feedback texts ----

  const UnrecognizedMessage: string := "Invalid or unrecognized VidFast link format."
  const TvLookupFailed: string := "Could not find details for the TV show in the link."
  const MovieLookupFailed: string := "Could not find details for the movie in the link."
  const ShowLookupFailed: string := "The pasted TV show link is invalid or the show could not be found."

  function ProgressUpdated(name: string, season: nat, episode: nat): string {
    "'" + name + "' progress updated to S" + NatToString(season) + " E" + NatToString(episode) + "."
  }

  function MovedToFront(title: string): string {
    "'" + title + "' has been moved to the front of your list."
  }

  function Added(title: string): string {
    "Added '" + title + "' to Continue Watching."
  }

  function MissingEpisode(name: string): string {
    "The link you pasted is for '" + name
      + "' but is missing the Season and Episode. Please paste a valid link with Season and Episode to add."
  }

  // ---- the decisions ----

  /** The stored identity an episode or movie link refers to. */
  function LinkKey(link: LinkRef): MediaKey
    requires link.EpisodeLink? || link.MovieLink?
  {
    if link.EpisodeLink? then MediaKey(link.id, Tv) else MediaKey(link.id, Movie)
  }

  /** The catalogue request for a link naming a title that is not stored. */
  function RequestFor(link: LinkRef): Request
    requires !link.Unrecognized?
  {
    match link
    case EpisodeLink(id, season, episode) => TvRequest(id, season, episode)
    case MovieLink(id) => MovieRequest(id)
    case ShowLink(id) => ShowRequest(id)
  }

  /**
   * The reconciliation rule: an episode or movie link whose (id, kind) is in
   * `list` re-saves that entry; anything else recognised is looked up in the
   * catalogue; an unrecognised link is rejected.
   */
  function Decide(list: seq<Entry>, link: LinkRef): (a: Action)
    ensures a.Resave? <==> (link.EpisodeLink? || link.MovieLink?) && HasKey(list, LinkKey(link))
    ensures a.Resave? ==> exists i ::
      && FirstWithKey(list, i, LinkKey(link))
      && list[i].media == a.media
      && a.poster == OrElse(list[i].cleanPosterPath, list[i].media.posterPath)
    ensures a.Resave? && link.EpisodeLink? ==>
      a.progress == Progress(Some(link.season), Some(link.episode))
      && a.message == ProgressUpdated(a.media.Title(), link.season, link.episode)
    ensures a.Resave? && link.MovieLink? ==>
      a.progress == NoProgress && a.message == MovedToFront(a.media.Title())
    ensures a.Fetch? <==> !link.Unrecognized? && !a.Resave?
    ensures a.Fetch? ==> a.request == RequestFor(link)
    ensures a.Reject? <==> link.Unrecognized?
    ensures a.Reject? ==> a.message == UnrecognizedMessage
  {
    match link
    case EpisodeLink(id, season, episode) =>
      (match Lookup(list, MediaKey(id, Tv))
       case Some(e) =>
         Resave(e.media, Progress(Some(season), Some(episode)), OrElse(e.cleanPosterPath, e.media.posterPath),
                ProgressUpdated(e.media.Title(), season, episode))
       case None => Fetch(TvRequest(id, season, episode)))
    case MovieLink(id) =>
      (match Lookup(list, MediaKey(id, Movie))
       case Some(e) =>
         Resave(e.media, NoProgress, OrElse(e.cleanPosterPath, e.media.posterPath), MovedToFront(e.media.Title()))
       case None => Fetch(MovieRequest(id)))
    case ShowLink(id) => Fetch(ShowRequest(id))
    case Unrecognized => Reject(UnrecognizedMessage)
  }

  /** `episodes.find(ep => ep.episode_number === n)`. */
  function FindEpisode(episodes: seq<Episode>, n: nat): (r: Option<Episode>)
    ensures r.Some? ==> r.value in episodes && r.value.episodeNumber == n
    ensures r.None? <==> forall j | 0 <= j < |episodes| :: episodes[j].episodeNumber != n
    ensures r.Some? ==> exists j | 0 <= j < |episodes| ::
                          episodes[j] == r.value && forall i | 0 <= i < j :: episodes[i].episodeNumber != n
  {
    if |episodes| == 0 then None
    else if episodes[0].episodeNumber == n then Some(episodes[0])
    else
      var r := FindEpisode(episodes[1..], n);
      if r.Some? then
        var j :| 1 <= j + 1 <= |episodes| && 0 <= j < |episodes[1..]| && episodes[1..][j] == r.value
          && forall i | 0 <= i < j :: episodes[1..][i].episodeNumber != n;
        assert episodes[j + 1] == r.value;
        r
      else r
  }

  /**
   * The continuation of a catalogue request: an episode or movie whose
   * lookups all succeed is staged for confirmation with the poster the
   * heuristic picks; a bare show only ever produces feedback.
   */
  function Complete(req: Request, ans: Answers): (o: Outcome)
    ensures req.TvRequest? ==> (o.Staged? <==> ans.tv.Some? && ans.seasonEpisodes.Some? && ans.images.Some?)
    ensures req.MovieRequest? ==> (o.Staged? <==> ans.movie.Some? && ans.images.Some?)
    ensures o.Staged? && req.TvRequest? ==> o.pending == Pending(
      ans.tv.value.AsMedia(), Progress(Some(req.season), Some(req.episode)),
      FindEpisode(ans.seasonEpisodes.value, req.episode), ChoosePoster(ans.images.value, ans.tv.value.posterPath))
    ensures o.Staged? && req.MovieRequest? ==> o.pending == Pending(
      ans.movie.value.AsMedia(), NoProgress, None, ChoosePoster(ans.images.value, ans.movie.value.posterPath))
    ensures o.Report? && req.TvRequest? ==> o.message == TvLookupFailed
    ensures o.Report? && req.MovieRequest? ==> o.message == MovieLookupFailed
    ensures req.ShowRequest? ==> o == Report(if ans.tv.Some? then MissingEpisode(ans.tv.value.name) else ShowLookupFailed)
  {
    match req
    case TvRequest(_, season, episode) =>
      if ans.tv.Some? && ans.seasonEpisodes.Some? && ans.images.Some? then
        var tv := ans.tv.value;
        Staged(Pending(tv.AsMedia(), Progress(Some(season), Some(episode)),
                       FindEpisode(ans.seasonEpisodes.value, episode), ChoosePoster(ans.images.value, tv.posterPath)))
      else Report(TvLookupFailed)
    case MovieRequest(_) =>
      if ans.movie.Some? && ans.images.Some? then
        var movie := ans.movie.value;
        Staged(Pending(movie.AsMedia(), NoProgress, None, ChoosePoster(ans.images.value, movie.posterPath)))
      else Report(MovieLookupFailed)
    case ShowRequest(_) =>
      if ans.tv.Some? then Report(MissingEpisode(ans.tv.value.name)) else Report(ShowLookupFailed)
  }

  /** The five snapshots of the success sequence, starting from the view `v`. */
  function SuccessTrail(v: LinkView, message: string): seq<LinkView> {
    [ v.(status := Success),
      v.(status := Idle),
      v.(status := Idle, feedback := Some(message)),
      v.(status := Idle, feedback := Some(message), fading := true),
      LinkView("", Idle, false, Some(message)) ]
  }

  /**
   * The order the success sequence promises: the checkmark first, then the
   * checkmark hidden with the link still in the box, then the toast, then
   * the fade, and only at the end the box cleared.
   */
  lemma SuccessTrailOrder(v: LinkView, message: string)
    requires !v.fading
    ensures var t := SuccessTrail(v, message);
      && |t| == 5
      && (forall i | 0 <= i < 4 :: t[i].input == v.input)
      && t[0].status == Success
      && (forall i | 1 <= i < 5 :: t[i].status == Idle)
      && (forall i | 0 <= i < 5 :: t[i].feedback == Some(message) <==> 2 <= i || v.feedback == Some(message))
      && (forall i | 0 <= i < 5 :: t[i].fading <==> i == 3)
      && t[4] == LinkView("", Idle, false, Some(message))
  {
  }

  /**
   * The link box schedules a submission exactly when the parser will
   * recognise what it submits: the pre-filter on non-blank trimmed text
   * agrees with `Parse`.
   */
  lemma ScheduledIffRecognised(url: string)
    ensures (Trim(url) != "" && LooksLikeLink(Trim(url))) <==> Parse(Trim(url)) != Unrecognized
  {
    var trimmed := Trim(url);
    LooksLikeLinkIffRecognised(trimmed);
    if trimmed == "" {
      EmptyIsNoLink();
    }
  }

  /** The state App.tsx keeps for the link box, and the store it saves to. */
  class AppState {
    const store: Store
    var input: string
    var status: Status
    var fading: bool
    var feedback: Option<string>
    var confirmation: Option<Pending>
    /** The debounced call waiting to fire, with the text it will submit. */
    var timer: Option<string>
    var inFlight: seq<Request>
    var trail: seq<LinkView>

    constructor(store: Store)
      ensures this.store == store
      ensures input == "" && status == Idle && !fading && feedback.None?
      ensures confirmation.None? && timer.None? && inFlight == [] && trail == []
    {
      this.store := store;
      input := "";
      status := Idle;
      fading := false;
      feedback := None;
      confirmation := None;
      timer := None;
      inFlight := [];
      trail := [];
    }

    function View(): LinkView
      reads this
    {
      LinkView(input, status, fading, feedback)
    }

    /**
     * Typing into the link box: the status resets, any pending submission is
     * cancelled, and a new one is scheduled exactly when the trimmed text is
     * non-blank and passes the pre-filter (by `ScheduledIffRecognised`, when
     * the parser recognises it).
     */
    method HandleLinkInputChange(url: string)
      modifies this
      ensures input == url && status == Idle && !fading
      ensures timer.Some? <==> Trim(url) != "" && LooksLikeLink(Trim(url))
      ensures timer.Some? ==> timer.value == Trim(url)
      ensures unchanged(this`feedback, this`confirmation, this`inFlight, this`trail)
    {
      var trimmed := Trim(url);
      var scheduled := if trimmed != "" && LooksLikeLink(trimmed) then Some(trimmed) else None;
      input, fading, status, timer := url, false, Idle, scheduled;
    }

    /** `fadeAndClearInput`: fade out, then clear the box and reset the status. */
    method FadeAndClearInput()
      modifies this
      ensures trail == old(trail) + [old(View()).(fading := true), LinkView("", Idle, false, old(feedback))]
      ensures input == "" && status == Idle && !fading && feedback == old(feedback)
      ensures confirmation == old(confirmation) && timer == old(timer) && inFlight == old(inFlight)
    {
      fading := true;
      trail := trail + [View()];
      input := "";
      status := Idle;
      fading := false;
      trail := trail + [View()];
    }

    /** `showSuccessAndClear`: checkmark, hide it, toast, then fade and clear. */
    method ShowSuccessAndClear(message: string)
      modifies this
      ensures trail == old(trail) + SuccessTrail(old(View()), message)
      ensures input == "" && status == Idle && !fading && feedback == Some(message)
      ensures confirmation == old(confirmation) && timer == old(timer) && inFlight == old(inFlight)
    {
      status := Success;
      trail := trail + [View()];
      status := Idle;
      trail := trail + [View()];
      feedback := Some(message);
      trail := trail + [View()];
      FadeAndClearInput();
    }

    /** The re-save path: write the store, then show the success sequence. */
    method SaveAndShowSuccess(media: Media, progress: Progress, poster: Option<string>, message: string, now: int)
      modifies this, store
      ensures store.raw == Items(SavedList(old(store.Contents()), media, progress, poster, now))
      ensures trail == old(trail) + SuccessTrail(old(View()), message)
      ensures input == "" && status == Idle && !fading && feedback == Some(message)
      ensures confirmation == old(confirmation) && timer == old(timer) && inFlight == old(inFlight)
    {
      store.Save(media, progress, poster, now);
      ShowSuccessAndClear(message);
    }

    /**
     * `actuallyUpdateFromLink` up to its first wait: a call while loading
     * does nothing; a stored title is re-saved at once; a title that is not
     * stored, or a bare show, waits for the catalogue; anything else is
     * rejected with feedback. Only the re-save path writes the store.
     */
    method UpdateFromLink(url: string, now: int)
      modifies this, store
      ensures old(status) == Loading ==>
        store.raw == old(store.raw) && View() == old(View()) && inFlight == old(inFlight) && trail == old(trail)
      ensures confirmation == old(confirmation) && timer == old(timer)
      ensures old(status) != Loading ==>
        var a := Decide(NewestFirst(old(store.Contents())), Parse(url));
        match a
        case Resave(media, progress, poster, message) =>
          && store.raw == Items(SavedList(old(store.Contents()), media, progress, poster, now))
          && trail == old(trail) + SuccessTrail(old(View()).(status := Loading), message)
          && input == "" && status == Idle && !fading && feedback == Some(message)
          && inFlight == old(inFlight)
        case Fetch(request) =>
          && store.raw == old(store.raw)
          && status == Loading && inFlight == old(inFlight) + [request]
          && input == old(input) && fading == old(fading) && feedback == old(feedback) && trail == old(trail)
        case Reject(message) =>
          && store.raw == old(store.raw)
          && status == Idle && feedback == Some(message)
          && input == old(input) && fading == old(fading) && inFlight == old(inFlight) && trail == old(trail)
    {
      if status == Loading {
        return;
      }
      status := Loading;
      var list := store.GetList();
      var action := Decide(list, Parse(url));
      match action {
        case Resave(media, progress, poster, message) =>
          SaveAndShowSuccess(media, progress, poster, message, now);
        case Fetch(request) =>
          inFlight := inFlight + [request];
        case Reject(message) =>
          feedback := Some(message);
          status := Idle;
      }
    }

    /**
     * The catalogue has answered request `k`: the request leaves the queue,
     * the status returns to idle, and either the title is staged for
     * confirmation or feedback is shown. The store is not touched.
     */
    method Resume(k: nat, ans: Answers)
      requires k < |inFlight|
      modifies this
      ensures inFlight == old(inFlight[..k] + inFlight[k + 1..])
      ensures status == Idle
      ensures var o := Complete(old(inFlight[k]), ans);
        && (o.Staged? ==> confirmation == Some(o.pending) && feedback == old(feedback))
        && (o.Report? ==> confirmation == old(confirmation) && feedback == Some(o.message))
      ensures input == old(input) && fading == old(fading) && timer == old(timer) && trail == old(trail)
    {
      var o := Complete(inFlight[k], ans);
      inFlight := inFlight[..k] + inFlight[k + 1..];
      match o {
        case Staged(pending) =>
          confirmation := Some(pending);
        case Report(message) =>
          feedback := Some(message);
      }
      status := Idle;
    }

    /** `onConfirm`: save the staged title once, close the dialog, run the success sequence. */
    method Confirm(now: int)
      requires confirmation.Some?
      modifies this, store
      ensures var p := old(confirmation.value);
        && store.raw == Items(SavedList(old(store.Contents()), p.item, p.progress, p.poster, now))
        && trail == old(trail) + SuccessTrail(old(View()), Added(p.item.Title()))
        && feedback == Some(Added(p.item.Title()))
      ensures confirmation.None? && input == "" && status == Idle && !fading
      ensures timer == old(timer) && inFlight == old(inFlight)
    {
      var p := confirmation.value;
      store.Save(p.item, p.progress, p.poster, now);
      confirmation := None;
      ShowSuccessAndClear(Added(p.item.Title()));
    }

    /** `onCancel`: close the dialog and clear the box; nothing is saved. */
    method Cancel()
      requires confirmation.Some?
      modifies this
      ensures confirmation.None?
      ensures trail == old(trail) + [old(View()).(fading := true), LinkView("", Idle, false, old(feedback))]
      ensures input == "" && status == Idle && !fading && feedback == old(feedback)
      ensures timer == old(timer) && inFlight == old(inFlight)
    {
      confirmation := None;
      FadeAndClearInput();
    }
  }

  // ---- properties of the decisions ----

  /** Only an episode or movie link for a stored title is re-saved without asking. */
  lemma BareAndUnknownNeverResave(list: seq<Entry>, url: string)
    requires Parse(url).ShowLink? || Parse(url).Unrecognized?
    ensures !Decide(list, Parse(url)).Resave?
  {
  }

  /** A bare show link is never staged for saving, whatever the catalogue answers. */
  lemma ShowNeverStaged(id: nat, ans: Answers)
    ensures Complete(ShowRequest(id), ans).Report?
  {
  }

  /** A failed lookup produces feedback and nothing to save. */
  lemma FailedLookupReports(req: Request, ans: Answers)
    requires ans.tv.None? && ans.movie.None?
    ensures Complete(req, ans).Report?
  {
  }

  /**
   * Re-saving from an episode link keeps the list to one entry per title and
   * leaves that title with exactly the linked progress.
   */
  lemma ResaveUpdatesProgress(stored: seq<Entry>, url: string, now: int)
    requires UniqueKeys(stored)
    requires Parse(url).EpisodeLink?
    requires Decide(NewestFirst(stored), Parse(url)).Resave?
    ensures var a := Decide(NewestFirst(stored), Parse(url));
      var r := SavedList(stored, a.media, a.progress, a.poster, now);
      && UniqueKeys(r)
      && |r| == |stored|
      && forall x | x in r && KeyOf(x) == MediaKey(Parse(url).id, Tv) ::
           x.progress == Progress(Some(Parse(url).season), Some(Parse(url).episode)) && x.savedAt == now
  {
    var a := Decide(NewestFirst(stored), Parse(url));
    var list := NewestFirst(stored);
    var i :| FirstWithKey(list, i, MediaKey(Parse(url).id, Tv)) && list[i].media == a.media;
    assert list[i] in multiset(stored);
    SaveKeepsUnique(stored, a.media, a.progress, a.poster, now);
    SaveLength(stored, a.media, a.progress, a.poster, now);
    SaveReplaces(stored, a.media, a.progress, a.poster, now);
  }
}
