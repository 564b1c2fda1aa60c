# vidfast-link-generator: the continue-watching core in Dafny

This project models the "continue watching" part of the vidfast link
generator, a React app that builds player links for titles from the TMDB
catalogue and remembers what the user is watching. It covers these parts:

- **The continue-watching store** (`storage.dfy`, `sorting.dfy`).
  - `Storage.Store` is a class over the parsed content of the stored text.
  - It has three operations: read newest first, upsert, and remove.
  - The list is kept to one entry per `(id, media_type)` pair.
  - JavaScript's stable `Array.prototype.sort` is modelled by an insertion sort. Its contract states order and permutation; of stability it states one consequence, that an already sorted list is left unchanged.
- **The pasted-link parser** (`link_patterns.dfy`).
  - There are four fixed patterns: episode, movie, bare show, and the player modal's show id.
  - They are written as hand-made leftmost matchers. Each capture is a maximal run of digits.
  - The auto-submit pre-filter is the same patterns, read as "a substring of this shape exists".
- **The update-from-link flow of `App.tsx`** (`app.dfy`, `posters.dfy`).
  - `App.AppState` holds the link box, its status machine (`idle`/`loading`/`success`), the feedback toast, the confirmation dialog, the pending debounced submission and the requests waiting for the catalogue.
  - The asynchronous handler is split at its first wait. `UpdateFromLink` decides at once, and `Resume` applies the continuation `Complete` when the catalogue has answered.
  - The timed success animation is recorded as an ordered trail of snapshots.
- **The player modal** (`embed_link_modal.dfy`).
  - It builds the player link and picks the initial and reloaded season and episode.
  - It resolves the poster and decides what "open and save" stores.
  - It checks a pasted link against the open show.
  - `EmbedLinkModal.Modal` holds its state fields.
- **How the modal, the cards and the theme dialog are mounted** (`wiring.dfy`): which props their parents pass, and what a render or a click does with a missing one.
- **Small derivations**:
  - the card label and poster (`continue_watching_card.dfy`);
  - the colour search of the theme dialog (`theme_modal.dfy`);
  - search-result post-processing and error messages (`tmdb.dfy`).
- **Supporting modules**: `text.dfy` has `trim`, `toLowerCase`, `includes`, `Number` and number rendering; `types.dfy` has the records; `wrappers.dfy` has `Option`.

External effects are parameters:

- `Date.now()` is `now`.
- The stored text is what parsing it yields: `Missing`, `Malformed`, or `Items(entries)`.
- Catalogue responses are `Answers`, where `None` is a failed request.
- The base URLs and colour palettes from `constants.ts` are string and sequence parameters. `constants.ts` is not part of this model.

Where the descriptions of the app show example links on other hosts, the model follows the code: every pattern requires `vidfast.pro/tv/` or `vidfast.pro/movie/`.

## Model

| member | source | states |
|---|---|---|
| Storage.Store.GetList | services/storage.ts:6-17 | nothing stored or unparsable text reads as []; otherwise the stored entries, sorted newest first, as a permutation |
| Storage.Store.Save | services/storage.ts:19-39 | the store then holds `SavedList`: the read list with the entry of the same identity replaced in place, or the new entry prepended, sorted newest first |
| Storage.Store.Remove | services/storage.ts:42-46 | the store then holds the read list without any entry of that `(id, media_type)` |
| Storage.FindIndex | services/storage.ts:21 | the first index whose identity matches, and `None` exactly when no entry has it |
| Storage.Lookup | App.tsx:251 | `find` on the identity: the first member of the list with that identity, `None` exactly when there is none |
| Storage.Without | services/storage.ts:44 | every entry of another identity is kept exactly as often as in the input, every entry of that identity is dropped; a subsequence of the input; the input itself when the identity is absent |
| Storage.KeysOfPermutation | services/storage.ts:12 | reordering a list changes no identity's presence |
| Storage.SortKeepsUnique | services/storage.ts:12 | sorting keeps at most one entry per identity |
| Storage.UpsertedMultiset | services/storage.ts:30-36 | an upsert removes exactly the replaced entry and adds the new one, or only adds it |
| Storage.UpsertedOnly | services/storage.ts:30-32 | with unique identities, the new entry is the only one under its identity after an upsert |
| Storage.SaveLength | services/storage.ts:30-36 | saving a present identity keeps the length, an absent one adds exactly one |
| Storage.SaveStoresEntry | services/storage.ts:23-28 | the written list contains the entry with exactly the given media, progress, poster and `savedAt = now` |
| Storage.SaveKeepsOthers | services/storage.ts:30-38 | every entry of another identity is kept, as often as before |
| Storage.SaveReplaces | services/storage.ts:30-32 | with unique identities, every entry under the saved identity is the new entry |
| Storage.SaveKeepsUnique | services/storage.ts:19-39 | one entry per identity before a save implies the same after it |
| Storage.SaveMovesToFront | services/storage.ts:38 | when `now` is later than every stored `savedAt`, the saved entry is first |
| Storage.SaveTwice | services/storage.ts:19-39 | saving one identity twice keeps one entry for it, stamped with the second time, and the same length |
| Storage.RemoveThenRead | services/storage.ts:42-46 | a read after a removal returns the written list unchanged (it is already newest first) |
| Storage.RemoveKeepsUnique | services/storage.ts:42-46 | one entry per identity before a removal implies the same after it |
| Storage.RemoveAbsentIsNoOp | services/storage.ts:43-45 | removing an absent identity writes back exactly what a read returns |
| Sorting.Insert | services/storage.ts:12 | inserting keeps every element and keeps a descending list descending |
| Sorting.SortDesc | services/storage.ts:12 | the sort result is descending by key and a permutation of its input |
| Sorting.SortDescOfDescending | services/storage.ts:12 | sorting an already sorted list changes nothing (a consequence of stability) |
| Sorting.FirstIsLargest | services/storage.ts:38 | the first element of a sorted list has the largest key |
| Sorting.SubseqKeepsDescending | services/storage.ts:44 | filtering a sorted list keeps it sorted |
| Text.Trim | App.tsx:225 | `trim` is a slice of the text with only whitespace before and after it; it is empty exactly for blank text, otherwise starts and ends with a non-space |
| Text.TrimFramed | components/EmbedLinkModal.tsx:134 | text framed by non-space characters is its own `trim` |
| Text.NatToString | components/ContinueWatchingCard.tsx:29 | the decimal rendering is a non-empty numeral that `Number` reads back as the value |
| LinkPatterns.RunEnd | App.tsx:243 | `\d+` takes the maximal run of digits: digits up to the end, followed by a non-digit or the end |
| LinkPatterns.RunEndIsMaximal | App.tsx:243 | any digit run followed by a non-digit is the run `RunEnd` finds |
| LinkPatterns.NumberSlashAt | App.tsx:243 | `\d+\/` matches at `k` exactly when some digits followed by a slash start there, and returns the position after the slash |
| LinkPatterns.Search | App.tsx:247 | `match` returns the leftmost matching position with its captures; no earlier position matches; `None` only when no position matches |
| LinkPatterns.ShowIdOf | components/EmbedLinkModal.tsx:139-140 | the modal's show id is `None` exactly when no position matches, otherwise the id captured at the leftmost matching position |
| LinkPatterns.ShowIdAtCaptures | components/EmbedLinkModal.tsx:139 | the show-id pattern matches exactly where a digit follows `vidfast.pro/tv/`, and captures that maximal digit run |
| LinkPatterns.EpisodeAtIffShape | App.tsx:228-243 | the capturing episode matcher succeeds exactly where the `test` shape of the episode pattern occurs |
| LinkPatterns.MovieAtIffShape | App.tsx:229-244 | the same for the movie pattern |
| LinkPatterns.ShowAtIffShape | App.tsx:230-245 | the same for the bare-show pattern |
| LinkPatterns.EpisodeAtCaptures | App.tsx:243 | where the episode pattern matches, it follows `vidfast.pro/tv/` and captures three maximal digit runs, the first two each closed by `/` |
| LinkPatterns.MovieAtCaptures | App.tsx:244 | where the movie pattern matches, it follows `vidfast.pro/movie/` and captures the maximal digit run |
| LinkPatterns.ShowAtCaptures | App.tsx:245 | where the bare-show pattern matches, it captures a maximal digit run after `vidfast.pro/tv/` that ends the text or meets `/`, `?` or `/?` |
| LinkPatterns.ParsePriority | App.tsx:247-362 | an episode match anywhere wins, then a movie match, then a bare-show match, each at its leftmost position with its captures; a text none matches is unrecognised |
| LinkPatterns.SearchSomeIff | App.tsx:247 | a leftmost search finds something exactly when some position matches |
| LinkPatterns.LooksLikeLinkIffRecognised | App.tsx:228-245 | the auto-submit pre-filter accepts a text exactly when the parser recognises it |
| LinkPatterns.EmptyIsNoLink | App.tsx:226 | the empty text passes no pattern and is not recognised |
| LinkPatterns.EpisodeAtUrl | App.tsx:243-249 | at the path of an episode link, the episode pattern captures (id, season, episode) |
| LinkPatterns.EpisodeUrlParses | App.tsx:243-249 | an episode link with a `v`-free prefix parses back as that episode |
| LinkPatterns.MovieAtUrl | App.tsx:306-309 | at the path of a movie link, the movie pattern captures the id |
| LinkPatterns.MovieUrlHasNoTvPath | App.tsx:243 | a movie link with a `v`-free prefix and query holds no TV path, so the episode pattern cannot win |
| LinkPatterns.MovieUrlParses | App.tsx:306-309 | a movie link with a `v`-free prefix and query parses back as that movie |
| LinkPatterns.EpisodeUrlShowId | components/EmbedLinkModal.tsx:139-148 | the modal reads the show id back from an episode link |
| LinkPatterns.ShowUrlParses | App.tsx:347-350 | a bare show link, optionally followed by `/` and/or `?...`, parses as that show |
| LinkPatterns.SeasonOnlyUnrecognized | App.tsx:243-245 | a link that stops after the season, such as `vidfast.pro/tv/100/2`, is unrecognised |
| Posters.FirstTextless | App.tsx:264 | the first poster with a null language, `None` exactly when every poster has a language |
| Posters.ChoosePoster | App.tsx:264-265 | a textless poster with a non-empty path wins, then the first poster's non-empty path, then the fallback |
| Posters.ChoosePosterFrom | App.tsx:319-320 | the chosen poster is the fallback or a non-empty path of one of the posters |
| App.Decide | App.tsx:247-363 | episode or movie link for a stored identity: re-save the first stored entry of that identity's media, with `{season, episode}` or `{}` progress and poster `cleanPosterPath` or `poster_path`; any other recognised link: a catalogue request; unrecognised: the fixed feedback |
| App.FindEpisode | App.tsx:261 | the first episode with that number, `None` exactly when there is none |
| App.Complete | App.tsx:258-358 | the title is staged exactly when all its lookups succeed, with the details, the linked progress, the found episode and the chosen poster; a failure gives the kind's message; a bare show only reports |
| App.SuccessTrailOrder | App.tsx:191-216 | the success sequence in order: checkmark, checkmark hidden with the text kept, toast, fade, then the box cleared |
| App.ScheduledIffRecognised | App.tsx:225-236 | a submission is scheduled exactly when the parser will recognise the trimmed text |
| App.AppState.constructor | App.tsx:48-76 | the box starts empty and idle, with no toast, dialog, timer or request |
| App.AppState.HandleLinkInputChange | App.tsx:218-237 | the box holds the text, status idle, fade off; the timer is set to the trimmed text exactly when it is non-blank and passes the pre-filter |
| App.AppState.FadeAndClearInput | App.tsx:182-189 | fade on, then the box cleared, idle, fade off |
| App.AppState.ShowSuccessAndClear | App.tsx:191-216 | appends the five success snapshots and ends cleared, idle, with the toast |
| App.AppState.UpdateFromLink | App.tsx:239-364 | a call while loading changes nothing; a re-save writes the store and runs the success sequence; a lookup leaves the status loading and queues the request; a rejection sets the feedback and goes idle; only the re-save writes the store |
| App.AppState.Resume | App.tsx:258-358 | the answered request leaves the queue, the status is idle, and either the title is staged or feedback is set; the store is untouched |
| App.AppState.Confirm | App.tsx:287-291 | `onConfirm` saves the staged title once, closes the dialog and runs the success sequence with the "Added" message |
| App.AppState.Cancel | App.tsx:292-295 | `onCancel` closes the dialog and clears the box without saving |
| App.BareAndUnknownNeverResave | App.tsx:347-363 | bare-show and unrecognised links never re-save |
| App.ShowNeverStaged | App.tsx:347-360 | a bare-show link is never staged for saving |
| App.FailedLookupReports | App.tsx:297-301 | failed lookups give feedback and nothing to save |
| App.ResaveUpdatesProgress | App.tsx:251-256 | re-saving from an episode link keeps one entry per title, keeps the length, and leaves the title with exactly the linked progress and `savedAt = now` |
| EmbedLinkModal.EmbedLink | components/EmbedLinkModal.tsx:102-111 | the link is empty exactly for a show whose details have not loaded |
| EmbedLinkModal.MovieQueryHasNoV | components/EmbedLinkModal.tsx:103-105 | the movie query holds no `v` and does not start with a digit |
| EmbedLinkModal.TvQueryHasNoV | components/EmbedLinkModal.tsx:103-108 | the episode query holds no `v` and does not start with a digit |
| EmbedLinkModal.EpisodeLinkParsesBack | components/EmbedLinkModal.tsx:107-108 | the episode link the modal builds parses back as that episode |
| EmbedLinkModal.MovieLinkParsesBack | components/EmbedLinkModal.tsx:104-105 | the movie link the modal builds parses back as that movie |
| EmbedLinkModal.OrOne | components/EmbedLinkModal.tsx:30-31 | `x \|\| 1`: at least 1, the value when truthy, 1 otherwise |
| EmbedLinkModal.InitialSelection | components/EmbedLinkModal.tsx:30-31 | the initial season and episode come from the progress, else 1 |
| EmbedLinkModal.FirstNumbered | components/EmbedLinkModal.tsx:67 | the first season numbered above 0, `None` exactly when all are 0 |
| EmbedLinkModal.SeasonAfterLoad | components/EmbedLinkModal.tsx:67-70 | after the details load: the progress's season when truthy, else the first season numbered above 0, else unchanged |
| EmbedLinkModal.SeasonAfterLoadPositive | components/EmbedLinkModal.tsx:67-70 | loading the details never moves a selection of at least 1 to season 0 |
| EmbedLinkModal.SeasonOptions | components/EmbedLinkModal.tsx:261 | the picker offers exactly the seasons numbered above 0 with episodes, each as often as listed, in order |
| EmbedLinkModal.ResolvePoster | components/EmbedLinkModal.tsx:39-47 | the resolved poster is the heuristic's choice: the item's own poster or a path of one of the posters |
| EmbedLinkModal.OpenAndSave | components/EmbedLinkModal.tsx:121-125 | no save while the poster is unresolved; otherwise the item, the poster, and `{season, episode}` for a show or `{}` for a movie |
| EmbedLinkModal.PastedLink | components/EmbedLinkModal.tsx:132-163 | blank text or a movie: no effect; no show id: the invalid-link message; another id: the mismatch message; forwarded (trimmed) exactly when the id is the open show's |
| EmbedLinkModal.OwnLinkForwarded | components/EmbedLinkModal.tsx:132-163 | pasting back the modal's own episode link is always forwarded |
| EmbedLinkModal.Modal.constructor | components/EmbedLinkModal.tsx:22-33 | no details or poster yet, open, on the initial selection |
| EmbedLinkModal.Modal.PostersArrived | components/EmbedLinkModal.tsx:36-56 | loaded posters give the resolved poster; a failure gives the item's poster unless it was an abort, which changes nothing |
| EmbedLinkModal.Modal.DetailsArrived | components/EmbedLinkModal.tsx:64-71 | the details are kept and the season becomes `SeasonAfterLoad` |
| EmbedLinkModal.Modal.ChangeSeason | components/EmbedLinkModal.tsx:255-258 | a new season starts at episode 1 |
| EmbedLinkModal.Modal.SelectEpisode | components/EmbedLinkModal.tsx:273 | picking an episode keeps the season |
| EmbedLinkModal.Modal.Copy | components/EmbedLinkModal.tsx:113-119 | nothing is copied exactly when the link is empty; otherwise the link |
| EmbedLinkModal.Modal.SaveTo | components/EmbedLinkModal.tsx:121-125 | the store is written exactly when `OpenAndSave` gives a call, with that call's arguments |
| EmbedLinkModal.Modal.RemoveFrom | components/EmbedLinkModal.tsx:127-130 | the open title's identity is removed from the store and the modal closes |
| EmbedLinkModal.Modal.SubmitPastedLink | components/EmbedLinkModal.tsx:132-163 | the selection, details and poster never change; a rejection only sets the toast and closes, leaving the rest of the app and the store as they were; a forwarded link goes to `UpdateFromLink` and closes; no effect leaves the modal, the app and the store as they were |
| ContinueWatchingCard.CardTitle | components/ContinueWatchingCard.tsx:15 | the title is `title` for a movie and `name` for a show |
| ContinueWatchingCard.PosterPath | components/ContinueWatchingCard.tsx:17 | `cleanPosterPath` when truthy, else `poster_path` |
| ContinueWatchingCard.PosterUrl | components/ContinueWatchingCard.tsx:18-20 | image base plus path when a path exists, else the picsum URL seeded by the id |
| ContinueWatchingCard.ProgressLabel | components/ContinueWatchingCard.tsx:27-34 | "S<season> E<episode>" for a show with both set and non-zero, "Continue Watching" for a movie, "Saved" otherwise |
| ContinueWatchingCard.ProgressLabelCases | components/ContinueWatchingCard.tsx:27-34 | each of the three labels occurs exactly in its own case |
| ContinueWatchingCard.LabelAfterEpisodeLink | components/ContinueWatchingCard.tsx:28-29 | after an episode link re-saves a stored show, its card reads that season and episode |
| ThemeModal.KeepMatching | components/ThemeModal.tsx:19-23 | exactly the colours whose lower-cased name or hex contains the lower-cased query, each as often as in the palette, in palette order |
| ThemeModal.FilteredColors | components/ThemeModal.tsx:16-24 | a blank query gives []; otherwise exactly the matching colours, each as often as in the palette, as a subsequence of the palette |
| ThemeModal.ShowsNoColors | components/ThemeModal.tsx:121 | "No colors found." shows exactly for a non-blank query that matches no colour |
| ThemeModal.LowerKeepsBlank | components/ThemeModal.tsx:17-18 | lower-casing keeps a query blank or non-blank |
| ThemeModal.FilterIgnoresCase | components/ThemeModal.tsx:18-22 | queries that differ only in letter case find the same colours |
| ThemeModal.SameTestSameFilter | components/ThemeModal.tsx:19-23 | the filter depends on the query only through its lower-cased form |
| ThemeModal.AtMostOneHighlighted | components/ThemeModal.tsx:80 | with distinct preset hex codes, at most one preset is highlighted |
| Tmdb.KeepTitles | services/tmdb.ts:23-24 | exactly the movie and show hits are kept, each title as often as it is hit, and nothing is added |
| Tmdb.SearchResults | services/tmdb.ts:21-26 | most popular first, and each title as often as it is hit in the response |
| Wiring.OpenAndSaveEffect | components/EmbedLinkModal.tsx:121-125 | no write until the poster is resolved; then a missing `onSave` throws and a passed one writes a list holding the selection |
| Wiring.MountedModalNeverSaves | App.tsx:576-581 | as mounted, the save button never writes (it throws once the poster is known), and neither the remove button nor the paste form renders |
| Wiring.WiredModalSaves | components/EmbedLinkModal.tsx:121-125 | wired to the store, a resolved save stores the selection, after which the remove button (and, for a show, the paste form) renders |
| Wiring.TrashEffect | components/ContinueWatchingCard.tsx:22-25 | a missing `onRemove` throws; a passed one writes a list without the card's identity that keeps every other entry |
| Wiring.MountedTrashThrows | components/ContinueWatchingGrid.tsx:73-76 | as mounted, every trash click throws and nothing is written |
| Wiring.WiredTrashRemoves | components/ContinueWatchingCard.tsx:22-25 | wired to the store, a trash click drops that identity, keeps every other entry and keeps one entry per identity |
| Wiring.ThemeWired | App.tsx:28 | the intended mount passes the app's `playerTheme` as the current theme and a setter for it |
| Wiring.ThemeRender | components/ThemeModal.tsx:26-121 | a closed dialog renders nothing; an open one throws when the current theme is `undefined`, and otherwise rings exactly the presets with the current hex and lists `FilteredColors` with "No colors found." as `ShowsNoColors` says |
| Wiring.Rings | components/ThemeModal.tsx:80 | one ring flag per preset, on exactly when the preset's hex equals the current theme's |
| Wiring.SelectEffect | components/ThemeModal.tsx:28-30 | a click throws exactly when `onThemeChange` is missing, and otherwise sets the clicked colour as the theme |
| Wiring.MountedThemeThrows | App.tsx:599-602 | as mounted, opening the dialog throws while rendering, so no highlight, colour list or "No colors found." is shown, and a selection would throw too |
| Wiring.WiredThemeShows | components/ThemeModal.tsx:55-121 | wired to the player theme, the open dialog lists the filtered colours and rings the presets of the current theme; a picked preset becomes the theme and is then ringed |
| Tmdb.ErrorMessage | services/tmdb.ts:14-17 | unreadable body: the unknown-error text; otherwise `status_message` when truthy, else "Request failed with status N" |
| Tmdb.StatusReadBack | services/tmdb.ts:16 | the status code can be read back from the fallback message |

## Left out

- Network requests (`fetchFromTMDB` and every `get*` call) are not modelled. Their results are the abstract `Answers` and `PosterOutcome` values.
- Local storage and JSON are not modelled. The stored text is what parsing it yields.
- `Date.now()` is the parameter `now`.
- Timers, the 300 ms debounce, the `sleep` durations and abort controllers are not modelled. The pending debounced call is the `timer` field. Its firing would be `UpdateFromLink(timer.value)` and is not a separate operation. The success sequence is a list of snapshots, not time.
- Automatic expiry of the feedback toast is not modelled. Neither are interleavings of concurrent handlers or stale React closures.
- `UpdateFromLink` reads the store directly. `App.tsx` reads its `continueWatchingList` state, which mirrors the store after every save.
- Import, export, reset and "My List" are not modelled. Neither are the older `UpdateFromLink.tsx`, rendering, or date formatting.
- The tab-switch handlers that only set the selected item, such as `handleSelectFromContinueWatching`, are not modelled. They pass fields through unchanged.
- `popularity` is a float in the source and an integer key here. Ids are unbounded naturals, with no `Number` precision loss above 2^53.
- Text.Lower: maps ASCII letters only, while `toLowerCase` also lower-cases non-ASCII letters.
- `constants.ts` is not part of this model. The player and image base URLs, `CSS_COLORS` and `PREDEFINED_THEMES` are parameters.
- LinkPatterns.EpisodeUrlParses: the round trip is proved for a base URL prefix that holds no `v` (such as `https://`). A prefix containing the path could match earlier.
- LinkPatterns.MovieUrlParses: likewise, for a `v`-free prefix and query.
- LinkPatterns.EpisodeUrlShowId: likewise, for a `v`-free prefix.
- LinkPatterns.ShowUrlParses: likewise, for a `v`-free prefix and tail.
- LinkPatterns.SeasonOnlyUnrecognized: likewise, for a `v`-free prefix.
- EmbedLinkModal.EpisodeLinkParsesBack: likewise, for a player base URL of the form `<v-free prefix>vidfast.pro/tv/`.
- EmbedLinkModal.MovieLinkParsesBack: likewise, for `<v-free prefix>vidfast.pro/movie/`.
- EmbedLinkModal.OwnLinkForwarded: likewise, for a `v`-free prefix that does not start with whitespace.
- App.Complete and Types.MovieDetails: the movie-details answer is trusted to carry the movie kind, as its declared type `MovieSearchResult` says, so a staged movie is always stored with `media_type: 'movie'`. The source saves that answer as returned, while the TV branch sets `media_type: 'tv'` itself. If the answer lacked the field, the stored movie would have no kind, a later link for it would miss the stored-identity lookup, and its card would show the show title and label.
- Sorting.SortDesc: states that the result is descending and a permutation, not full stability (equal keys keep their input order). Stability is stated only through Sorting.SortDescOfDescending.
- EmbedLinkModal.Modal.SubmitPastedLink: for a forwarded link it states that the modal closes and that the dialog and timer are kept, not the rest of the app's new state. That is what `App.AppState.UpdateFromLink` states.
- The callbacks are modelled as wired to the store: `EmbedLinkModal.Modal.SaveTo`, `RemoveFrom` and `SubmitPastedLink` act on the store and the app directly. As mounted, the modal and the cards receive no such callbacks (see Findings).
- ThemeModal.FilteredColors, ShowsNoColors and AtMostOneHighlighted: modelled as if the dialog were mounted with a current theme; as mounted, the dialog throws on opening (see Findings, and `Wiring.ThemeRender` for both mounts).

## Findings

| source | as written | input that shows it | evidently intended | confidence | as-written member | corrected member |
|---|---|---|---|---|---|---|
| App.tsx:576-581 | the player modal is mounted with only `onClose`, `onUpdateFromLink` and `initialProgress`, so `onSave` is `undefined` | any title whose poster has resolved: "Open Link in New Tab & Save" opens the player, then calls `undefined` and throws, and nothing is saved | `onSave` bound to the store's save | not executed | Wiring.MountedModalNeverSaves | Wiring.WiredModalSaves |
| components/EmbedLinkModal.tsx:221 | `isSaved` is never passed, so it is `undefined` and the remove button is never rendered | any title already in the continue-watching list: the modal shows no "Remove from List" | `isSaved` computed from the stored list | not executed | Wiring.MountedModalNeverSaves | Wiring.WiredModalSaves |
| components/EmbedLinkModal.tsx:360 | the paste form also depends on `isSaved` and is never rendered | any stored show: no "Update Progress with Link" form appears | the form shown for a stored show | not executed | Wiring.MountedModalNeverSaves | Wiring.WiredModalSaves |
| components/ContinueWatchingGrid.tsx:73-76 | the cards are mounted without `onRemove` | any card: its trash button calls `undefined` and throws | `onRemove` bound to the store's remove | not executed | Wiring.MountedTrashThrows | Wiring.WiredTrashRemoves |
| App.tsx:599-602 | the theme dialog is mounted with only `isOpen` and `onClose`; `playerTheme` (App.tsx:28) is never passed, so `currentTheme` is `undefined` | open "Player Theme": the render reads `currentTheme.hex` (components/ThemeModal.tsx:55) and throws, so no preset, colour list or "No colors found." appears | `currentTheme={playerTheme}` and `onThemeChange={setPlayerTheme}` | not executed | Wiring.MountedThemeThrows | Wiring.WiredThemeShows |
