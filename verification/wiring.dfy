/**
 * How the player modal, the continue-watching cards and the theme dialog
 * are mounted: which props their parents pass (App.tsx and
 * components/ContinueWatchingGrid.tsx). A prop the parent leaves out is
 * `undefined` in the child; calling it throws a TypeError, and an
 * `undefined` flag is falsy.
 */
module Wiring {
  import opened Wrappers
  import opened Types
  import opened Storage
  import opened EmbedLinkModal
  import ThemeModal

  /** A callback prop: passed by the parent, or left `undefined`. */
  datatype Callback = Passed | Absent

  /** The props of the player modal that reach the continue-watching store. */
  datatype ModalProps = ModalProps(onSave: Callback, onRemove: Callback, setFeedback: Callback, isSaved: bool)

  /** The modal as App.tsx mounts it: only `onClose`, `onUpdateFromLink` and `initialProgress` are passed. */
  const ModalAsMounted: ModalProps := ModalProps(Absent, Absent, Absent, false)

  /** The evidently intended mount: the store's save and remove, the app's toast, and whether the title is stored. */
  function ModalWired(stored: seq<Entry>, item: Media): (p: ModalProps)
    ensures p.onSave.Passed? && p.onRemove.Passed? && p.setFeedback.Passed?
    ensures p.isSaved <==> exists x | x in stored :: KeyOf(x) == item.Key()
  {
    assert forall x | x in stored :: exists i | 0 <= i < |stored| :: stored[i] == x;
    ModalProps(Passed, Passed, Passed, HasKey(stored, item.Key()))
  }

  /** What a click does to the stored list: nothing, a TypeError, or a new list written back. */
  datatype Effect = NoChange | Throws | Writes(list: seq<Entry>)

  /** The entry `handleOpenAndSave` asks to store at time `now`. */
  function SavedEntry(item: Media, season: nat, episode: nat, cleanPoster: Option<string>, now: int): Entry {
    Entry(item, if item.TvResult? then Progress(Some(season), Some(episode)) else NoProgress, now, cleanPoster)
  }

  /**
   * Clicking "Open Link in New Tab & Save": the link opens in any case;
   * once the clean poster is known, `onSave` is called with the selection.
   */
  function OpenAndSaveEffect(props: ModalProps, stored: seq<Entry>, item: Media, season: nat, episode: nat,
                             cleanPoster: Option<string>, now: int): (r: Effect)
    ensures cleanPoster.None? ==> r == NoChange
    ensures cleanPoster.Some? && props.onSave.Absent? ==> r == Throws
    ensures cleanPoster.Some? && props.onSave.Passed? ==>
      r.Writes? && SavedEntry(item, season, episode, cleanPoster, now) in r.list
  {
    match OpenAndSave(item, season, episode, cleanPoster)
    case None => NoChange
    case Some(call) =>
      if props.onSave.Absent? then Throws
      else
        SaveStoresEntry(stored, call.item, call.progress, call.poster, now);
        Writes(SavedList(stored, call.item, call.progress, call.poster, now))
  }

  /** The "Remove from List" button is rendered exactly when `isSaved` is truthy. */
  predicate RemoveShown(props: ModalProps) {
    props.isSaved
  }

  /** The "Update Progress with Link" form also needs the open title to be a show. */
  predicate PasteFormShown(props: ModalProps, item: Media) {
    props.isSaved && item.TvResult?
  }

  /**
   * As mounted, the save button never saves (it throws once the poster is
   * known), and neither the remove button nor the paste form is rendered.
   */
  lemma MountedModalNeverSaves(stored: seq<Entry>, item: Media, season: nat, episode: nat,
                               cleanPoster: Option<string>, now: int)
    ensures !OpenAndSaveEffect(ModalAsMounted, stored, item, season, episode, cleanPoster, now).Writes?
    ensures cleanPoster.Some? ==> OpenAndSaveEffect(ModalAsMounted, stored, item, season, episode, cleanPoster, now) == Throws
    ensures !RemoveShown(ModalAsMounted) && !PasteFormShown(ModalAsMounted, item)
  {
  }

  /**
   * Wired to the store, a resolved save stores the selection, and from then
   * on the modal for that title shows the remove button (and, for a show,
   * the paste form).
   */
  lemma WiredModalSaves(stored: seq<Entry>, item: Media, season: nat, episode: nat,
                        cleanPoster: Option<string>, now: int)
    requires cleanPoster.Some?
    ensures var r := OpenAndSaveEffect(ModalWired(stored, item), stored, item, season, episode, cleanPoster, now);
      && r.Writes?
      && SavedEntry(item, season, episode, cleanPoster, now) in r.list
      && RemoveShown(ModalWired(r.list, item))
      && (item.TvResult? ==> PasteFormShown(ModalWired(r.list, item), item))
  {
    var r := OpenAndSaveEffect(ModalWired(stored, item), stored, item, season, episode, cleanPoster, now);
    assert KeyOf(SavedEntry(item, season, episode, cleanPoster, now)) == item.Key();
  }

  /** The card's `onRemove` as components/ContinueWatchingGrid.tsx mounts it: not passed. */
  const CardOnRemoveAsMounted: Callback := Absent

  /** Clicking a card's trash button: `onRemove` with the card's identity. */
  function TrashEffect(onRemove: Callback, stored: seq<Entry>, e: Entry): (r: Effect)
    ensures onRemove.Absent? ==> r == Throws
    ensures onRemove.Passed? ==> r.Writes? && !HasKey(r.list, KeyOf(e))
    ensures onRemove.Passed? ==> forall x | x in stored && KeyOf(x) != KeyOf(e) :: x in r.list
  {
    if onRemove.Absent? then Throws
    else
      var list := NewestFirst(stored);
      assert forall x :: x in stored <==> x in multiset(list);
      Writes(Without(list, KeyOf(e)))
  }

  /** As mounted, every trash click throws and the list is never written. */
  lemma MountedTrashThrows(stored: seq<Entry>, e: Entry)
    ensures TrashEffect(CardOnRemoveAsMounted, stored, e) == Throws
  {
  }

  /** Wired to the store, a trash click drops that title only and keeps one entry per title. */
  lemma WiredTrashRemoves(stored: seq<Entry>, e: Entry)
    requires UniqueKeys(stored)
    ensures var r := TrashEffect(Passed, stored, e);
      && r.Writes?
      && !HasKey(r.list, KeyOf(e))
      && UniqueKeys(r.list)
      && forall x | x in stored && KeyOf(x) != KeyOf(e) :: x in r.list
  {
    RemoveKeepsUnique(stored, KeyOf(e));
  }

  /** The props of the theme dialog beyond `isOpen` and `onClose`: the current theme and its setter. */
  datatype ThemeProps = ThemeProps(currentTheme: Option<ThemeModal.ColorInfo>, onThemeChange: Callback)

  /** The dialog as App.tsx mounts it: `playerTheme` and `setPlayerTheme` are not passed. */
  const ThemePropsAsMounted: ThemeProps := ThemeProps(None, Absent)

  /** The evidently intended mount: the app's player theme and its setter. */
  function ThemeWired(playerTheme: ThemeModal.ColorInfo): (p: ThemeProps)
    ensures p.currentTheme == Some(playerTheme) && p.onThemeChange.Passed?
  {
    ThemeProps(Some(playerTheme), Passed)
  }

  /**
   * What the dialog renders: nothing while closed, a TypeError, or the
   * body: which presets carry the highlight ring, the colours listed under
   * the search box, and whether "No colors found." shows.
   */
  datatype ThemeView = Closed | RenderThrows | Body(ringed: seq<bool>, colors: seq<ThemeModal.ColorInfo>, noColors: bool)

  /**
   * Rendering the dialog: a closed dialog returns before any prop is read;
   * an open one reads `currentTheme.hex` first, which throws when the
   * current theme is `undefined`.
   */
  function ThemeRender(props: ThemeProps, isOpen: bool, query: string, palette: seq<ThemeModal.ColorInfo>,
                       presets: seq<ThemeModal.ColorInfo>): (r: ThemeView)
    ensures !isOpen <==> r.Closed?
    ensures isOpen && props.currentTheme.None? ==> r == RenderThrows
    ensures isOpen && props.currentTheme.Some? ==>
      && r.Body?
      && |r.ringed| == |presets|
      && (forall i | 0 <= i < |presets| :: r.ringed[i] <==> ThemeModal.Highlighted(props.currentTheme.value, presets[i]))
      && r.colors == ThemeModal.FilteredColors(query, palette)
      && r.noColors == ThemeModal.ShowsNoColors(query, palette)
  {
    if !isOpen then Closed
    else
      match props.currentTheme
      case None => RenderThrows
      case Some(current) =>
        Body(Rings(current, presets), ThemeModal.FilteredColors(query, palette), ThemeModal.ShowsNoColors(query, palette))
  }

  /** The ring of each preset: on exactly when its hex is the current theme's (components/ThemeModal.tsx:80). */
  function Rings(current: ThemeModal.ColorInfo, presets: seq<ThemeModal.ColorInfo>): (r: seq<bool>)
    ensures |r| == |presets|
    ensures forall i | 0 <= i < |presets| :: r[i] <==> ThemeModal.Highlighted(current, presets[i])
  {
    seq(|presets|, i requires 0 <= i < |presets| => presets[i].hex == current.hex)
  }

  /** What a click on a preset or a listed colour does to the player theme. */
  datatype ThemeEffect = SelectThrows | ThemeSet(theme: ThemeModal.ColorInfo)

  /** `handleSelectTheme`: `onThemeChange` with the clicked colour. */
  function SelectEffect(props: ThemeProps, picked: ThemeModal.ColorInfo): (r: ThemeEffect)
    ensures props.onThemeChange.Absent? <==> r == SelectThrows
    ensures props.onThemeChange.Passed? ==> r == ThemeSet(picked)
  {
    if props.onThemeChange.Absent? then SelectThrows else ThemeSet(picked)
  }

  /**
   * As mounted, opening the dialog throws while rendering, so neither the
   * preset highlight, nor the colour list, nor "No colors found." is ever
   * shown, and a selection could not reach the player theme either.
   */
  lemma MountedThemeThrows(query: string, palette: seq<ThemeModal.ColorInfo>, presets: seq<ThemeModal.ColorInfo>,
                           picked: ThemeModal.ColorInfo)
    ensures ThemeRender(ThemePropsAsMounted, true, query, palette, presets) == RenderThrows
    ensures !ThemeRender(ThemePropsAsMounted, true, query, palette, presets).Body?
    ensures SelectEffect(ThemePropsAsMounted, picked) == SelectThrows
  {
  }

  /**
   * Wired to the player theme, the open dialog shows the filtered colours
   * and rings the presets of the current theme; picking a preset makes it
   * the player theme, after which that preset is ringed.
   */
  lemma WiredThemeShows(playerTheme: ThemeModal.ColorInfo, query: string, palette: seq<ThemeModal.ColorInfo>,
                        presets: seq<ThemeModal.ColorInfo>, k: nat)
    requires k < |presets|
    ensures var v := ThemeRender(ThemeWired(playerTheme), true, query, palette, presets);
      && v.Body?
      && v.colors == ThemeModal.FilteredColors(query, palette)
      && v.noColors == ThemeModal.ShowsNoColors(query, palette)
      && (forall i | 0 <= i < |presets| :: v.ringed[i] <==> presets[i].hex == playerTheme.hex)
    ensures var e := SelectEffect(ThemeWired(playerTheme), presets[k]);
      && e == ThemeSet(presets[k])
      && ThemeRender(ThemeWired(e.theme), true, query, palette, presets).ringed[k]
  {
    var e := SelectEffect(ThemeWired(playerTheme), presets[k]);
    assert ThemeModal.Highlighted(e.theme, presets[k]);
  }
}
