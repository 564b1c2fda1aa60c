/**
 * The poster heuristic shared by App.tsx (when a pasted link names a title
 * that is not yet saved) and by the player modal: prefer the first poster
 * without a language tag, as those are usually textless, then the first
 * poster of all, then the title's own poster.
 */
module Posters {
  import opened Wrappers
  import opened Types

  /** The index of the first poster whose language is `null`. */
  function FirstTextless(posters: seq<ImageInfo>): (r: Option<nat>)
    ensures r.Some? ==> r.value < |posters| && posters[r.value].language.None?
    ensures r.Some? ==> forall j | 0 <= j < r.value :: posters[j].language.Some?
    ensures r.None? <==> forall j | 0 <= j < |posters| :: posters[j].language.Some?
  {
    if |posters| == 0 then None
    else if posters[0].language.None? then Some(0)
    else match FirstTextless(posters[1..])
      case None => None
      case Some(i) => Some(i + 1)
  }

  /** `textless?.file_path || posters[0]?.file_path || fallback`. */
  function ChoosePoster(posters: seq<ImageInfo>, fallback: Option<string>): (r: Option<string>)
    ensures var t := FirstTextless(posters);
      var textless := t.Some? && posters[t.value].filePath != "";
      var first := |posters| > 0 && posters[0].filePath != "";
      // a textless poster with a path wins, then the first poster, then the fallback
      && (textless ==> r == Some(posters[t.value].filePath))
      && (!textless && first ==> r == Some(posters[0].filePath))
      && (!textless && !first ==> r == fallback)
  {
    var textless := match FirstTextless(posters)
      case Some(i) => Some(posters[i].filePath)
      case None => None;
    var first := if |posters| > 0 then Some(posters[0].filePath) else None;
    OrElse(textless, OrElse(first, fallback))
  }

  /** The chosen poster is a non-empty path of one of the posters, or the fallback. */
  lemma ChoosePosterFrom(posters: seq<ImageInfo>, fallback: Option<string>)
    ensures var r := ChoosePoster(posters, fallback);
      r == fallback || exists i | 0 <= i < |posters| :: r == Some(posters[i].filePath) && posters[i].filePath != ""
  {
    var r := ChoosePoster(posters, fallback);
    if r != fallback {
      var t := FirstTextless(posters);
      if t.Some? && posters[t.value].filePath != "" {
        assert r == Some(posters[t.value].filePath);
      } else {
        assert r == Some(posters[0].filePath);
      }
    }
  }
}
