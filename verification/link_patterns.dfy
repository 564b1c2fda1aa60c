/**
 * The pasted-link patterns of App.tsx, written out as matchers instead of
 * regular expressions. A JavaScript `match` without the `g` flag returns the
 * leftmost position where the pattern matches; `\d+` followed by a
 * non-digit (or by the end of the pattern) always captures a maximal run of
 * digits, which is what `RunEnd` computes. `Number(...)` of a captured run is
 * `DigitsValue`.
 *
 *   episode   vidfast\.pro\/tv\/(\d+)\/(\d+)\/(\d+)
 *   movie     vidfast\.pro\/movie\/(\d+)
 *   show      vidfast\.pro\/tv\/(\d+)\/?($|\?.*)
 *   show id   vidfast\.pro\/tv\/(\d+)          (the player modal's check)
 *
 * Besides the matchers, each pattern is also stated as a plain "there is a
 * substring of this shape" predicate (`EpisodeShape`, ...), the meaning of
 * `RegExp.prototype.test`; the auto-submit pre-filter is written with those.
 */
module LinkPatterns {
  import opened Wrappers
  import opened Text

  const TvPath: string := "vidfast.pro/tv/"
  const MoviePath: string := "vidfast.pro/movie/"

  /** What a pasted link refers to. */
  datatype LinkRef =
    | EpisodeLink(id: nat, season: nat, episode: nat)
    | MovieLink(id: nat)
    | ShowLink(id: nat)
    | Unrecognized

  /** `s[i..j]` is a (possibly empty) run of digits. */
  predicate DigitsBetween(s: string, i: nat, j: nat) {
    i <= j <= |s| && forall t | i <= t < j :: IsDigit(s[t])
  }

  /** The end of the maximal run of digits that starts at `k`. */
  function RunEnd(s: string, k: nat): (e: nat)
    requires k <= |s|
    ensures k <= e <= |s|
    ensures DigitsBetween(s, k, e)
    ensures e < |s| ==> !IsDigit(s[e])
    decreases |s| - k
  {
    if k < |s| && IsDigit(s[k]) then RunEnd(s, k + 1) else k
  }

  /** A run of digits followed by a non-digit (or the end) is the maximal run. */
  lemma RunEndIsMaximal(s: string, k: nat, a: nat)
    requires k <= a && DigitsBetween(s, k, a) && (a < |s| ==> !IsDigit(s[a]))
    ensures RunEnd(s, k) == a
  {
  }

  // ---- matchers anchored at one position ----

  /** `s[k..n]` is a non-empty run of digits followed by a `/`. */
  predicate NumberSlash(s: string, k: nat, n: nat) {
    k + 1 < n <= |s| && DigitsBetween(s, k, n - 1) && s[n - 1] == '/'
  }

  /** `\d+\/` matched at `k`: the position after the `/`. */
  function NumberSlashAt(s: string, k: nat): (r: Option<nat>)
    requires k <= |s|
    ensures r.Some? <==> exists n: nat :: NumberSlash(s, k, n)
    ensures r.Some? ==> NumberSlash(s, k, r.value)
  {
    var a := RunEnd(s, k);
    if a == k || a == |s| || s[a] != '/' then
      None
    else
      assert NumberSlash(s, k, a + 1);
      Some(a + 1)
  }

  /** The episode pattern matched at `i`: (id, season, episode). */
  function EpisodeAt(s: string, i: nat): Option<(nat, nat, nat)> {
    if !PrefixAt(s, i, TvPath) then None
    else
      var a0 := i + |TvPath|;
      match NumberSlashAt(s, a0)
      case None => None
      case Some(b0) =>
        match NumberSlashAt(s, b0)
        case None => None
        case Some(c0) =>
          var c1 := RunEnd(s, c0);
          if c1 == c0 then None
          else Some((DigitsValue(s[a0..b0 - 1]), DigitsValue(s[b0..c0 - 1]), DigitsValue(s[c0..c1])))
  }

  /** The movie pattern matched at `i`: the id. */
  function MovieAt(s: string, i: nat): Option<nat> {
    if !PrefixAt(s, i, MoviePath) then None
    else
      var a0 := i + |MoviePath|;
      var a1 := RunEnd(s, a0);
      if a1 == a0 then None else Some(DigitsValue(s[a0..a1]))
  }

  /** What may follow the id of a bare show link: `\/?($|\?.*)`. */
  predicate ShowTail(s: string, a: nat)
    requires a <= |s|
  {
    || a == |s|
    || s[a] == '?'
    || (s[a] == '/' && (a + 1 == |s| || s[a + 1] == '?'))
  }

  /** The bare-show pattern matched at `i`: the id. */
  function ShowAt(s: string, i: nat): Option<nat> {
    if !PrefixAt(s, i, TvPath) then None
    else
      var a0 := i + |TvPath|;
      var a1 := RunEnd(s, a0);
      if a1 == a0 || !ShowTail(s, a1) then None else Some(DigitsValue(s[a0..a1]))
  }

  /** The player modal's show-id pattern matched at `i`: the id. */
  function ShowIdAt(s: string, i: nat): Option<nat> {
    if !PrefixAt(s, i, TvPath) then None
    else
      var a0 := i + |TvPath|;
      var a1 := RunEnd(s, a0);
      if a1 == a0 then None else Some(DigitsValue(s[a0..a1]))
  }

  // ---- leftmost search ----

  /** The leftmost position at or after `i` where `at` matches, with its captures. */
  function Search<T>(s: string, i: nat, at: (string, nat) -> Option<T>): (r: Option<(nat, T)>)
    ensures r.Some? ==> i <= r.value.0 <= |s| && at(s, r.value.0) == Some(r.value.1)
    ensures r.Some? ==> forall j | i <= j < r.value.0 :: at(s, j).None?
    ensures r.None? ==> forall j | i <= j <= |s| :: at(s, j).None?
    decreases |s| + 1 - i
  {
    if i > |s| then None
    else match at(s, i)
      case Some(v) => Some((i, v))
      case None => Search(s, i + 1, at)
  }

  /** `url.match(...)` tried in the order episode, movie, bare show. */
  function Parse(url: string): LinkRef {
    match Search(url, 0, EpisodeAt)
    case Some((_, (id, season, episode))) => EpisodeLink(id, season, episode)
    case None =>
      match Search(url, 0, MovieAt)
      case Some((_, id)) => MovieLink(id)
      case None =>
        match Search(url, 0, ShowAt)
        case Some((_, id)) => ShowLink(id)
        case None => Unrecognized
  }

  // ---- the patterns as plain shapes (what `test` asks) ----

  /** `vidfast.pro/tv/<digits>/<digits>/<digit>` starts at `i`. */
  predicate EpisodeShape(s: string, i: nat) {
    PrefixAt(s, i, TvPath) &&
    exists b: nat, c: nat | b <= |s| && c < |s| ::
      NumberSlash(s, i + |TvPath|, b) && NumberSlash(s, b, c) && IsDigit(s[c])
  }

  /** `vidfast.pro/movie/<digit>` starts at `i`. */
  predicate MovieShape(s: string, i: nat) {
    PrefixAt(s, i, MoviePath) && i + |MoviePath| < |s| && IsDigit(s[i + |MoviePath|])
  }

  /** `vidfast.pro/tv/<digits>`, then an optional `/`, then the end or a `?`, starts at `i`. */
  predicate ShowShape(s: string, i: nat) {
    PrefixAt(s, i, TvPath) &&
    var k := i + |TvPath|;
    exists a | k < a <= |s| :: DigitsBetween(s, k, a) && ShowTail(s, a)
  }

  /** The auto-submit pre-filter: one of the three patterns occurs somewhere in `s`. */
  predicate LooksLikeLink(s: string) {
    || (exists i | 0 <= i <= |s| :: EpisodeShape(s, i))
    || (exists i | 0 <= i <= |s| :: MovieShape(s, i))
    || (exists i | 0 <= i <= |s| :: ShowShape(s, i))
  }

  lemma EpisodeAtGivesShape(s: string, i: nat)
    requires EpisodeAt(s, i).Some?
    ensures EpisodeShape(s, i)
  {
    var b := NumberSlashAt(s, i + |TvPath|).value;
    var c := NumberSlashAt(s, b).value;
    assert RunEnd(s, c) > c;
    assert NumberSlash(s, i + |TvPath|, b) && NumberSlash(s, b, c) && IsDigit(s[c]);
  }

  lemma ShapeGivesEpisodeAt(s: string, i: nat)
    requires EpisodeShape(s, i)
    ensures EpisodeAt(s, i).Some?
  {
    var k := i + |TvPath|;
    var b: nat, c: nat :| b <= |s| && c < |s| && NumberSlash(s, k, b) && NumberSlash(s, b, c) && IsDigit(s[c]);
    RunEndIsMaximal(s, k, b - 1);
    assert NumberSlashAt(s, k) == Some(b);
    RunEndIsMaximal(s, b, c - 1);
    assert NumberSlashAt(s, b) == Some(c);
    assert RunEnd(s, c) > c;
  }

  /** The episode matcher succeeds exactly where the episode shape occurs. */
  lemma EpisodeAtIffShape(s: string, i: nat)
    ensures EpisodeAt(s, i).Some? <==> EpisodeShape(s, i)
  {
    if EpisodeAt(s, i).Some? { EpisodeAtGivesShape(s, i); }
    if EpisodeShape(s, i) { ShapeGivesEpisodeAt(s, i); }
  }

  /** The movie matcher succeeds exactly where the movie shape occurs. */
  lemma MovieAtIffShape(s: string, i: nat)
    ensures MovieAt(s, i).Some? <==> MovieShape(s, i)
  {
  }

  /** The bare-show matcher succeeds exactly where the bare-show shape occurs. */
  lemma ShowAtIffShape(s: string, i: nat)
    ensures ShowAt(s, i).Some? <==> ShowShape(s, i)
  {
    if PrefixAt(s, i, TvPath) {
      var k := i + |TvPath|;
      if ShowShape(s, i) {
        var a :| k < a <= |s| && DigitsBetween(s, k, a) && ShowTail(s, a);
        RunEndIsMaximal(s, k, a);
      }
    }
  }

  /** A leftmost search finds something exactly when some position matches. */
  lemma SearchSomeIff<T>(s: string, at: (string, nat) -> Option<T>)
    ensures Search(s, 0, at).Some? <==> exists i | 0 <= i <= |s| :: at(s, i).Some?
  {
    var r := Search(s, 0, at);
    if r.Some? {
      assert at(s, r.value.0).Some?;
    }
  }

  lemma EpisodeSearchIffShape(s: string)
    ensures Search(s, 0, EpisodeAt).Some? <==> exists i | 0 <= i <= |s| :: EpisodeShape(s, i)
  {
    forall i | 0 <= i <= |s| ensures EpisodeAt(s, i).Some? <==> EpisodeShape(s, i) {
      EpisodeAtIffShape(s, i);
    }
    SearchSomeIff(s, EpisodeAt);
  }

  lemma MovieSearchIffShape(s: string)
    ensures Search(s, 0, MovieAt).Some? <==> exists i | 0 <= i <= |s| :: MovieShape(s, i)
  {
    forall i | 0 <= i <= |s| ensures MovieAt(s, i).Some? <==> MovieShape(s, i) {
      MovieAtIffShape(s, i);
    }
    SearchSomeIff(s, MovieAt);
  }

  lemma ShowSearchIffShape(s: string)
    ensures Search(s, 0, ShowAt).Some? <==> exists i | 0 <= i <= |s| :: ShowShape(s, i)
  {
    forall i | 0 <= i <= |s| ensures ShowAt(s, i).Some? <==> ShowShape(s, i) {
      ShowAtIffShape(s, i);
    }
    SearchSomeIff(s, ShowAt);
  }

  /**
   * The pre-filter and the parser agree: `s` passes the pre-filter exactly
   * when the parser recognises it as an episode, a movie or a bare show.
   */
  lemma LooksLikeLinkIffRecognised(s: string)
    ensures LooksLikeLink(s) <==> Parse(s) != Unrecognized
  {
    EpisodeSearchIffShape(s);
    MovieSearchIffShape(s);
    ShowSearchIffShape(s);
  }

  /** The empty text is no link. */
  lemma EmptyIsNoLink()
    ensures !LooksLikeLink("") && Parse("") == Unrecognized
  {
    assert !PrefixAt("", 0, TvPath) && !PrefixAt("", 0, MoviePath);
  }

  // ---- what each matcher captures, and the order `Parse` tries them in ----

  /** `s[k..e]` is a non-empty maximal run of digits. */
  predicate MaxRun(s: string, k: nat, e: nat) {
    k < e <= |s| && DigitsBetween(s, k, e) && (e < |s| ==> !IsDigit(s[e]))
  }

  /** Where the episode pattern matches, it captures the three digit runs after the TV path. */
  lemma EpisodeAtCaptures(s: string, i: nat)
    requires EpisodeAt(s, i).Some?
    ensures PrefixAt(s, i, TvPath)
    ensures var a0 := i + |TvPath|;
      exists b: nat, c: nat, d: nat | b <= |s| && c <= |s| && d <= |s| ::
        && NumberSlash(s, a0, b) && NumberSlash(s, b, c) && MaxRun(s, c, d)
        && EpisodeAt(s, i).value == (DigitsValue(s[a0..b - 1]), DigitsValue(s[b..c - 1]), DigitsValue(s[c..d]))
  {
    var a0 := i + |TvPath|;
    var b := NumberSlashAt(s, a0).value;
    var c := NumberSlashAt(s, b).value;
    var d := RunEnd(s, c);
    assert NumberSlash(s, a0, b) && NumberSlash(s, b, c) && MaxRun(s, c, d);
  }

  /** Where the movie pattern matches, it captures the digit run after the movie path. */
  lemma MovieAtCaptures(s: string, i: nat)
    requires MovieAt(s, i).Some?
    ensures PrefixAt(s, i, MoviePath)
    ensures var a0 := i + |MoviePath|;
      exists e: nat | e <= |s| :: MaxRun(s, a0, e) && MovieAt(s, i).value == DigitsValue(s[a0..e])
  {
    assert MaxRun(s, i + |MoviePath|, RunEnd(s, i + |MoviePath|));
  }

  /** Where the bare-show pattern matches, it captures a digit run after the TV path that ends the link or meets its tail. */
  lemma ShowAtCaptures(s: string, i: nat)
    requires ShowAt(s, i).Some?
    ensures PrefixAt(s, i, TvPath)
    ensures var a0 := i + |TvPath|;
      exists e: nat | e <= |s| :: MaxRun(s, a0, e) && ShowTail(s, e) && ShowAt(s, i).value == DigitsValue(s[a0..e])
  {
    assert MaxRun(s, i + |TvPath|, RunEnd(s, i + |TvPath|));
  }

  /** The modal's show-id pattern matches exactly where a digit follows the TV path, and captures that digit run. */
  lemma ShowIdAtCaptures(s: string, i: nat)
    ensures ShowIdAt(s, i).Some? <==> PrefixAt(s, i, TvPath) && i + |TvPath| < |s| && IsDigit(s[i + |TvPath|])
    ensures ShowIdAt(s, i).Some? ==> var a0 := i + |TvPath|;
      exists e: nat | e <= |s| :: MaxRun(s, a0, e) && ShowIdAt(s, i).value == DigitsValue(s[a0..e])
  {
    if PrefixAt(s, i, TvPath) {
      assert MaxRun(s, i + |TvPath|, RunEnd(s, i + |TvPath|)) <==> RunEnd(s, i + |TvPath|) > i + |TvPath|;
    }
  }

  /** `at` matches nowhere in `s`. */
  predicate NoMatch<T>(s: string, at: (string, nat) -> Option<T>) {
    forall j | 0 <= j <= |s| :: at(s, j).None?
  }

  /** `j` is the leftmost position where `at` matches, capturing `v`. */
  predicate LeftmostMatch<T(==)>(s: string, at: (string, nat) -> Option<T>, j: nat, v: T) {
    j <= |s| && at(s, j) == Some(v) && forall i | 0 <= i < j :: at(s, i).None?
  }

  /**
   * `actuallyUpdateFromLink` tries the episode pattern, then the movie
   * pattern, then the bare-show pattern, and takes the leftmost match of the
   * first that matches anywhere; a text none of them matches is unrecognised.
   */
  lemma ParsePriority(url: string)
    ensures var r := Parse(url);
      && (r.EpisodeLink? <==> !NoMatch(url, EpisodeAt))
      && (r.MovieLink? <==> NoMatch(url, EpisodeAt) && !NoMatch(url, MovieAt))
      && (r.ShowLink? <==> NoMatch(url, EpisodeAt) && NoMatch(url, MovieAt) && !NoMatch(url, ShowAt))
      && (r.Unrecognized? <==> NoMatch(url, EpisodeAt) && NoMatch(url, MovieAt) && NoMatch(url, ShowAt))
    ensures var r := Parse(url);
      && (r.EpisodeLink? ==> exists j: nat :: LeftmostMatch(url, EpisodeAt, j, (r.id, r.season, r.episode)))
      && (r.MovieLink? ==> exists j: nat :: LeftmostMatch(url, MovieAt, j, r.id))
      && (r.ShowLink? ==> exists j: nat :: LeftmostMatch(url, ShowAt, j, r.id))
  {
    var e := Search(url, 0, EpisodeAt);
    var m := Search(url, 0, MovieAt);
    var w := Search(url, 0, ShowAt);
    if e.Some? {
      assert LeftmostMatch(url, EpisodeAt, e.value.0, e.value.1);
    } else if m.Some? {
      assert LeftmostMatch(url, MovieAt, m.value.0, m.value.1);
    } else if w.Some? {
      assert LeftmostMatch(url, ShowAt, w.value.0, w.value.1);
    }
  }

  /** The id the player modal reads from a pasted link: the leftmost `vidfast.pro/tv/<digits>`. */
  function ShowIdOf(url: string): (r: Option<nat>)
    ensures r.None? <==> forall j | 0 <= j <= |url| :: ShowIdAt(url, j).None?
    ensures r.Some? ==> exists j | 0 <= j <= |url| ::
      ShowIdAt(url, j) == Some(r.value) && forall i | 0 <= i < j :: ShowIdAt(url, i).None?
  {
    match Search(url, 0, ShowIdAt)
    case Some((_, id)) => Some(id)
    case None => None
  }

  // ---- links built by the player modal parse back ----

  /** `d` appears in `s` at position `k`. */
  predicate LaidAt(s: string, k: nat, d: string) {
    k + |d| <= |s| && forall j | 0 <= j < |d| :: s[k + j] == d[j]
  }

  /** A numeral laid at `k` and followed by a non-digit is the run read there. */
  lemma NumeralRun(s: string, k: nat, d: string)
    requires d != [] && Numeral(d) && LaidAt(s, k, d)
    requires k + |d| < |s| ==> !IsDigit(s[k + |d|])
    ensures RunEnd(s, k) == k + |d| && s[k..k + |d|] == d && DigitsBetween(s, k, k + |d|)
  {
    assert forall t | k <= t < k + |d| :: s[t] == d[t - k];
    RunEndIsMaximal(s, k, k + |d|);
  }

  /** Both paths begin with `vi`. */
  lemma PathHead(s: string, j: nat)
    ensures PrefixAt(s, j, TvPath) ==> j + 1 < |s| && s[j] == 'v' && s[j + 1] == 'i'
    ensures PrefixAt(s, j, MoviePath) ==> j + 1 < |s| && s[j] == 'v' && s[j + 1] == 'i'
  {
    if PrefixAt(s, j, TvPath) {
      assert s[j] == s[j..j + |TvPath|][0] && s[j + 1] == s[j..j + |TvPath|][1];
    }
    if PrefixAt(s, j, MoviePath) {
      assert s[j] == s[j..j + |MoviePath|][0] && s[j + 1] == s[j..j + |MoviePath|][1];
    }
  }

  /** No pattern can start at a position that does not hold a `v`. */
  lemma NotAtNonV(s: string, j: nat)
    requires j < |s| && s[j] != 'v'
    ensures EpisodeAt(s, j).None? && MovieAt(s, j).None? && ShowAt(s, j).None?
  {
    assert TvPath[0] == 'v' && MoviePath[0] == 'v';
  }

  /** A leftmost search whose first match is known returns that match. */
  lemma SearchFinds<T>(s: string, at: (string, nat) -> Option<T>, m: nat, v: T)
    requires m <= |s| && at(s, m) == Some(v)
    requires forall j | 0 <= j < m :: at(s, j).None?
    ensures Search(s, 0, at) == Some((m, v))
  {
    var r := Search(s, 0, at);
    assert r.Some?;
    assert r.value.0 >= m;
  }

  /** A leftmost search where nothing matches finds nothing. */
  lemma SearchMisses<T>(s: string, at: (string, nat) -> Option<T>)
    requires forall j | 0 <= j <= |s| :: at(s, j).None?
    ensures Search(s, 0, at).None?
  {
  }

  /** The player's episode link for the triple, with the query string `q` after it. */
  function EpisodeUrl(p: string, id: nat, season: nat, episode: nat, q: string): string {
    p + TvPath + NatToString(id) + "/" + NatToString(season) + "/" + NatToString(episode) + q
  }

  /** A known number-and-slash is the one read there. */
  lemma NumberSlashAtIs(s: string, k: nat, n: nat)
    requires NumberSlash(s, k, n)
    ensures NumberSlashAt(s, k) == Some(n)
  {
    RunEndIsMaximal(s, k, n - 1);
  }

  /** The episode pattern read from the positions of its three runs. */
  lemma EpisodeAtParts(s: string, i: nat, b: nat, c: nat, e: nat, triple: (nat, nat, nat))
    requires PrefixAt(s, i, TvPath)
    requires NumberSlash(s, i + |TvPath|, b) && NumberSlash(s, b, c)
    requires c < e && DigitsBetween(s, c, e) && (e < |s| ==> !IsDigit(s[e]))
    requires triple == (DigitsValue(s[i + |TvPath|..b - 1]), DigitsValue(s[b..c - 1]), DigitsValue(s[c..e]))
    ensures EpisodeAt(s, i) == Some(triple)
  {
    NumberSlashAtIs(s, i + |TvPath|, b);
    NumberSlashAtIs(s, b, c);
    RunEndIsMaximal(s, c, e);
  }

  /** The two halves of a piece laid at `k`. */
  lemma LaidSplit(s: string, k: nat, x: string, y: string)
    requires LaidAt(s, k, x + y)
    ensures LaidAt(s, k, x) && LaidAt(s, k + |x|, y)
  {
    forall j | 0 <= j < |x| ensures s[k + j] == x[j] {
      assert (x + y)[j] == x[j];
    }
    forall j | 0 <= j < |y| ensures s[k + |x| + j] == y[j] {
      assert (x + y)[|x| + j] == y[j];
    }
  }

  /** Where the path, the id and the slash after it lie in an episode link under the path `t`. */
  lemma EpisodeUrlHead(s: string, p: string, t: string, a: string, b: string, c: string, q: string)
    requires s == p + t + a + "/" + b + "/" + c + q
    ensures LaidAt(s, |p|, t) && LaidAt(s, |p| + |t|, a) && s[|p| + |t| + |a|] == '/'
  {
    assert LaidAt(s, |p|, t);
    assert LaidAt(s, |p| + |t|, a);
  }

  /** Where the season, the slash after it, the episode and the query lie in an episode link. */
  lemma EpisodeUrlTail(s: string, p: string, t: string, a: string, b: string, c: string, q: string)
    requires s == p + t + a + "/" + b + "/" + c + q
    ensures |s| == |p| + |t| + |a| + |b| + |c| + |q| + 2
    ensures LaidAt(s, |p| + |t| + |a| + 1, b) && s[|p| + |t| + |a| + |b| + 1] == '/'
    ensures LaidAt(s, |p| + |t| + |a| + |b| + 2, c) && LaidAt(s, |p| + |t| + |a| + |b| + |c| + 2, q)
  {
    assert LaidAt(s, |p| + |t| + |a| + 1, b);
    assert LaidAt(s, |p| + |t| + |a| + |b| + 2, c);
    assert LaidAt(s, |p| + |t| + |a| + |b| + |c| + 2, q);
  }

  /** Where each piece of an episode link under the path `t` lies. */
  lemma EpisodeUrlLaid(s: string, p: string, t: string, a: string, b: string, c: string, q: string)
    requires s == p + t + a + "/" + b + "/" + c + q
    ensures |s| == |p| + |t| + |a| + |b| + |c| + |q| + 2
    ensures LaidAt(s, |p|, t) && LaidAt(s, |p| + |t|, a) && s[|p| + |t| + |a|] == '/'
    ensures LaidAt(s, |p| + |t| + |a| + 1, b) && s[|p| + |t| + |a| + |b| + 1] == '/'
    ensures LaidAt(s, |p| + |t| + |a| + |b| + 2, c) && LaidAt(s, |p| + |t| + |a| + |b| + |c| + 2, q)
  {
    EpisodeUrlHead(s, p, t, a, b, c, q);
    EpisodeUrlTail(s, p, t, a, b, c, q);
  }

  /** The positions of the pieces of an episode link under the path `t`. */
  lemma EpisodeUrlPieces(s: string, p: string, t: string, a: string, b: string, c: string, q: string)
    requires s == p + t + a + "/" + b + "/" + c + q
    requires a != [] && Numeral(a) && b != [] && Numeral(b) && c != [] && Numeral(c)
    requires q == [] || !IsDigit(q[0])
    ensures PrefixAt(s, |p|, t)
    ensures NumberSlash(s, |p| + |t|, |p| + |t| + |a| + 1)
    ensures s[|p| + |t|..|p| + |t| + |a|] == a
    ensures NumberSlash(s, |p| + |t| + |a| + 1, |p| + |t| + |a| + |b| + 2)
    ensures s[|p| + |t| + |a| + 1..|p| + |t| + |a| + |b| + 1] == b
    ensures RunEnd(s, |p| + |t| + |a| + |b| + 2) == |p| + |t| + |a| + |b| + |c| + 2
    ensures s[|p| + |t| + |a| + |b| + 2..|p| + |t| + |a| + |b| + |c| + 2] == c
  {
    EpisodeUrlLaid(s, p, t, a, b, c, q);
    EpisodeIdRun(s, p, t, a, b, c, q);
    EpisodeSeasonRun(s, p, t, a, b, c, q);
    EpisodeUrlEnd(s, p, t, a, b, c, q);
  }

  /** The episode number read from an episode link: its run stops where the query begins. */
  lemma EpisodeUrlEnd(s: string, p: string, t: string, a: string, b: string, c: string, q: string)
    requires s == p + t + a + "/" + b + "/" + c + q
    requires c != [] && Numeral(c)
    requires q == [] || !IsDigit(q[0])
    ensures RunEnd(s, |p| + |t| + |a| + |b| + 2) == |p| + |t| + |a| + |b| + |c| + 2
    ensures s[|p| + |t| + |a| + |b| + 2..|p| + |t| + |a| + |b| + |c| + 2] == c
  {
    EpisodeUrlTail(s, p, t, a, b, c, q);
    var k3 := |p| + |t| + |a| + |b| + 2;
    assert k3 + |c| < |s| ==> s[k3 + |c|] == q[0];
    NumeralRun(s, k3, c);
  }

  /** The path and the id read from an episode link, given where its pieces lie. */
  lemma EpisodeIdRun(s: string, p: string, t: string, a: string, b: string, c: string, q: string)
    requires |s| == |p| + |t| + |a| + |b| + |c| + |q| + 2
    requires LaidAt(s, |p|, t) && LaidAt(s, |p| + |t|, a) && s[|p| + |t| + |a|] == '/'
    requires LaidAt(s, |p| + |t| + |a| + 1, b) && s[|p| + |t| + |a| + |b| + 1] == '/'
    requires LaidAt(s, |p| + |t| + |a| + |b| + 2, c) && LaidAt(s, |p| + |t| + |a| + |b| + |c| + 2, q)
    requires a != [] && Numeral(a) && b != [] && Numeral(b) && c != [] && Numeral(c)
    requires q == [] || !IsDigit(q[0])
    ensures PrefixAt(s, |p|, t)
    ensures NumberSlash(s, |p| + |t|, |p| + |t| + |a| + 1)
    ensures s[|p| + |t|..|p| + |t| + |a|] == a
  {
    assert s[|p|..|p| + |t|] == t;
    NumeralSlash(s, |p| + |t|, a);
  }

  /** The season read from an episode link, given where its pieces lie. */
  lemma EpisodeSeasonRun(s: string, p: string, t: string, a: string, b: string, c: string, q: string)
    requires |s| == |p| + |t| + |a| + |b| + |c| + |q| + 2
    requires LaidAt(s, |p|, t) && LaidAt(s, |p| + |t|, a) && s[|p| + |t| + |a|] == '/'
    requires LaidAt(s, |p| + |t| + |a| + 1, b) && s[|p| + |t| + |a| + |b| + 1] == '/'
    requires LaidAt(s, |p| + |t| + |a| + |b| + 2, c) && LaidAt(s, |p| + |t| + |a| + |b| + |c| + 2, q)
    requires a != [] && Numeral(a) && b != [] && Numeral(b) && c != [] && Numeral(c)
    requires q == [] || !IsDigit(q[0])
    ensures NumberSlash(s, |p| + |t| + |a| + 1, |p| + |t| + |a| + |b| + 2)
    ensures s[|p| + |t| + |a| + 1..|p| + |t| + |a| + |b| + 1] == b
  {
    NumeralSlash(s, |p| + |t| + |a| + 1, b);
  }

  /** A numeral laid at `k` and followed by a slash is a number-and-slash. */
  lemma NumeralSlash(s: string, k: nat, d: string)
    requires d != [] && Numeral(d) && LaidAt(s, k, d)
    requires k + |d| < |s| && s[k + |d|] == '/'
    ensures NumberSlash(s, k, k + |d| + 1) && s[k..k + |d|] == d
  {
    NumeralRun(s, k, d);
  }

  /** The episode pattern reads the triple back at the position after `p`. */
  lemma EpisodeAtUrl(p: string, id: nat, season: nat, episode: nat, q: string)
    requires q == [] || !IsDigit(q[0])
    ensures EpisodeAt(EpisodeUrl(p, id, season, episode, q), |p|) == Some((id, season, episode))
  {
    var s := EpisodeUrl(p, id, season, episode, q);
    var a, b, c := NatToString(id), NatToString(season), NatToString(episode);
    EpisodeUrlPieces(s, p, TvPath, a, b, c, q);
    var k := |p| + |TvPath|;
    EpisodeAtParts(s, |p|, k + |a| + 1, k + |a| + |b| + 2, k + |a| + |b| + |c| + 2, (id, season, episode));
  }

  /**
   * An episode link of the player's form, after any prefix without a `v`
   * (such as "https://"), parses back as the same episode.
   */
  lemma EpisodeUrlParses(p: string, id: nat, season: nat, episode: nat, q: string)
    requires NoV(p)
    requires q == [] || !IsDigit(q[0])
    ensures Parse(EpisodeUrl(p, id, season, episode, q)) == EpisodeLink(id, season, episode)
  {
    var s := EpisodeUrl(p, id, season, episode, q);
    EpisodeAtUrl(p, id, season, episode, q);
    forall j | 0 <= j < |p| ensures EpisodeAt(s, j).None? {
      assert s[j] == p[j];
      NotAtNonV(s, j);
    }
    SearchFinds(s, EpisodeAt, |p|, (id, season, episode));
  }

  /** The player's movie link for `id`, with the query string `q` after it. */
  function MovieUrl(p: string, id: nat, q: string): string {
    p + MoviePath + NatToString(id) + q
  }

  /** `s` holds no `v` anywhere. */
  predicate NoV(s: string) {
    forall j | 0 <= j < |s| :: s[j] != 'v'
  }

  /** A movie link whose prefix and query have no `v` holds no `vidfast.pro/tv/`. */
  lemma MovieUrlHasNoTvPath(p: string, id: nat, q: string)
    requires NoV(p) && NoV(q)
    ensures forall j | 0 <= j <= |MovieUrl(p, id, q)| :: !PrefixAt(MovieUrl(p, id, q), j, TvPath)
  {
    var s := MovieUrl(p, id, q);
    var a := NatToString(id);
    var m := |p| + |MoviePath|;
    forall j | 0 <= j <= |s| ensures !PrefixAt(s, j, TvPath) {
      PathHead(s, j);
      if j < |p| {
        assert s[j] == p[j];
      } else if j == |p| {
        assert s[j + 12] == MoviePath[12];
      } else if j == |p| + 14 {
        assert s[j + 2] == MoviePath[16];
      } else if j < m {
        assert s[j] == MoviePath[j - |p|];
      } else if j < m + |a| {
        assert s[j] == a[j - m];
      } else if j < |s| {
        assert s[j] == q[j - m - |a|];
      }
    }
  }

  /** The movie pattern reads the id back at the position after `p`. */
  lemma MovieAtUrl(p: string, id: nat, q: string)
    requires q == [] || !IsDigit(q[0])
    ensures MovieAt(MovieUrl(p, id, q), |p|) == Some(id)
  {
    var s := MovieUrl(p, id, q);
    var a := NatToString(id);
    var m := |p| + |MoviePath|;
    assert LaidAt(s, |p|, MoviePath);
    assert s[|p|..m] == MoviePath;
    assert LaidAt(s, m, a);
    assert m + |a| < |s| ==> s[m + |a|] == q[0];
    NumeralRun(s, m, a);
  }

  /**
   * A movie link of the player's form, after a prefix and before a query
   * string that hold no `v` (such as "https://" and "?autoPlay=true&theme=E50914"),
   * parses back as the same movie.
   */
  lemma MovieUrlParses(p: string, id: nat, q: string)
    requires NoV(p) && NoV(q)
    requires q == [] || !IsDigit(q[0])
    ensures Parse(MovieUrl(p, id, q)) == MovieLink(id)
  {
    var s := MovieUrl(p, id, q);
    MovieUrlHasNoTvPath(p, id, q);
    assert Search(s, 0, EpisodeAt).None?;
    MovieAtUrl(p, id, q);
    forall j | 0 <= j < |p| ensures MovieAt(s, j).None? {
      assert s[j] == p[j];
      NotAtNonV(s, j);
    }
    SearchFinds(s, MovieAt, |p|, id);
  }

  /** The player modal reads the show id back from an episode link it built. */
  lemma EpisodeUrlShowId(p: string, id: nat, season: nat, episode: nat, q: string)
    requires NoV(p)
    requires q == [] || !IsDigit(q[0])
    ensures ShowIdOf(EpisodeUrl(p, id, season, episode, q)) == Some(id)
  {
    var s := EpisodeUrl(p, id, season, episode, q);
    EpisodeUrlPieces(s, p, TvPath, NatToString(id), NatToString(season), NatToString(episode), q);
    RunEndIsMaximal(s, |p| + |TvPath|, |p| + |TvPath| + |NatToString(id)|);
    assert ShowIdAt(s, |p|) == Some(id);
    forall j | 0 <= j < |p| ensures ShowIdAt(s, j).None? {
      assert s[j] == p[j];
      assert TvPath[0] == 'v';
    }
    SearchFinds(s, ShowIdAt, |p|, id);
  }

  /** A numeral holds no `v`. */
  lemma NumeralNoV(d: string)
    requires Numeral(d)
    ensures NoV(d)
  {
    forall j | 0 <= j < |d| ensures d[j] != 'v' {
      assert IsDigit(d[j]);
    }
  }

  /** The pieces of `p + vidfast.pro/tv/ + a + rest`, by position. */
  lemma TvUrlLaid(s: string, p: string, a: string, rest: string)
    requires s == p + TvPath + a + rest
    ensures |s| == |p| + |TvPath| + |a| + |rest|
    ensures LaidAt(s, 0, p) && PrefixAt(s, |p|, TvPath) && LaidAt(s, |p|, TvPath)
    ensures LaidAt(s, |p| + |TvPath|, a) && LaidAt(s, |p| + |TvPath| + |a|, rest)
  {
    assert LaidAt(s, |p|, TvPath);
    assert s[|p|..|p| + |TvPath|] == TvPath;
  }

  /**
   * In `p + vidfast.pro/tv/ + a + rest`, with no `v` outside the path, the
   * path starts only after `p`, and the movie path starts nowhere.
   */
  lemma TvUrlPaths(s: string, p: string, a: string, rest: string)
    requires |s| == |p| + |TvPath| + |a| + |rest|
    requires LaidAt(s, 0, p) && LaidAt(s, |p|, TvPath)
    requires LaidAt(s, |p| + |TvPath|, a) && LaidAt(s, |p| + |TvPath| + |a|, rest)
    requires NoV(p) && NoV(a) && NoV(rest)
    ensures forall j | 0 <= j <= |s| && j != |p| :: !PrefixAt(s, j, TvPath)
    ensures forall j | 0 <= j <= |s| :: !PrefixAt(s, j, MoviePath)
  {
    var m := |p| + |TvPath|;
    forall j | 0 <= j <= |s| ensures j != |p| ==> !PrefixAt(s, j, TvPath)
      ensures !PrefixAt(s, j, MoviePath)
    {
      PathHead(s, j);
      if j < |p| {
        assert s[j] == p[j];
      } else if j == |p| {
        assert s[j + 12] == TvPath[12];
      } else if j == |p| + 13 {
        assert s[j + 1] == TvPath[14];
      } else if j < m {
        assert s[j] == TvPath[j - |p|];
      } else if j < m + |a| {
        assert s[j] == a[j - m];
      } else if j < |s| {
        assert s[j] == rest[j - m - |a|];
      }
    }
  }

  /** The bare-show link: the id followed by nothing, a `/`, a `?...` or a `/?...`. */
  function ShowUrl(p: string, id: nat, tail: string): string {
    p + TvPath + NatToString(id) + tail
  }

  /** At the path of a bare-show link, the show pattern reads the id and the episode pattern fails. */
  lemma ShowAtPath(s: string, i: nat, a: string, tail: string, id: nat)
    requires a == NatToString(id)
    requires |s| == i + |TvPath| + |a| + |tail|
    requires PrefixAt(s, i, TvPath) && LaidAt(s, i + |TvPath|, a) && LaidAt(s, i + |TvPath| + |a|, tail)
    requires tail == [] || tail[0] == '?' || (tail[0] == '/' && (|tail| == 1 || tail[1] == '?'))
    ensures ShowAt(s, i) == Some(id) && EpisodeAt(s, i).None?
  {
    var k := i + |TvPath|;
    assert k + |a| < |s| ==> s[k + |a| + 0] == tail[0];
    NumeralRun(s, k, a);
    assert k + |a| + 1 < |s| ==> s[k + |a| + 1] == tail[1];
  }

  /** Where each pattern matches in a bare-show link, from the positions of its pieces. */
  lemma ShowUrlMatches(s: string, p: string, a: string, tail: string, id: nat)
    requires a == NatToString(id)
    requires |s| == |p| + |TvPath| + |a| + |tail|
    requires LaidAt(s, 0, p) && PrefixAt(s, |p|, TvPath) && LaidAt(s, |p|, TvPath)
    requires LaidAt(s, |p| + |TvPath|, a) && LaidAt(s, |p| + |TvPath| + |a|, tail)
    requires NoV(p) && NoV(tail)
    requires tail == [] || tail[0] == '?' || (tail[0] == '/' && (|tail| == 1 || tail[1] == '?'))
    ensures ShowAt(s, |p|) == Some(id)
    ensures forall j | 0 <= j <= |s| :: EpisodeAt(s, j).None? && MovieAt(s, j).None?
    ensures forall j | 0 <= j < |p| :: ShowAt(s, j).None?
  {
    NumeralNoV(a);
    TvUrlPaths(s, p, a, tail);
    ShowAtPath(s, |p|, a, tail, id);
    forall j | 0 <= j <= |s| ensures EpisodeAt(s, j).None? && MovieAt(s, j).None? {
      if j != |p| {
        NoPathNoMatch(s, j);
      }
    }
    forall j | 0 <= j < |p| ensures ShowAt(s, j).None? {
      NoPathNoMatch(s, j);
    }
  }

  /** Parsing a text where only the show pattern matches, first at `i`. */
  lemma ParseShowLink(s: string, i: nat, id: nat)
    requires i <= |s| && ShowAt(s, i) == Some(id)
    requires forall j | 0 <= j <= |s| :: EpisodeAt(s, j).None? && MovieAt(s, j).None?
    requires forall j | 0 <= j < i :: ShowAt(s, j).None?
    ensures Parse(s) == ShowLink(id)
  {
    SearchMisses(s, EpisodeAt);
    SearchMisses(s, MovieAt);
    SearchFinds(s, ShowAt, i, id);
  }

  /** A bare-show link, with no `v` outside its path, parses as that show. */
  lemma ShowUrlParses(p: string, id: nat, tail: string)
    requires NoV(p) && NoV(tail)
    requires tail == [] || tail[0] == '?' || (tail[0] == '/' && (|tail| == 1 || tail[1] == '?'))
    ensures Parse(ShowUrl(p, id, tail)) == ShowLink(id)
  {
    var s := ShowUrl(p, id, tail);
    TvUrlLaid(s, p, NatToString(id), tail);
    ShowUrlMatches(s, p, NatToString(id), tail, id);
    ParseShowLink(s, |p|, id);
  }

  /** Where neither path starts, no pattern matches. */
  lemma NoPathNoMatch(s: string, j: nat)
    requires !PrefixAt(s, j, TvPath) && !PrefixAt(s, j, MoviePath)
    ensures EpisodeAt(s, j).None? && MovieAt(s, j).None? && ShowAt(s, j).None?
  {
  }

  /** At the path itself, the season number runs to the end of the text, so neither TV pattern completes. */
  lemma SeasonOnlyAtPath(s: string, i: nat, a: string, b: string)
    requires PrefixAt(s, i, TvPath)
    requires a != [] && Numeral(a) && b != [] && Numeral(b)
    requires |s| == i + |TvPath| + |a| + 1 + |b|
    requires LaidAt(s, i + |TvPath|, a) && s[i + |TvPath| + |a|] == '/'
    requires LaidAt(s, i + |TvPath| + |a| + 1, b)
    ensures EpisodeAt(s, i).None? && MovieAt(s, i).None? && ShowAt(s, i).None?
  {
    var k := i + |TvPath|;
    NumeralRun(s, k, a);
    NumeralRun(s, k + |a| + 1, b);
    assert NumberSlashAt(s, k + |a| + 1).None?;
    assert !ShowTail(s, k + |a|);
  }

  /** No pattern matches anywhere in `p + vidfast.pro/tv/ + a + / + b`. */
  lemma SeasonOnlyNoMatch(s: string, p: string, a: string, b: string)
    requires |s| == |p| + |TvPath| + |a| + |"/" + b|
    requires LaidAt(s, 0, p) && PrefixAt(s, |p|, TvPath) && LaidAt(s, |p|, TvPath)
    requires LaidAt(s, |p| + |TvPath|, a) && LaidAt(s, |p| + |TvPath| + |a|, "/" + b)
    requires NoV(p) && a != [] && Numeral(a) && b != [] && Numeral(b)
    ensures forall j | 0 <= j <= |s| :: EpisodeAt(s, j).None? && MovieAt(s, j).None? && ShowAt(s, j).None?
  {
    var k := |p| + |TvPath|;
    NumeralNoV(a);
    NumeralNoV(b);
    assert NoV("/" + b) by {
      forall j | 0 <= j < |"/" + b| ensures ("/" + b)[j] != 'v' {
        if j > 0 {
          assert ("/" + b)[j] == b[j - 1];
        }
      }
    }
    TvUrlPaths(s, p, a, "/" + b);
    LaidSplit(s, k + |a|, "/", b);
    assert s[k + |a| + 0] == "/"[0];
    forall j | 0 <= j <= |s|
      ensures EpisodeAt(s, j).None? && MovieAt(s, j).None? && ShowAt(s, j).None?
    {
      if j == |p| {
        SeasonOnlyAtPath(s, |p|, a, b);
      } else {
        NoPathNoMatch(s, j);
      }
    }
  }

  /** A link that stops after the season, such as `vidfast.pro/tv/100/2`, is not recognised. */
  lemma SeasonOnlyUnrecognized(p: string, id: nat, season: nat)
    requires NoV(p)
    ensures Parse(p + TvPath + NatToString(id) + "/" + NatToString(season)) == Unrecognized
  {
    var a, b := NatToString(id), NatToString(season);
    var s := p + TvPath + a + "/" + b;
    assert s == p + TvPath + a + ("/" + b);
    TvUrlLaid(s, p, a, "/" + b);
    SeasonOnlyNoMatch(s, p, a, b);
    SearchMisses(s, EpisodeAt);
    SearchMisses(s, MovieAt);
    SearchMisses(s, ShowAt);
  }
}
