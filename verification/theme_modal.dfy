/**
 * The colour search and preset highlight of components/ThemeModal.tsx. The
 * palette and the presets come from a constants file and are parameters.
 */
module ThemeModal {
  import opened Text
  import opened Sorting

  /** `ColorInfo`. */
  datatype ColorInfo = ColorInfo(name: string, hex: string)

  /** The case-insensitive test: the query occurs in the colour's name or in its hex code. */
  predicate Matches(c: ColorInfo, query: string) {
    Contains(Lower(c.name), Lower(query)) || Contains(Lower(c.hex), Lower(query))
  }

  /** The palette entries that match, in palette order. */
  function KeepMatching(palette: seq<ColorInfo>, query: string): (r: seq<ColorInfo>)
    ensures forall c :: c in r <==> c in palette && Matches(c, query)
    ensures forall c :: multiset(r)[c] == if Matches(c, query) then multiset(palette)[c] else 0
    ensures IsSubseq(r, palette)
  {
    if |palette| == 0 then []
    else
      var rest := KeepMatching(palette[1..], query);
      MatchStepCounts(palette, rest, query);
      if Matches(palette[0], query) then [palette[0]] + rest else rest
  }

  /** One step of the colour filter keeps each matching colour exactly as often as it occurs. */
  lemma MatchStepCounts(palette: seq<ColorInfo>, rest: seq<ColorInfo>, query: string)
    requires palette != []
    requires forall c :: multiset(rest)[c] == if Matches(c, query) then multiset(palette[1..])[c] else 0
    ensures var r := if Matches(palette[0], query) then [palette[0]] + rest else rest;
      forall c :: multiset(r)[c] == if Matches(c, query) then multiset(palette)[c] else 0
  {
    assert palette == [palette[0]] + palette[1..];
    assert multiset(palette) == multiset{palette[0]} + multiset(palette[1..]);
    assert multiset([palette[0]] + rest) == multiset{palette[0]} + multiset(rest);
  }

  /** `filteredColors`: nothing for a blank query, otherwise the matching colours. */
  function FilteredColors(query: string, palette: seq<ColorInfo>): (r: seq<ColorInfo>)
    ensures Blank(query) ==> r == []
    ensures !Blank(query) ==> forall c :: c in r <==> c in palette && Matches(c, query)
    ensures !Blank(query) ==> forall c :: multiset(r)[c] == if Matches(c, query) then multiset(palette)[c] else 0
    ensures IsSubseq(r, palette)
  {
    if Trim(query) == "" then [] else KeepMatching(palette, query)
  }

  /** "No colors found." is shown for a non-blank query that matches no colour. */
  function ShowsNoColors(query: string, palette: seq<ColorInfo>): (r: bool)
    ensures r <==> !Blank(query) && forall c | c in palette :: !Matches(c, query)
  {
    var found := FilteredColors(query, palette);
    assert found != [] ==> found[0] in found;
    Trim(query) != "" && |found| == 0
  }

  /** Lower-casing keeps whitespace as whitespace. */
  lemma LowerKeepsBlank(s: string)
    ensures Blank(Lower(s)) <==> Blank(s)
  {
    assert forall i | 0 <= i < |s| :: IsWhitespace(Lower(s)[i]) <==> IsWhitespace(s[i]);
  }

  /** Two queries that differ only in letter case find the same colours. */
  lemma FilterIgnoresCase(q1: string, q2: string, palette: seq<ColorInfo>)
    requires Lower(q1) == Lower(q2)
    ensures FilteredColors(q1, palette) == FilteredColors(q2, palette)
  {
    LowerKeepsBlank(q1);
    LowerKeepsBlank(q2);
    if !Blank(q1) {
      SameTestSameFilter(palette, q1, q2);
    }
  }

  lemma {:induction false} SameTestSameFilter(palette: seq<ColorInfo>, q1: string, q2: string)
    requires Lower(q1) == Lower(q2)
    ensures KeepMatching(palette, q1) == KeepMatching(palette, q2)
    decreases |palette|
  {
    if |palette| > 0 {
      SameTestSameFilter(palette[1..], q1, q2);
    }
  }

  /** A preset is highlighted when its hex equals the current theme's. */
  predicate Highlighted(current: ColorInfo, preset: ColorInfo) {
    current.hex == preset.hex
  }

  /** With distinct preset hex codes, at most one preset is highlighted. */
  lemma AtMostOneHighlighted(current: ColorInfo, presets: seq<ColorInfo>, i: nat, j: nat)
    requires forall a, b | 0 <= a < b < |presets| :: presets[a].hex != presets[b].hex
    requires i < |presets| && j < |presets|
    requires Highlighted(current, presets[i]) && Highlighted(current, presets[j])
    ensures i == j
  {
  }
}
