/**
 * Character and string helpers standing for the JavaScript built-ins the core
 * relies on: `String.prototype.trim`, `toLowerCase`, `includes`, `Number` on a
 * run of decimal digits and the decimal rendering of a number in a template.
 */
module Text {

  predicate IsDigit(c: char) { '0' <= c <= '9' }

  /** The characters `trim` strips: ECMAScript WhiteSpace and LineTerminator. */
  predicate IsWhitespace(c: char) {
    || c == ' ' || c == '\t' || c == '\n' || c == '\r'
    || c == '\U{000B}' || c == '\U{000C}' || c == '\U{00A0}' || c == '\U{1680}'
    || ('\U{2000}' <= c <= '\U{200A}')
    || c == '\U{2028}' || c == '\U{2029}' || c == '\U{202F}' || c == '\U{205F}'
    || c == '\U{3000}' || c == '\U{FEFF}'
  }

  /** Empty or whitespace only. */
  predicate Blank(s: string) { forall i | 0 <= i < |s| :: IsWhitespace(s[i]) }

  /** Every character is a decimal digit. */
  predicate Numeral(s: string) { forall i | 0 <= i < |s| :: IsDigit(s[i]) }

  /** Drops the longest whitespace prefix. */
  function TrimStart(s: string): (r: string)
    ensures |r| <= |s| && r == s[|s| - |r|..]
    ensures Blank(s[..|s| - |r|])
    ensures r != [] ==> !IsWhitespace(r[0])
  {
    if s != [] && IsWhitespace(s[0]) then TrimStart(s[1..]) else s
  }

  /** Drops the longest whitespace suffix. */
  function TrimEnd(s: string): (r: string)
    ensures |r| <= |s| && r == s[..|r|]
    ensures Blank(s[|r|..])
    ensures r != [] ==> !IsWhitespace(r[|r| - 1])
  {
    if s != [] && IsWhitespace(s[|s| - 1]) then TrimEnd(s[..|s| - 1]) else s
  }

  /** A prefix and the rest of a suffix of `s`, as slices of `s`. */
  lemma SliceOfSuffix<T>(s: seq<T>, i: nat, t: seq<T>, n: nat)
    requires i <= |s| && t == s[i..] && n <= |t|
    ensures t[..n] == s[i..i + n] && t[n..] == s[i + n..]
  {
  }

  /** `r` is the slice of `s` at `i`, with only whitespace before and after it. */
  predicate StrippedAt(s: string, r: string, i: nat) {
    i + |r| <= |s| && r == s[i..i + |r|] && Blank(s[..i]) && Blank(s[i + |r|..])
  }

  /** Trimming both ends leaves a slice of `s` between two blank stretches. */
  lemma TrimmedIsSlice(s: string)
    ensures exists i: nat :: StrippedAt(s, TrimEnd(TrimStart(s)), i)
  {
    var t := TrimStart(s);
    var r := TrimEnd(t);
    var i := |s| - |t|;
    SliceOfSuffix(s, i, t, |r|);
    assert StrippedAt(s, r, i);
  }

  /** Trimming both ends leaves nothing exactly when `s` is blank. */
  lemma TrimmedEmptyIffBlank(s: string)
    ensures TrimEnd(TrimStart(s)) == "" <==> Blank(s)
  {
    var t := TrimStart(s);
    var r := TrimEnd(t);
    var i := |s| - |t|;
    if r == "" {
      assert t == [];
      assert s[..i] == s;
    } else {
      SliceOfSuffix(s, i, t, |r|);
      assert s[i] == r[0];
    }
  }

  /** Everything `Trim` promises, about `TrimEnd(TrimStart(s))`. */
  lemma TrimmedFacts(s: string)
    ensures var r := TrimEnd(TrimStart(s));
      && |r| <= |s|
      && (exists i: nat :: StrippedAt(s, r, i))
      && (r == "" <==> Blank(s))
      && (r != "" ==> !IsWhitespace(r[0]) && !IsWhitespace(r[|r| - 1]))
  {
    TrimmedIsSlice(s);
    TrimmedEmptyIffBlank(s);
    var t := TrimStart(s);
    var r := TrimEnd(t);
    if r != "" {
      assert r[0] == t[0];
    }
  }

  /**
   * `s.trim()`: a slice of `s` with only whitespace before and after it,
   * empty exactly for blank input, otherwise framed by non-space.
   */
  function Trim(s: string): (r: string)
    ensures |r| <= |s|
    ensures exists i: nat :: StrippedAt(s, r, i)
    ensures r == "" <==> Blank(s)
    ensures r != "" ==> !IsWhitespace(r[0]) && !IsWhitespace(r[|r| - 1])
  {
    TrimmedFacts(s);
    TrimEnd(TrimStart(s))
  }

  /** Text already framed by non-space characters is left as it is by `trim`. */
  lemma TrimFramed(s: string)
    requires s != [] && !IsWhitespace(s[0]) && !IsWhitespace(s[|s| - 1])
    ensures Trim(s) == s
  {
    var t := TrimStart(s);
    assert t == s;
  }

  function DigitValue(c: char): nat {
    if IsDigit(c) then (c as int - '0' as int) as nat else 0
  }

  function DigitChar(n: nat): (c: char)
    requires n < 10
    ensures IsDigit(c) && DigitValue(c) == n
  {
    ('0' as int + n) as char
  }

  /** `Number(d)` for a non-empty run of decimal digits `d`. */
  function DigitsValue(d: string): nat
  {
    if d == [] then 0 else DigitsValue(d[..|d| - 1]) * 10 + DigitValue(d[|d| - 1])
  }

  /** `${n}`: the decimal digits of `n`, without a leading zero. */
  function NatToString(n: nat): (r: string)
    ensures r != [] && Numeral(r)
    ensures DigitsValue(r) == n
    ensures r[0] == '0' ==> n == 0
  {
    if n < 10 then [DigitChar(n)]
    else
      var r := NatToString(n / 10) + [DigitChar(n % 10)];
      assert r[..|r| - 1] == NatToString(n / 10);
      r
  }

  /** ASCII upper-case letters mapped to lower case, everything else kept. */
  function LowerChar(c: char): char {
    if 'A' <= c <= 'Z' then (c as int + 32) as char else c
  }

  /** `s.toLowerCase()` restricted to ASCII letters. */
  function Lower(s: string): (r: string)
    ensures |r| == |s|
    ensures forall i | 0 <= i < |s| :: r[i] == LowerChar(s[i])
  {
    seq(|s|, i requires 0 <= i < |s| => LowerChar(s[i]))
  }

  /** `p` occurs in `s` starting at index `i`. */
  predicate PrefixAt(s: string, i: nat, p: string) {
    i + |p| <= |s| && s[i..i + |p|] == p
  }

  /** `s.includes(q)`. */
  predicate Contains(s: string, q: string) {
    exists i | 0 <= i <= |s| :: PrefixAt(s, i, q)
  }
}
