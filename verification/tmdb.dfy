/**
 * The pure parts of services/tmdb.ts: post-processing of a multi-search
 * response, and the error message of a failed request. The requests
 * themselves are not modelled.
 */
module Tmdb {
  import opened Wrappers
  import opened Text
  import opened Types
  import opened Sorting

  /** One raw search hit: a movie or show, or something else (such as a person). */
  datatype RawResult = TitleHit(media: Media) | OtherHit(mediaType: string)

  function Popularity(m: Media): int { m.popularity }

  /** `filter(item => media_type is 'movie' or 'tv')`. */
  function KeepTitles(raw: seq<RawResult>): (r: seq<Media>)
    ensures forall m :: m in r <==> TitleHit(m) in raw
    ensures forall m :: multiset(r)[m] == multiset(raw)[TitleHit(m)]
    ensures |r| <= |raw|
  {
    if |raw| == 0 then []
    else
      var rest := KeepTitles(raw[1..]);
      KeepStepCounts(raw, rest);
      if raw[0].TitleHit? then [raw[0].media] + rest else rest
  }

  /** One step of the filter keeps each title exactly as often as it is hit. */
  lemma KeepStepCounts(raw: seq<RawResult>, rest: seq<Media>)
    requires raw != []
    requires forall m :: multiset(rest)[m] == multiset(raw[1..])[TitleHit(m)]
    ensures var r := if raw[0].TitleHit? then [raw[0].media] + rest else rest;
      forall m :: multiset(r)[m] == multiset(raw)[TitleHit(m)]
  {
    assert raw == [raw[0]] + raw[1..];
    assert multiset(raw) == multiset{raw[0]} + multiset(raw[1..]);
    if raw[0].TitleHit? {
      assert multiset([raw[0].media] + rest) == multiset{raw[0].media} + multiset(rest);
    }
    forall m ensures multiset{raw[0]}[TitleHit(m)] == if raw[0] == TitleHit(m) then 1 else 0 { }
  }

  /** `searchMulti`'s result: the titles, most popular first. */
  function SearchResults(raw: seq<RawResult>): (r: seq<Media>)
    ensures Descending(r, Popularity)
    ensures forall m :: multiset(r)[m] == multiset(raw)[TitleHit(m)]
    ensures forall m :: m in r <==> TitleHit(m) in raw
  {
    var kept := KeepTitles(raw);
    var r := SortDesc(kept, Popularity);
    assert forall m :: m in r <==> m in multiset(kept);
    r
  }

  /** The body of a failed response: unreadable JSON, or a JSON object with an optional `status_message`. */
  datatype ErrorBody = Unreadable | Body(statusMessage: Option<string>)

  const UnknownError: string := "An unknown error occurred"

  /** The message of the error `fetchFromTMDB` throws for a non-ok response. */
  function ErrorMessage(body: ErrorBody, status: nat): (r: string)
    ensures body.Unreadable? ==> r == UnknownError
    ensures body.Body? && Truthy(body.statusMessage) ==> r == body.statusMessage.value
    ensures body.Body? && !Truthy(body.statusMessage) ==> r == "Request failed with status " + NatToString(status)
  {
    var message := if body.Unreadable? then Some(UnknownError) else body.statusMessage;
    if Truthy(message) then message.value else "Request failed with status " + NatToString(status)
  }

  /** The fallback message carries the status code, which can be read back from it. */
  lemma StatusReadBack(status: nat)
    ensures var r := ErrorMessage(Body(None), status);
      var prefix := "Request failed with status ";
      |r| > |prefix| && r[..|prefix|] == prefix && Numeral(r[|prefix|..]) && DigitsValue(r[|prefix|..]) == status
  {
    var prefix := "Request failed with status ";
    var r := ErrorMessage(Body(None), status);
    assert r == prefix + NatToString(status);
    assert r[|prefix|..] == NatToString(status);
  }
}
