/**
 * services/storage.ts: the continue-watching list kept under one key of the
 * browser's key-value store. The stored text is modelled by what parsing it
 * yields (nothing stored, text that does not parse, or a list of entries);
 * `Date.now()` is the parameter `now`.
 */
module Storage {
  import opened Wrappers
  import opened Types
  import opened Sorting

  function SavedAt(e: Entry): int { e.savedAt }

  function KeyOf(e: Entry): MediaKey { e.media.Key() }

  /** The order every read returns: `savedAt` descending, ties in stored order. */
  function NewestFirst(s: seq<Entry>): seq<Entry> {
    SortDesc(s, SavedAt)
  }

  predicate HasKey(s: seq<Entry>, k: MediaKey) {
    exists i | 0 <= i < |s| :: KeyOf(s[i]) == k
  }

  /** Position `i` holds the first entry of `s` with identity `k`. */
  predicate FirstWithKey(s: seq<Entry>, i: int, k: MediaKey) {
    0 <= i < |s| && KeyOf(s[i]) == k && forall j | 0 <= j < i :: KeyOf(s[j]) != k
  }

  /** The repository invariant: at most one entry per (id, media type). */
  predicate UniqueKeys(s: seq<Entry>) {
    forall i, j | 0 <= i < j < |s| :: KeyOf(s[i]) != KeyOf(s[j])
  }

  /** `findIndex` on the identity: the first matching position, if any. */
  function FindIndex(s: seq<Entry>, k: MediaKey): (r: Option<nat>)
    ensures r.Some? ==> r.value < |s| && KeyOf(s[r.value]) == k
    ensures r.Some? ==> forall j | 0 <= j < r.value :: KeyOf(s[j]) != k
    ensures r.None? <==> !HasKey(s, k)
  {
    if s == [] then None
    else if KeyOf(s[0]) == k then Some(0)
    else match FindIndex(s[1..], k)
      case None =>
        assert forall j | 1 <= j < |s| :: s[j] == s[1..][j - 1];
        None
      case Some(j) => Some(j + 1)
  }

  /** `find` on the identity: the first matching entry, if any. */
  function Lookup(s: seq<Entry>, k: MediaKey): (r: Option<Entry>)
    ensures r.Some? ==> r.value in s && KeyOf(r.value) == k
    ensures r.Some? ==> exists i :: FirstWithKey(s, i, k) && s[i] == r.value
    ensures r.None? <==> !HasKey(s, k)
  {
    match FindIndex(s, k)
    case Some(i) =>
      assert FirstWithKey(s, i, k);
      Some(s[i])
    case None => None
  }

  /** `filter` keeping the entries whose identity is not `k`. */
  function Without(s: seq<Entry>, k: MediaKey): (r: seq<Entry>)
    ensures forall e :: e in r <==> e in s && KeyOf(e) != k
    ensures forall e :: multiset(r)[e] == if KeyOf(e) != k then multiset(s)[e] else 0
    ensures IsSubseq(r, s)
    ensures !HasKey(s, k) ==> r == s
  {
    if s == [] then []
    else
      var t := Without(s[1..], k);
      FilterStepCounts(s, t, k);
      FilterStepSubseq(s, t, k);
      FilterStepNoKey(s, t, k);
      FilterStep(s[0], t, k)
  }

  /** One step of the filter: `x` is kept in front of `t` unless its identity is `k`. */
  function FilterStep(x: Entry, t: seq<Entry>, k: MediaKey): seq<Entry> {
    if KeyOf(x) == k then t else [x] + t
  }

  /** One step of the filter keeps the counts, hence the members, the filter promises. */
  lemma FilterStepCounts(s: seq<Entry>, t: seq<Entry>, k: MediaKey)
    requires s != []
    requires forall e :: multiset(t)[e] == if KeyOf(e) != k then multiset(s[1..])[e] else 0
    ensures forall e :: multiset(FilterStep(s[0], t, k))[e] == if KeyOf(e) != k then multiset(s)[e] else 0
    ensures forall e :: e in FilterStep(s[0], t, k) <==> e in s && KeyOf(e) != k
  {
    var r := FilterStep(s[0], t, k);
    assert s == [s[0]] + s[1..];
    assert multiset(s) == multiset{s[0]} + multiset(s[1..]);
    assert multiset([s[0]] + t) == multiset{s[0]} + multiset(t);
    forall e ensures e in r <==> e in s && KeyOf(e) != k {
      assert e in r <==> e in multiset(r);
      assert e in s <==> e in multiset(s);
    }
  }

  /** One step of the filter keeps the result a subsequence. */
  lemma FilterStepSubseq(s: seq<Entry>, t: seq<Entry>, k: MediaKey)
    requires s != [] && IsSubseq(t, s[1..])
    requires forall e :: e in t <==> e in s[1..] && KeyOf(e) != k
    ensures IsSubseq(FilterStep(s[0], t, k), s)
  {
    if KeyOf(s[0]) == k && t != [] {
      assert t[0] in t;
    } else if KeyOf(s[0]) != k {
      assert ([s[0]] + t)[1..] == t;
    }
  }

  /** One step of the filter leaves a list without the identity as it was. */
  lemma FilterStepNoKey(s: seq<Entry>, t: seq<Entry>, k: MediaKey)
    requires s != [] && (!HasKey(s[1..], k) ==> t == s[1..])
    ensures !HasKey(s, k) ==> FilterStep(s[0], t, k) == s
  {
    if !HasKey(s, k) {
      assert KeyOf(s[0]) != k;
      assert s == [s[0]] + s[1..];
    }
  }

  /** Replace the first entry with the same identity in place, or prepend. */
  function Upserted(list: seq<Entry>, item: Entry): seq<Entry> {
    match FindIndex(list, KeyOf(item))
    case Some(i) => list[i := item]
    case None => [item] + list
  }

  /** The list `saveToContinueWatching` writes back, given the stored list. */
  function SavedList(stored: seq<Entry>, media: Media, progress: Progress, cleanPosterPath: Option<string>, now: int): seq<Entry> {
    NewestFirst(Upserted(NewestFirst(stored), Entry(media, progress, now, cleanPosterPath)))
  }

  /** What parsing the stored text yields. */
  datatype Stored = Missing | Malformed | Items(entries: seq<Entry>)

  class Store {
    var raw: Stored

    constructor (raw: Stored)
      ensures this.raw == raw
    {
      this.raw := raw;
    }

    /** The entries in stored order; none when nothing parses. */
    function Contents(): seq<Entry>
      reads this
    {
      if raw.Items? then raw.entries else []
    }

    /** `getContinueWatchingList`. */
    method GetList() returns (list: seq<Entry>)
      ensures !raw.Items? ==> list == []
      ensures Descending(list, SavedAt)
      ensures multiset(list) == multiset(Contents())
      ensures list == NewestFirst(Contents())
    {
      match raw {
        case Items(entries) =>
          list := entries;
          list := NewestFirst(list);
        case _ =>
          list := [];
      }
    }

    /** `saveToContinueWatching`. */
    method Save(media: Media, progress: Progress, cleanPosterPath: Option<string>, now: int)
      modifies this
      ensures raw == Items(SavedList(old(Contents()), media, progress, cleanPosterPath, now))
    {
      var list := GetList();
      var existingIndex := FindIndex(list, media.Key());
      var newItem := Entry(media, progress, now, cleanPosterPath);
      if existingIndex.Some? {
        list := list[existingIndex.value := newItem];
      } else {
        list := [newItem] + list;
      }
      raw := Items(NewestFirst(list));
    }

    /** `removeFromContinueWatching`. */
    method Remove(id: nat, kind: MediaKind)
      modifies this
      ensures raw == Items(Without(NewestFirst(old(Contents())), MediaKey(id, kind)))
    {
      var list := GetList();
      list := Without(list, MediaKey(id, kind));
      raw := Items(list);
    }
  }

  /** Reordering changes no identity's presence. */
  lemma KeysOfPermutation(a: seq<Entry>, b: seq<Entry>)
    requires multiset(a) == multiset(b)
    ensures forall k :: HasKey(a, k) <==> HasKey(b, k)
  {
    forall k ensures HasKey(a, k) ==> HasKey(b, k) {
      if HasKey(a, k) {
        var i :| 0 <= i < |a| && KeyOf(a[i]) == k;
        assert a[i] in multiset(b);
      }
    }
    forall k ensures HasKey(b, k) ==> HasKey(a, k) {
      if HasKey(b, k) {
        var i :| 0 <= i < |b| && KeyOf(b[i]) == k;
        assert b[i] in multiset(a);
      }
    }
  }

  lemma {:induction false} InsertKeepsUnique(x: Entry, s: seq<Entry>)
    requires UniqueKeys([x] + s)
    ensures UniqueKeys(Insert(x, s, SavedAt))
  {
    if s != [] && SavedAt(s[0]) > SavedAt(x) {
      var s' := s[1..];
      assert UniqueKeys([x] + s') by {
        forall i, j | 0 <= i < j < |[x] + s'| ensures KeyOf(([x] + s')[i]) != KeyOf(([x] + s')[j]) {
          var i' := if i == 0 then 0 else i + 1;
          assert ([x] + s')[i] == ([x] + s)[i'];
          assert ([x] + s')[j] == ([x] + s)[j + 1];
        }
      }
      InsertKeepsUnique(x, s');
      var t := Insert(x, s', SavedAt);
      forall m | 0 <= m < |t| ensures KeyOf(s[0]) != KeyOf(t[m]) {
        assert t[m] in multiset(t);
        assert ([x] + s)[1] == s[0];
        if t[m] == x {
          assert ([x] + s)[0] == x;
        } else {
          assert t[m] in multiset(s');
          var n :| 0 <= n < |s'| && s'[n] == t[m];
          assert ([x] + s)[n + 2] == t[m];
        }
      }
      var r := [s[0]] + t;
      forall i, j | 0 <= i < j < |r| ensures KeyOf(r[i]) != KeyOf(r[j]) {
        assert r[j] == t[j - 1];
        if i > 0 { assert r[i] == t[i - 1]; }
      }
    }
  }

  /** Sorting keeps the repository invariant. */
  lemma {:induction false} SortKeepsUnique(s: seq<Entry>)
    requires UniqueKeys(s)
    ensures UniqueKeys(NewestFirst(s))
  {
    if s != [] {
      var s' := s[1..];
      assert UniqueKeys(s') by {
        forall i, j | 0 <= i < j < |s'| ensures KeyOf(s'[i]) != KeyOf(s'[j]) {
          assert s'[i] == s[i + 1] && s'[j] == s[j + 1];
        }
      }
      SortKeepsUnique(s');
      var t := NewestFirst(s');
      var u := [s[0]] + t;
      forall i, j | 0 <= i < j < |u| ensures KeyOf(u[i]) != KeyOf(u[j]) {
        assert u[j] == t[j - 1];
        if i == 0 {
          assert t[j - 1] in multiset(s');
          var n :| 0 <= n < |s'| && s'[n] == t[j - 1];
          assert s[n + 1] == t[j - 1];
        } else {
          assert u[i] == t[i - 1];
        }
      }
      InsertKeepsUnique(s[0], t);
    }
  }

  lemma UpdateMultiset(list: seq<Entry>, i: nat, item: Entry)
    requires i < |list|
    ensures multiset(list[i := item]) == multiset(list) - multiset{list[i]} + multiset{item}
  {
    assert list == list[..i] + [list[i]] + list[i + 1..];
    assert list[i := item] == list[..i] + [item] + list[i + 1..];
  }

  /**
   * Saving an identity that is present keeps the length; saving an absent
   * one grows the list by exactly one.
   */
  lemma SaveLength(stored: seq<Entry>, media: Media, progress: Progress, cleanPosterPath: Option<string>, now: int)
    ensures HasKey(stored, media.Key()) ==> |SavedList(stored, media, progress, cleanPosterPath, now)| == |stored|
    ensures !HasKey(stored, media.Key()) ==> |SavedList(stored, media, progress, cleanPosterPath, now)| == |stored| + 1
  {
    KeysOfPermutation(stored, NewestFirst(stored));
  }

  /** What an upsert does to the multiset of entries. */
  lemma UpsertedMultiset(list: seq<Entry>, e: Entry)
    ensures FindIndex(list, KeyOf(e)).Some? ==>
      multiset(Upserted(list, e)) == multiset(list) - multiset{list[FindIndex(list, KeyOf(e)).value]} + multiset{e}
    ensures FindIndex(list, KeyOf(e)).None? ==>
      multiset(Upserted(list, e)) == multiset(list) + multiset{e}
  {
    if FindIndex(list, KeyOf(e)).Some? {
      UpdateMultiset(list, FindIndex(list, KeyOf(e)).value, e);
    }
  }

  /** The saved entry holds exactly the given media, progress, poster and `savedAt == now`. */
  lemma SaveStoresEntry(stored: seq<Entry>, media: Media, progress: Progress, cleanPosterPath: Option<string>, now: int)
    ensures Entry(media, progress, now, cleanPosterPath) in SavedList(stored, media, progress, cleanPosterPath, now)
  {
    var e := Entry(media, progress, now, cleanPosterPath);
    UpsertedMultiset(NewestFirst(stored), e);
    assert e in multiset(SavedList(stored, media, progress, cleanPosterPath, now));
  }

  /** Every entry of another identity is kept, unchanged, as often as before. */
  lemma SaveKeepsOthers(stored: seq<Entry>, media: Media, progress: Progress, cleanPosterPath: Option<string>, now: int)
    ensures var r := SavedList(stored, media, progress, cleanPosterPath, now);
      forall x | KeyOf(x) != media.Key() :: multiset(r)[x] == multiset(stored)[x]
  {
    UpsertedMultiset(NewestFirst(stored), Entry(media, progress, now, cleanPosterPath));
  }

  /** In a list with one entry per identity, an upsert leaves the new entry alone under its identity. */
  lemma UpsertedOnly(list: seq<Entry>, e: Entry)
    requires UniqueKeys(list)
    ensures forall x | x in Upserted(list, e) && KeyOf(x) == KeyOf(e) :: x == e
  {
    match FindIndex(list, KeyOf(e)) {
      case Some(i) =>
        forall x | x in list[i := e] && KeyOf(x) == KeyOf(e) ensures x == e {
          var p :| 0 <= p < |list| && list[i := e][p] == x;
        }
      case None =>
    }
  }

  /** With at most one entry per identity before, the new entry is the only one left for its identity. */
  lemma SaveReplaces(stored: seq<Entry>, media: Media, progress: Progress, cleanPosterPath: Option<string>, now: int)
    requires UniqueKeys(stored)
    ensures var r := SavedList(stored, media, progress, cleanPosterPath, now);
      forall x | x in r && KeyOf(x) == media.Key() :: x == Entry(media, progress, now, cleanPosterPath)
  {
    var e := Entry(media, progress, now, cleanPosterPath);
    var u := Upserted(NewestFirst(stored), e);
    SortKeepsUnique(stored);
    UpsertedOnly(NewestFirst(stored), e);
    forall x | x in NewestFirst(u) && KeyOf(x) == media.Key() ensures x == e {
      assert x in multiset(u);
    }
  }

  /** At most one entry per identity before a save means the same after it. */
  lemma SaveKeepsUnique(stored: seq<Entry>, media: Media, progress: Progress, cleanPosterPath: Option<string>, now: int)
    requires UniqueKeys(stored)
    ensures UniqueKeys(SavedList(stored, media, progress, cleanPosterPath, now))
  {
    var e := Entry(media, progress, now, cleanPosterPath);
    var list := NewestFirst(stored);
    SortKeepsUnique(stored);
    var u := Upserted(list, e);
    match FindIndex(list, media.Key()) {
      case Some(i) =>
        assert forall p | 0 <= p < |u| :: KeyOf(u[p]) == KeyOf(list[p]);
      case None =>
        forall i, j | 0 <= i < j < |u| ensures KeyOf(u[i]) != KeyOf(u[j]) {
          assert u[j] == list[j - 1];
          if i > 0 { assert u[i] == list[i - 1]; }
        }
    }
    SortKeepsUnique(u);
  }

  /**
   * When `now` is later than every stored `savedAt`, the saved entry is the
   * first one read back: "move to front".
   */
  lemma SaveMovesToFront(stored: seq<Entry>, media: Media, progress: Progress, cleanPosterPath: Option<string>, now: int)
    requires forall x | x in stored :: x.savedAt < now
    ensures var r := SavedList(stored, media, progress, cleanPosterPath, now);
      |r| > 0 && r[0] == Entry(media, progress, now, cleanPosterPath)
  {
    var e := Entry(media, progress, now, cleanPosterPath);
    var list := NewestFirst(stored);
    var r := SavedList(stored, media, progress, cleanPosterPath, now);
    SaveStoresEntry(stored, media, progress, cleanPosterPath, now);
    FirstIsLargest(r, SavedAt, e);
    UpsertedMultiset(list, e);
    assert r[0] in multiset(Upserted(list, e));
  }

  /**
   * Saving the same identity twice leaves one entry for it, stamped with the
   * second save's time, and the second save does not change the length.
   */
  lemma SaveTwice(stored: seq<Entry>, media: Media, progress: Progress, cleanPosterPath: Option<string>, t1: int, t2: int)
    requires UniqueKeys(stored)
    ensures var r1 := SavedList(stored, media, progress, cleanPosterPath, t1);
      var r2 := SavedList(r1, media, progress, cleanPosterPath, t2);
      && |r2| == |r1|
      && UniqueKeys(r2)
      && Entry(media, progress, t2, cleanPosterPath) in r2
      && forall x | x in r2 && KeyOf(x) == media.Key() :: x.savedAt == t2
  {
    var r1 := SavedList(stored, media, progress, cleanPosterPath, t1);
    SaveStoresEntry(stored, media, progress, cleanPosterPath, t1);
    SaveKeepsUnique(stored, media, progress, cleanPosterPath, t1);
    var e1 := Entry(media, progress, t1, cleanPosterPath);
    var i :| 0 <= i < |r1| && r1[i] == e1;
    assert HasKey(r1, media.Key()) by { assert KeyOf(r1[i]) == media.Key(); }
    SaveLength(r1, media, progress, cleanPosterPath, t2);
    SaveStoresEntry(r1, media, progress, cleanPosterPath, t2);
    SaveReplaces(r1, media, progress, cleanPosterPath, t2);
    SaveKeepsUnique(r1, media, progress, cleanPosterPath, t2);
  }

  /** Prepending an entry whose identity is new keeps the list unique. */
  lemma ConsKeepsUnique(x: Entry, t: seq<Entry>)
    requires UniqueKeys(t)
    requires forall y | y in t :: KeyOf(y) != KeyOf(x)
    ensures UniqueKeys([x] + t)
  {
    var u := [x] + t;
    forall i, j | 0 <= i < j < |u| ensures KeyOf(u[i]) != KeyOf(u[j]) {
      assert u[j] == t[j - 1];
      if i > 0 {
        assert u[i] == t[i - 1];
      }
    }
  }

  /** Filtering keeps at most one entry per identity. */
  lemma {:induction false} WithoutKeepsUnique(s: seq<Entry>, k: MediaKey)
    requires UniqueKeys(s)
    ensures UniqueKeys(Without(s, k))
  {
    if s != [] {
      var rest := s[1..];
      assert UniqueKeys(rest) by {
        forall i, j | 0 <= i < j < |rest| ensures KeyOf(rest[i]) != KeyOf(rest[j]) {
          assert rest[i] == s[i + 1] && rest[j] == s[j + 1];
        }
      }
      WithoutKeepsUnique(rest, k);
      if KeyOf(s[0]) != k {
        var t := Without(rest, k);
        forall y | y in t ensures KeyOf(y) != KeyOf(s[0]) {
          var m :| 0 <= m < |rest| && rest[m] == y;
          assert s[m + 1] == y;
        }
        ConsKeepsUnique(s[0], t);
      }
    }
  }

  /** `removeFromContinueWatching` keeps the list to one entry per identity. */
  lemma RemoveKeepsUnique(stored: seq<Entry>, k: MediaKey)
    requires UniqueKeys(stored)
    ensures UniqueKeys(Without(NewestFirst(stored), k))
  {
    SortKeepsUnique(stored);
    WithoutKeepsUnique(NewestFirst(stored), k);
  }

  /** After a removal, a read returns exactly the filtered list, in the same order. */
  lemma RemoveThenRead(stored: seq<Entry>, k: MediaKey)
    ensures NewestFirst(Without(NewestFirst(stored), k)) == Without(NewestFirst(stored), k)
  {
    SubseqKeepsDescending(Without(NewestFirst(stored), k), NewestFirst(stored), SavedAt);
    SortDescOfDescending(Without(NewestFirst(stored), k), SavedAt);
  }

  /** Removing an absent identity writes back what a read returned: a no-op for readers. */
  lemma RemoveAbsentIsNoOp(stored: seq<Entry>, k: MediaKey)
    requires !HasKey(stored, k)
    ensures Without(NewestFirst(stored), k) == NewestFirst(stored)
  {
    KeysOfPermutation(stored, NewestFirst(stored));
  }
}
