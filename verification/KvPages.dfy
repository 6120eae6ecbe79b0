/** Cursor pagination over one namespace, with the store free to change between pages. */
module KvPages {
  import opened Options
  import opened ByteOrder
  import opened KvModel

  datatype Page = Page(keys: seq<Bytes>, next: Option<Bytes>)

  // The cursor as the client sends it: base64url of a key, nothing, or something else.
  datatype Token = Garbled | Decoded(key: Option<Bytes>)

  predicate After(k: Bytes, cursor: Option<Bytes>) {
    cursor.Some? ==> Less(cursor.value, k)
  }

  function BucketKeys(data: map<Id, Record>, ns: Bytes): set<Bytes> {
    set id | id in data && id.ns == ns :: id.key
  }

  predicate LiveKey(data: map<Id, Record>, ns: Bytes, now: int, k: Bytes) {
    Id(ns, k) in data && Live(data[Id(ns, k)], now)
  }

  // Keys a reader could list: right prefix, not expired.
  predicate Listable(data: map<Id, Record>, ns: Bytes, prefix: Bytes, now: int, k: Bytes) {
    HasPrefix(k, prefix) && LiveKey(data, ns, now, k)
  }

  ghost function Remaining(data: map<Id, Record>, ns: Bytes, prefix: Bytes, now: int, cursor: Option<Bytes>)
    : set<Bytes>
  {
    set k | k in BucketKeys(data, ns) && Listable(data, ns, prefix, now, k) && After(k, cursor)
  }

  // Where the cursor is first placed: past the client's cursor, else at the prefix.
  predicate InRange(k: Bytes, prefix: Bytes, cursor: Option<Bytes>) {
    if cursor.Some? then Less(cursor.value, k) else AtMost(prefix, k)
  }

  // The loop stops at the first key without the prefix, so only keys before that are reached.
  ghost predicate Reached(data: map<Id, Record>, ns: Bytes, prefix: Bytes, cursor: Option<Bytes>, k: Bytes) {
    k in BucketKeys(data, ns) && InRange(k, prefix, cursor)
    && forall j :: j in BucketKeys(data, ns) && InRange(j, prefix, cursor) && AtMost(j, k) ==> HasPrefix(j, prefix)
  }

  ghost function Selected(data: map<Id, Record>, ns: Bytes, prefix: Bytes, now: int, cursor: Option<Bytes>)
    : set<Bytes>
  {
    set k | k in BucketKeys(data, ns) && Reached(data, ns, prefix, cursor, k) && LiveKey(data, ns, now, k)
  }

  // For a cursor that List itself handed out nothing is missed by stopping there.
  lemma {:induction false} SelectedIsRemaining(data: map<Id, Record>, ns: Bytes, prefix: Bytes, now: int,
      cursor: Option<Bytes>)
    requires cursor.Some? ==> HasPrefix(cursor.value, prefix)
    ensures Selected(data, ns, prefix, now, cursor) == Remaining(data, ns, prefix, now, cursor)
  {
    forall k | k in BucketKeys(data, ns)
      ensures Reached(data, ns, prefix, cursor, k) <==> HasPrefix(k, prefix) && After(k, cursor)
    {
      assert AtMost(k, k);
      if HasPrefix(k, prefix) && After(k, cursor) {
        PrefixFirst(k, prefix);
        forall j | j in BucketKeys(data, ns) && InRange(j, prefix, cursor) && AtMost(j, k)
          ensures HasPrefix(j, prefix)
        {
          var low := if cursor.Some? then cursor.value else prefix;
          PrefixConvex(low, j, k, prefix);
        }
      }
    }
  }

  // A page of the keys in s: the first `limit` of them, and a cursor exactly when more remain.
  ghost predicate IsPage(p: Page, s: set<Bytes>, limit: nat) {
    && Ascending(p.keys)
    && (forall k :: k in p.keys ==> k in s)
    && match p.next
       case None => |p.keys| <= limit && forall k :: k in s ==> k in p.keys
       case Some(c) =>
         && |p.keys| == limit > 0 && c == p.keys[limit - 1]
         && (forall k :: k in s && AtMost(k, c) ==> k in p.keys)
         && (exists k :: k in s && Less(c, k))
  }

  function Clamped(limit: int): nat {
    if limit <= 0 || limit > 1000 then 100 else limit
  }

  // At most n keys; n of them and a cursor exactly when there are more than n to choose from.
  lemma {:induction false} PageCounts(p: Page, s: set<Bytes>, n: nat)
    requires IsPage(p, s, n)
    ensures |p.keys| == if |s| > n then n else |s|
    ensures p.next.Some? <==> |s| > n
  {
    AscendingWithin(p.keys, s);
    CountAscending(p.keys);
    var keys := set k | k in p.keys;
    if p.next.Some? {
      var more :| more in s && Less(p.next.value, more);
      BeyondLast(p.keys, more);
      SubsetCount(keys + {more}, s);
    } else {
      assert keys == s;
    }
  }

  lemma {:induction false} BeyondLast(w: seq<Bytes>, k: Bytes)
    requires Ascending(w) && w != [] && Less(w[|w| - 1], k)
    ensures k !in w
  {
    if k in w {
      var i :| 0 <= i < |w| && w[i] == k;
      LessIrreflexive(k);
      if i < |w| - 1 {
        LessAsymmetric(w[i], w[|w| - 1]);
      }
    }
  }

  lemma {:induction false} CountAscending(w: seq<Bytes>)
    requires Ascending(w)
    ensures |set k | k in w| == |w|
    decreases |w|
  {
    if w != [] {
      var front, last := w[..|w| - 1], w[|w| - 1];
      CountAscending(front);
      assert last !in front by {
        LessIrreflexive(last);
      }
      assert (set k | k in w) == (set k | k in front) + {last};
    }
  }

  lemma {:induction false} SubsetCount(a: set<Bytes>, b: set<Bytes>)
    requires a <= b
    ensures |a| <= |b|
  {
    assert b == a + (b - a);
  }

  // A key List may return: in the namespace, with the prefix, not expired, after the cursor.
  ghost predicate Matches(data: map<Id, Record>, ns: Bytes, prefix: Bytes, now: int, cursor: Option<Bytes>, k: Bytes) {
    prefix <= k && Finds(data, Id(ns, k), now) && (cursor.Some? ==> Less(cursor.value, k))
  }

  // List stops before it: an earlier key of the namespace, in range, lacks the prefix. A client that
  // makes up a cursor can run into this.
  ghost predicate Blocked(data: map<Id, Record>, ns: Bytes, prefix: Bytes, cursor: Option<Bytes>, k: Bytes) {
    exists j :: Id(ns, j) in data && Less(j, k) && !(prefix <= j)
                && (if cursor.Some? then Less(cursor.value, j) else AtMost(prefix, j))
  }

  lemma {:induction false} ReachedExactly(data: map<Id, Record>, ns: Bytes, prefix: Bytes, cursor: Option<Bytes>,
      k: Bytes)
    requires prefix <= k && Id(ns, k) in data && (cursor.Some? ==> Less(cursor.value, k))
    ensures Reached(data, ns, prefix, cursor, k) <==> !Blocked(data, ns, prefix, cursor, k)
  {
    PrefixFirst(k, prefix);
    assert Id(ns, k).key in BucketKeys(data, ns);
    forall j
      ensures j in BucketKeys(data, ns) <==> Id(ns, j) in data
    {
      assert Id(ns, j) in data ==> Id(ns, j).key in BucketKeys(data, ns);
    }
  }

  /** List chooses from exactly the matching keys it is not stopped before, whatever the cursor. */
  lemma {:induction false} SelectedExactly(data: map<Id, Record>, ns: Bytes, prefix: Bytes, now: int,
      cursor: Option<Bytes>, k: Bytes)
    ensures k in Selected(data, ns, prefix, now, cursor)
            <==> Matches(data, ns, prefix, now, cursor, k) && !Blocked(data, ns, prefix, cursor, k)
  {
    if k in Selected(data, ns, prefix, now, cursor) {
      assert AtMost(k, k);
      ReachedExactly(data, ns, prefix, cursor, k);
    }
    if Matches(data, ns, prefix, now, cursor, k) {
      ReachedExactly(data, ns, prefix, cursor, k);
      assert Id(ns, k).key in BucketKeys(data, ns);
    }
  }

  // A cursor that List handed out, or none, is never stopped.
  lemma {:induction false} NeverBlocked(data: map<Id, Record>, ns: Bytes, prefix: Bytes, cursor: Option<Bytes>,
      k: Bytes)
    requires prefix <= k && (cursor.Some? ==> prefix <= cursor.value)
    ensures !Blocked(data, ns, prefix, cursor, k)
  {
    forall j | Less(j, k) && (if cursor.Some? then Less(cursor.value, j) else AtMost(prefix, j))
      ensures prefix <= j
    {
      PrefixConvex(if cursor.Some? then cursor.value else prefix, j, k, prefix);
    }
  }

  // ---------------------------------------------------------------- following cursors

  // What one call of List was asked and what it saw.
  datatype View = View(data: map<Id, Record>, now: int, limit: int)

  ghost predicate Follows(views: seq<View>, pages: seq<Page>, ns: Bytes, prefix: Bytes) {
    && |views| == |pages|
    && (forall i :: 0 <= i < |pages| ==> IsPageOf(views[i], pages[i], ns, prefix, CursorOf(pages, i)))
    && (forall i :: 0 <= i < |pages| - 1 ==> pages[i].next.Some?)
  }

  ghost predicate IsPageOf(v: View, p: Page, ns: Bytes, prefix: Bytes, cursor: Option<Bytes>) {
    IsPage(p, Selected(v.data, ns, prefix, v.now, cursor), Clamped(v.limit))
  }

  function CursorOf(pages: seq<Page>, i: nat): Option<Bytes>
    requires i <= |pages|
  {
    if i == 0 then None else pages[i - 1].next
  }

  function AllKeys(pages: seq<Page>): seq<Bytes> {
    if pages == [] then [] else AllKeys(pages[..|pages| - 1]) + pages[|pages| - 1].keys
  }

  lemma FollowsPrefix(views: seq<View>, pages: seq<Page>, ns: Bytes, prefix: Bytes)
    requires Follows(views, pages, ns, prefix) && pages != []
    ensures Follows(views[..|pages| - 1], pages[..|pages| - 1], ns, prefix)
  {
    var n := |pages| - 1;
    forall i | 0 <= i < n
      ensures IsPageOf(views[..n][i], pages[..n][i], ns, prefix, CursorOf(pages[..n], i))
    {
      assert CursorOf(pages[..n], i) == CursorOf(pages, i);
    }
  }

  // Cursors handed out carry the prefix, so every page is a page of what remains.
  lemma {:induction false} CursorsCarryPrefix(views: seq<View>, pages: seq<Page>, ns: Bytes, prefix: Bytes, i: nat)
    requires Follows(views, pages, ns, prefix) && i <= |pages|
    ensures var c := CursorOf(pages, i); c.Some? ==> HasPrefix(c.value, prefix)
    ensures i < |pages| ==>
      IsPage(pages[i], Remaining(views[i].data, ns, prefix, views[i].now, CursorOf(pages, i)), Clamped(views[i].limit))
  {
    if i > 0 {
      CursorsCarryPrefix(views, pages, ns, prefix, i - 1);
      var last := pages[i - 1];
      assert last.next.Some? ==> last.next.value in last.keys;
    }
    if i < |pages| {
      SelectedIsRemaining(views[i].data, ns, prefix, views[i].now, CursorOf(pages, i));
    }
  }

  // What linking the pages needs of each of them.
  ghost predicate Linked(pages: seq<Page>) {
    && (forall i :: 0 <= i < |pages| ==> Shaped(pages[i], CursorOf(pages, i)))
    && (forall i :: 0 <= i < |pages| - 1 ==> pages[i].next.Some?)
  }

  ghost predicate Shaped(p: Page, cursor: Option<Bytes>) {
    && Ascending(p.keys)
    && (forall k :: k in p.keys ==> After(k, cursor))
    && (p.next.Some? ==> |p.keys| > 0 && p.next.value == p.keys[|p.keys| - 1])
  }

  lemma FollowedPagesAreLinked(views: seq<View>, pages: seq<Page>, ns: Bytes, prefix: Bytes)
    requires Follows(views, pages, ns, prefix)
    ensures Linked(pages)
  {
    forall i | 0 <= i < |pages|
      ensures Shaped(pages[i], CursorOf(pages, i))
    {
      CursorsCarryPrefix(views, pages, ns, prefix, i);
    }
  }

  lemma LinkedPrefix(pages: seq<Page>)
    requires Linked(pages) && pages != []
    ensures Linked(pages[..|pages| - 1])
    ensures Shaped(pages[|pages| - 1], CursorOf(pages, |pages| - 1))
    ensures CursorOf(pages[..|pages| - 1], |pages| - 1) == CursorOf(pages, |pages| - 1)
    ensures CursorOf(pages, |pages| - 1).None? ==> pages[..|pages| - 1] == []
  {
    assert forall i :: 0 <= i < |pages| - 1 ==> CursorOf(pages[..|pages| - 1], i) == CursorOf(pages, i);
  }

  /** What following the cursors returns ascends strictly over all pages, so no key comes twice. */
  lemma {:induction false} PagesAscend(views: seq<View>, pages: seq<Page>, ns: Bytes, prefix: Bytes)
    requires Follows(views, pages, ns, prefix)
    ensures Ascending(AllKeys(pages))
  {
    FollowedPagesAreLinked(views, pages, ns, prefix);
    LinkedAscend(pages);
  }

  lemma {:induction false} LinkedAscend(pages: seq<Page>)
    requires Linked(pages)
    ensures Ascending(AllKeys(pages))
    ensures var c := CursorOf(pages, |pages|);
            c.Some? ==> forall k :: k in AllKeys(pages) ==> AtMost(k, c.value)
    decreases |pages|
  {
    if pages != [] {
      var n := |pages| - 1;
      LinkedPrefix(pages);
      LinkedAscend(pages[..n]);
      JoinPages(AllKeys(pages[..n]), pages[n].keys, CursorOf(pages, n));
      if pages[n].next.Some? {
        PageBelowCursor(AllKeys(pages[..n]), pages[n], CursorOf(pages, n));
      }
    }
  }

  /** Every returned key was listable when its page was read. */
  lemma {:induction false} PagesAreListable(views: seq<View>, pages: seq<Page>, ns: Bytes, prefix: Bytes, k: Bytes)
    requires Follows(views, pages, ns, prefix) && k in AllKeys(pages)
    ensures exists i :: 0 <= i < |views| && k in pages[i].keys && Listable(views[i].data, ns, prefix, views[i].now, k)
    decreases |pages|
  {
    var n := |pages| - 1;
    CursorsCarryPrefix(views, pages, ns, prefix, n);
    if k in pages[n].keys {
      assert Listable(views[n].data, ns, prefix, views[n].now, k);
    } else {
      FollowsPrefix(views, pages, ns, prefix);
      PagesAreListable(views[..n], pages[..n], ns, prefix, k);
      var i :| 0 <= i < n && k in pages[..n][i].keys && Listable(views[..n][i].data, ns, prefix, views[..n][i].now, k);
      assert k in pages[i].keys && Listable(views[i].data, ns, prefix, views[i].now, k);
    }
  }

  // A page does not let a key slip by: it returns it, leaves it beyond its cursor, or had passed it.
  ghost predicate Catches(p: Page, cursor: Option<Bytes>, k: Bytes) {
    After(k, cursor) ==> k in p.keys || (p.next.Some? && Less(p.next.value, k))
  }

  lemma ListableIsCaught(views: seq<View>, pages: seq<Page>, ns: Bytes, prefix: Bytes, k: Bytes, i: nat)
    requires Follows(views, pages, ns, prefix) && i < |pages|
    requires Listable(views[i].data, ns, prefix, views[i].now, k)
    ensures Catches(pages[i], CursorOf(pages, i), k)
  {
    CursorsCarryPrefix(views, pages, ns, prefix, i);
    assert Id(ns, k) in views[i].data && k in BucketKeys(views[i].data, ns);
    if pages[i].next.Some? {
      LessTotal(k, pages[i].next.value);
    }
  }

  // After n pages, a key that each of them catches has been returned or lies beyond the last cursor.
  lemma {:induction false} NothingSkipped(pages: seq<Page>, n: nat, k: Bytes)
    requires 0 < n <= |pages| && forall i :: 0 <= i < |pages| ==> Catches(pages[i], CursorOf(pages, i), k)
    ensures k in AllKeys(pages[..n]) || (pages[n - 1].next.Some? && Less(pages[n - 1].next.value, k))
    decreases n
  {
    assert Catches(pages[n - 1], CursorOf(pages, n - 1), k);
    AllKeysMore(pages, n);
    if n > 1 {
      NothingSkipped(pages, n - 1, k);
    }
  }

  lemma {:induction false} AllKeysMore(pages: seq<Page>, n: nat)
    requires 0 < n <= |pages|
    ensures AllKeys(pages[..n]) == AllKeys(pages[..n - 1]) + pages[n - 1].keys
  {
    assert pages[..n][..n - 1] == pages[..n - 1];
  }

  lemma JoinPages(before: seq<Bytes>, keys: seq<Bytes>, cursor: Option<Bytes>)
    requires Ascending(before) && Ascending(keys)
    requires cursor.None? ==> before == []
    requires cursor.Some? ==> forall k :: k in before ==> AtMost(k, cursor.value)
    requires forall k :: k in keys ==> After(k, cursor)
    ensures Ascending(before + keys)
  {
    forall i, j | 0 <= i < |before| && 0 <= j < |keys|
      ensures Less(before[i], keys[j])
    {
      assert before[i] in before && keys[j] in keys;
      if before[i] != cursor.value {
        LessTransitive(before[i], cursor.value, keys[j]);
      }
    }
  }

  lemma PageBelowCursor(before: seq<Bytes>, p: Page, cursor: Option<Bytes>)
    requires Ascending(p.keys) && p.next.Some? && |p.keys| > 0 && p.next.value == p.keys[|p.keys| - 1]
    requires cursor.None? ==> before == []
    requires cursor.Some? ==> forall k :: k in before ==> AtMost(k, cursor.value)
    requires forall k :: k in p.keys ==> After(k, cursor)
    ensures forall k :: k in before + p.keys ==> AtMost(k, p.next.value)
  {
    forall k | k in before + p.keys
      ensures AtMost(k, p.next.value)
    {
      if k in p.keys {
        var i :| 0 <= i < |p.keys| && p.keys[i] == k;
      } else {
        assert p.next.value in p.keys && Less(cursor.value, p.next.value);
        if k != cursor.value {
          LessTransitive(k, cursor.value, p.next.value);
        }
      }
    }
  }

  lemma {:induction false} AllCaught(views: seq<View>, pages: seq<Page>, ns: Bytes, prefix: Bytes, k: Bytes)
    requires Follows(views, pages, ns, prefix) && Throughout(views, ns, prefix, k)
    ensures forall i :: 0 <= i < |pages| ==> Catches(pages[i], CursorOf(pages, i), k)
  {
    forall i | 0 <= i < |pages|
      ensures Catches(pages[i], CursorOf(pages, i), k)
    {
      ListableIsCaught(views, pages, ns, prefix, k, i);
    }
  }

  lemma {:induction false} CaughtOnce(pages: seq<Page>, k: Bytes)
    requires Linked(pages) && pages != [] && pages[|pages| - 1].next.None?
    requires forall i :: 0 <= i < |pages| ==> Catches(pages[i], CursorOf(pages, i), k)
    ensures k in AllKeys(pages) && multiset(AllKeys(pages))[k] == 1
  {
    LinkedAscend(pages);
    NothingSkipped(pages, |pages|, k);
    assert pages[..|pages|] == pages;
    OccursOnce(AllKeys(pages), k);
  }

  // Every call of List finds the key live and matching.
  ghost predicate Throughout(views: seq<View>, ns: Bytes, prefix: Bytes, k: Bytes) {
    forall i :: 0 <= i < |views| ==> Listable(views[i].data, ns, prefix, views[i].now, k)
  }

  /** When the last page has no cursor, a key that stayed listable throughout was returned, once. */
  lemma {:induction false} PaginationComplete(views: seq<View>, pages: seq<Page>, ns: Bytes, prefix: Bytes, k: Bytes)
    requires Follows(views, pages, ns, prefix) && pages != [] && pages[|pages| - 1].next.None?
    requires Throughout(views, ns, prefix, k)
    ensures k in AllKeys(pages) && multiset(AllKeys(pages))[k] == 1
  {
    AllCaught(views, pages, ns, prefix, k);
    FollowedPagesAreLinked(views, pages, ns, prefix);
    CaughtOnce(pages, k);
  }

  lemma {:induction false} OccursOnce(s: seq<Bytes>, k: Bytes)
    requires Ascending(s) && k in s
    ensures multiset(s)[k] == 1
  {
    var rest := s[..|s| - 1];
    assert s == rest + [s[|s| - 1]];
    LessIrreflexive(k);
    if k in rest {
      OccursOnce(rest, k);
    }
  }

  // The store and the clock are the same for every page.
  ghost predicate Fixed(views: seq<View>) {
    forall i :: 0 <= i < |views| ==> views[i].data == views[0].data && views[i].now == views[0].now
  }

  lemma {:induction false} OnlyRemaining(views: seq<View>, pages: seq<Page>, ns: Bytes, prefix: Bytes, k: Bytes)
    requires Follows(views, pages, ns, prefix) && Fixed(views) && k in AllKeys(pages)
    ensures views != [] && k in Remaining(views[0].data, ns, prefix, views[0].now, None)
  {
    PagesAreListable(views, pages, ns, prefix, k);
    assert Id(ns, k) in views[0].data;
  }

  lemma {:induction false} RemainsThroughout(views: seq<View>, ns: Bytes, prefix: Bytes, k: Bytes)
    requires Fixed(views) && views != [] && k in Remaining(views[0].data, ns, prefix, views[0].now, None)
    ensures Throughout(views, ns, prefix, k)
  {
  }

  // On a store that does not change, the pages are the sorted listable keys.
  lemma {:induction false} PaginationOfFixedStore(views: seq<View>, pages: seq<Page>, ns: Bytes, prefix: Bytes)
    requires Follows(views, pages, ns, prefix) && pages != [] && pages[|pages| - 1].next.None? && Fixed(views)
    ensures AllKeys(pages) == Walk(Remaining(views[0].data, ns, prefix, views[0].now, None))
  {
    var s := Remaining(views[0].data, ns, prefix, views[0].now, None);
    PagesAscend(views, pages, ns, prefix);
    forall k
      ensures k in AllKeys(pages) <==> k in s
    {
      if k in s {
        RemainsThroughout(views, ns, prefix, k);
        PaginationComplete(views, pages, ns, prefix, k);
      }
      if k in AllKeys(pages) {
        OnlyRemaining(views, pages, ns, prefix, k);
      }
    }
    AscendingUnique(AllKeys(pages), Walk(s));
  }

  // Every page but the last returns a key, so following cursors on a fixed store comes to an end.
  lemma {:induction false} PagesOfFixedStoreAreBounded(views: seq<View>, pages: seq<Page>, ns: Bytes, prefix: Bytes)
    requires Follows(views, pages, ns, prefix) && pages != [] && Fixed(views)
    ensures |pages| <= |Remaining(views[0].data, ns, prefix, views[0].now, None)| + 1
  {
    var s := Remaining(views[0].data, ns, prefix, views[0].now, None);
    FollowedPagesAreLinked(views, pages, ns, prefix);
    LinkedAscend(pages);
    forall k | k in AllKeys(pages)
      ensures k in s
    {
      OnlyRemaining(views, pages, ns, prefix, k);
    }
    EachPageAdvances(pages);
    AscendingWithin(AllKeys(pages), s);
  }

  lemma {:induction false} EachPageAdvances(pages: seq<Page>)
    requires Linked(pages)
    ensures |AllKeys(pages)| >= |pages| - 1
    ensures pages != [] && pages[|pages| - 1].next.Some? ==> |AllKeys(pages)| >= |pages|
    decreases |pages|
  {
    if pages != [] {
      LinkedPrefix(pages);
      EachPageAdvances(pages[..|pages| - 1]);
    }
  }

  lemma {:induction false} AscendingWithin(w: seq<Bytes>, s: set<Bytes>)
    requires Ascending(w) && forall k :: k in w ==> k in s
    ensures |w| <= |s|
    decreases |w|
  {
    if w != [] {
      var last := w[|w| - 1];
      forall k | k in w[..|w| - 1]
        ensures k in s - {last}
      {
        LessIrreflexive(k);
      }
      AscendingWithin(w[..|w| - 1], s - {last});
      assert last in s;
    }
  }

  // A listing that fits: one page with all of it, and no cursor, is what List answers.
  lemma {:induction false} OnePageIsEnough(v: View, ns: Bytes, prefix: Bytes)
    requires |Remaining(v.data, ns, prefix, v.now, None)| <= Clamped(v.limit)
    ensures Follows([v], [Page(Walk(Remaining(v.data, ns, prefix, v.now, None)), None)], ns, prefix)
  {
    var s := Remaining(v.data, ns, prefix, v.now, None);
    AscendingWithin(Walk(s), s);
    SelectedIsRemaining(v.data, ns, prefix, v.now, None);
    assert IsPageOf(v, Page(Walk(s), None), ns, prefix, None);
  }
}
