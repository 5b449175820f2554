/**
 * The meaning of the export's single SQL query, as a pipeline over in-memory
 * tables: keep one podscan record per podcastindex_id (the smallest id),
 * inner-join creators onto it, left-join podcastindex_feeds, keep the rows
 * with a usable iTunes identifier (optionally equal to a requested one),
 * order by the feed's lastUpdate descending and apply LIMIT/OFFSET.
 */
module ExportQuery {
  import opened Wrappers

  /** A row of the podscan table (the columns the query reads). */
  datatype PodscanRecord = PodscanRecord(
    id: int,
    podcastindexId: Option<int>,
    itunesid: Option<int>,
    region: Option<string>,
    email: Option<string>,
    website: Option<string>)

  /** A row of the creators table. */
  datatype Creator = Creator(
    adlid: string,
    podcastindexId: Option<int>,
    itunesid: Option<int>,
    title: Option<string>,
    normalizedTone: Option<string>,
    normalizedAudience: Option<string>)

  /** A row of the podcastindex_feeds table; id is its podcastindex id. */
  datatype Feed = Feed(
    id: int,
    itunesId: Option<int>,
    title: Option<string>,
    url: Option<string>,
    link: Option<string>,
    lastUpdate: Option<int>)

  datatype Database = Database(creators: seq<Creator>, podscan: seq<PodscanRecord>, feeds: seq<Feed>)

  /** One row of the join before projection: a creator, its podscan record and maybe a feed. */
  datatype Joined = Joined(creator: Creator, scan: PodscanRecord, feed: Option<Feed>)

  /** The columns the query selects, under their SELECT aliases. */
  datatype Row = Row(
    adlid: string,
    podcastindexId: Option<int>,
    creatorItunesid: Option<int>,
    creatorTitle: Option<string>,
    normalizedTone: Option<string>,
    normalizedAudience: Option<string>,
    podscanItunesid: Option<int>,
    podscanRegion: Option<string>,
    podscanEmail: Option<string>,
    podscanWebsite: Option<string>,
    feedTitle: Option<string>,
    feedUrl: Option<string>,
    feedLink: Option<string>)

  /** LIMIT ? OFFSET ? */
  datatype Paging = Paging(limit: int, offset: int)

  /** The query text and its parameters: the iTunes id filter and the optional paging clause. */
  datatype QueryPlan = QueryPlan(itunesid: Option<int>, paging: Option<Paging>)

  // ----- podscan_dedup: ROW_NUMBER() OVER (PARTITION BY podcastindex_id ORDER BY id) = 1 -----

  /**
   * Record i comes no later than record j in its partition's ORDER BY ps.id.
   * Equal ids are left in table order.
   */
  predicate Precedes(t: seq<PodscanRecord>, i: int, j: int)
    requires 0 <= i < |t| && 0 <= j < |t|
  {
    t[i].id < t[j].id || (t[i].id == t[j].id && i <= j)
  }

  /** Record i gets row number 1 in its partition (NULL keys form one partition). */
  predicate RowNumberOne(t: seq<PodscanRecord>, i: int)
    requires 0 <= i < |t|
  {
    forall j :: 0 <= j < |t| && t[j].podcastindexId == t[i].podcastindexId ==> Precedes(t, i, j)
  }

  /** The records of t[from..] that have row number 1, in table order. */
  function DedupFrom(t: seq<PodscanRecord>, from: nat): (d: seq<PodscanRecord>)
    requires from <= |t|
    decreases |t| - from
  {
    if from == |t| then []
    else (if RowNumberOne(t, from) then [t[from]] else []) + DedupFrom(t, from + 1)
  }

  lemma {:induction false} DedupFromElements(t: seq<PodscanRecord>, from: nat)
    requires from <= |t|
    ensures forall p :: p in DedupFrom(t, from) ==> exists i :: from <= i < |t| && t[i] == p && RowNumberOne(t, i)
    decreases |t| - from
  {
    if from < |t| {
      DedupFromElements(t, from + 1);
    }
  }

  /**
   * The CTE podscan_dedup restricted to rn = 1. Every record kept is in the
   * table and has the smallest id among the records sharing its key.
   */
  function PodscanDedup(t: seq<PodscanRecord>): (d: seq<PodscanRecord>)
    ensures forall p :: p in d ==> p in t
    ensures forall p, q :: p in d && q in t && q.podcastindexId == p.podcastindexId ==> p.id <= q.id
  {
    DedupFromElements(t, 0);
    DedupFrom(t, 0)
  }

  /** The number of records with the given key. */
  function CountKey(d: seq<PodscanRecord>, k: Option<int>): nat {
    if d == [] then 0 else (if d[0].podcastindexId == k then 1 else 0) + CountKey(d[1..], k)
  }

  lemma {:induction false} CountKeyAppend(a: seq<PodscanRecord>, b: seq<PodscanRecord>, k: Option<int>)
    ensures CountKey(a + b, k) == CountKey(a, k) + CountKey(b, k)
  {
    if a != [] {
      assert (a + b)[1..] == a[1..] + b;
      CountKeyAppend(a[1..], b, k);
    } else {
      assert a + b == b;
    }
  }

  /** Some record of the table carries key k. */
  predicate HasKey(t: seq<PodscanRecord>, k: Option<int>) {
    exists i :: 0 <= i < |t| && t[i].podcastindexId == k
  }

  /** Two records with row number 1 in the same partition are the same record. */
  lemma RowNumberOneUnique(t: seq<PodscanRecord>, i: int, j: int)
    requires 0 <= i < |t| && 0 <= j < |t|
    requires t[i].podcastindexId == t[j].podcastindexId
    requires RowNumberOne(t, i) && RowNumberOne(t, j)
    ensures i == j
  {
    assert Precedes(t, i, j) && Precedes(t, j, i);
  }

  /** The best record with key k among t[..n], scanning as ORDER BY ps.id would. */
  ghost function BestBelow(t: seq<PodscanRecord>, k: Option<int>, n: nat): (b: Option<nat>)
    requires n <= |t|
    ensures b.None? ==> forall j :: 0 <= j < n ==> t[j].podcastindexId != k
    ensures b.Some? ==> b.value < n && t[b.value].podcastindexId == k
                        && forall j :: 0 <= j < n && t[j].podcastindexId == k ==> Precedes(t, b.value, j)
  {
    if n == 0 then None
    else
      var b := BestBelow(t, k, n - 1);
      if t[n - 1].podcastindexId != k then b
      else if b.None? || t[n - 1].id < t[b.value].id then Some(n - 1)
      else b
  }

  /** Every non-empty partition has a record with row number 1. */
  lemma RowNumberOneExists(t: seq<PodscanRecord>, k: Option<int>)
    requires HasKey(t, k)
    ensures exists i :: 0 <= i < |t| && ChosenFor(t, k, i)
  {
    var b := BestBelow(t, k, |t|);
    assert ChosenFor(t, k, b.value);
  }

  /** Record i is the row-number-1 record of partition k. */
  predicate ChosenFor(t: seq<PodscanRecord>, k: Option<int>, i: int)
    requires 0 <= i < |t|
  {
    t[i].podcastindexId == k && RowNumberOne(t, i)
  }

  lemma {:induction false} DedupFromCount(t: seq<PodscanRecord>, k: Option<int>, from: nat)
    requires from <= |t|
    ensures CountKey(DedupFrom(t, from), k)
            == if exists i :: from <= i < |t| && ChosenFor(t, k, i) then 1 else 0
    decreases |t| - from
  {
    if from < |t| {
      var head := if RowNumberOne(t, from) then [t[from]] else [];
      assert DedupFrom(t, from) == head + DedupFrom(t, from + 1);
      DedupFromCount(t, k, from + 1);
      CountKeyAppend(head, DedupFrom(t, from + 1), k);
      assert CountKey(head, k) == if ChosenFor(t, k, from) then 1 else 0;
      if ChosenFor(t, k, from) {
        forall i | from + 1 <= i < |t| && ChosenFor(t, k, i)
          ensures false
        {
          RowNumberOneUnique(t, from, i);
        }
      } else {
        assert forall i :: from <= i < |t| && ChosenFor(t, k, i) ==> from + 1 <= i;
      }
    }
  }

  /**
   * At most one per key: podscan_dedup holds exactly one record for every
   * podcastindex_id that occurs in the table and none for any other.
   */
  lemma PodscanDedupOnePerKey(t: seq<PodscanRecord>, k: Option<int>)
    ensures CountKey(PodscanDedup(t), k) == if HasKey(t, k) then 1 else 0
  {
    DedupFromCount(t, k, 0);
    if HasKey(t, k) {
      RowNumberOneExists(t, k);
    }
  }

  // ----- FROM creators c JOIN podscan_dedup ps ... LEFT JOIN podcastindex_feeds pf ... -----

  /** ps.podcastindex_id = c.podcastindex_id; a NULL key matches nothing. */
  predicate KeysJoin(c: Creator, p: PodscanRecord) {
    c.podcastindexId.Some? && p.podcastindexId == c.podcastindexId
  }

  /** The feeds with pf.id = id, in table order. */
  function FeedsWithId(feeds: seq<Feed>, id: int): (m: seq<Feed>)
    ensures forall f :: f in m <==> f in feeds && f.id == id
    ensures |m| <= |feeds|
  {
    if feeds == [] then []
    else (if feeds[0].id == id then [feeds[0]] else []) + FeedsWithId(feeds[1..], id)
  }

  /** The left join of one creator/podscan pair with the feeds: a NULL feed when none matches. */
  function LeftJoinFeeds(c: Creator, p: PodscanRecord, feeds: seq<Feed>): (r: seq<Joined>)
    requires c.podcastindexId.Some?
    ensures |r| >= 1
    ensures forall j :: j in r ==> j.creator == c && j.scan == p
    ensures forall j :: j in r && j.feed.Some? ==> j.feed.value in feeds && c.podcastindexId == Some(j.feed.value.id)
    ensures forall j :: j in r && j.feed.None? ==> forall f :: f in feeds ==> c.podcastindexId != Some(f.id)
    ensures forall f :: f in feeds && c.podcastindexId == Some(f.id) ==> Joined(c, p, Some(f)) in r
    ensures (forall f :: f in feeds ==> c.podcastindexId != Some(f.id)) ==> r == [Joined(c, p, None)]
  {
    var m := FeedsWithId(feeds, c.podcastindexId.value);
    if m == [] then [Joined(c, p, None)]
    else
      var r := seq(|m|, i requires 0 <= i < |m| => Joined(c, p, Some(m[i])));
      assert forall f :: f in m ==> Joined(c, p, Some(f)) in r by {
        forall f | f in m ensures Joined(c, p, Some(f)) in r {
          var i :| 0 <= i < |m| && m[i] == f;
          assert r[i] == Joined(c, p, Some(f));
        }
      }
      assert m[0] in m;
      r
  }

  /** The joined rows of one creator. */
  function JoinCreator(c: Creator, scans: seq<PodscanRecord>, feeds: seq<Feed>): (r: seq<Joined>)
    ensures forall j :: j in r ==> j.creator == c && j.scan in scans && KeysJoin(c, j.scan)
    ensures forall j :: j in r && j.feed.Some? ==> j.feed.value in feeds && c.podcastindexId == Some(j.feed.value.id)
    ensures forall j :: j in r && j.feed.None? ==> forall f :: f in feeds ==> c.podcastindexId != Some(f.id)
    ensures forall p, f :: p in scans && KeysJoin(c, p) && f in feeds && c.podcastindexId == Some(f.id)
                           ==> Joined(c, p, Some(f)) in r
    ensures forall p :: p in scans && KeysJoin(c, p) && (forall f :: f in feeds ==> c.podcastindexId != Some(f.id))
                        ==> Joined(c, p, None) in r
  {
    if scans == [] then []
    else (if KeysJoin(c, scans[0]) then LeftJoinFeeds(c, scans[0], feeds) else [])
         + JoinCreator(c, scans[1..], feeds)
  }

  /** All joined rows, creator by creator. */
  function Join(creators: seq<Creator>, scans: seq<PodscanRecord>, feeds: seq<Feed>): (r: seq<Joined>)
    ensures forall j :: j in r ==> j.creator in creators && j.scan in scans && KeysJoin(j.creator, j.scan)
    ensures forall j :: j in r && j.feed.Some? ==> j.feed.value in feeds && j.creator.podcastindexId == Some(j.feed.value.id)
    ensures forall j :: j in r && j.feed.None? ==> forall f :: f in feeds ==> j.creator.podcastindexId != Some(f.id)
  {
    if creators == [] then []
    else JoinCreator(creators[0], scans, feeds) + Join(creators[1..], scans, feeds)
  }

  /**
   * Nothing that matches is lost: every creator and podscan record with
   * equal non-NULL keys are joined with every feed of that id, or with a
   * NULL feed when there is none.
   */
  lemma {:induction false} JoinComplete(creators: seq<Creator>, scans: seq<PodscanRecord>, feeds: seq<Feed>,
                                        c: Creator, p: PodscanRecord)
    requires c in creators && p in scans && KeysJoin(c, p)
    ensures forall f :: f in feeds && c.podcastindexId == Some(f.id) ==> Joined(c, p, Some(f)) in Join(creators, scans, feeds)
    ensures (forall f :: f in feeds ==> c.podcastindexId != Some(f.id)) ==> Joined(c, p, None) in Join(creators, scans, feeds)
  {
    var here := JoinCreator(creators[0], scans, feeds);
    var rest := Join(creators[1..], scans, feeds);
    assert Join(creators, scans, feeds) == here + rest;
    if c != creators[0] {
      assert c in creators[1..];
      JoinComplete(creators[1..], scans, feeds, c, p);
    }
  }

  /** pf.id is the primary key of podcastindex_feeds. */
  predicate UniqueFeedIds(feeds: seq<Feed>) {
    forall i, j :: 0 <= i < j < |feeds| ==> feeds[i].id != feeds[j].id
  }

  lemma {:induction false} FeedsWithIdAtMostOne(feeds: seq<Feed>, id: int)
    requires UniqueFeedIds(feeds)
    ensures |FeedsWithId(feeds, id)| <= 1
  {
    if feeds != [] {
      FeedsWithIdAtMostOne(feeds[1..], id);
      if feeds[0].id == id {
        assert forall k :: 0 <= k < |feeds| - 1 ==> feeds[1..][k] == feeds[k + 1];
        assert forall f :: f in feeds[1..] ==> f.id != id;
        var m := FeedsWithId(feeds[1..], id);
        if m != [] {
          assert m[0] in m;
        }
      }
    }
  }

  lemma {:induction false} JoinCreatorCount(c: Creator, scans: seq<PodscanRecord>, feeds: seq<Feed>)
    requires UniqueFeedIds(feeds) && c.podcastindexId.Some?
    ensures |JoinCreator(c, scans, feeds)| == CountKey(scans, c.podcastindexId)
  {
    if scans != [] {
      JoinCreatorCount(c, scans[1..], feeds);
      FeedsWithIdAtMostOne(feeds, c.podcastindexId.value);
    }
  }

  /** The number of creators whose podcastindex_id is non-null and occurs in the podscan table. */
  function CountJoinable(creators: seq<Creator>, t: seq<PodscanRecord>): nat {
    if creators == [] then 0
    else (if creators[0].podcastindexId.Some? && HasKey(t, creators[0].podcastindexId) then 1 else 0)
         + CountJoinable(creators[1..], t)
  }

  /**
   * However many podscan records share a podcastindex_id, each creator with
   * that key contributes exactly one joined row (feeds being keyed by id).
   */
  lemma {:induction false} JoinOneRowPerCreator(creators: seq<Creator>, t: seq<PodscanRecord>, feeds: seq<Feed>)
    requires UniqueFeedIds(feeds)
    ensures |Join(creators, PodscanDedup(t), feeds)| == CountJoinable(creators, t)
  {
    if creators != [] {
      var c := creators[0];
      JoinOneRowPerCreator(creators[1..], t, feeds);
      if c.podcastindexId.Some? {
        JoinCreatorCount(c, PodscanDedup(t), feeds);
        PodscanDedupOnePerKey(t, c.podcastindexId);
      } else {
        JoinCreatorNullKey(c, PodscanDedup(t), feeds);
      }
    }
  }

  lemma {:induction false} JoinCreatorNullKey(c: Creator, scans: seq<PodscanRecord>, feeds: seq<Feed>)
    requires c.podcastindexId.None?
    ensures JoinCreator(c, scans, feeds) == []
  {
    if scans != [] {
      JoinCreatorNullKey(c, scans[1..], feeds);
    }
  }

  // ----- WHERE COALESCE(NULLIF(ps.itunesid, 0), NULLIF(c.itunesid, 0), NULLIF(pf.itunesId, 0)) ... -----

  function NullIfZero(x: Option<int>): Option<int> {
    if x == Some(0) then None else x
  }

  function Coalesce(a: Option<int>, b: Option<int>): Option<int> {
    if a.Some? then a else b
  }

  function FeedItunesId(j: Joined): Option<int> {
    if j.feed.Some? then j.feed.value.itunesId else None
  }

  /** The query's identifier: podscan's, else the creator's, else the feed's, zero counting as NULL. */
  function CoalescedItunesId(j: Joined): (id: Option<int>)
    ensures id != Some(0)
    ensures id.Some? <==> NullIfZero(j.scan.itunesid).Some? || NullIfZero(j.creator.itunesid).Some?
                          || NullIfZero(FeedItunesId(j)).Some?
  {
    Coalesce(Coalesce(NullIfZero(j.scan.itunesid), NullIfZero(j.creator.itunesid)), NullIfZero(FeedItunesId(j)))
  }

  /** The precedence law: a non-zero podscan identifier wins whatever the other two hold. */
  lemma CoalescePrecedence(j: Joined)
    ensures j.scan.itunesid.Some? && j.scan.itunesid.value != 0 ==> CoalescedItunesId(j) == j.scan.itunesid
    ensures NullIfZero(j.scan.itunesid).None? && j.creator.itunesid.Some? && j.creator.itunesid.value != 0
            ==> CoalescedItunesId(j) == j.creator.itunesid
    ensures NullIfZero(j.scan.itunesid).None? && NullIfZero(j.creator.itunesid).None?
            ==> CoalescedItunesId(j) == NullIfZero(FeedItunesId(j))
  {
  }

  /** The WHERE clause: an identifier exists and, when one is requested, equals it. */
  predicate PassesWhere(j: Joined, filter: Option<int>) {
    CoalescedItunesId(j).Some? && (filter.None? || CoalescedItunesId(j) == filter)
  }

  function Where(rows: seq<Joined>, filter: Option<int>): (r: seq<Joined>)
    ensures forall j :: j in r <==> j in rows && PassesWhere(j, filter)
    ensures |r| <= |rows|
  {
    if rows == [] then []
    else (if PassesWhere(rows[0], filter) then [rows[0]] else []) + Where(rows[1..], filter)
  }

  /** WHERE keeps the order and the multiplicity of the rows it keeps: it distributes over concatenation. */
  lemma {:induction false} WhereAppend(a: seq<Joined>, b: seq<Joined>, filter: Option<int>)
    ensures Where(a + b, filter) == Where(a, filter) + Where(b, filter)
  {
    if a == [] {
      assert a + b == b;
    } else {
      assert (a + b)[0] == a[0] && (a + b)[1..] == a[1..] + b;
      WhereAppend(a[1..], b, filter);
    }
  }

  /** A filter of 0 matches nothing, since zero identifiers count as NULL. */
  lemma {:induction false} ZeroFilterMatchesNothing(rows: seq<Joined>)
    ensures Where(rows, Some(0)) == []
  {
    if rows != [] {
      ZeroFilterMatchesNothing(rows[1..]);
    }
  }

  // ----- ORDER BY pf.lastUpdate DESC -----

  function LastUpdate(j: Joined): Option<int> {
    if j.feed.Some? then j.feed.value.lastUpdate else None
  }

  /** a may come before b in descending order; SQLite ranks NULL below every number. */
  predicate NotBefore(a: Option<int>, b: Option<int>) {
    b.None? || (a.Some? && a.value >= b.value)
  }

  predicate SortedDesc(s: seq<Joined>) {
    forall i, j :: 0 <= i < j < |s| ==> NotBefore(LastUpdate(s[i]), LastUpdate(s[j]))
  }

  /** x placed after every element that does not come after it. */
  function InsertDesc(x: Joined, s: seq<Joined>): seq<Joined> {
    if s == [] then [x]
    else if NotBefore(LastUpdate(s[0]), LastUpdate(x)) then [s[0]] + InsertDesc(x, s[1..])
    else [x] + s
  }

  /** Inserting adds x and nothing else. */
  lemma {:induction false} InsertDescElements(x: Joined, s: seq<Joined>)
    ensures multiset(InsertDesc(x, s)) == multiset(s) + multiset{x}
  {
    if s != [] {
      assert s == [s[0]] + s[1..];
      InsertDescElements(x, s[1..]);
    }
  }

  /** Every row of s may come after a row whose lastUpdate is v. */
  predicate AllAfter(v: Option<int>, s: seq<Joined>) {
    forall i :: 0 <= i < |s| ==> NotBefore(v, LastUpdate(s[i]))
  }

  lemma {:induction false} InsertDescAllAfter(v: Option<int>, x: Joined, s: seq<Joined>)
    requires NotBefore(v, LastUpdate(x)) && AllAfter(v, s)
    ensures AllAfter(v, InsertDesc(x, s))
  {
    if s != [] && NotBefore(LastUpdate(s[0]), LastUpdate(x)) {
      var tail := s[1..];
      assert AllAfter(v, tail) by {
        forall i | 0 <= i < |tail| ensures NotBefore(v, LastUpdate(tail[i])) {
          assert tail[i] == s[i + 1];
        }
      }
      InsertDescAllAfter(v, x, tail);
      var r := [s[0]] + InsertDesc(x, tail);
      forall i | 0 < i < |r| ensures NotBefore(v, LastUpdate(r[i])) {
        assert r[i] == InsertDesc(x, tail)[i - 1];
      }
    }
  }

  /** Inserting into a descending sequence keeps it descending. */
  lemma {:induction false} InsertDescSorted(x: Joined, s: seq<Joined>)
    requires SortedDesc(s)
    ensures SortedDesc(InsertDesc(x, s))
  {
    if s == [] {
    } else if NotBefore(LastUpdate(s[0]), LastUpdate(x)) {
      var tail := s[1..];
      assert SortedDesc(tail) by {
        forall i, j | 0 <= i < j < |tail| ensures NotBefore(LastUpdate(tail[i]), LastUpdate(tail[j])) {
          assert tail[i] == s[i + 1] && tail[j] == s[j + 1];
        }
      }
      assert AllAfter(LastUpdate(s[0]), tail) by {
        forall i | 0 <= i < |tail| ensures NotBefore(LastUpdate(s[0]), LastUpdate(tail[i])) {
          assert tail[i] == s[i + 1];
        }
      }
      InsertDescSorted(x, tail);
      InsertDescAllAfter(LastUpdate(s[0]), x, tail);
      var rest := InsertDesc(x, tail);
      var r := [s[0]] + rest;
      forall i, j | 0 <= i < j < |r| ensures NotBefore(LastUpdate(r[i]), LastUpdate(r[j])) {
        assert r[j] == rest[j - 1];
        if i > 0 {
          assert r[i] == rest[i - 1];
        }
      }
    } else {
      var r := [x] + s;
      forall i, j | 0 <= i < j < |r| ensures NotBefore(LastUpdate(r[i]), LastUpdate(r[j])) {
        assert r[j] == s[j - 1];
        if i > 0 {
          assert r[i] == s[i - 1];
        } else if j > 1 {
          assert NotBefore(LastUpdate(s[0]), LastUpdate(s[j - 1]));
        }
      }
    }
  }

  /** The ORDER BY: a permutation of the rows, ordered by lastUpdate descending. */
  function SortDesc(s: seq<Joined>): (r: seq<Joined>)
    ensures SortedDesc(r)
    ensures multiset(r) == multiset(s)
  {
    if s == [] then []
    else
      var init := SortDesc(s[..|s| - 1]);
      var last := s[|s| - 1];
      assert s == s[..|s| - 1] + [last];
      InsertDescSorted(last, init);
      InsertDescElements(last, init);
      InsertDesc(last, init)
  }

  // ----- LIMIT ? OFFSET ? -----

  function Max0(x: int): nat {
    if x < 0 then 0 else x
  }

  /**
   * SQLite's LIMIT/OFFSET: a negative offset counts as zero, a negative limit
   * means no bound. Without a paging clause every row is returned.
   */
  function Window<T>(s: seq<T>, paging: Option<Paging>): (r: seq<T>)
    ensures paging.None? ==> r == s
    ensures paging.Some? ==>
              var start := Max0(paging.value.offset);
              var avail := if start < |s| then |s| - start else 0;
              |r| == (if 0 <= paging.value.limit < avail then paging.value.limit else avail)
              && forall k :: 0 <= k < |r| ==> r[k] == s[start + k]
  {
    if paging.None? then s
    else
      var start := if Max0(paging.value.offset) < |s| then Max0(paging.value.offset) else |s|;
      var end := if 0 <= paging.value.limit && start + paging.value.limit < |s|
                 then start + paging.value.limit else |s|;
      s[start..end]
  }

  // ----- the whole query -----

  function Candidates(db: Database): seq<Joined> {
    Join(db.creators, PodscanDedup(db.podscan), db.feeds)
  }

  /** The joined rows the query returns, before projection to the selected columns. */
  function Selected(db: Database, plan: QueryPlan): seq<Joined> {
    Window(SortDesc(Where(Candidates(db), plan.itunesid)), plan.paging)
  }

  function Project(j: Joined): (row: Row)
    ensures row.adlid == j.creator.adlid && row.podcastindexId == j.creator.podcastindexId
    ensures row.podscanItunesid == j.scan.itunesid && row.creatorItunesid == j.creator.itunesid
  {
    Row(j.creator.adlid, j.creator.podcastindexId, j.creator.itunesid, j.creator.title,
        j.creator.normalizedTone, j.creator.normalizedAudience,
        j.scan.itunesid, j.scan.region, j.scan.email, j.scan.website,
        if j.feed.Some? then j.feed.value.title else None,
        if j.feed.Some? then j.feed.value.url else None,
        if j.feed.Some? then j.feed.value.link else None)
  }

  /** The row is the projection of a joined row that passes the WHERE clause. */
  predicate FromQualifyingRow(db: Database, plan: QueryPlan, row: Row) {
    exists j :: j in Candidates(db) && PassesWhere(j, plan.itunesid) && row == Project(j)
  }

  /**
   * The rows conn.execute(query, params).fetchall() returns: each is the
   * projection of a joined row that passes the WHERE clause; without paging
   * all of those rows come back, with a limit at most that many.
   */
  function Query(db: Database, plan: QueryPlan): (rows: seq<Row>)
    ensures forall i :: 0 <= i < |rows| ==> FromQualifyingRow(db, plan, rows[i])
    ensures plan.paging.None? ==> |rows| == |Where(Candidates(db), plan.itunesid)|
    ensures plan.paging.Some? && plan.paging.value.limit >= 0 ==> |rows| <= plan.paging.value.limit
    ensures |rows| == |Selected(db, plan)|
    ensures forall i :: 0 <= i < |rows| ==> rows[i] == Project(Selected(db, plan)[i])
  {
    var s := Selected(db, plan);
    SelectedRows(db, plan);
    seq(|s|, i requires 0 <= i < |s| => Project(s[i]))
  }

  /** The selected joined rows come from the candidates, pass WHERE, and are counted by the paging clause. */
  lemma SelectedRows(db: Database, plan: QueryPlan)
    ensures forall j :: j in Selected(db, plan) ==> j in Candidates(db) && PassesWhere(j, plan.itunesid)
    ensures plan.paging.None? ==> |Selected(db, plan)| == |Where(Candidates(db), plan.itunesid)|
    ensures plan.paging.Some? && plan.paging.value.limit >= 0 ==> |Selected(db, plan)| <= plan.paging.value.limit
    ensures forall i :: 0 <= i < |Selected(db, plan)| ==> FromQualifyingRow(db, plan, Project(Selected(db, plan)[i]))
    ensures plan.paging.None? ==> multiset(Selected(db, plan)) == multiset(Where(Candidates(db), plan.itunesid))
  {
    var w := Where(Candidates(db), plan.itunesid);
    var sorted := SortDesc(w);
    WindowElements(sorted, plan.paging);
    forall j | j in sorted ensures j in w {
      assert j in multiset(sorted);
    }
    assert |multiset(sorted)| == |multiset(w)|;
    var s := Selected(db, plan);
    forall i | 0 <= i < |s| ensures FromQualifyingRow(db, plan, Project(s[i])) {
      assert s[i] in s;
    }
  }

  lemma WindowElements<T>(s: seq<T>, paging: Option<Paging>)
    ensures forall x :: x in Window(s, paging) ==> x in s
  {
    var r := Window(s, paging);
    if paging.Some? {
      var start := Max0(paging.value.offset);
      assert forall k :: 0 <= k < |r| ==> r[k] == s[start + k];
    }
  }

  lemma WindowKeepsOrder(s: seq<Joined>, paging: Option<Paging>)
    requires SortedDesc(s)
    ensures SortedDesc(Window(s, paging))
  {
    var r := Window(s, paging);
    if paging.Some? {
      var start := Max0(paging.value.offset);
      forall i, j | 0 <= i < j < |r| ensures NotBefore(LastUpdate(r[i]), LastUpdate(r[j])) {
        assert r[i] == s[start + i] && r[j] == s[start + j];
      }
    }
  }

  /** With a positive limit the window is the slice s[offset .. offset + limit], cut at the end of s. */
  lemma WindowIsSlice<T>(s: seq<T>, limit: int, offset: int)
    requires limit > 0
    ensures var start := Max0(offset);
            var r := Window(s, Some(Paging(limit, offset)));
            |r| <= limit
            && (start + limit <= |s| ==> r == s[start..start + limit])
            && (start <= |s| < start + limit ==> r == s[start..])
            && (|s| < start ==> r == [])
  {
  }

  /**
   * What the query guarantees of its result: every row has an identifier,
   * equal to the requested one if any; every row joins a creator of the
   * table with the smallest-id podscan record of its podcastindex_id; rows
   * come in lastUpdate-descending order; and without paging the result is a
   * reordering of all qualifying joined rows.
   */
  lemma SelectedProperties(db: Database, plan: QueryPlan)
    ensures forall j :: j in Selected(db, plan) ==> PassesWhere(j, plan.itunesid)
    ensures forall j :: j in Selected(db, plan) ==>
              j.creator in db.creators && j.scan in db.podscan && KeysJoin(j.creator, j.scan)
              && forall q :: q in db.podscan && q.podcastindexId == j.scan.podcastindexId ==> j.scan.id <= q.id
    ensures SortedDesc(Selected(db, plan))
    ensures plan.paging.None? ==> multiset(Selected(db, plan)) == multiset(Where(Candidates(db), plan.itunesid))
  {
    var w := Where(Candidates(db), plan.itunesid);
    var sorted := SortDesc(w);
    WindowElements(sorted, plan.paging);
    WindowKeepsOrder(sorted, plan.paging);
    forall j | j in sorted ensures j in w {
      assert j in multiset(sorted);
    }
  }
}
