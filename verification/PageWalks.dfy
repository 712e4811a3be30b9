/** Following `nextCursor` from the first page to the last, while messages may be inserted between
    one page and the next. */
module PageWalks {
  import opened Wrappers
  import opened Codecs
  import opened Events
  import opened Ordering
  import opened Cursors
  import opened Listing

  /** Reads the page of a collection that a cursor asks for. */
  type Reader = (Collection, Option<string>) -> Result<Page, CursorError>

  /** The service, for one conversation, limit and order. */
  function Service(c: Codec, conversationId: string, limit: nat, o: SortOrder): Reader {
    (m: Collection, cursor: Option<string>) => Execute(c, m, Query(conversationId, Some(limit), cursor, Some(o)))
  }

  /** Messages are only ever inserted. */
  predicate Grows(m: Collection, n: Collection) {
    forall id :: id in m ==> id in n && n[id] == m[id]
  }

  predicate AllIn(ids: seq<ObjectId>, m: Collection) {
    forall id :: id in ids ==> id in m
  }

  function Last<T>(s: seq<T>): T
    requires s != []
  {
    s[|s| - 1]
  }

  function Init<T>(s: seq<T>): seq<T>
    requires s != []
  {
    s[..|s| - 1]
  }

  /** Each page is read from its collection: the first without a cursor, each other with the cursor
      of the page before it, which has one. Collections only grow from one page to the next. */
  ghost predicate Walk(read: Reader, ms: seq<Collection>, pages: seq<Page>)
    decreases |pages|
  {
    && |ms| == |pages| > 0
    && if |pages| == 1 then read(ms[0], None) == Success(pages[0])
       else && Walk(read, Init(ms), Init(pages))
            && Grows(Last(Init(ms)), Last(ms))
            && Last(Init(pages)).nextCursor.Some?
            && read(Last(ms), Last(Init(pages)).nextCursor) == Success(Last(pages))
  }

  /** The walk has reached its end. */
  predicate Complete(pages: seq<Page>) {
    pages != [] && Last(pages).nextCursor.None?
  }

  function AllIds(pages: seq<Page>): seq<ObjectId> {
    if pages == [] then [] else AllIds(Init(pages)) + Last(pages).ids
  }

  function AllData(pages: seq<Page>): seq<Message> {
    if pages == [] then [] else AllData(Init(pages)) + Last(pages).data
  }

  // ---- What one page is ----

  /** Page `p` has the first matches after `after`: at most `limit`, in order, each rendered. A match
      that is left out comes after the last of them; there is one exactly if `hasMore`, and then
      the page is full and its cursor is its last message's. */
  ghost predicate IsPage(c: Codec, m: Collection, conversationId: string, limit: nat, o: SortOrder,
                         after: Option<PageKey>, p: Page)
  {
    && Ascending(p.ids, ByKey(m, o)) && |p.ids| <= limit
    && AllIn(p.ids, m) && p.data == Render(c, m, p.ids)
    && (forall id :: id in p.ids ==> Matches(m, id, conversationId, o, after))
    && (p.hasMore ==> p.ids != [] && |p.ids| == limit)
    && (p.hasMore ==> p.nextCursor == Some(EncodeMessageCursor(c, ToMessage(c, Last(p.ids), m[Last(p.ids)]), o)))
    && (!p.hasMore ==> p.nextCursor == None)
    && (forall x :: Matches(m, x, conversationId, o, after) ==>
          x in p.ids || (p.hasMore && Before(ByKey(m, o)(Last(p.ids)), ByKey(m, o)(x))))
    && (p.hasMore ==> exists x :: Matches(m, x, conversationId, o, after) && x !in p.ids)
  }

  lemma PageIsPage(c: Codec, m: Collection, conversationId: string, limit: nat, o: SortOrder, after: Option<PageKey>)
    requires limit >= 1
    ensures IsPage(c, m, conversationId, limit, o, after, PageAfter(c, m, conversationId, limit, o, after))
  {
    var p := PageAfter(c, m, conversationId, limit, o, after);
    PageMeans(c, m, conversationId, limit, o, after);
    PageShows(c, m, conversationId, limit, o, after);
    forall x | Matches(m, x, conversationId, o, after) && x !in p.ids
      ensures p.hasMore && Before(ByKey(m, o)(Last(p.ids)), ByKey(m, o)(x))
    {
      assert x in MatchingIds(m, conversationId, o, after);
      if !p.hasMore { LastPageIsAll(c, m, conversationId, limit, o, after, x); }
    }
    if p.hasMore { SomeLeftOut(MatchingIds(m, conversationId, o, after), p.ids); }
  }

  /** What walks need to know of a reader. */
  ghost predicate Reads(read: Reader, c: Codec, conversationId: string, limit: nat, o: SortOrder) {
    && (forall m :: read(m, None).Success? && IsPage(c, m, conversationId, limit, o, None, read(m, None).value))
    && (forall m, id, e ::
          var r := read(m, Some(EncodeMessageCursor(c, ToMessage(c, id, e), o)));
          r.Success? && IsPage(c, m, conversationId, limit, o, Some(PageKey(e.timestamp, id)), r.value))
  }

  /** The service is such a reader: the cursor it hands out leads back to its own filter. */
  lemma ServiceReads(c: Codec, conversationId: string, limit: nat, o: SortOrder)
    requires Lawful(c) && limit >= 1
    ensures Reads(Service(c, conversationId, limit, o), c, conversationId, limit, o)
  {
    var read := Service(c, conversationId, limit, o);
    forall m ensures read(m, None).Success? && IsPage(c, m, conversationId, limit, o, None, read(m, None).value) {
      PageIsPage(c, m, conversationId, limit, o, None);
    }
    forall m, id, e
      ensures var r := read(m, Some(EncodeMessageCursor(c, ToMessage(c, id, e), o)));
        r.Success? && IsPage(c, m, conversationId, limit, o, Some(PageKey(e.timestamp, id)), r.value)
    {
      CursorRoundTrip(c, ToMessage(c, id, e), id, o, o);
      PageIsPage(c, m, conversationId, limit, o, Some(PageKey(e.timestamp, id)));
    }
  }

  // ---- Walks ----

  /** The last page of a walk is the page after the last message of the page before it. */
  lemma {:induction false} WalkPage(read: Reader, c: Codec, conversationId: string, limit: nat, o: SortOrder,
                                    ms: seq<Collection>, pages: seq<Page>)
    returns (after: Option<PageKey>)
    requires Reads(read, c, conversationId, limit, o) && Walk(read, ms, pages)
    ensures IsPage(c, Last(ms), conversationId, limit, o, after, Last(pages))
    ensures |pages| == 1 ==> after == None
    ensures |pages| > 1 ==> var p := Last(Init(pages));
      p.hasMore && p.ids != [] && AllIn(p.ids, Last(Init(ms))) && after == Some(KeyOf(Last(Init(ms)), Last(p.ids)))
    decreases |pages|
  {
    after := None;
    if |pages| > 1 {
      var before := WalkPage(read, c, conversationId, limit, o, Init(ms), Init(pages));
      var m, p := Last(Init(ms)), Last(Init(pages));
      after := Some(KeyOf(m, Last(p.ids)));
      assert after.value == PageKey(m[Last(p.ids)].timestamp, Last(p.ids));
    }
  }

  /** What a walk has collected so far, judged in collection `all`, which has every message the walk
      has seen: it is in order and of the conversation; and each message of `first` is collected, or
      is still to come after the last one collected. */
  ghost predicate Collected(first: Collection, conversationId: string, o: SortOrder, ids: seq<ObjectId>,
                            hasMore: bool, all: Collection)
  {
    && Ascending(ids, ByKey(all, o))
    && AllIn(ids, all) && (forall id :: id in ids ==> all[id].conversationId == conversationId)
    && (hasMore ==> ids != [])
    && forall x :: x in first && first[x].conversationId == conversationId ==>
         x in ids || (hasMore && Before(ByKey(all, o)(Last(ids)), ByKey(all, o)(x)))
  }

  /** The cursor's filter is the order's own "after", in any later collection too. */
  lemma AfterCursor(m: Collection, n: Collection, all: Collection, last: ObjectId, x: ObjectId,
                    conversationId: string, o: SortOrder)
    requires Grows(m, n) && Grows(n, all) && last in m && x in n
    ensures Matches(n, x, conversationId, o, Some(KeyOf(m, last)))
       <==> n[x].conversationId == conversationId && Before(ByKey(all, o)(last), ByKey(all, o)(x))
  {
    assert n[last] == m[last] && all[last] == m[last] && all[x] == n[x];
  }

  lemma AscendingGrows(m: Collection, all: Collection, o: SortOrder, ids: seq<ObjectId>)
    requires Grows(m, all) && AllIn(ids, m) && Ascending(ids, ByKey(m, o))
    ensures Ascending(ids, ByKey(all, o))
  {
    forall i | 0 <= i < |ids| ensures ByKey(m, o)(ids[i]) == ByKey(all, o)(ids[i]) { assert ids[i] in ids; }
  }

  lemma AscendingAppend(s: seq<ObjectId>, t: seq<ObjectId>, rank: Ranking)
    requires Ascending(s, rank) && Ascending(t, rank)
    requires s != [] ==> forall x :: x in t ==> Before(rank(Last(s)), rank(x))
    ensures Ascending(s + t, rank)
  {
    forall i, j | 0 <= i < j < |s + t| ensures Before(rank((s + t)[i]), rank((s + t)[j])) {
      if i < |s| <= j { assert t[j - |s|] in t; }
    }
  }

  lemma FirstPageCollects(c: Codec, m: Collection, conversationId: string, limit: nat, o: SortOrder, p: Page,
                          all: Collection)
    requires IsPage(c, m, conversationId, limit, o, None, p) && Grows(m, all)
    ensures Collected(m, conversationId, o, p.ids, p.hasMore, all)
  {
    AscendingGrows(m, all, o, p.ids);
    forall x | x in m && m[x].conversationId == conversationId && x !in p.ids
      ensures p.hasMore && Before(ByKey(all, o)(Last(p.ids)), ByKey(all, o)(x))
    {
      assert Matches(m, x, conversationId, o, None);
      assert Last(p.ids) in p.ids;
    }
  }

  lemma NextPageCollects(c: Codec, first: Collection, m: Collection, n: Collection, conversationId: string, limit: nat,
                         o: SortOrder, ids: seq<ObjectId>, p: Page, all: Collection)
    requires Grows(first, n) && Grows(m, n) && Grows(n, all)
    requires ids != [] && Last(ids) in m && Collected(first, conversationId, o, ids, true, all)
    requires IsPage(c, n, conversationId, limit, o, Some(KeyOf(m, Last(ids))), p)
    ensures Collected(first, conversationId, o, ids + p.ids, p.hasMore, all)
  {
    var after := Some(KeyOf(m, Last(ids)));
    forall x | x in n
      ensures Matches(n, x, conversationId, o, after)
         <==> n[x].conversationId == conversationId && Before(ByKey(all, o)(Last(ids)), ByKey(all, o)(x))
    {
      AfterCursor(m, n, all, Last(ids), x, conversationId, o);
    }
    AscendingGrows(n, all, o, p.ids);
    AscendingAppend(ids, p.ids, ByKey(all, o));
    forall x | x in first && first[x].conversationId == conversationId && x !in ids + p.ids
      ensures p.hasMore && Before(ByKey(all, o)(Last(ids + p.ids)), ByKey(all, o)(x))
    {
      assert Matches(n, x, conversationId, o, after);
      assert Last(p.ids) in p.ids && Last(ids + p.ids) == Last(p.ids);
    }
  }

  lemma AllIdsEnd(pages: seq<Page>)
    requires pages != [] && Last(pages).ids != []
    ensures AllIds(pages) != [] && Last(AllIds(pages)) == Last(Last(pages).ids)
  {
  }

  lemma {:induction false} WalkCollects(read: Reader, c: Codec, conversationId: string, limit: nat, o: SortOrder,
                                        ms: seq<Collection>, pages: seq<Page>, all: Collection)
    requires Reads(read, c, conversationId, limit, o) && Walk(read, ms, pages)
    requires Grows(Last(ms), all)
    ensures Grows(ms[0], Last(ms))
    ensures Collected(ms[0], conversationId, o, AllIds(pages), Last(pages).hasMore, all)
    decreases |pages|
  {
    var after := WalkPage(read, c, conversationId, limit, o, ms, pages);
    if |pages| == 1 {
      assert AllIds(pages) == Last(pages).ids;
      FirstPageCollects(c, ms[0], conversationId, limit, o, Last(pages), all);
    } else {
      WalkCollects(read, c, conversationId, limit, o, Init(ms), Init(pages), all);
      AllIdsEnd(Init(pages));
      var ids := AllIds(Init(pages));
      assert Last(ids) in Last(Init(pages)).ids;
      NextPageCollects(c, ms[0], Last(Init(ms)), Last(ms), conversationId, limit, o, ids, Last(pages), all);
    }
  }

  lemma RenderGrows(c: Codec, m: Collection, all: Collection, ids: seq<ObjectId>)
    requires AllIn(ids, m) && Grows(m, all)
    ensures AllIn(ids, all) && Render(c, m, ids) == Render(c, all, ids)
  {
    forall i | 0 <= i < |ids| ensures m[ids[i]] == all[ids[i]] { assert ids[i] in ids; }
  }

  lemma RenderAppend(c: Codec, m: Collection, s: seq<ObjectId>, t: seq<ObjectId>)
    requires AllIn(s, m) && AllIn(t, m)
    ensures AllIn(s + t, m) && Render(c, m, s + t) == Render(c, m, s) + Render(c, m, t)
  {
  }

  lemma {:induction false} WalkRenders(read: Reader, c: Codec, conversationId: string, limit: nat, o: SortOrder,
                                       ms: seq<Collection>, pages: seq<Page>, all: Collection)
    requires Reads(read, c, conversationId, limit, o) && Walk(read, ms, pages) && Grows(Last(ms), all)
    ensures AllIn(AllIds(pages), all) && AllData(pages) == Render(c, all, AllIds(pages))
    decreases |pages|
  {
    var after := WalkPage(read, c, conversationId, limit, o, ms, pages);
    RenderGrows(c, Last(ms), all, Last(pages).ids);
    if |pages| == 1 {
      assert Init(pages) == [];
      assert AllIds(pages) == Last(pages).ids;
      assert AllData(pages) == Last(pages).data;
    } else {
      WalkRenders(read, c, conversationId, limit, o, Init(ms), Init(pages), all);
      RenderAppend(c, all, AllIds(Init(pages)), Last(pages).ids);
    }
  }

  lemma WalkEnds(read: Reader, c: Codec, conversationId: string, limit: nat, o: SortOrder, ms: seq<Collection>,
                 pages: seq<Page>)
    requires Reads(read, c, conversationId, limit, o) && Walk(read, ms, pages) && Complete(pages)
    ensures Collected(ms[0], conversationId, o, AllIds(pages), false, Last(ms))
    ensures AllData(pages) == Render(c, Last(ms), AllIds(pages))
  {
    WalkCollects(read, c, conversationId, limit, o, ms, pages, Last(ms));
    WalkRenders(read, c, conversationId, limit, o, ms, pages, Last(ms));
    var after := WalkPage(read, c, conversationId, limit, o, ms, pages);
  }

  /** Following cursors to the end, while messages are inserted between pages in any way, hands out
      messages of the conversation in strict (timestamp, id) order, so none twice, and misses none
      that was there when the walk began. */
  lemma WalkUnderInserts(c: Codec, conversationId: string, limit: nat, o: SortOrder, ms: seq<Collection>,
                         pages: seq<Page>)
    requires Lawful(c) && limit >= 1 && Walk(Service(c, conversationId, limit, o), ms, pages) && Complete(pages)
    ensures var all := Last(ms);
      var ids := AllIds(pages);
      && Ascending(ids, ByKey(all, o))
      && AllIn(ids, all) && (forall id :: id in ids ==> all[id].conversationId == conversationId)
      && (forall x :: x in ms[0] && ms[0][x].conversationId == conversationId ==> x in ids)
      && AllData(pages) == Render(c, all, ids)
  {
    var read := Service(c, conversationId, limit, o);
    ServiceReads(c, conversationId, limit, o);
    WalkEnds(read, c, conversationId, limit, o, ms, pages);
  }

  // ---- With no inserts ----

  function Repeat(m: Collection, n: nat): seq<Collection> {
    seq(n, _ => m)
  }

  /** The whole conversation, in order. */
  function Conversation(m: Collection, conversationId: string, o: SortOrder): seq<ObjectId> {
    Arrange(MatchingIds(m, conversationId, o, None), ByKey(m, o))
  }

  /** If a page says there is more, the next page of the same collection has something. */
  lemma PageFollows(c: Codec, m: Collection, conversationId: string, limit: nat, o: SortOrder, before: Option<PageKey>,
                    p: Page, q: Page)
    requires IsPage(c, m, conversationId, limit, o, before, p) && p.hasMore
    requires IsPage(c, m, conversationId, limit, o, Some(KeyOf(m, Last(p.ids))), q)
    ensures q.ids != [] && |p.ids| == limit
  {
    var x :| Matches(m, x, conversationId, o, before) && x !in p.ids;
    assert Last(p.ids) in p.ids;
    AfterCursor(m, m, m, Last(p.ids), x, conversationId, o);
  }

  /** All pages but the last are full, and the last is empty only if it is the only one. */
  lemma {:induction false} StaticSizes(read: Reader, c: Codec, conversationId: string, limit: nat, o: SortOrder,
                                       m: Collection, ms: seq<Collection>, pages: seq<Page>)
    requires Reads(read, c, conversationId, limit, o) && Walk(read, ms, pages)
    requires forall k :: 0 <= k < |ms| ==> ms[k] == m
    ensures |Last(pages).ids| <= limit && |AllIds(pages)| == limit * (|pages| - 1) + |Last(pages).ids|
    ensures |pages| > 1 ==> Last(pages).ids != []
    decreases |pages|
  {
    var after := WalkPage(read, c, conversationId, limit, o, ms, pages);
    if |pages| > 1 {
      StaticSizes(read, c, conversationId, limit, o, m, Init(ms), Init(pages));
      var before := WalkPage(read, c, conversationId, limit, o, Init(ms), Init(pages));
      PageFollows(c, m, conversationId, limit, o, before, Last(Init(pages)), Last(pages));
      assert limit * (|pages| - 1) == limit * (|Init(pages)| - 1) + limit;
    }
  }

  lemma CollectedIsAll(m: Collection, conversationId: string, o: SortOrder, ids: seq<ObjectId>)
    requires Collected(m, conversationId, o, ids, false, m)
    ensures ids == Conversation(m, conversationId, o)
  {
    ArrangeIs(MatchingIds(m, conversationId, o, None), ByKey(m, o), ids);
  }

  /** With no inserts, a finished walk lists exactly the conversation, sorted; n messages take the
      least number of pages that hold them, and one page if there are none. */
  lemma StaticWalk(c: Codec, conversationId: string, limit: nat, o: SortOrder, m: Collection, pages: seq<Page>)
    requires Lawful(c) && limit >= 1 && pages != []
    requires Walk(Service(c, conversationId, limit, o), Repeat(m, |pages|), pages) && Complete(pages)
    ensures AllIds(pages) == Conversation(m, conversationId, o)
    ensures AllIn(AllIds(pages), m) && AllData(pages) == Render(c, m, AllIds(pages))
    ensures var n := |Conversation(m, conversationId, o)|;
      if n == 0 then |pages| == 1 else limit * (|pages| - 1) < n <= limit * |pages|
  {
    var read := Service(c, conversationId, limit, o);
    ServiceReads(c, conversationId, limit, o);
    WalkEnds(read, c, conversationId, limit, o, Repeat(m, |pages|), pages);
    StaticSizes(read, c, conversationId, limit, o, m, Repeat(m, |pages|), pages);
    CollectedIsAll(m, conversationId, o, AllIds(pages));
    assert limit * |pages| == limit * (|pages| - 1) + limit;
  }

  /** The ascending listing is the descending one read backwards. */
  lemma AscendingIsReversed(m: Collection, conversationId: string)
    ensures Conversation(m, conversationId, Asc) == Reversed(Conversation(m, conversationId, Desc))
  {
    var ids := MatchingIds(m, conversationId, Desc, None);
    assert ids == MatchingIds(m, conversationId, Asc, None);
    ArrangeReversed(ids, ByKey(m, Asc), ByKey(m, Desc));
  }

  // ---- A walk can always be finished ----

  lemma {:induction false} AscendingInto(s: seq<ObjectId>, rank: Ranking, ids: set<ObjectId>)
    requires Ascending(s, rank) && forall x :: x in s ==> x in ids
    ensures |s| <= |ids|
    decreases |s|
  {
    if s != [] {
      forall x | x in s[1..] ensures x in ids - {s[0]} { assert x in s; }
      AscendingInto(s[1..], rank, ids - {s[0]});
    }
  }

  lemma StaticIdsBound(read: Reader, c: Codec, conversationId: string, limit: nat, o: SortOrder, m: Collection,
                       pages: seq<Page>)
    requires Reads(read, c, conversationId, limit, o) && Walk(read, Repeat(m, |pages|), pages)
    ensures |AllIds(pages)| <= |m|
  {
    WalkCollects(read, c, conversationId, limit, o, Repeat(m, |pages|), pages, m);
    assert Collected(m, conversationId, o, AllIds(pages), Last(pages).hasMore, m);
    AscendingInto(AllIds(pages), ByKey(m, o), m.Keys);
  }

  lemma AtLeast(limit: nat, n: nat)
    requires limit >= 1
    ensures limit * n >= n
  {
  }

  /** A walk over an unchanging collection has at most one page for each message, and one more. */
  lemma StaticBound(read: Reader, c: Codec, conversationId: string, limit: nat, o: SortOrder, m: Collection,
                    pages: seq<Page>)
    requires Reads(read, c, conversationId, limit, o) && limit >= 1 && Walk(read, Repeat(m, |pages|), pages)
    ensures |pages| <= |m| + 1
  {
    StaticSizes(read, c, conversationId, limit, o, m, Repeat(m, |pages|), pages);
    StaticIdsBound(read, c, conversationId, limit, o, m, pages);
    AtLeast(limit, |pages| - 1);
  }

  /** A walk that is not complete has a next page. */
  lemma NextPage(read: Reader, c: Codec, conversationId: string, limit: nat, o: SortOrder, m: Collection,
                 pages: seq<Page>)
    returns (q: Page)
    requires Reads(read, c, conversationId, limit, o) && Walk(read, Repeat(m, |pages|), pages) && !Complete(pages)
    ensures Walk(read, Repeat(m, |pages| + 1), pages + [q])
  {
    var ms := Repeat(m, |pages|);
    var after := WalkPage(read, c, conversationId, limit, o, ms, pages);
    q := read(m, Last(pages).nextCursor).value;
    assert Init(pages + [q]) == pages && Init(Repeat(m, |pages| + 1)) == ms;
  }

  lemma {:induction false} Finish(read: Reader, c: Codec, conversationId: string, limit: nat, o: SortOrder,
                                  m: Collection, start: seq<Page>)
    returns (pages: seq<Page>)
    requires Reads(read, c, conversationId, limit, o) && limit >= 1 && Walk(read, Repeat(m, |start|), start)
    ensures pages != [] && Walk(read, Repeat(m, |pages|), pages) && Complete(pages)
    decreases |m| + 1 - |start|
  {
    pages := start;
    if !Complete(start) {
      var q := NextPage(read, c, conversationId, limit, o, m, start);
      StaticBound(read, c, conversationId, limit, o, m, start + [q]);
      pages := Finish(read, c, conversationId, limit, o, m, start + [q]);
    }
  }

  /** With no inserts, every walk comes to its end. */
  lemma StaticWalkFinishes(c: Codec, conversationId: string, limit: nat, o: SortOrder, m: Collection)
    returns (pages: seq<Page>)
    requires Lawful(c) && limit >= 1
    ensures pages != [] && Walk(Service(c, conversationId, limit, o), Repeat(m, |pages|), pages) && Complete(pages)
  {
    var read := Service(c, conversationId, limit, o);
    ServiceReads(c, conversationId, limit, o);
    var p := read(m, None).value;
    assert Walk(read, Repeat(m, 1), [p]);
    pages := Finish(read, c, conversationId, limit, o, m, [p]);
  }
}
