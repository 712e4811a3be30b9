/** Listing a conversation: the repository's filter, sort and limit, and the service's page. */
module Listing {
  import opened Wrappers
  import opened Codecs
  import opened Events
  import opened Ordering
  import opened Cursors

  datatype MessageEntity = MessageEntity(
    conversationId: string, senderId: string, content: string, timestamp: int, metadata: Option<JsonObject>)

  /** The messages collection, keyed by object id. */
  type Collection = map<ObjectId, MessageEntity>

  function ToMessage(c: Codec, id: ObjectId, e: MessageEntity): Message {
    Message(c.formatId(id), e.conversationId, e.senderId, e.content, e.timestamp, e.metadata)
  }

  function KeyOf(m: Collection, id: ObjectId): PageKey
    requires id in m
  {
    PageKey(m[id].timestamp, id)
  }

  /** The sort: by timestamp and then id, both in the direction of the order. */
  function SortRank(k: PageKey, o: SortOrder): Rank {
    var id: int := k.id;
    if o == Desc then Rank(-k.timestamp, -id) else Rank(k.timestamp, id)
  }

  function ByKey(m: Collection, o: SortOrder): Ranking {
    (id: ObjectId) => SortRank(PageKey(if id in m then m[id].timestamp else 0, id), o)
  }

  predicate Beyond(a: int, b: int, o: SortOrder) {
    if o == Desc then a < b else a > b
  }

  /** The filter: the conversation, and strictly after the cursor if there is one. */
  predicate Matches(m: Collection, id: ObjectId, conversationId: string, o: SortOrder, after: Option<PageKey>) {
    id in m && m[id].conversationId == conversationId
    && (after.Some? ==>
          || Beyond(m[id].timestamp, after.value.timestamp, o)
          || (m[id].timestamp == after.value.timestamp && Beyond(id, after.value.id, o)))
  }

  function MatchingIds(m: Collection, conversationId: string, o: SortOrder, after: Option<PageKey>): set<ObjectId> {
    set id | id in m && Matches(m, id, conversationId, o, after)
  }

  /** The ids of the documents a query finds, in order. */
  function ListByConversation(m: Collection, conversationId: string, limit: nat, o: SortOrder, after: Option<PageKey>)
    : seq<ObjectId>
  {
    Take(Arrange(MatchingIds(m, conversationId, o, after), ByKey(m, o)), limit)
  }

  datatype Query = Query(
    conversationId: string, limit: Option<nat>, cursor: Option<string>, sortOrder: Option<SortOrder>)

  /** A page. `ids` are the object ids of `data`. */
  datatype Page = Page(ids: seq<ObjectId>, data: seq<Message>, limit: nat, nextCursor: Option<string>,
                       hasMore: bool, sortOrder: SortOrder)

  function Render(c: Codec, m: Collection, ids: seq<ObjectId>): seq<Message>
    requires forall id :: id in ids ==> id in m
  {
    seq(|ids|, i requires 0 <= i < |ids| => ToMessage(c, ids[i], m[ids[i]]))
  }

  function GetNextCursor(c: Codec, page: seq<Message>, o: SortOrder, hasMore: bool): Option<string> {
    if !hasMore || page == [] then None
    else Some(EncodeMessageCursor(c, page[|page| - 1], o))
  }

  lemma ListFinds(m: Collection, conversationId: string, limit: nat, o: SortOrder, after: Option<PageKey>)
    ensures var ids := ListByConversation(m, conversationId, limit, o, after);
      var all := MatchingIds(m, conversationId, o, after);
      && |ids| == (if limit <= |all| then limit else |all|)
      && Ascending(ids, ByKey(m, o))
      && (forall id :: id in ids ==> id in all)
      && (forall i, x :: 0 <= i < |ids| && x in all && x !in ids ==> Before(ByKey(m, o)(ids[i]), ByKey(m, o)(x)))
  {
    var all := MatchingIds(m, conversationId, o, after);
    var s := Arrange(all, ByKey(m, o));
    ArrangeSorts(all, ByKey(m, o));
    var ids := ListByConversation(m, conversationId, limit, o, after);
    forall i, x | 0 <= i < |ids| && x in all && x !in ids ensures Before(ByKey(m, o)(ids[i]), ByKey(m, o)(x)) {
      assert x in s;
      var j :| 0 <= j < |s| && s[j] == x;
      assert s[i] == ids[i] && j >= |ids|;
    }
  }

  function PageAfter(c: Codec, m: Collection, conversationId: string, limit: nat, o: SortOrder, after: Option<PageKey>)
    : Page
  {
    var found := ListByConversation(m, conversationId, limit + 1, o, after);
    ListFinds(m, conversationId, limit + 1, o, after);
    var ids := Take(found, limit);
    assert forall id :: id in ids ==> id in found;
    var data := Render(c, m, ids);
    var hasMore := |found| > limit;
    Page(ids, data, limit, GetNextCursor(c, data, o, hasMore), hasMore, o)
  }

  /** The service: ask for one more than the limit, to know whether there is more. An empty cursor
      counts as none. */
  function Execute(c: Codec, m: Collection, q: Query): Result<Page, CursorError> {
    var limit := if q.limit.Some? then q.limit.value else 20;
    var o := if q.sortOrder.Some? then q.sortOrder.value else Desc;
    if q.cursor.Some? && q.cursor.value != "" then
      match DecodeMessageCursor(c, q.cursor.value, o)
      case Failure(e) => Failure(e)
      case Success(after) => Success(PageAfter(c, m, q.conversationId, limit, o, Some(after)))
    else Success(PageAfter(c, m, q.conversationId, limit, o, None))
  }

  lemma TakeTake<T>(s: seq<T>, n: nat)
    ensures Take(Take(s, n + 1), n) == Take(s, n)
    ensures |Take(s, n + 1)| > n <==> |s| > n
  {
  }

  /** What is on a page: the first `limit` of what matches, in order; everything left out comes after
      everything on it; and `hasMore` says exactly that something is left out. */
  lemma PageMeans(c: Codec, m: Collection, conversationId: string, limit: nat, o: SortOrder, after: Option<PageKey>)
    ensures var p := PageAfter(c, m, conversationId, limit, o, after);
      var all := MatchingIds(m, conversationId, o, after);
      && p.ids == Take(Arrange(all, ByKey(m, o)), limit)
      && |p.ids| == (if limit <= |all| then limit else |all|)
      && Ascending(p.ids, ByKey(m, o))
      && (forall id :: id in p.ids ==> id in all)
      && (forall i, x :: 0 <= i < |p.ids| && x in all && x !in p.ids ==> Before(ByKey(m, o)(p.ids[i]), ByKey(m, o)(x)))
      && (p.hasMore <==> |all| > limit)
  {
    var all := MatchingIds(m, conversationId, o, after);
    ArrangeSorts(all, ByKey(m, o));
    TakeTake(Arrange(all, ByKey(m, o)), limit);
    ListFinds(m, conversationId, limit, o, after);
  }

  /** If nothing is left out, all that matches is on the page. */
  lemma LastPageIsAll(c: Codec, m: Collection, conversationId: string, limit: nat, o: SortOrder,
                      after: Option<PageKey>, x: ObjectId)
    requires !PageAfter(c, m, conversationId, limit, o, after).hasMore
    requires x in MatchingIds(m, conversationId, o, after)
    ensures x in PageAfter(c, m, conversationId, limit, o, after).ids
  {
    PageMeans(c, m, conversationId, limit, o, after);
    ArrangeSorts(MatchingIds(m, conversationId, o, after), ByKey(m, o));
  }

  /** The messages of a page are those of its ids; and there is a cursor exactly when there is more:
      the last message's. */
  lemma PageShows(c: Codec, m: Collection, conversationId: string, limit: nat, o: SortOrder, after: Option<PageKey>)
    requires limit >= 1
    ensures var p := PageAfter(c, m, conversationId, limit, o, after);
      && |p.data| == |p.ids|
      && (forall k :: 0 <= k < |p.ids| ==> p.ids[k] in m && p.data[k] == ToMessage(c, p.ids[k], m[p.ids[k]]))
      && (p.hasMore ==> |p.ids| == limit)
      && p.nextCursor == (if p.hasMore then Some(EncodeMessageCursor(c, p.data[limit - 1], o)) else None)
  {
    PageMeans(c, m, conversationId, limit, o, after);
    var p := PageAfter(c, m, conversationId, limit, o, after);
    assert forall k :: 0 <= k < |p.ids| ==> p.ids[k] in p.ids;
  }

  // ---- What a request is answered with ----

  /** In a listing, `a` comes before `b`: descending, newer messages and greater ids first; ascending, the
      other way round. */
  predicate ComesBefore(a: PageKey, b: PageKey, o: SortOrder) {
    match o
    case Desc => b.timestamp < a.timestamp || (b.timestamp == a.timestamp && b.id < a.id)
    case Asc => a.timestamp < b.timestamp || (a.timestamp == b.timestamp && a.id < b.id)
  }

  /** Message `id` is of the conversation, and after `after` in the listing. */
  predicate IsAfter(m: Collection, id: ObjectId, conversationId: string, o: SortOrder, after: Option<PageKey>) {
    && id in m && m[id].conversationId == conversationId
    && (after.Some? ==> ComesBefore(after.value, PageKey(m[id].timestamp, id), o))
  }

  predicate InOrder(m: Collection, a: ObjectId, b: ObjectId, o: SortOrder) {
    a in m && b in m && ComesBefore(PageKey(m[a].timestamp, a), PageKey(m[b].timestamp, b), o)
  }

  /** The ids list what is after `after`, in order, up to the limit; what they leave out comes later; and
      `hasMore` says whether they leave anything out. */
  ghost predicate Lists(m: Collection, conversationId: string, limit: nat, o: SortOrder, after: Option<PageKey>,
                        ids: seq<ObjectId>, hasMore: bool)
  {
    && |ids| <= limit
    && (forall id :: id in ids ==> IsAfter(m, id, conversationId, o, after))
    && (forall i, j :: 0 <= i < j < |ids| ==> InOrder(m, ids[i], ids[j], o))
    && (forall x :: IsAfter(m, x, conversationId, o, after) && x !in ids ==> |ids| == limit && hasMore)
    && (forall id, x :: id in ids && IsAfter(m, x, conversationId, o, after) && x !in ids ==> InOrder(m, id, x, o))
    && (hasMore ==> exists x :: IsAfter(m, x, conversationId, o, after) && x !in ids)
  }

  /** Page `p` shows its messages as they are stored, and has its last one's cursor if there are more. */
  predicate Shows(c: Codec, m: Collection, limit: nat, o: SortOrder, p: Page) {
    && p.limit == limit && p.sortOrder == o && |p.data| == |p.ids|
    && (forall k :: 0 <= k < |p.ids| ==>
          && p.ids[k] in m
          && var e := m[p.ids[k]];
             p.data[k]
              == Message(c.formatId(p.ids[k]), e.conversationId, e.senderId, e.content, e.timestamp, e.metadata))
    && p.nextCursor == if p.hasMore && p.data != [] then Some(EncodeMessageCursor(c, p.data[|p.data| - 1], o)) else None
  }

  lemma MatchesMeans(m: Collection, conversationId: string, o: SortOrder, after: Option<PageKey>, x: ObjectId)
    ensures x in MatchingIds(m, conversationId, o, after) <==> IsAfter(m, x, conversationId, o, after)
  {
  }

  lemma RankMeans(m: Collection, o: SortOrder, x: ObjectId, y: ObjectId)
    requires x in m && y in m
    ensures Before(ByKey(m, o)(x), ByKey(m, o)(y)) <==> InOrder(m, x, y, o)
  {
  }

  /** A listing by filter and rank is one by the order they mean. */
  lemma RanksMeanOrder(m: Collection, conversationId: string, limit: nat, o: SortOrder, after: Option<PageKey>,
                       ids: seq<ObjectId>, hasMore: bool)
    requires var all := MatchingIds(m, conversationId, o, after);
      && |ids| <= limit && Ascending(ids, ByKey(m, o)) && (forall id :: id in ids ==> id in all)
      && (forall x :: x in all && x !in ids ==> |ids| == limit && hasMore)
      && (forall id, x :: id in ids && x in all && x !in ids ==> Before(ByKey(m, o)(id), ByKey(m, o)(x)))
      && (hasMore ==> exists x :: x in all && x !in ids)
    ensures Lists(m, conversationId, limit, o, after, ids, hasMore)
  {
    forall x
      ensures x in MatchingIds(m, conversationId, o, after) <==> IsAfter(m, x, conversationId, o, after)
    {
      MatchesMeans(m, conversationId, o, after, x);
    }
    forall i, j | 0 <= i < j < |ids| ensures InOrder(m, ids[i], ids[j], o) {
      assert ids[i] in ids && ids[j] in ids;
      RankMeans(m, o, ids[i], ids[j]);
    }
    forall id, x | id in ids && IsAfter(m, x, conversationId, o, after) && x !in ids ensures InOrder(m, id, x, o) {
      RankMeans(m, o, id, x);
    }
    if hasMore {
      var x :| x in MatchingIds(m, conversationId, o, after) && x !in ids;
      assert IsAfter(m, x, conversationId, o, after);
    }
  }

  lemma PageLists(c: Codec, m: Collection, conversationId: string, limit: nat, o: SortOrder, after: Option<PageKey>)
    ensures var p := PageAfter(c, m, conversationId, limit, o, after);
      Lists(m, conversationId, limit, o, after, p.ids, p.hasMore)
  {
    var p := PageAfter(c, m, conversationId, limit, o, after);
    var all := MatchingIds(m, conversationId, o, after);
    PageMeans(c, m, conversationId, limit, o, after);
    TakeMeans(all, ByKey(m, o), limit);
    forall x | x in all && x !in p.ids ensures p.hasMore {
      if !p.hasMore { LastPageIsAll(c, m, conversationId, limit, o, after, x); }
    }
    if p.hasMore { SomeLeftOut(all, p.ids); }
    RanksMeanOrder(m, conversationId, limit, o, after, p.ids, p.hasMore);
  }

  lemma PageIsShown(c: Codec, m: Collection, conversationId: string, limit: nat, o: SortOrder, after: Option<PageKey>)
    ensures Shows(c, m, limit, o, PageAfter(c, m, conversationId, limit, o, after))
  {
    var p := PageAfter(c, m, conversationId, limit, o, after);
    PageMeans(c, m, conversationId, limit, o, after);
    assert forall k :: 0 <= k < |p.ids| ==> p.ids[k] in p.ids;
  }

  ghost predicate Answers(c: Codec, m: Collection, conversationId: string, limit: nat, o: SortOrder,
                          after: Option<PageKey>, r: Result<Page, CursorError>)
  {
    && r.Success? && Shows(c, m, limit, o, r.value)
    && Lists(m, conversationId, limit, o, after, r.value.ids, r.value.hasMore)
  }

  lemma PageAnswers(c: Codec, m: Collection, conversationId: string, limit: nat, o: SortOrder, after: Option<PageKey>)
    ensures Answers(c, m, conversationId, limit, o, after,
                    Success(PageAfter(c, m, conversationId, limit, o, after)))
  {
    PageLists(c, m, conversationId, limit, o, after);
    PageIsShown(c, m, conversationId, limit, o, after);
  }

  /** How any request is answered. Without a limit it is 20, without an order newest first; no cursor, or an
      empty one, starts at the beginning; a cursor that decodes under the order starts after its key, and
      one that does not is refused with the reason. */
  lemma ExecuteMeans(c: Codec, m: Collection, q: Query)
    ensures var limit := if q.limit == None then 20 else q.limit.value;
      var o := if q.sortOrder == Some(Asc) then Asc else Desc;
      if q.cursor == None || q.cursor == Some("") then
        Answers(c, m, q.conversationId, limit, o, None, Execute(c, m, q))
      else
        match DecodeMessageCursor(c, q.cursor.value, o)
        case Failure(e) => Execute(c, m, q) == Failure(e)
        case Success(key) => Answers(c, m, q.conversationId, limit, o, Some(key), Execute(c, m, q))
  {
    var limit := if q.limit == None then 20 else q.limit.value;
    var o := if q.sortOrder == Some(Asc) then Asc else Desc;
    if q.cursor == None || q.cursor == Some("") {
      PageAnswers(c, m, q.conversationId, limit, o, None);
    } else if DecodeMessageCursor(c, q.cursor.value, o).Success? {
      PageAnswers(c, m, q.conversationId, limit, o, Some(DecodeMessageCursor(c, q.cursor.value, o).value));
    }
  }

  /** The messages collection as the repository holds it. */
  class MongoMessageRepository {
    const codec: Codec
    var messages: Collection

    constructor (codec: Codec)
      ensures this.codec == codec && messages == map[]
    {
      this.codec := codec;
      messages := map[];
    }

    /** Insert a message under the fresh id the database gives it. */
    method Create(id: ObjectId, input: MessageEntity) returns (message: Message)
      requires id !in messages
      modifies this
      ensures messages == old(messages)[id := input]
      ensures message == ToMessage(codec, id, input)
    {
      messages := messages[id := input];
      message := ToMessage(codec, id, input);
    }
  }
}
