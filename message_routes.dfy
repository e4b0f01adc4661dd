/**
 * The message history endpoints: page arithmetic over a room's messages, the
 * normalisation of populated sender and receiver references, the conversation
 * filter, and the bulk "mark read" update. A query result is an abstract
 * sequence, given in the newest-first order the route's sort produces.
 */
module MessageRoutes {
  import opened Wrappers
  import opened Models

  const DefaultPage: int := 1
  const DefaultLimit: nat := 50
  const FetchFailedText: string := "Failed to fetch messages"
  const ConversationFailedText: string := "Failed to fetch conversation"

  function PageOrDefault(page: Option<int>): int
  {
    if page.Some? then page.value else DefaultPage
  }

  function LimitOrDefault(limit: Option<nat>): nat
  {
    if limit.Some? then limit.value else DefaultLimit
  }

  /** The number of results the page skips: the results of every earlier page. */
  function Skip(page: int, limit: nat): (r: int)
    ensures r >= 0 <==> page >= 1 || limit == 0
  {
    (page - 1) * limit
  }

  /** `Math.ceil(total / limit)` for a positive limit: the fewest pages of `limit` that hold `total`. */
  function CeilDiv(total: nat, limit: nat): (r: nat)
    requires limit > 0
    ensures r == 0 <==> total == 0
    ensures total <= r * limit
    ensures r > 0 ==> (r - 1) * limit < total
    decreases total
  {
    if total == 0 then 0
    else if total <= limit then 1
    else
      var r' := CeilDiv(total - limit, limit);
      assert (r' + 1) * limit == r' * limit + limit;
      r' + 1
  }

  /** `.skip(skip).limit(limit)` on a result list, where a limit of 0 means no limit. */
  function SkipLimit<T>(xs: seq<T>, skip: nat, limit: nat): (r: seq<T>)
    ensures skip >= |xs| ==> r == []
    ensures skip < |xs| && limit > 0 ==> r == xs[skip..if skip + limit <= |xs| then skip + limit else |xs|]
    ensures limit == 0 ==> r == if skip < |xs| then xs[skip..] else []
  {
    var start := if skip <= |xs| then skip else |xs|;
    var rest := xs[start..];
    if limit == 0 || limit >= |rest| then rest else rest[..limit]
  }

  /** The slice of a result list that a page shows; empty for a negative skip, which the database refuses. */
  function PageOf<T>(xs: seq<T>, page: int, limit: nat): (r: seq<T>)
    ensures Skip(page, limit) < 0 ==> r == []
    ensures limit > 0 ==> |r| <= limit
    ensures forall i :: 0 <= i < |r| ==> 0 <= Skip(page, limit) + i < |xs| && r[i] == xs[Skip(page, limit) + i]
  {
    if Skip(page, limit) < 0 then [] else SkipLimit(xs, Skip(page, limit), limit)
  }

  /** Pages 1..k of the list, concatenated in page order. */
  function PagesUpTo<T>(xs: seq<T>, limit: nat, k: nat): seq<T>
  {
    if k == 0 then [] else PagesUpTo(xs, limit, k - 1) + SkipLimit(xs, (k - 1) * limit, limit)
  }

  lemma {:induction false} PagesUpToIsPrefix<T>(xs: seq<T>, limit: nat, k: nat)
    requires limit > 0
    ensures PagesUpTo(xs, limit, k) == xs[..if k * limit <= |xs| then k * limit else |xs|]
  {
    if k > 0 {
      PagesUpToIsPrefix(xs, limit, k - 1);
      var m := (k - 1) * limit;
      assert m + limit == k * limit;
      if m < |xs| {
        var e := if k * limit <= |xs| then k * limit else |xs|;
        assert SkipLimit(xs, m, limit) == xs[m..e];
        assert xs[..m] + xs[m..e] == xs[..e];
      } else {
        assert SkipLimit(xs, m, limit) == [];
      }
    }
  }

  /**
   * Pages 1..totalPages, taken in order, are the list itself: each message of the
   * room is on exactly one page, and the pages keep the newest-first order.
   */
  lemma PagesCoverRoom<T>(xs: seq<T>, limit: nat)
    requires limit > 0
    ensures PagesUpTo(xs, limit, CeilDiv(|xs|, limit)) == xs
  {
    PagesUpToIsPrefix(xs, limit, CeilDiv(|xs|, limit));
  }

  /** The message at position `i` of the list is at position `i % limit` of page `i / limit + 1`. */
  lemma PageOfIndex<T>(xs: seq<T>, limit: nat, i: nat)
    requires limit > 0 && i < |xs|
    ensures var p := i / limit + 1;
            var page := SkipLimit(xs, Skip(p, limit), limit);
            Skip(p, limit) >= 0 && i % limit < |page| && page[i % limit] == xs[i]
  {
    var p := i / limit + 1;
    assert Skip(p, limit) == (i / limit) * limit;
    assert (i / limit) * limit + i % limit == i;
  }

  // ---------------------------------------------------------------------------
  // GET /room/:roomId

  /**
   * A reference after `populate`: the user's id and name, `null` when no user
   * matched, or the bare id of a reference left unpopulated. Both routes populate
   * both references, so `Populate` never yields `RawId`; it is kept because the
   * normalisation handles that branch too.
   */
  datatype Ref = Populated(id: string, username: string) | Unresolved | RawId(id: string)

  /** A message as fetched, with both references populated from `usernames` (user id to name). */
  datatype FetchedMessage = FetchedMessage(doc: MessageDoc, sender: Ref, receiver: Ref)

  /** A message as the room endpoint returns it. */
  datatype ProcessedMessage = ProcessedMessage(
    id: string,
    senderId: string,
    receiverId: string,
    roomId: string,
    body: string,
    status: MessageStatus,
    timestamp: nat,
    senderUsername: Option<string>,
    receiverUsername: Option<string>)

  function PopulateRef(id: string, usernames: map<string, string>): Ref
  {
    if id in usernames then Populated(id, usernames[id]) else Unresolved
  }

  function Populate(doc: MessageDoc, usernames: map<string, string>): FetchedMessage
  {
    FetchedMessage(doc, PopulateRef(doc.senderId, usernames), PopulateRef(doc.receiverId, usernames))
  }

  /** The id string of a reference; reading `_id` of `null` throws. */
  function RefId(r: Ref): Result<string, string>
  {
    match r
    case Populated(id, _) => Ok(id)
    case RawId(id) => Ok(id)
    case Unresolved => Err(FetchFailedText)
  }

  function RefUsername(r: Ref): Option<string>
  {
    if r.Populated? then Some(r.username) else None
  }

  /** Replaces both references by their id strings and adds the usernames; all other fields are kept. */
  /** Both references of each message resolve to the user and their name exactly when that user exists. */
  function PopulateAll(docs: seq<MessageDoc>, usernames: map<string, string>): (r: seq<FetchedMessage>)
    ensures |r| == |docs|
    ensures forall i :: 0 <= i < |docs| ==> r[i].doc == docs[i]
    ensures forall i :: 0 <= i < |docs| ==>
              && (r[i].sender.Populated? <==> docs[i].senderId in usernames)
              && (r[i].receiver.Populated? <==> docs[i].receiverId in usernames)
              && (r[i].sender.Populated? ==> r[i].sender == Populated(docs[i].senderId, usernames[docs[i].senderId]))
              && (r[i].receiver.Populated? ==> r[i].receiver == Populated(docs[i].receiverId, usernames[docs[i].receiverId]))
  {
    seq(|docs|, i requires 0 <= i < |docs| => Populate(docs[i], usernames))
  }

  function Normalise(m: FetchedMessage): (r: Result<ProcessedMessage, string>)
    ensures r.Ok? <==> !m.sender.Unresolved? && !m.receiver.Unresolved?
    ensures r.Ok? ==>
              && r.value.senderId == m.sender.id && r.value.receiverId == m.receiver.id
              && r.value.senderUsername == RefUsername(m.sender) && r.value.receiverUsername == RefUsername(m.receiver)
              && r.value.id == m.doc.id && r.value.roomId == m.doc.roomId && r.value.body == m.doc.body
              && r.value.status == m.doc.status && r.value.timestamp == m.doc.timestamp
  {
    match (RefId(m.sender), RefId(m.receiver))
    case (Ok(s), Ok(v)) =>
      Ok(ProcessedMessage(m.doc.id, s, v, m.doc.roomId, m.doc.body, m.doc.status, m.doc.timestamp,
                          RefUsername(m.sender), RefUsername(m.receiver)))
    case _ => Err(FetchFailedText)
  }

  /** The `processedMessages` map: fails as a whole if any message fails. */
  function NormaliseAll(ms: seq<FetchedMessage>): (r: Result<seq<ProcessedMessage>, string>)
    ensures r.Ok? <==> forall i :: 0 <= i < |ms| ==> Normalise(ms[i]).Ok?
    ensures r.Ok? ==> |r.value| == |ms| && forall i :: 0 <= i < |ms| ==> r.value[i] == Normalise(ms[i]).value
  {
    if ms == [] then Ok([])
    else
      var head := Normalise(ms[0]);
      var tail := NormaliseAll(ms[1..]);
      if head.Err? then Err(FetchFailedText)
      else if tail.Err? then
        assert exists i :: 1 <= i < |ms| && !Normalise(ms[i]).Ok? by {
          var i :| 0 <= i < |ms[1..]| && !Normalise(ms[1..][i]).Ok?;
          assert ms[1..][i] == ms[i + 1];
        }
        Err(FetchFailedText)
      else Ok([head.value] + tail.value)
  }

  /**
   * Populating and then normalising gives back the stored id strings, and the
   * usernames of the referenced users, whenever both users exist.
   */
  lemma NormalisedIdsAreStoredIds(doc: MessageDoc, usernames: map<string, string>)
    requires doc.senderId in usernames && doc.receiverId in usernames
    ensures var r := Normalise(Populate(doc, usernames));
            && r.Ok?
            && r.value.senderId == doc.senderId && r.value.receiverId == doc.receiverId
            && r.value.senderUsername == Some(usernames[doc.senderId])
            && r.value.receiverUsername == Some(usernames[doc.receiverId])
  {
  }

  /** `find({ roomId })`. */
  function InRoom(xs: seq<MessageDoc>, roomId: string): (r: seq<MessageDoc>)
    ensures |r| <= |xs|
    ensures forall i :: 0 <= i < |r| ==> r[i].roomId == roomId
    ensures forall m :: m in xs && m.roomId == roomId ==> m in r
    ensures forall m :: m in r ==> m in xs
  {
    if xs == [] then []
    else (if xs[0].roomId == roomId then [xs[0]] else []) + InRoom(xs[1..], roomId)
  }

  /** The filter keeps the collection's order and multiplicity: filtering a concatenation filters each part. */
  lemma {:induction false} InRoomAppend(xs: seq<MessageDoc>, ys: seq<MessageDoc>, roomId: string)
    ensures InRoom(xs + ys, roomId) == InRoom(xs, roomId) + InRoom(ys, roomId)
  {
    if xs == [] {
      assert xs + ys == ys;
    } else {
      assert (xs + ys)[0] == xs[0];
      assert (xs + ys)[1..] == xs[1..] + ys;
      InRoomAppend(xs[1..], ys, roomId);
    }
  }

  datatype RoomPage = RoomPage(messages: seq<ProcessedMessage>, totalPages: Option<nat>, currentPage: int)

  /**
   * GET /room/:roomId. A negative skip (page below 1) is refused by the database and
   * answered 500, as is a reference to a user that no longer exists; a limit of 0
   * returns every message from the skip on and a total of `null` pages. `fails`
   * says whether the query or the count throws.
   */
  function RoomHistory(collection: seq<MessageDoc>, usernames: map<string, string>, roomId: string,
                       page: Option<int>, limit: Option<nat>, fails: bool): (r: Result<RoomPage, string>)
    ensures fails || Skip(PageOrDefault(page), LimitOrDefault(limit)) < 0 ==> r == Err(FetchFailedText)
    // the answer is the requested page of the room, populated and normalised
    ensures var fetched := PopulateAll(PageOf(InRoom(collection, roomId), PageOrDefault(page), LimitOrDefault(limit)), usernames);
            && (r.Ok? <==> !fails && Skip(PageOrDefault(page), LimitOrDefault(limit)) >= 0 && NormaliseAll(fetched).Ok?)
            && (r.Ok? ==> r.value.messages == NormaliseAll(fetched).value)
    ensures r.Ok? ==> r.value.currentPage == PageOrDefault(page)
    ensures r.Ok? && LimitOrDefault(limit) > 0 ==>
              && r.value.totalPages == Some(CeilDiv(|InRoom(collection, roomId)|, LimitOrDefault(limit)))
              && |r.value.messages| <= LimitOrDefault(limit)
    ensures r.Ok? ==> forall i :: 0 <= i < |r.value.messages| ==> r.value.messages[i].roomId == roomId
  {
    var p := PageOrDefault(page);
    var l := LimitOrDefault(limit);
    var room := InRoom(collection, roomId);
    var skip := Skip(p, l);
    if fails || skip < 0 then Err(FetchFailedText)
    else
      var docs := PageOf(room, p, l);
      var fetched := PopulateAll(docs, usernames);
      match NormaliseAll(fetched)
      case Ok(ms) =>
        assert forall i :: 0 <= i < |ms| ==> ms[i].roomId == roomId by {
          forall i | 0 <= i < |ms| ensures ms[i].roomId == roomId {
            assert docs[i] in room;
          }
        }
        Ok(RoomPage(ms, if l == 0 then None else Some(CeilDiv(|room|, l)), p))
      case Err(e) => Err(e)
  }

  /**
   * Every message of the room is served: with a positive limit, and while every
   * sender and receiver still exists, message `i` of the room (newest first) is at
   * position `i % limit` of the answer for page `i / limit + 1`.
   */
  lemma RoomHistoryServesEveryMessage(collection: seq<MessageDoc>, usernames: map<string, string>, roomId: string,
                                      limit: nat, i: nat)
    requires limit > 0 && i < |InRoom(collection, roomId)|
    requires forall m :: m in collection ==> m.senderId in usernames && m.receiverId in usernames
    ensures var r := RoomHistory(collection, usernames, roomId, Some(i / limit + 1), Some(limit), false);
            && r.Ok? && i % limit < |r.value.messages|
            && r.value.messages[i % limit].id == InRoom(collection, roomId)[i].id
            && r.value.messages[i % limit].body == InRoom(collection, roomId)[i].body
  {
    var room := InRoom(collection, roomId);
    var p := i / limit + 1;
    PageOfIndex(room, limit, i);
    var docs := PageOf(room, p, limit);
    assert forall j :: 0 <= j < |docs| ==> docs[j] in room;
    var fetched := PopulateAll(docs, usernames);
    assert forall j :: 0 <= j < |fetched| ==> Normalise(fetched[j]).Ok?;
  }

  // ---------------------------------------------------------------------------
  // GET /conversation/:userId1/:userId2

  /** The `$or` filter: one user sent and the other received. */
  predicate InConversation(m: MessageDoc, userId1: string, userId2: string)
  {
    (m.senderId == userId1 && m.receiverId == userId2) || (m.senderId == userId2 && m.receiverId == userId1)
  }

  /** The filter matches exactly the messages whose two parties are the two users, whichever way round. */
  lemma InConversationParties(m: MessageDoc, userId1: string, userId2: string)
    ensures InConversation(m, userId1, userId2) <==> {m.senderId, m.receiverId} == {userId1, userId2}
  {
    if {m.senderId, m.receiverId} == {userId1, userId2} {
      assert m.senderId in {userId1, userId2} && m.receiverId in {userId1, userId2};
      assert userId1 in {m.senderId, m.receiverId} && userId2 in {m.senderId, m.receiverId};
    }
  }

  function Conversation(xs: seq<MessageDoc>, userId1: string, userId2: string): (r: seq<MessageDoc>)
    ensures |r| <= |xs|
    ensures forall i :: 0 <= i < |r| ==> InConversation(r[i], userId1, userId2)
    ensures forall m :: m in xs && InConversation(m, userId1, userId2) ==> m in r
    ensures forall m :: m in r ==> m in xs
  {
    if xs == [] then []
    else (if InConversation(xs[0], userId1, userId2) then [xs[0]] else []) + Conversation(xs[1..], userId1, userId2)
  }

  /** The conversation filter keeps the collection's order and multiplicity. */
  lemma {:induction false} ConversationAppend(xs: seq<MessageDoc>, ys: seq<MessageDoc>, userId1: string, userId2: string)
    ensures Conversation(xs + ys, userId1, userId2) == Conversation(xs, userId1, userId2) + Conversation(ys, userId1, userId2)
  {
    if xs == [] {
      assert xs + ys == ys;
    } else {
      assert (xs + ys)[0] == xs[0];
      assert (xs + ys)[1..] == xs[1..] + ys;
      ConversationAppend(xs[1..], ys, userId1, userId2);
    }
  }

  /** Swapping the two users selects the same messages, in the same order. */
  lemma {:induction false} ConversationSymmetric(xs: seq<MessageDoc>, userId1: string, userId2: string)
    ensures Conversation(xs, userId1, userId2) == Conversation(xs, userId2, userId1)
  {
    if xs != [] {
      ConversationSymmetric(xs[1..], userId1, userId2);
    }
  }

  datatype ConversationPage = ConversationPage(messages: seq<FetchedMessage>, totalPages: Option<nat>, currentPage: int)

  /**
   * GET /conversation: the same paging over the conversation, with populated
   * references left as they are. Both path ids are cast to ObjectIds, so one that
   * does not cast fails the query, and one in upper case matches the stored id.
   * `fails` says whether the query or the count throws.
   */
  function ConversationHistory(collection: seq<MessageDoc>, usernames: map<string, string>, userId1: string, userId2: string,
                               page: Option<int>, limit: Option<nat>, fails: bool): (r: Result<ConversationPage, string>)
    ensures r.Err? <==>
              fails || Skip(PageOrDefault(page), LimitOrDefault(limit)) < 0 || !IsObjectIdText(userId1) || !IsObjectIdText(userId2)
    ensures r.Err? ==> r.error == ConversationFailedText
    // the answer is the requested page of the conversation, populated
    ensures r.Ok? ==>
              r.value.messages == PopulateAll(PageOf(Conversation(collection, CanonicalId(userId1), CanonicalId(userId2)),
                                                     PageOrDefault(page), LimitOrDefault(limit)), usernames)
    ensures r.Ok? ==> r.value.currentPage == PageOrDefault(page)
    ensures r.Ok? ==> forall i :: 0 <= i < |r.value.messages| ==>
              InConversation(r.value.messages[i].doc, CanonicalId(userId1), CanonicalId(userId2))
    ensures r.Ok? && LimitOrDefault(limit) > 0 ==>
              && r.value.totalPages == Some(CeilDiv(|Conversation(collection, CanonicalId(userId1), CanonicalId(userId2))|, LimitOrDefault(limit)))
              && |r.value.messages| <= LimitOrDefault(limit)
  {
    var p := PageOrDefault(page);
    var l := LimitOrDefault(limit);
    if fails || !IsObjectIdText(userId1) || !IsObjectIdText(userId2) || Skip(p, l) < 0 then Err(ConversationFailedText)
    else
      var conv := Conversation(collection, CanonicalId(userId1), CanonicalId(userId2));
      var docs := PageOf(conv, p, l);
      assert forall i :: 0 <= i < |docs| ==> docs[i] in conv;
      assert forall i :: 0 <= i < |docs| ==> InConversation(docs[i], CanonicalId(userId1), CanonicalId(userId2));
      var fetched := PopulateAll(docs, usernames);
      assert forall i :: 0 <= i < |fetched| ==> fetched[i].doc == docs[i];
      Ok(ConversationPage(fetched, if l == 0 then None else Some(CeilDiv(|conv|, l)), p))
  }

  /** The two users' order in the path does not change the answer. */
  lemma ConversationHistorySymmetric(collection: seq<MessageDoc>, usernames: map<string, string>, userId1: string, userId2: string,
                                     page: Option<int>, limit: Option<nat>, fails: bool)
    ensures ConversationHistory(collection, usernames, userId1, userId2, page, limit, fails)
            == ConversationHistory(collection, usernames, userId2, userId1, page, limit, fails)
  {
    ConversationSymmetric(collection, CanonicalId(userId1), CanonicalId(userId2));
  }

  // ---------------------------------------------------------------------------
  // PUT /read/:roomId

  /** The `updateMany` filter: in the room, received by the user, and sent or delivered. */
  predicate MarksRead(m: MessageDoc, roomId: string, userId: string)
  {
    m.roomId == roomId && m.receiverId == userId && (m.status == Sent || m.status == Delivered)
  }

  /** One message under the update: only its status can change, and only to read. */
  function MarkOne(m: MessageDoc, roomId: string, userId: string): (r: MessageDoc)
    ensures r.(status := m.status) == m
    ensures r.status == (if MarksRead(m, roomId, userId) then Read else m.status)
  {
    if MarksRead(m, roomId, userId) then m.(status := Read) else m
  }

  /** The bulk update as a map over the collection. */
  function MarkRead(xs: seq<MessageDoc>, roomId: string, userId: string): (r: seq<MessageDoc>)
    ensures |r| == |xs|
    ensures forall i :: 0 <= i < |xs| ==> r[i] == MarkOne(xs[i], roomId, userId)
  {
    if xs == [] then [] else [MarkOne(xs[0], roomId, userId)] + MarkRead(xs[1..], roomId, userId)
  }

  /** Marking twice is marking once. */
  lemma MarkReadIdempotent(xs: seq<MessageDoc>, roomId: string, userId: string)
    ensures MarkRead(MarkRead(xs, roomId, userId), roomId, userId) == MarkRead(xs, roomId, userId)
  {
    var once := MarkRead(xs, roomId, userId);
    var twice := MarkRead(once, roomId, userId);
    assert |twice| == |once|;
    forall i | 0 <= i < |once| ensures twice[i] == once[i] {
    }
  }

  /** No status moves backward; pending messages and messages outside the filter are unchanged. */
  lemma MarkReadNeverLowers(xs: seq<MessageDoc>, roomId: string, userId: string)
    ensures forall i :: 0 <= i < |xs| ==> Rank(MarkRead(xs, roomId, userId)[i].status) >= Rank(xs[i].status)
    ensures forall i :: 0 <= i < |xs| && xs[i].status == Pending ==> MarkRead(xs, roomId, userId)[i] == xs[i]
    ensures forall i :: 0 <= i < |xs| ==> (MarkRead(xs, roomId, userId)[i] != xs[i] <==> MarksRead(xs[i], roomId, userId))
  {
  }

  /**
   * The route: the update in place over the stored messages, or a 500 with nothing
   * changed. The user id is cast to an ObjectId, so one that does not cast fails.
   */
  method MarkRoomRead(a: array<MessageDoc>, roomId: string, userId: string, fails: bool) returns (ok: bool)
    modifies a
    ensures ok == (!fails && IsObjectIdText(userId))
    ensures a[..] == if ok then MarkRead(old(a[..]), roomId, CanonicalId(userId)) else old(a[..])
  {
    if fails || !IsObjectIdText(userId) {
      return false;
    }
    var id := CanonicalId(userId);
    for i := 0 to a.Length
      invariant forall j :: 0 <= j < i ==> a[j] == MarkOne(old(a[j]), roomId, id)
      invariant forall j :: i <= j < a.Length ==> a[j] == old(a[j])
    {
      a[i] := MarkOne(a[i], roomId, id);
    }
    ok := true;
  }
}
