/**
 * The chat page's client state: the user list without oneself, the selected
 * user, the shown messages and the paging cursor, and the handlers that change
 * them — user refresh, selection, history loading, sending with an optimistic
 * placeholder, and reconciling incoming `new_message` events.
 */
module ChatPage {
  import opened Wrappers
  import opened Models
  import opened Events
  import SocketClient
  import MessageRoutes

  // ---------------------------------------------------------------------------
  // Room ids

  /**
   * JavaScript's `<` on strings, as lexicographic order on characters. JavaScript
   * compares UTF-16 code units; the two orders differ only between a character
   * above U+FFFF and one in U+E000..U+FFFF.
   */
  predicate Less(a: string, b: string)
    ensures Less(a, b) ==> a != b
    // a proper prefix comes first
    ensures |a| < |b| && a == b[..|a|] ==> Less(a, b)
  {
    if b == [] then false
    else if a == [] then true
    else if a[0] != b[0] then a[0] < b[0]
    else Less(a[1..], b[1..])
  }

  lemma {:induction false} LessTotal(a: string, b: string)
    ensures a == b || Less(a, b) || Less(b, a)
  {
    if a != [] && b != [] && a[0] == b[0] {
      assert a == [a[0]] + a[1..] && b == [b[0]] + b[1..];
      LessTotal(a[1..], b[1..]);
    }
  }

  lemma {:induction false} LessAsymmetric(a: string, b: string)
    ensures !(Less(a, b) && Less(b, a))
  {
    if a != [] && b != [] && a[0] == b[0] {
      LessAsymmetric(a[1..], b[1..]);
    }
  }

  /** `[a, b].sort().join('-')`: the default sort puts `b` first exactly when `b < a`. */
  function RoomId(a: string, b: string): (r: string)
    ensures r == a + "-" + b || r == b + "-" + a
    ensures |r| == |a| + |b| + 1
  {
    if Less(b, a) then b + "-" + a else a + "-" + b
  }

  /** Both participants compute the same room id, and it names the smaller id first. */
  lemma RoomIdSymmetric(a: string, b: string)
    ensures RoomId(a, b) == RoomId(b, a)
    ensures RoomId(a, b) == a + "-" + b <== !Less(b, a)
  {
    LessTotal(a, b);
    LessAsymmetric(a, b);
  }

  // ---------------------------------------------------------------------------
  // Users

  /** `allUsers.filter(u => u._id !== user._id)`. */
  function OthersThan(users: seq<UserView>, me: string): (r: seq<UserView>)
    ensures forall i :: 0 <= i < |r| ==> r[i].id != me
    ensures forall u :: u in users && u.id != me ==> u in r
    ensures forall u :: u in r ==> u in users
  {
    if users == [] then []
    else (if users[0].id != me then [users[0]] else []) + OthersThan(users[1..], me)
  }

  /** The filter keeps the list's order: filtering a concatenation filters each part. */
  lemma {:induction false} OthersThanAppend(xs: seq<UserView>, ys: seq<UserView>, me: string)
    ensures OthersThan(xs + ys, me) == OthersThan(xs, me) + OthersThan(ys, me)
  {
    if xs == [] {
      assert xs + ys == ys;
    } else {
      assert (xs + ys)[0] == xs[0];
      assert (xs + ys)[1..] == xs[1..] + ys;
      OthersThanAppend(xs[1..], ys, me);
    }
  }

  // ---------------------------------------------------------------------------
  // Shown messages

  /** A placeholder shows 'sending'; a stored message shows its stored status. */
  datatype DisplayStatus = Sending | Stored(status: MessageStatus)

  datatype ChatMessage = ChatMessage(
    id: string,
    body: string,
    senderId: string,
    receiverId: string,
    roomId: string,
    timestamp: nat,
    status: DisplayStatus)

  function FromDoc(doc: MessageDoc): ChatMessage
  {
    ChatMessage(doc.id, doc.body, doc.senderId, doc.receiverId, doc.roomId, doc.timestamp, Stored(doc.status))
  }

  function FromProcessed(p: MessageRoutes.ProcessedMessage): ChatMessage
  {
    ChatMessage(p.id, p.body, p.senderId, p.receiverId, p.roomId, p.timestamp, Stored(p.status))
  }

  function TempKey(id: string): string
  {
    "temp_" + id
  }

  lemma TempKeyInjective(a: string, b: string)
    ensures TempKey(a) == TempKey(b) ==> a == b
  {
    if TempKey(a) == TempKey(b) {
      assert a == TempKey(a)[5..] && b == TempKey(b)[5..];
    }
  }

  /**
   * The optimistic message `handleSendMessage` shows before the server answers: it
   * shows 'sending', its key starts with `temp_`, and its room is the one the
   * receiver computes too.
   */
  function Placeholder(me: string, to: string, body: string, tempId: string, now: nat): (r: ChatMessage)
    ensures r.status == Sending && r.body == body && r.senderId == me && r.receiverId == to
    ensures |r.id| >= 5 && r.id[..5] == "temp_" && r.id[5..] == tempId
    ensures r.roomId == RoomId(to, me)
  {
    RoomIdSymmetric(me, to);
    ChatMessage(TempKey(tempId), body, me, to, RoomId(me, to), now, Sending)
  }

  /** An element already standing for the incoming message: the same id, or the placeholder named `tempKey` with the same text. */
  predicate StandsFor(m: ChatMessage, id: string, tempKey: Option<string>, body: string)
  {
    m.id == id || (tempKey.Some? && m.id == tempKey.value && m.body == body)
  }

  /** `prev.some(...)`. */
  predicate AnyStandsFor(prev: seq<ChatMessage>, id: string, tempKey: Option<string>, body: string)
    ensures AnyStandsFor(prev, id, tempKey, body) <==> exists i :: 0 <= i < |prev| && StandsFor(prev[i], id, tempKey, body)
  {
    if prev == [] then false
    else
      assert forall i :: 1 <= i < |prev| ==> prev[i] == prev[1..][i - 1];
      StandsFor(prev[0], id, tempKey, body) || AnyStandsFor(prev[1..], id, tempKey, body)
  }

  /** `prev.map(...)`: every element whose id is `key` becomes `by`. */
  function ReplaceWhere(prev: seq<ChatMessage>, key: Option<string>, replacement: ChatMessage): (r: seq<ChatMessage>)
    ensures |r| == |prev|
    ensures forall i :: 0 <= i < |prev| ==> r[i] == if key.Some? && prev[i].id == key.value then replacement else prev[i]
  {
    if prev == [] then []
    else [if key.Some? && prev[0].id == key.value then replacement else prev[0]] + ReplaceWhere(prev[1..], key, replacement)
  }

  /**
   * Reconciliation around a placeholder key: when nothing stands for the message it
   * is appended; otherwise the list keeps its length and exactly the elements keyed
   * `tempKey` become the message.
   */
  function ReconcileOn(prev: seq<ChatMessage>, incoming: ChatMessage, tempKey: Option<string>): (r: seq<ChatMessage>)
    ensures !AnyStandsFor(prev, incoming.id, tempKey, incoming.body) ==> r == prev + [incoming]
    ensures AnyStandsFor(prev, incoming.id, tempKey, incoming.body) ==>
              && |r| == |prev|
              && forall i :: 0 <= i < |prev| ==>
                   r[i] == if tempKey.Some? && prev[i].id == tempKey.value then incoming else prev[i]
  {
    if AnyStandsFor(prev, incoming.id, tempKey, incoming.body) then ReplaceWhere(prev, tempKey, incoming)
    else prev + [incoming]
  }

  /**
   * `handleNewMessage` as written: the placeholder looked for is `'temp_' + message._id`,
   * built from the server's id of the incoming message.
   */
  function Reconcile(prev: seq<ChatMessage>, incoming: ChatMessage): (r: seq<ChatMessage>)
    ensures !AnyStandsFor(prev, incoming.id, Some(TempKey(incoming.id)), incoming.body) ==> r == prev + [incoming]
    ensures AnyStandsFor(prev, incoming.id, Some(TempKey(incoming.id)), incoming.body) ==>
              && |r| == |prev|
              && forall i :: 0 <= i < |prev| ==> r[i] == if prev[i].id == TempKey(incoming.id) then incoming else prev[i]
  {
    ReconcileOn(prev, incoming, Some(TempKey(incoming.id)))
  }

  /**
   * A message never seen before is appended; a message shown already never adds an
   * element, and the copy already shown stays as it was: a redelivery with a newer
   * status does not update it.
   */
  lemma ReconcileAppendsOnlyNew(prev: seq<ChatMessage>, incoming: ChatMessage)
    ensures (forall i :: 0 <= i < |prev| ==> prev[i].id != incoming.id && prev[i].id != TempKey(incoming.id))
            ==> Reconcile(prev, incoming) == prev + [incoming]
    ensures (exists i :: 0 <= i < |prev| && prev[i].id == incoming.id) ==>
              && |Reconcile(prev, incoming)| == |prev|
              && forall i :: 0 <= i < |prev| && prev[i].id == incoming.id ==> Reconcile(prev, incoming)[i] == prev[i]
  {
    if exists i :: 0 <= i < |prev| && prev[i].id == incoming.id {
      assert |TempKey(incoming.id)| != |incoming.id|;
    }
  }

  /**
   * The echo of one's own message carries the server's new id, never the
   * placeholder's: so the placeholder is neither matched nor replaced, and the
   * list shows the message twice, once still 'sending'.
   */
  lemma EchoKeepsPlaceholder(prev: seq<ChatMessage>, me: string, to: string, body: string, tempId: string, now: nat, doc: MessageDoc)
    requires doc.body == body && doc.id != tempId && doc.id != TempKey(tempId)
    requires forall i :: 0 <= i < |prev| ==> !StandsFor(prev[i], doc.id, Some(TempKey(doc.id)), doc.body)
    ensures var ph := Placeholder(me, to, body, tempId, now);
            Reconcile(prev + [ph], FromDoc(doc)) == prev + [ph, FromDoc(doc)]
  {
    var ph := Placeholder(me, to, body, tempId, now);
    var xs := prev + [ph];
    TempKeyInjective(tempId, doc.id);
    assert forall i :: 0 <= i < |xs| ==> !StandsFor(xs[i], doc.id, Some(TempKey(doc.id)), doc.body) by {
      forall i | 0 <= i < |xs| ensures !StandsFor(xs[i], doc.id, Some(TempKey(doc.id)), doc.body) {
        if i < |prev| { assert xs[i] == prev[i]; } else { assert xs[i] == ph; }
      }
    }
  }

  /** The intended reconciliation: the placeholder is found by the `tempId` the server echoes back. */
  function ReconcileByToken(prev: seq<ChatMessage>, doc: MessageDoc, tempId: Option<string>): (r: seq<ChatMessage>)
    ensures var key := if tempId.Some? then Some(TempKey(tempId.value)) else None;
            && (!AnyStandsFor(prev, doc.id, key, doc.body) ==> r == prev + [FromDoc(doc)])
            && (AnyStandsFor(prev, doc.id, key, doc.body) ==>
                  && |r| == |prev|
                  && forall i :: 0 <= i < |prev| ==>
                       r[i] == if tempId.Some? && prev[i].id == TempKey(tempId.value) then FromDoc(doc) else prev[i])
  {
    ReconcileOn(prev, FromDoc(doc), if tempId.Some? then Some(TempKey(tempId.value)) else None)
  }

  /** With the token, the echo takes the placeholder's place: the message is shown once, as stored. */
  lemma EchoReplacesPlaceholder(prev: seq<ChatMessage>, me: string, to: string, body: string, tempId: string, now: nat, doc: MessageDoc)
    requires doc.body == body
    requires forall i :: 0 <= i < |prev| ==> prev[i].id != doc.id && prev[i].id != TempKey(tempId)
    ensures ReconcileByToken(prev + [Placeholder(me, to, body, tempId, now)], doc, Some(tempId)) == prev + [FromDoc(doc)]
  {
    var ph := Placeholder(me, to, body, tempId, now);
    var xs := prev + [ph];
    assert StandsFor(xs[|prev|], doc.id, Some(TempKey(tempId)), doc.body);
    var r := ReconcileByToken(xs, doc, Some(tempId));
    assert |r| == |prev| + 1;
    forall i | 0 <= i < |r| ensures r[i] == (prev + [FromDoc(doc)])[i] {
      if i < |prev| { assert xs[i] == prev[i]; }
    }
  }

  /** Redelivery of a stored message still never adds an element. */
  lemma ReconcileByTokenNeverDuplicates(prev: seq<ChatMessage>, doc: MessageDoc, tempId: Option<string>)
    requires exists i :: 0 <= i < |prev| && prev[i].id == doc.id
    ensures |ReconcileByToken(prev, doc, tempId)| == |prev|
  {
  }

  /** `response.messages.reverse()`. */
  function Reverse<T>(s: seq<T>): (r: seq<T>)
    ensures |r| == |s|
    ensures forall i :: 0 <= i < |s| ==> r[i] == s[|s| - 1 - i]
  {
    if s == [] then [] else Reverse(s[1..]) + [s[0]]
  }

  // ---------------------------------------------------------------------------
  // History paging

  /** A page as the client reads it: `totalPages` is `null` when the server was asked for no limit. */
  datatype ClientPage = ClientPage(messages: seq<ChatMessage>, totalPages: Option<nat>)

  /** The room route's answer as the client reads it. */
  function ClientView(p: MessageRoutes.RoomPage): ClientPage
  {
    ClientPage(seq(|p.messages|, i requires 0 <= i < |p.messages| => FromProcessed(p.messages[i])), p.totalPages)
  }

  /** The shown messages and the paging state. */
  datatype Cursor = Cursor(messages: seq<ChatMessage>, page: nat, hasMore: bool)

  /** The state a selection resets to. */
  const Fresh: Cursor := Cursor([], 1, true)

  /** The page `loadMessages` requests with this cursor: the cursor's page, while a user is selected and more is left. */
  function Request(c: Cursor, selected: bool): (r: Option<nat>)
    ensures r.Some? <==> selected && c.hasMore
    ensures r.Some? ==> r.value == c.page
  {
    if selected && c.hasMore then Some(c.page) else None
  }

  /**
   * Applies the answer to a request for page `requested`: the page is appended
   * oldest first, paging continues while `requested < totalPages` (a `null` total
   * compares as 0), and the cursor moves one page on. A failed request changes nothing.
   */
  function Apply(c: Cursor, requested: nat, response: Option<ClientPage>): (r: Cursor)
    ensures response.None? ==> r == c
    ensures response.Some? ==>
              && |r.messages| == |c.messages| + |response.value.messages|
              && r.messages[..|c.messages|] == c.messages
              && r.messages[|c.messages|..] == Reverse(response.value.messages)
              && r.page == c.page + 1
              && (r.hasMore <==> response.value.totalPages.Some? && requested < response.value.totalPages.value)
  {
    if response.None? then c
    else
      var total := response.value.totalPages;
      Cursor(c.messages + Reverse(response.value.messages), c.page + 1, total.Some? && requested < total.value)
  }

  /** Loads successive pages, each request made with the cursor the previous answer left. */
  function LoadPages(c: Cursor, responses: seq<ClientPage>): (r: Cursor)
    // what was shown stays shown, and each answer advances at most one page
    ensures c.messages <= r.messages
    ensures c.page <= r.page <= c.page + |responses|
    ensures !c.hasMore ==> r == c
    decreases |responses|
  {
    if responses == [] then c
    else
      match Request(c, true)
      case None => c
      case Some(p) => LoadPages(Apply(c, p, Some(responses[0])), responses[1..])
  }

  /**
   * Against a server that reports `total` pages, loading from a cursor on page
   * `page <= total + 1` (with more to load exactly while `page <= total`) stops
   * after the last page: the cursor ends on page `min(page + n, total + 1)`.
   */
  lemma {:induction false} LoadPagesStopsAtLastPage(c: Cursor, responses: seq<ClientPage>, total: nat)
    requires 1 <= c.page <= total + 1 && c.hasMore == (c.page <= total)
    requires forall i :: 0 <= i < |responses| ==> responses[i].totalPages == Some(total)
    ensures var d := LoadPages(c, responses);
            && d.page == (if c.page + |responses| <= total + 1 then c.page + |responses| else total + 1)
            && d.hasMore == (d.page <= total)
    decreases |responses|
  {
    if responses != [] && c.hasMore {
      var next := Apply(c, c.page, Some(responses[0]));
      assert forall i :: 0 <= i < |responses[1..]| ==> responses[1..][i] == responses[i + 1];
      LoadPagesStopsAtLastPage(next, responses[1..], total);
    }
  }

  /** From a fresh selection, a history of `total >= 1` pages is loaded in exactly `total` requests. */
  lemma FreshLoadsEveryPage(responses: seq<ClientPage>, total: nat)
    requires total >= 1 && |responses| >= total
    requires forall i :: 0 <= i < |responses| ==> responses[i].totalPages == Some(total)
    ensures LoadPages(Fresh, responses).page == total + 1
    ensures !LoadPages(Fresh, responses).hasMore
  {
    LoadPagesStopsAtLastPage(Fresh, responses, total);
  }

  /** The page size the client asks the room route for. */
  const ClientPageLimit: nat := 50

  /** `response` is what the client reads from the room route's successful answer for `page`, its query not throwing. */
  predicate AnswersPage(collection: seq<MessageDoc>, usernames: map<string, string>, roomId: string, page: nat, response: ClientPage)
  {
    var answer := MessageRoutes.RoomHistory(collection, usernames, roomId, Some(page), Some(ClientPageLimit), false);
    answer.Ok? && response == ClientView(answer.value)
  }

  /**
   * Against the room route itself, the client's pages of a non-empty room, asked
   * with the client's page size, are all loaded and then loading stops.
   */
  lemma RoomHistoryLoadsCompletely(collection: seq<MessageDoc>, usernames: map<string, string>, roomId: string,
                                   responses: seq<ClientPage>)
    requires |MessageRoutes.InRoom(collection, roomId)| > 0
    requires forall i :: 0 <= i < |responses| ==> AnswersPage(collection, usernames, roomId, i + 1, responses[i])
    requires |responses| >= MessageRoutes.CeilDiv(|MessageRoutes.InRoom(collection, roomId)|, ClientPageLimit)
    ensures LoadPages(Fresh, responses).page == MessageRoutes.CeilDiv(|MessageRoutes.InRoom(collection, roomId)|, ClientPageLimit) + 1
    ensures !LoadPages(Fresh, responses).hasMore
  {
    var total := MessageRoutes.CeilDiv(|MessageRoutes.InRoom(collection, roomId)|, ClientPageLimit);
    forall i | 0 <= i < |responses| ensures responses[i].totalPages == Some(total) {
      assert AnswersPage(collection, usernames, roomId, i + 1, responses[i]);
    }
    FreshLoadsEveryPage(responses, total);
  }

  /**
   * The selection effect as written: it resets the cursor, but the `loadMessages`
   * it calls still sees the previous render's cursor, so the request for the new
   * room is the one the old cursor would make.
   */
  function SelectAsWritten(c: Cursor): (r: (Cursor, Option<nat>))
    ensures r.0 == Fresh
    // the request follows the old cursor, not the reset one
    ensures r.1.Some? <==> c.hasMore
    ensures r.1.Some? ==> r.1.value == c.page
  {
    (Fresh, Request(c, true))
  }

  /** After a one-page conversation has loaded, selecting another user requests no history at all. */
  lemma ReselectionSkipsHistory(first: ClientPage)
    requires first.totalPages.None? || first.totalPages.value <= 1
    ensures var loaded := Apply(Fresh, 1, Some(first));
            !loaded.hasMore && SelectAsWritten(loaded) == (Fresh, None)
  {
  }

  /** The intended selection: the request is made from the reset cursor. */
  function SelectFixed(c: Cursor): (r: (Cursor, Option<nat>))
    ensures r == (Fresh, Some(1))
  {
    (Fresh, Request(Fresh, true))
  }

  /** Whatever was shown before, the corrected selection asks for the newest page and shows it oldest first. */
  lemma SelectFixedLoadsNewestPage(c: Cursor, response: ClientPage)
    ensures SelectFixed(c).1 == Some(1)
    ensures Apply(SelectFixed(c).0, 1, Some(response)).messages == Reverse(response.messages)
    ensures Apply(SelectFixed(c).0, 1, Some(response)).page == 2
  {
  }

  // ---------------------------------------------------------------------------
  // The page's state

  class ChatState {
    const me: string
    const socket: SocketClient.ClientSocketService
    var users: seq<UserView>
    var selected: Option<UserView>
    var messages: seq<ChatMessage>
    var page: nat
    var hasMore: bool

    function CursorOf(): Cursor
      reads this
    {
      Cursor(messages, page, hasMore)
    }

    constructor(me: string, socket: SocketClient.ClientSocketService)
      ensures this.me == me && this.socket == socket
      ensures users == [] && selected == None && CursorOf() == Fresh
    {
      this.me := me;
      this.socket := socket;
      users := [];
      selected := None;
      messages := [];
      page := 1;
      hasMore := true;
    }

    /** `fetchUsers`: on success the list without oneself; on failure the list stays. */
    method ReceiveUsers(fetched: Option<seq<UserView>>)
      modifies this`users
      ensures users == if fetched.Some? then OthersThan(fetched.value, me) else old(users)
    {
      if fetched.Some? {
        users := OthersThan(fetched.value, me);
      }
    }

    /**
     * Selecting a user: the old room's cleanup leaves it, the selection effect
     * joins the new room and resets the cursor, and the handler effect binds
     * `handler` to `new_message`. `requested` is the history page the effect's
     * `loadMessages` asks for, decided by the cursor before the reset.
     */
    method SelectUser(u: UserView, handler: nat) returns (requested: Option<nat>)
      requires socket.Valid()
      modifies this`selected, this`messages, this`page, this`hasMore, socket
      ensures socket.Valid()
      ensures selected == Some(u)
      ensures (CursorOf(), requested) == SelectAsWritten(old(CursorOf()))
      ensures socket.handler == Some(handler)
      ensures old(socket.socket).Some? && old(socket.isConnected) ==>
                && socket.socket == old(socket.socket) && socket.isConnected
                && socket.closed == old(socket.closed) && socket.nextHandle == old(socket.nextHandle)
                && socket.emitted == old(socket.emitted)
                     + (if old(selected).Some?
                        then [SocketClient.Emit(old(socket.socket).value, "leave_room", SocketClient.RoomArg(RoomId(me, old(selected).value.id)))]
                        else [])
                     + [SocketClient.Emit(old(socket.socket).value, "join_room", SocketClient.RoomArg(RoomId(me, u.id)))]
      ensures !(old(socket.socket).Some? && old(socket.isConnected)) ==>
                && socket.socket == Some(old(socket.nextHandle)) && !socket.isConnected
                && socket.emitted == old(socket.emitted)
                && socket.closed == old(socket.closed) + (if old(socket.socket).Some? then [old(socket.socket).value] else [])
                && socket.nextHandle == old(socket.nextHandle) + 1
    {
      var before := CursorOf();
      if selected.Some? {
        socket.LeaveRoom(RoomId(me, selected.value.id));
      }
      selected := Some(u);
      socket.JoinRoom(RoomId(me, u.id));
      messages, page, hasMore := [], 1, true;
      requested := Request(before, true);
      socket.OnNewMessage(handler);
    }

    /** The guard of `loadMessages`: the page it requests, if any. */
    method RequestPage() returns (requested: Option<nat>)
      ensures requested == Request(CursorOf(), selected.Some?)
    {
      if selected.None? || !hasMore {
        return None;
      }
      requested := Some(page);
    }

    /** The rest of `loadMessages`, once the request for page `requested` is answered (or has failed). */
    method ReceivePage(requested: nat, response: Option<ClientPage>)
      modifies this`messages, this`page, this`hasMore
      ensures CursorOf() == Apply(old(CursorOf()), requested, response)
    {
      if response.None? {
        return;
      }
      var total := response.value.totalPages;
      messages := messages + Reverse(response.value.messages);
      hasMore := total.Some? && requested < total.value;
      page := page + 1;
    }

    /**
     * `handleSendMessage`: with a user selected, shows a placeholder and emits
     * `send_message` carrying the text, the room and `tempId` (the current time as
     * a string); without one, nothing happens.
     */
    method SendMessage(body: string, tempId: string, now: nat)
      requires socket.Valid()
      modifies this`messages, socket`emitted
      ensures socket.Valid()
      ensures selected.None? ==> messages == old(messages) && socket.emitted == old(socket.emitted)
      ensures selected.Some? ==>
                && messages == old(messages) + [Placeholder(me, selected.value.id, body, tempId, now)]
                && socket.emitted == old(socket.emitted)
                     + if socket.socket.Some? && socket.isConnected
                       then [SocketClient.Emit(socket.socket.value, "send_message", SocketClient.MessageArg(
                               OutgoingMessage(selected.value.id, body, RoomId(me, selected.value.id), Some(tempId))))]
                       else []
    {
      if selected.None? {
        return;
      }
      var to := selected.value.id;
      messages := messages + [Placeholder(me, to, body, tempId, now)];
      socket.SendMessage(OutgoingMessage(to, body, RoomId(me, to), Some(tempId)));
    }

    /** `handleNewMessage` on a `new_message` event carrying `doc`. */
    method ReceiveNewMessage(doc: MessageDoc)
      modifies this`messages
      ensures messages == Reconcile(old(messages), FromDoc(doc))
    {
      messages := Reconcile(messages, FromDoc(doc));
    }
  }
}
