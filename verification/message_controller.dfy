/**
 * The server's message-lifecycle engine: each request handler is a pure
 * transition from a server state to a new state, an HTTP response and the
 * list of socket events emitted, in emission order.
 */
module MessageController {
  import opened Wrappers
  import opened Js
  import opened Seqs
  import opened UserModel
  import opened MessageModel
  import opened Events

  /**
   * The message collection in insertion order, the user collection, and the
   * presence registry (user id to live socket id; no entry = offline).
   */
  datatype Server = Server(
    messages: seq<Message>,
    users: map<UserId, User>,
    presence: map<UserId, SocketId>)

  datatype Body =
    | Contacts(users: map<UserId, PublicUser>)
    | Conversation(messages: seq<Message>)
    | One(message: Message)
    | Pinned(pinnedChats: seq<UserId>)
    | Notice(notice: string)
    | Error(error: string)

  datatype Response = Response(status: nat, body: Body)

  datatype Step = Step(state: Server, response: Response, events: seq<Event>)

  const InternalError := Response(500, Error("Internal server error"))
  const NotFound := Response(404, Error("Message not found"))
  const Forbidden := Response(403, Error("Not authorized"))

  /** Message ids are store positions, and every stored message is consistent. */
  predicate Valid(s: Server) {
    && (forall i :: 0 <= i < |s.messages| ==> s.messages[i].id == i && Consistent(s.messages[i]))
    && WellFormedDirectory(s.users)
  }

  /** `getReceiverSocketId(u)`, kept only when truthy. */
  function SocketOf(presence: map<UserId, SocketId>, u: UserId): (sock: Option<SocketId>)
    ensures sock.Some? <==> u in presence && Truthy(Str(presence[u]))
    ensures sock.Some? ==> sock.value == presence[u]
  {
    if u in presence && presence[u] != "" then Some(presence[u]) else None
  }

  /** Best-effort delivery: one event when `u` is connected, none otherwise. */
  function EmitTo(presence: map<UserId, SocketId>, u: UserId, p: Payload): (evs: seq<Event>)
    ensures SocketOf(presence, u).None? ==> evs == []
    ensures SocketOf(presence, u).Some? ==> evs == [Event(SocketOf(presence, u).value, p)]
  {
    match SocketOf(presence, u)
    case None => []
    case Some(sid) => [Event(sid, p)]
  }

  /** The message belongs to the conversation between `me` and `peer`. */
  predicate Between(m: Message, me: UserId, peer: UserId) {
    || (m.senderId == me && m.receiverId == peer)
    || (m.senderId == peer && m.receiverId == me)
  }

  /** The `$or` query of `getMessages`, keeping store order. */
  function ConversationOf(ms: seq<Message>, me: UserId, peer: UserId): (r: seq<Message>)
    ensures forall m :: m in r <==> m in ms && Between(m, me, peer)
    ensures |r| <= |ms|
  {
    if |ms| == 0 then []
    else
      assert ms == [ms[0]] + ms[1..];
      (if Between(ms[0], me, peer) then [ms[0]] else []) + ConversationOf(ms[1..], me, peer)
  }

  /** The query works piecewise over the store, so it never reorders messages. */
  lemma {:induction false} ConversationOfAppend(a: seq<Message>, b: seq<Message>, me: UserId, peer: UserId)
    ensures ConversationOf(a + b, me, peer) == ConversationOf(a, me, peer) + ConversationOf(b, me, peer)
  {
    if |a| == 0 {
      assert a + b == b;
    } else {
      assert (a + b)[1..] == a[1..] + b;
      ConversationOfAppend(a[1..], b, me, peer);
    }
  }

  predicate IdsIncreasing(ms: seq<Message>) {
    forall i, j :: 0 <= i < j < |ms| ==> ms[i].id < ms[j].id
  }

  /** Dropping the first message keeps the ids increasing. */
  lemma TailIdsIncreasing(ms: seq<Message>)
    requires |ms| > 0 && IdsIncreasing(ms)
    ensures IdsIncreasing(ms[1..])
    ensures forall m :: m in ms[1..] ==> ms[0].id < m.id
  {
    var tail := ms[1..];
    forall i, j | 0 <= i < j < |tail| ensures tail[i].id < tail[j].id {
      assert tail[i] == ms[i + 1] && tail[j] == ms[j + 1];
    }
    forall m | m in tail ensures ms[0].id < m.id {
      var k :| 0 <= k < |tail| && tail[k] == m;
      assert tail[k] == ms[k + 1];
    }
  }

  /** A message numbered below every message of an increasing list may go in front. */
  lemma ConsIdsIncreasing(x: Message, rest: seq<Message>)
    requires IdsIncreasing(rest)
    requires forall m :: m in rest ==> x.id < m.id
    ensures IdsIncreasing([x] + rest)
  {
    var r := [x] + rest;
    forall i, j | 0 <= i < j < |r| ensures r[i].id < r[j].id {
      assert r[j] == rest[j - 1];
      if i == 0 {
        assert rest[j - 1] in rest;
      } else {
        assert r[i] == rest[i - 1];
      }
    }
  }

  /** Filtering keeps the ids increasing: the result is in store order. */
  lemma {:induction false} ConversationKeepsStoreOrder(ms: seq<Message>, me: UserId, peer: UserId)
    requires IdsIncreasing(ms)
    ensures IdsIncreasing(ConversationOf(ms, me, peer))
  {
    if |ms| > 0 {
      TailIdsIncreasing(ms);
      ConversationKeepsStoreOrder(ms[1..], me, peer);
      var rest := ConversationOf(ms[1..], me, peer);
      if Between(ms[0], me, peer) {
        ConsIdsIncreasing(ms[0], rest);
      } else {
        assert ConversationOf(ms, me, peer) == rest;
      }
    }
  }

  /**
   * The per-message redaction of `getMessages`, from the viewpoint of `me`.
   * Only `text` and `image` may change; the receiver-and-viewed branch is
   * evaluated first, so it also wins for a viewed message sent to oneself.
   */
  function ViewFor(m: Message, me: UserId): (r: Message)
    ensures r.(text := m.text, image := m.image) == m
    ensures !m.isViewOnce ==> r == m
    ensures m.isViewOnce && m.isViewed && m.receiverId == me ==>
              r.text == Str(Mask) && r.image == Null
    ensures m.isViewOnce && !(m.isViewed && m.receiverId == me) && m.senderId == me ==>
              r.text == SenderText(m) && r.image == SenderImage(m)
    ensures m.isViewOnce && !(m.isViewed && m.receiverId == me) && m.senderId != me ==> r == m
  {
    if m.isViewOnce && m.isViewed && m.receiverId == me then
      m.(text := Str(Mask), image := Null)
    else if m.isViewOnce && m.senderId == me then
      m.(text := SenderText(m), image := SenderImage(m))
    else m
  }

  /** `GET /messages/users`: every other user, password removed. */
  function GetUsersForSidebar(s: Server, me: UserId): (r: Response)
    ensures r.status == 200 && r.body.Contacts?
    ensures r.body.users.Keys == s.users.Keys - {me}
    ensures forall k :: k in r.body.users ==> r.body.users[k] == WithoutPassword(s.users[k])
  {
    Response(200, Contacts(map k | k in s.users && k != me :: WithoutPassword(s.users[k])))
  }

  /** `users` with `owner`'s counter for `peer` set to `n`. */
  function SetCounter(users: map<UserId, User>, owner: UserId, peer: UserId, n: nat): map<UserId, User>
    requires owner in users
  {
    users[owner := users[owner].(unreadCounts := users[owner].unreadCounts[peer := n])]
  }

  /**
   * `after` is `before` with `owner`'s counter for `peer` now `n`: every other
   * key of that user, every other field and every other user is unchanged.
   */
  ghost predicate CounterSet(before: map<UserId, User>, after: map<UserId, User>,
                       owner: UserId, peer: UserId, n: nat)
    requires owner in before
  {
    && after.Keys == before.Keys
    && (forall u :: u in before && u != owner ==> after[u] == before[u])
    && after[owner].(unreadCounts := before[owner].unreadCounts) == before[owner]
    && peer in after[owner].unreadCounts
    && after[owner].unreadCounts[peer] == n
    && (forall k :: k != peer ==>
          (k in after[owner].unreadCounts <==> k in before[owner].unreadCounts))
    && (forall k :: k != peer && k in before[owner].unreadCounts ==>
          after[owner].unreadCounts[k] == before[owner].unreadCounts[k])
  }

  lemma SetCounterSets(users: map<UserId, User>, owner: UserId, peer: UserId, n: nat)
    requires owner in users
    ensures CounterSet(users, SetCounter(users, owner, peer, n), owner, peer, n)
  {
  }

  /**
   * `GET /messages/:peer`: the conversation, redacted for `me`, and `me`'s
   * unread counter for `peer` reset. A requester missing from the user
   * collection makes the reset throw: 500 and nothing saved.
   */
  function GetMessages(s: Server, me: UserId, peer: UserId): (r: Step)
    ensures r.events == []
    ensures r.state.messages == s.messages && r.state.presence == s.presence
    ensures me !in s.users ==> r.state == s && r.response == InternalError
    ensures me in s.users ==> CounterSet(s.users, r.state.users, me, peer, 0)
    ensures me in s.users ==> r.response.status == 200 && r.response.body.Conversation?
    ensures me in s.users ==>
              var conv := ConversationOf(s.messages, me, peer);
              var shown := r.response.body.messages;
              |shown| == |conv| && forall i :: 0 <= i < |shown| ==> shown[i] == ViewFor(conv[i], me)
  {
    var conv := ConversationOf(s.messages, me, peer);
    var shown := seq(|conv|, i requires 0 <= i < |conv| => ViewFor(conv[i], me));
    if me !in s.users then Step(s, InternalError, [])
    else
      SetCounterSets(s.users, me, peer, 0);
      Step(s.(users := SetCounter(s.users, me, peer, 0)), Response(200, Conversation(shown)), [])
  }

  /** The stored image: the upload's URL for a truthy image, otherwise absent. */
  function UploadedImage(image: StringField, upload: string -> string): (r: StringField)
    ensures Truthy(image) ==> r == Str(upload(image.s))
    ensures !Truthy(image) ==> r == Undefined
  {
    if Truthy(image) then Str(upload(image.s)) else Undefined
  }

  /**
   * `POST /messages/send/:receiverId`. The message is saved first; the
   * receiver's counter for `me` then goes up by one (an absent counter counts
   * as zero) and, when the receiver is connected, a `newMessage` event carries
   * the saved message and the new counter. An unknown receiver makes the
   * counter update throw after the message was saved: 500, no event.
   */
  function SendMessage(s: Server, me: UserId, receiverId: UserId, text: StringField,
                       image: StringField, isViewOnce: Value, upload: string -> string): (r: Step)
    ensures |r.state.messages| == |s.messages| + 1
    ensures r.state.messages[..|s.messages|] == s.messages
    ensures r.state.presence == s.presence
    ensures var m := r.state.messages[|s.messages|];
              && m.id == |s.messages| && m.senderId == me && m.receiverId == receiverId
              && m.text == text && m.image == UploadedImage(image, upload)
              && m.isViewOnce == Truthy(isViewOnce) && !m.isViewed
              && Consistent(m)
    ensures receiverId !in s.users ==>
              r.response == InternalError && r.state.users == s.users && r.events == []
    ensures receiverId in s.users ==>
              r.response == Response(201, One(r.state.messages[|s.messages|]))
    ensures receiverId in s.users ==>
              CounterSet(s.users, r.state.users, receiverId, me,
                         CountOf(s.users[receiverId].unreadCounts, me) + 1)
    ensures receiverId in s.users ==>
              (r.events == [] <==> SocketOf(s.presence, receiverId).None?) && |r.events| <= 1
    ensures receiverId in s.users ==>
              forall e :: e in r.events ==>
                && e.socket == SocketOf(s.presence, receiverId).value
                && e.payload == NewMessage(r.state.messages[|s.messages|],
                                           CountOf(r.state.users[receiverId].unreadCounts, me), me)
  {
    var m := PreSave(Create(|s.messages|, me, receiverId, text, UploadedImage(image, upload),
                            Some(Truthy(isViewOnce))));
    var saved := s.(messages := s.messages + [m]);
    if receiverId !in s.users then Step(saved, InternalError, [])
    else
      var next := CountOf(s.users[receiverId].unreadCounts, me) + 1;
      SetCounterSets(s.users, receiverId, me, next);
      Step(saved.(users := SetCounter(s.users, receiverId, me, next)),
           Response(201, One(m)),
           EmitTo(s.presence, receiverId, NewMessage(m, next, me)))
  }

  /** `POST /messages/mark-read/:other`: `me`'s counter for `other` becomes zero. */
  function MarkMessagesAsRead(s: Server, me: UserId, other: UserId): (r: Step)
    ensures r.events == []
    ensures r.state.messages == s.messages && r.state.presence == s.presence
    ensures me !in s.users ==> r.state == s && r.response == InternalError
    ensures me in s.users ==> CounterSet(s.users, r.state.users, me, other, 0)
    ensures me in s.users ==> r.response == Response(200, Notice("Messages marked as read"))
  {
    if me !in s.users then Step(s, InternalError, [])
    else
      SetCounterSets(s.users, me, other, 0);
      Step(s.(users := SetCounter(s.users, me, other, 0)),
           Response(200, Notice("Messages marked as read")), [])
  }

  /** `s` with only `me`'s pinned list replaced. */
  function WithPinned(s: Server, me: UserId, pinned: seq<UserId>): Server
    requires me in s.users
  {
    s.(users := s.users[me := s.users[me].(pinnedChats := pinned)])
  }

  /** Writing back a user's own pinned list leaves the state as it was. */
  lemma WithPinnedSame(s: Server, me: UserId)
    requires me in s.users
    ensures WithPinned(s, me, s.users[me].pinnedChats) == s
  {
    assert s.users[me].(pinnedChats := s.users[me].pinnedChats) == s.users[me];
    assert s.users[me := s.users[me]] == s.users;
  }

  /**
   * `POST /messages/pin/:chatId`: `chatId` is appended only when absent, so
   * the list stays duplicate-free and a repeated pin changes nothing.
   */
  function PinChat(s: Server, me: UserId, chatId: UserId): (r: Step)
    ensures r.events == []
    ensures me !in s.users ==> r.state == s && r.response == Response(500, Error("Failed to pin chat"))
    ensures me in s.users ==>
              var before := s.users[me].pinnedChats;
              var after := if chatId in before then before else before + [chatId];
              && r.state == WithPinned(s, me, after)
              && r.response == Response(200, Pinned(after))
    ensures me in s.users ==> chatId in r.state.users[me].pinnedChats
    ensures me in s.users && chatId in s.users[me].pinnedChats ==> r.state == s
    ensures me in s.users && NoDups(s.users[me].pinnedChats) ==> NoDups(r.state.users[me].pinnedChats)
  {
    if me !in s.users then Step(s, Response(500, Error("Failed to pin chat")), [])
    else
      var before := s.users[me].pinnedChats;
      if chatId in before then
        WithPinnedSame(s, me);
        Step(s, Response(200, Pinned(before)), [])
      else
        AppendFreshNoDups(before, chatId);
        Step(WithPinned(s, me, before + [chatId]), Response(200, Pinned(before + [chatId])), [])
  }

  /**
   * `POST /messages/unpin/:chatId`: every occurrence of `chatId` is removed,
   * the other entries keep their order.
   */
  function UnpinChat(s: Server, me: UserId, chatId: UserId): (r: Step)
    ensures r.events == []
    ensures me !in s.users ==> r.state == s && r.response == Response(500, Error("Failed to unpin chat"))
    ensures me in s.users ==>
              && r.state == WithPinned(s, me, RemoveAll(s.users[me].pinnedChats, chatId))
              && r.response == Response(200, Pinned(r.state.users[me].pinnedChats))
    ensures me in s.users ==> chatId !in r.state.users[me].pinnedChats
    ensures me in s.users && chatId !in s.users[me].pinnedChats ==> r.state == s
    ensures me in s.users && NoDups(s.users[me].pinnedChats) ==> NoDups(r.state.users[me].pinnedChats)
  {
    if me !in s.users then Step(s, Response(500, Error("Failed to unpin chat")), [])
    else
      var before := s.users[me].pinnedChats;
      var after := RemoveAll(before, chatId);
      RemoveAllFacts(before, chatId);
      WithPinnedSame(s, me);
      Step(WithPinned(s, me, after), Response(200, Pinned(after)), [])
  }

  /** The `messageViewed` patch for the receiver: the content is gone. */
  function ReceiverPatch(): ViewedContent {
    ViewedContent(Str(Mask), Null, true)
  }

  /** The `messageViewed` patch for the sender: the snapshot, or the live field. */
  function SenderPatch(m: Message): ViewedContent {
    ViewedContent(SenderText(m), SenderImage(m), true)
  }

  /**
   * `POST /messages/view/:messageId`. Only the receiver may ask. A view-once
   * message not yet viewed becomes viewed (saved, so the hook runs again),
   * the answer is masked, and a `messageViewed` event goes to the receiver
   * (masked) and then to the sender (true content), each only if connected.
   * Any other message is returned exactly as stored, with no event.
   */
  function MarkMessageAsViewed(s: Server, me: UserId, messageId: MessageId): (r: Step)
    ensures r.state.users == s.users && r.state.presence == s.presence
    ensures |r.state.messages| == |s.messages|
    ensures messageId >= |s.messages| ==> r == Step(s, NotFound, [])
    ensures messageId < |s.messages| && s.messages[messageId].receiverId != me ==>
              r == Step(s, Forbidden, [])
    ensures messageId < |s.messages| && s.messages[messageId].receiverId == me
            && !(s.messages[messageId].isViewOnce && !s.messages[messageId].isViewed) ==>
              r == Step(s, Response(200, One(s.messages[messageId])), [])
    ensures messageId < |s.messages| && s.messages[messageId].receiverId == me
            && s.messages[messageId].isViewOnce && !s.messages[messageId].isViewed ==>
              var m := s.messages[messageId];
              var v := PreSave(m.(isViewed := true));
              && r.state.messages == s.messages[messageId := v]
              && v.isViewed
              && r.response == Response(200, One(v.(text := Str(Mask), image := Null)))
              && r.events == EmitTo(s.presence, m.receiverId, MessageViewed(m.id, ReceiverPatch()))
                           + EmitTo(s.presence, m.senderId, MessageViewed(m.id, SenderPatch(v)))
  {
    if messageId >= |s.messages| then Step(s, NotFound, [])
    else
      var m := s.messages[messageId];
      if m.receiverId != me then Step(s, Forbidden, [])
      else if m.isViewOnce && !m.isViewed then
        var v := PreSave(m.(isViewed := true));
        Step(s.(messages := s.messages[messageId := v]),
             Response(200, One(v.(text := Str(Mask), image := Null))),
             EmitTo(s.presence, m.receiverId, MessageViewed(m.id, ReceiverPatch()))
             + EmitTo(s.presence, m.senderId, MessageViewed(m.id, SenderPatch(v))))
      else Step(s, Response(200, One(m)), [])
  }
}
