/**
 * The browser-side chat store: a state machine over the message list, the
 * local unread counters, the pinned list and the selected contact. Each
 * action is split into the request it issues and the state update applied
 * when the HTTP answer (`Http`) comes back.
 */
module ChatStore {
  import opened Wrappers
  import opened Js
  import opened UserModel
  import opened MessageModel
  import opened Events

  /** The answer of an HTTP call: its data, or a failure (toast only). */
  datatype Http<+T> = Answered(data: T) | Failed

  /** The REST calls the client makes. */
  datatype Request =
    | FetchConversation(peer: UserId)
    | Send(peer: UserId)
    | MarkRead(peer: UserId)
    | Pin(chatId: UserId)
    | Unpin(chatId: UserId)
    | View(messageId: MessageId)

  datatype ClientState = ClientState(
    messages: seq<Message>,
    unreadCounts: map<UserId, nat>,
    pinnedChats: seq<UserId>,
    selectedUser: Option<PublicUser>)

  /** The new state and the requests issued, in order. */
  datatype Effect = Effect(state: ClientState, requests: seq<Request>)

  /**
   * `counts` with the key `peer` now `n` and every other key as before
   * (`{...counts, [peer]: n}`).
   */
  ghost predicate OnlyKeyChanged(before: map<UserId, nat>, after: map<UserId, nat>, peer: UserId, n: nat) {
    && peer in after && after[peer] == n
    && (forall k :: k != peer ==> (k in after <==> k in before))
    && (forall k :: k != peer && k in before ==> after[k] == before[k])
  }

  /** Opening a conversation: on success the list is replaced and the badge cleared. */
  function GetMessages(st: ClientState, userId: UserId, res: Http<seq<Message>>): (r: Effect)
    ensures r.requests == [FetchConversation(userId)]
    ensures res.Failed? ==> r.state == st
    ensures res.Answered? ==> r.state.messages == res.data
    ensures res.Answered? ==> OnlyKeyChanged(st.unreadCounts, r.state.unreadCounts, userId, 0)
    ensures r.state.pinnedChats == st.pinnedChats && r.state.selectedUser == st.selectedUser
  {
    match res
    case Failed => Effect(st, [FetchConversation(userId)])
    case Answered(data) =>
      Effect(st.(messages := data, unreadCounts := st.unreadCounts[userId := 0]),
             [FetchConversation(userId)])
  }

  /**
   * Sending to the selected contact: the server's stored message is appended
   * to the list as it was when the send began. With nothing selected the
   * call throws before any request leaves.
   */
  function SendMessage(st: ClientState, res: Http<Message>): (r: Effect)
    ensures st.selectedUser.None? ==> r == Effect(st, [])
    ensures st.selectedUser.Some? ==> r.requests == [Send(st.selectedUser.value.id)]
    ensures st.selectedUser.Some? && res.Failed? ==> r.state == st
    ensures st.selectedUser.Some? && res.Answered? ==>
              r.state == st.(messages := st.messages + [res.data])
  {
    match st.selectedUser
    case None => Effect(st, [])
    case Some(peer) =>
      match res
      case Failed => Effect(st, [Send(peer.id)])
      case Answered(saved) => Effect(st.(messages := st.messages + [saved]), [Send(peer.id)])
  }

  /** Clearing a badge: the local counter is zeroed only once the server agreed. */
  function MarkMessagesAsRead(st: ClientState, userId: UserId, res: Http<()>): (r: Effect)
    ensures r.requests == [MarkRead(userId)]
    ensures res.Failed? ==> r.state == st
    ensures res.Answered? ==> r.state.messages == st.messages && r.state.pinnedChats == st.pinnedChats
    ensures res.Answered? ==> r.state.selectedUser == st.selectedUser
    ensures res.Answered? ==> OnlyKeyChanged(st.unreadCounts, r.state.unreadCounts, userId, 0)
  {
    match res
    case Failed => Effect(st, [MarkRead(userId)])
    case Answered(_) => Effect(st.(unreadCounts := st.unreadCounts[userId := 0]), [MarkRead(userId)])
  }

  /** Pinning: the pinned list becomes the server's answer, or stays on failure. */
  function PinChat(st: ClientState, chatId: UserId, res: Http<seq<UserId>>): (r: Effect)
    ensures r.requests == [Pin(chatId)]
    ensures res.Failed? ==> r.state == st
    ensures res.Answered? ==> r.state == st.(pinnedChats := res.data)
  {
    Effect(if res.Answered? then st.(pinnedChats := res.data) else st, [Pin(chatId)])
  }

  /** Unpinning: the pinned list becomes the server's answer, or stays on failure. */
  function UnpinChat(st: ClientState, chatId: UserId, res: Http<seq<UserId>>): (r: Effect)
    ensures r.requests == [Unpin(chatId)]
    ensures res.Failed? ==> r.state == st
    ensures res.Answered? ==> r.state == st.(pinnedChats := res.data)
  {
    Effect(if res.Answered? then st.(pinnedChats := res.data) else st, [Unpin(chatId)])
  }

  /**
   * The `newMessage` handler. `subscribedTo` is the contact selected when the
   * handler was installed. A message from anyone else bumps that sender's
   * local counter (the server's `unreadCount` is not used); a message from
   * the subscribed contact is appended to the open conversation.
   */
  function OnNewMessage(st: ClientState, subscribedTo: UserId, message: Message,
                        unreadCount: nat, fromUser: UserId): (r: ClientState)
    ensures r.pinnedChats == st.pinnedChats && r.selectedUser == st.selectedUser
    ensures fromUser != subscribedTo ==> r.messages == st.messages
    ensures fromUser != subscribedTo ==>
              OnlyKeyChanged(st.unreadCounts, r.unreadCounts, fromUser, CountOf(st.unreadCounts, fromUser) + 1)
    ensures fromUser == subscribedTo ==> r.messages == st.messages + [message]
    ensures fromUser == subscribedTo ==> r.unreadCounts == st.unreadCounts
  {
    if fromUser != subscribedTo then
      st.(unreadCounts := st.unreadCounts[fromUser := CountOf(st.unreadCounts, fromUser) + 1])
    else
      st.(messages := st.messages + [message])
  }

  /** `{...msg, ...viewedContent}` for a patch that arrived over the socket. */
  function ApplyPatch(msg: Message, vc: ViewedContent): (r: Message)
    ensures r.id == msg.id && r.senderId == msg.senderId && r.receiverId == msg.receiverId
    ensures r.isViewOnce == msg.isViewOnce && r.originalContent == msg.originalContent
    ensures r.isViewed == vc.isViewed
    ensures r.text == Spread(msg.text, vc.text) && r.image == Spread(msg.image, vc.image)
  {
    msg.(text := Spread(msg.text, vc.text), image := Spread(msg.image, vc.image), isViewed := vc.isViewed)
  }

  /** The `messageViewed` handler: only messages with the given id are patched. */
  function OnMessageViewed(st: ClientState, messageId: MessageId, vc: ViewedContent): (r: ClientState)
    ensures |r.messages| == |st.messages|
    ensures forall i :: 0 <= i < |st.messages| && st.messages[i].id != messageId ==>
              r.messages[i] == st.messages[i]
    ensures forall i :: 0 <= i < |st.messages| && st.messages[i].id == messageId ==>
              r.messages[i] == ApplyPatch(st.messages[i], vc)
    ensures r.unreadCounts == st.unreadCounts && r.pinnedChats == st.pinnedChats
    ensures r.selectedUser == st.selectedUser
  {
    st.(messages := seq(|st.messages|, i requires 0 <= i < |st.messages| =>
                          if st.messages[i].id == messageId then ApplyPatch(st.messages[i], vc)
                          else st.messages[i]))
  }

  /** Either socket event, as delivered to this client. */
  function OnEvent(st: ClientState, subscribedTo: UserId, p: Payload): (r: ClientState)
    ensures p.NewMessage? ==> r == OnNewMessage(st, subscribedTo, p.message, p.unreadCount, p.fromUser)
    ensures p.MessageViewed? ==> r == OnMessageViewed(st, p.messageId, p.viewedContent)
    ensures r.pinnedChats == st.pinnedChats && r.selectedUser == st.selectedUser
    ensures p.MessageViewed? ==> r.unreadCounts == st.unreadCounts && |r.messages| == |st.messages|
  {
    match p
    case NewMessage(message, unreadCount, fromUser) =>
      OnNewMessage(st, subscribedTo, message, unreadCount, fromUser)
    case MessageViewed(messageId, vc) => OnMessageViewed(st, messageId, vc)
  }

  /**
   * Selecting a contact: a mark-read request goes out first (its answer is
   * applied later by `MarkMessagesAsRead`), then the selection is recorded.
   * Clearing the selection issues nothing.
   */
  function SetSelectedUser(st: ClientState, user: Option<PublicUser>): (r: Effect)
    ensures r.state == st.(selectedUser := user)
    ensures user.Some? ==> r.requests == [MarkRead(user.value.id)]
    ensures user.None? ==> r.requests == []
  {
    Effect(st.(selectedUser := user), if user.Some? then [MarkRead(user.value.id)] else [])
  }

  /** A second `messageViewed` with the same patch changes nothing more. */
  lemma {:induction false} OnMessageViewedIdempotent(st: ClientState, messageId: MessageId, vc: ViewedContent)
    ensures OnMessageViewed(OnMessageViewed(st, messageId, vc), messageId, vc) == OnMessageViewed(st, messageId, vc)
  {
    var once := OnMessageViewed(st, messageId, vc);
    var twice := OnMessageViewed(once, messageId, vc);
    forall i | 0 <= i < |st.messages| ensures twice.messages[i] == once.messages[i] {
      if st.messages[i].id == messageId {
        assert once.messages[i].id == messageId;
      }
    }
    assert twice.messages == once.messages;
  }

  /** Events from contacts other than the open one never touch the open conversation. */
  lemma {:induction false} OtherSendersOnlyCount(st: ClientState, subscribedTo: UserId,
                                                 incoming: seq<(Message, UserId)>)
    requires forall k :: 0 <= k < |incoming| ==> incoming[k].1 != subscribedTo
    ensures var r := Deliver(st, subscribedTo, incoming);
              && r.messages == st.messages
              && (forall u :: u != subscribedTo ==>
                    CountOf(r.unreadCounts, u) == CountOf(st.unreadCounts, u) + Occurrences(incoming, u))
              && CountOf(r.unreadCounts, subscribedTo) == CountOf(st.unreadCounts, subscribedTo)
    decreases |incoming|
  {
    if |incoming| > 0 {
      OtherSendersOnlyCount(st, subscribedTo, incoming[..|incoming| - 1]);
    }
  }

  /** `newMessage` events delivered one by one, oldest first (the counter field unused). */
  function Deliver(st: ClientState, subscribedTo: UserId, incoming: seq<(Message, UserId)>): ClientState
    decreases |incoming|
  {
    if |incoming| == 0 then st
    else
      var last := incoming[|incoming| - 1];
      OnNewMessage(Deliver(st, subscribedTo, incoming[..|incoming| - 1]), subscribedTo, last.0, 0, last.1)
  }

  /** How many of the incoming messages came from `u`. */
  function Occurrences(incoming: seq<(Message, UserId)>, u: UserId): nat
    decreases |incoming|
  {
    if |incoming| == 0 then 0
    else Occurrences(incoming[..|incoming| - 1], u) + (if incoming[|incoming| - 1].1 == u then 1 else 0)
  }
}
