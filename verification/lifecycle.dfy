/**
 * End-to-end properties of the message lifecycle that cross the server, the
 * client store and the views: unread counting over many sends, the view-once
 * round trip, and the pin toggle.
 */
module Lifecycle {
  import opened Wrappers
  import opened Js
  import opened UserModel
  import opened MessageModel
  import opened Events
  import opened MessageController
  import opened ControllerProperties
  import ChatStore
  import Sidebar
  import ChatContainer

  /** One request from any client, with its route parameters and body. */
  datatype Action =
    | Open(me: UserId, peer: UserId)
    | Post(me: UserId, receiverId: UserId, text: StringField, image: StringField, isViewOnce: Value)
    | MarkRead(me: UserId, other: UserId)
    | Pin(me: UserId, chatId: UserId)
    | Unpin(me: UserId, chatId: UserId)
    | View(me: UserId, messageId: MessageId)

  /** The handler the route of `a` reaches. */
  function Handle(s: Server, a: Action, upload: string -> string): Step {
    match a
    case Open(me, peer) => GetMessages(s, me, peer)
    case Post(me, receiverId, text, image, isViewOnce) =>
      SendMessage(s, me, receiverId, text, image, isViewOnce, upload)
    case MarkRead(me, other) => MarkMessagesAsRead(s, me, other)
    case Pin(me, chatId) => PinChat(s, me, chatId)
    case Unpin(me, chatId) => UnpinChat(s, me, chatId)
    case View(me, messageId) => MarkMessageAsViewed(s, me, messageId)
  }

  /** The server after handling `actions` one after another. */
  function Run(s: Server, actions: seq<Action>, upload: string -> string): Server
    decreases |actions|
  {
    if |actions| == 0 then s
    else Handle(Run(s, actions[..|actions| - 1], upload), actions[|actions| - 1], upload).state
  }

  /** `a` sends from `sender` to `receiver`. */
  predicate Sends(a: Action, sender: UserId, receiver: UserId) {
    a.Post? && a.me == sender && a.receiverId == receiver
  }

  /** `a` is `receiver` opening or marking read the chat with `sender`. */
  predicate Clears(a: Action, sender: UserId, receiver: UserId) {
    || (a.Open? && a.me == receiver && a.peer == sender)
    || (a.MarkRead? && a.me == receiver && a.other == sender)
  }

  /** How many of `actions` send from `sender` to `receiver`. */
  function SendCount(actions: seq<Action>, sender: UserId, receiver: UserId): nat
    decreases |actions|
  {
    if |actions| == 0 then 0
    else SendCount(actions[..|actions| - 1], sender, receiver)
         + (if Sends(actions[|actions| - 1], sender, receiver) then 1 else 0)
  }

  /** How many of `actions` post a message, whoever to. */
  function PostCount(actions: seq<Action>): nat
    decreases |actions|
  {
    if |actions| == 0 then 0
    else PostCount(actions[..|actions| - 1]) + (if actions[|actions| - 1].Post? then 1 else 0)
  }

  /**
   * One request moves `receiver`'s counter for `sender` by one when it is a
   * send between them and leaves it alone otherwise, unless it clears it;
   * only a post grows the store.
   */
  lemma HandleCounts(s: Server, a: Action, sender: UserId, receiver: UserId, upload: string -> string)
    requires receiver in s.users
    requires !Clears(a, sender, receiver)
    ensures var after := Handle(s, a, upload).state;
              && receiver in after.users
              && CountOf(after.users[receiver].unreadCounts, sender)
                   == CountOf(s.users[receiver].unreadCounts, sender) + (if Sends(a, sender, receiver) then 1 else 0)
              && |after.messages| == |s.messages| + (if a.Post? then 1 else 0)
  {
    match a
    case Open(me, peer) =>
      GetMessagesKeepsOtherCounts(s, me, peer, receiver, sender);
    case Post(me, receiverId, text, image, isViewOnce) =>
      if !Sends(a, sender, receiver) {
        SendMessageKeepsOtherCounts(s, me, receiverId, text, image, isViewOnce, upload, receiver, sender);
      }
    case MarkRead(me, other) =>
      MarkMessagesAsReadKeepsOtherCounts(s, me, other, receiver, sender);
    case Pin(me, chatId) =>
      PinningKeepsCounts(s, me, chatId, receiver);
    case Unpin(me, chatId) =>
      PinningKeepsCounts(s, me, chatId, receiver);
    case View(me, messageId) =>
  }

  /**
   * Any traffic in which `receiver` never opens or marks read the chat with
   * `sender` raises that counter by exactly the number of sends from
   * `sender` to `receiver` in it, whatever their content and whatever else
   * happens in between.
   */
  lemma {:induction false} UnreadCountsEverySend(s: Server, actions: seq<Action>, sender: UserId,
                                                 receiver: UserId, upload: string -> string)
    requires receiver in s.users
    requires forall k :: 0 <= k < |actions| ==> !Clears(actions[k], sender, receiver)
    ensures var after := Run(s, actions, upload);
              && receiver in after.users
              && CountOf(after.users[receiver].unreadCounts, sender)
                   == CountOf(s.users[receiver].unreadCounts, sender) + SendCount(actions, sender, receiver)
              && |after.messages| == |s.messages| + PostCount(actions)
    decreases |actions|
  {
    if |actions| > 0 {
      var init := actions[..|actions| - 1];
      UnreadCountsEverySend(s, init, sender, receiver, upload);
      HandleCounts(Run(s, init, upload), actions[|actions| - 1], sender, receiver, upload);
    }
  }

  /** No request adds or removes a user. */
  lemma HandleKeepsUsers(s: Server, a: Action, upload: string -> string)
    ensures Handle(s, a, upload).state.users.Keys == s.users.Keys
  {
  }

  lemma {:induction false} RunKeepsUsers(s: Server, actions: seq<Action>, upload: string -> string)
    ensures Run(s, actions, upload).users.Keys == s.users.Keys
    decreases |actions|
  {
    if |actions| > 0 {
      RunKeepsUsers(s, actions[..|actions| - 1], upload);
      HandleKeepsUsers(Run(s, actions[..|actions| - 1], upload), actions[|actions| - 1], upload);
    }
  }

  /** Handling `a + b` is handling `a`, then `b` from where `a` left off. */
  lemma {:induction false} RunAppend(s: Server, a: seq<Action>, b: seq<Action>, upload: string -> string)
    ensures Run(s, a + b, upload) == Run(Run(s, a, upload), b, upload)
    decreases |b|
  {
    if |b| == 0 {
      assert a + b == a;
    } else {
      var ab := a + b;
      assert ab[..|ab| - 1] == a + b[..|b| - 1];
      assert ab[|ab| - 1] == b[|b| - 1];
      RunAppend(s, a, b[..|b| - 1], upload);
    }
  }

  /**
   * The counter shows exactly the sends since `receiver` last opened or
   * marked read the chat with `sender`.
   */
  lemma UnreadCountsSinceLastRead(s: Server, before: seq<Action>, reset: Action, since: seq<Action>,
                                  sender: UserId, receiver: UserId, upload: string -> string)
    requires receiver in s.users
    requires Clears(reset, sender, receiver)
    requires forall k :: 0 <= k < |since| ==> !Clears(since[k], sender, receiver)
    ensures var after := Run(s, before + [reset] + since, upload);
              && receiver in after.users
              && CountOf(after.users[receiver].unreadCounts, sender) == SendCount(since, sender, receiver)
  {
    RunKeepsUsers(s, before, upload);
    RunAppend(s, before, [reset], upload);
    assert [reset][..0] == [];
    var cleared := Run(s, before + [reset], upload);
    assert CountOf(cleared.users[receiver].unreadCounts, sender) == 0;
    RunAppend(s, before + [reset], since, upload);
    UnreadCountsEverySend(cleared, since, sender, receiver, upload);
  }

  /** A user record with nothing pinned and no counters. */
  function Fresh(id: UserId, email: string): User {
    User(id, email, "User " + id, "secret-password", "", [], map[])
  }

  /** No one connected: every event is dropped, nothing else changes. */
  function Offline(): map<UserId, SocketId> { map[] }

  /** The identity upload, standing in for the image host. */
  function Same(x: string): string { x }

  /**
   * The view-once walk-through: "u1" sends "hi" once-only to "u2"; u2's
   * counter is 1; u2 opens the chat and sees "hi" with the counter reset;
   * u2 views it and gets "**" with no image; u1 still reads "hi".
   */
  lemma ViewOnceWalkThrough()
    ensures var s0 := Server([], map["u1" := Fresh("u1", "a@x"), "u2" := Fresh("u2", "b@x")], Offline());
              var sent := SendMessage(s0, "u1", "u2", Str("hi"), Undefined, Bool(true), Same);
              var fetched := GetMessages(sent.state, "u2", "u1");
              var viewed := MarkMessageAsViewed(fetched.state, "u2", 0);
              var senderView := GetMessages(viewed.state, "u1", "u2");
              && sent.response.status == 201
              && sent.events == []
              && CountOf(sent.state.users["u2"].unreadCounts, "u1") == 1
              && fetched.response.body.messages[0].text == Str("hi")
              && CountOf(fetched.state.users["u2"].unreadCounts, "u1") == 0
              && viewed.response == Response(200, One(viewed.state.messages[0].(text := Str(Mask), image := Null)))
              && viewed.state.messages[0].isViewed
              && senderView.response.body.messages == [viewed.state.messages[0]]
              && senderView.response.body.messages[0].text == Str("hi")
  {
    var s0 := Server([], map["u1" := Fresh("u1", "a@x"), "u2" := Fresh("u2", "b@x")], Offline());
    var sent := SendMessage(s0, "u1", "u2", Str("hi"), Undefined, Bool(true), Same);
    var m := sent.state.messages[0];
    assert sent.state.messages == [m];
    assert ConversationOf(sent.state.messages, "u2", "u1") == [m];
    var fetched := GetMessages(sent.state, "u2", "u1");
    var viewed := MarkMessageAsViewed(fetched.state, "u2", 0);
    var v := viewed.state.messages[0];
    assert viewed.state.messages == [v];
    assert ConversationOf(viewed.state.messages, "u1", "u2") == [v];
  }

  /**
   * A receiver who opens a conversation sees every unviewed view-once message
   * behind "Click to view", and the click sends exactly the request that the
   * server turns into the one-shot transition.
   */
  lemma HiddenUntilClicked(s: Server, me: UserId, peer: UserId, i: nat)
    requires Valid(s)
    requires me in s.users
    requires i < |ConversationOf(s.messages, me, peer)|
    requires var m := ConversationOf(s.messages, me, peer)[i];
               m.isViewOnce && !m.isViewed && m.receiverId == me
    ensures var m := ConversationOf(s.messages, me, peer)[i];
              var shown := GetMessages(s, me, peer).response.body.messages[i];
              && ChatContainer.Render(shown, me) == ChatContainer.ClickToView
              && ChatContainer.OnClick(shown, me) == Some(ChatStore.View(m.id))
              && m.id < |s.messages|
              && MarkMessageAsViewed(s, me, m.id).state.messages[m.id].isViewed
  {
    var m := ConversationOf(s.messages, me, peer)[i];
    assert m in s.messages;
    var k :| 0 <= k < |s.messages| && s.messages[k] == m;
    assert s.messages[m.id] == m;
  }

  /**
   * The receiver's client, holding the message as fetched, applies the
   * masked `messageViewed` patch and from then on draws "**" with no image.
   */
  lemma ReceiverClientMasksAfterView(st: ChatStore.ClientState, s: Server, messageId: MessageId, j: nat)
    requires Valid(s)
    requires messageId < |s.messages|
    requires s.messages[messageId].isViewOnce && !s.messages[messageId].isViewed
    requires j < |st.messages| && st.messages[j].id == messageId
    requires st.messages[j].isViewOnce
    ensures var m := s.messages[messageId];
              var r := MarkMessageAsViewed(s, m.receiverId, messageId);
              forall e :: e in r.events && e.payload.viewedContent == ReceiverPatch() ==>
                var after := ChatStore.OnMessageViewed(st, messageId, e.payload.viewedContent);
                && after.messages[j].text == Str(Mask)
                && after.messages[j].image == Null
                && ChatContainer.Render(after.messages[j], m.receiverId) == ChatContainer.Shown(None, ChatContainer.Masked)
  {
  }

  /**
   * The sender's client receives the true content, keeps it in its list, and
   * still draws "**": the bubble masks every viewed view-once message,
   * whoever looks at it.
   */
  lemma SenderClientKeepsButMasks(st: ChatStore.ClientState, s: Server, messageId: MessageId, j: nat)
    requires Valid(s)
    requires messageId < |s.messages|
    requires s.messages[messageId].isViewOnce && !s.messages[messageId].isViewed
    requires j < |st.messages| && st.messages[j] == s.messages[messageId]
    ensures var m := s.messages[messageId];
              var v := MarkMessageAsViewed(s, m.receiverId, messageId).state.messages[messageId];
              var after := ChatStore.OnMessageViewed(st, messageId, SenderPatch(v));
              && after.messages[j].text == m.text
              && after.messages[j].image == m.image
              && after.messages[j].isViewed
              && ChatContainer.Render(after.messages[j], m.senderId) == ChatContainer.Shown(None, ChatContainer.Masked)
  {
    var m := s.messages[messageId];
    ResaveKeepsSnapshot(m, true);
    SenderContentIsLiveContent(m.(isViewed := true));
  }

  /** The server's answer to the sidebar's pin toggle. */
  function Serve(s: Server, me: UserId, req: ChatStore.Request): Step
    requires req.Pin? || req.Unpin?
  {
    if req.Pin? then PinChat(s, me, req.chatId) else UnpinChat(s, me, req.chatId)
  }

  /**
   * With the client's pinned list in step with the server's, one toggle
   * flips the contact's pinned state, and the client adopts the server's
   * list, so the two stay in step.
   */
  lemma PinToggleFlips(s: Server, st: ChatStore.ClientState, me: UserId, id: UserId)
    requires me in s.users
    requires st.pinnedChats == s.users[me].pinnedChats
    ensures var req := Sidebar.PinToggle(st.pinnedChats, id);
              var served := Serve(s, me, req);
              var pinned := served.state.users[me].pinnedChats;
              var client := if req.Pin? then ChatStore.PinChat(st, id, ChatStore.Answered(served.response.body.pinnedChats))
                            else ChatStore.UnpinChat(st, id, ChatStore.Answered(served.response.body.pinnedChats));
              && (id in pinned <==> id !in s.users[me].pinnedChats)
              && client.state.pinnedChats == pinned
              && client.requests == [req]
  {
  }

  /**
   * A message the open conversation's handler appends is the one the server
   * saved, and the server counted it for the receiver as the client did not.
   */
  lemma LiveMessageReachesOpenChat(s: Server, st: ChatStore.ClientState, sender: UserId, receiver: UserId,
                                   text: StringField, image: StringField, isViewOnce: Value,
                                   upload: string -> string)
    requires receiver in s.users
    requires SocketOf(s.presence, receiver).Some?
    ensures var sent := SendMessage(s, sender, receiver, text, image, isViewOnce, upload);
              && |sent.events| == 1
              && sent.events[0].payload.NewMessage?
              && var p := sent.events[0].payload;
              && ChatStore.OnEvent(st, sender, p).messages == st.messages + [sent.state.messages[|s.messages|]]
              && ChatStore.OnEvent(st, sender, p).unreadCounts == st.unreadCounts
              && p.unreadCount == CountOf(sent.state.users[receiver].unreadCounts, sender)
  {
    var sent := SendMessage(s, sender, receiver, text, image, isViewOnce, upload);
    assert sent.events[0] in sent.events;
  }

  /**
   * Opening a conversation: the client's list becomes the server's redacted
   * conversation, and the client's badge and the server's counter for that
   * contact both read zero.
   */
  lemma OpenConversationAgrees(s: Server, st: ChatStore.ClientState, me: UserId, peer: UserId)
    requires me in s.users
    ensures var served := GetMessages(s, me, peer);
              var client := ChatStore.GetMessages(st, peer, ChatStore.Answered(served.response.body.messages));
              && |client.state.messages| == |ConversationOf(s.messages, me, peer)|
              && (forall i :: 0 <= i < |client.state.messages| ==>
                    client.state.messages[i] == ViewFor(ConversationOf(s.messages, me, peer)[i], me))
              && CountOf(client.state.unreadCounts, peer) == 0
              && CountOf(served.state.users[me].unreadCounts, peer) == 0
  {
  }

  /** Marking read: once the server agrees, both sides hold zero for that contact. */
  lemma MarkReadAgrees(s: Server, st: ChatStore.ClientState, me: UserId, peer: UserId)
    requires me in s.users
    ensures var served := MarkMessagesAsRead(s, me, peer);
              var client := ChatStore.MarkMessagesAsRead(st, peer, ChatStore.Answered(()));
              && served.response.status == 200
              && CountOf(client.state.unreadCounts, peer) == 0
              && CountOf(served.state.users[me].unreadCounts, peer) == 0
  {
  }

  /**
   * Sending to the selected contact: the message the client appends is the
   * one the server stored, numbered after every earlier message.
   */
  lemma SentMessageJoinsOwnList(s: Server, st: ChatStore.ClientState, me: UserId, text: StringField,
                                image: StringField, isViewOnce: Value, upload: string -> string)
    requires st.selectedUser.Some? && st.selectedUser.value.id in s.users
    ensures var peer := st.selectedUser.value.id;
              var sent := SendMessage(s, me, peer, text, image, isViewOnce, upload);
              var client := ChatStore.SendMessage(st, ChatStore.Answered(sent.response.body.message));
              && client.requests == [ChatStore.Send(peer)]
              && client.state.messages == st.messages + [sent.state.messages[|s.messages|]]
              && client.state.messages[|st.messages|].id == |s.messages|
              && client.state.messages[|st.messages|].receiverId == peer
  {
  }

  /**
   * Selecting a contact: the store records the selection and issues the
   * mark-read request; once the server answers it, the server's counter and
   * the client's badge for that contact are both gone, and the selection
   * stays.
   */
  lemma SelectingClearsBadge(s: Server, st: ChatStore.ClientState, me: UserId, peer: PublicUser)
    requires me in s.users
    ensures var selected := ChatStore.SetSelectedUser(st, Some(peer));
              var served := MarkMessagesAsRead(s, me, peer.id);
              var client := ChatStore.MarkMessagesAsRead(selected.state, peer.id, ChatStore.Answered(()));
              && selected.requests == [ChatStore.MarkRead(peer.id)]
              && served.response.status == 200
              && CountOf(served.state.users[me].unreadCounts, peer.id) == 0
              && client.state.selectedUser == Some(peer)
              && Sidebar.Badge(client.state.unreadCounts, peer.id).None?
  {
  }
}
