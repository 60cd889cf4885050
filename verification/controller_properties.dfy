/**
 * Properties of the server handlers that relate several calls, or a call
 * and the store invariant.
 */
module ControllerProperties {
  import opened Wrappers
  import opened Js
  import opened UserModel
  import opened MessageModel
  import opened Events
  import opened MessageController

  /** A valid store lists its messages by increasing id. */
  lemma ValidStoreIsOrdered(s: Server)
    requires Valid(s)
    ensures IdsIncreasing(s.messages)
  {
  }

  /**
   * In a valid store the conversation holds exactly the messages exchanged
   * between the two users, each once, in store order.
   */
  lemma ConversationIsExact(s: Server, me: UserId, peer: UserId)
    requires Valid(s)
    ensures var conv := ConversationOf(s.messages, me, peer);
              && IdsIncreasing(conv)
              && (forall i :: 0 <= i < |s.messages| ==>
                    (s.messages[i] in conv <==> Between(s.messages[i], me, peer)))
  {
    ValidStoreIsOrdered(s);
    ConversationKeepsStoreOrder(s.messages, me, peer);
  }

  /** Opening a conversation keeps the state valid. */
  lemma GetMessagesKeepsValid(s: Server, me: UserId, peer: UserId)
    requires Valid(s)
    ensures Valid(GetMessages(s, me, peer).state)
  {
  }

  /** Sending keeps the state valid: the new message is consistent and numbered next. */
  lemma SendMessageKeepsValid(s: Server, me: UserId, receiverId: UserId, text: StringField,
                              image: StringField, isViewOnce: Value, upload: string -> string)
    requires Valid(s)
    ensures Valid(SendMessage(s, me, receiverId, text, image, isViewOnce, upload).state)
  {
    var r := SendMessage(s, me, receiverId, text, image, isViewOnce, upload);
    forall i | 0 <= i < |r.state.messages|
      ensures r.state.messages[i].id == i && Consistent(r.state.messages[i])
    {
      if i < |s.messages| {
        assert r.state.messages[i] == r.state.messages[..|s.messages|][i];
      }
    }
  }

  /** Marking a conversation read keeps the state valid. */
  lemma MarkMessagesAsReadKeepsValid(s: Server, me: UserId, other: UserId)
    requires Valid(s)
    ensures Valid(MarkMessagesAsRead(s, me, other).state)
  {
  }

  /** Pinning keeps the state valid; in particular no pinned list gains a duplicate. */
  lemma PinChatKeepsValid(s: Server, me: UserId, chatId: UserId)
    requires Valid(s)
    ensures Valid(PinChat(s, me, chatId).state)
  {
  }

  /** Unpinning keeps the state valid. */
  lemma UnpinChatKeepsValid(s: Server, me: UserId, chatId: UserId)
    requires Valid(s)
    ensures Valid(UnpinChat(s, me, chatId).state)
  {
  }

  /** Viewing keeps the state valid: the second save leaves the snapshot alone. */
  lemma MarkMessageAsViewedKeepsValid(s: Server, me: UserId, messageId: MessageId)
    requires Valid(s)
    ensures Valid(MarkMessageAsViewed(s, me, messageId).state)
  {
    if messageId < |s.messages| {
      ResaveKeepsSnapshot(s.messages[messageId], true);
    }
  }

  /** Zeroing a counter that is already zero changes nothing. */
  lemma SetCounterTwice(users: map<UserId, User>, owner: UserId, peer: UserId)
    requires owner in users
    ensures var once := SetCounter(users, owner, peer, 0);
              SetCounter(once, owner, peer, 0) == once
  {
    var once := SetCounter(users, owner, peer, 0);
    var counts := once[owner].unreadCounts;
    assert counts[peer := 0] == counts;
    assert once[owner].(unreadCounts := counts) == once[owner];
  }

  /** Opening the same conversation twice is the same as opening it once. */
  lemma GetMessagesIdempotent(s: Server, me: UserId, peer: UserId)
    ensures var once := GetMessages(s, me, peer);
              GetMessages(once.state, me, peer) == once
  {
    if me in s.users {
      SetCounterTwice(s.users, me, peer);
    }
  }

  /** Marking the same conversation read twice is the same as once. */
  lemma MarkMessagesAsReadIdempotent(s: Server, me: UserId, other: UserId)
    ensures var once := MarkMessagesAsRead(s, me, other);
              MarkMessagesAsRead(once.state, me, other) == once
  {
    if me in s.users {
      SetCounterTwice(s.users, me, other);
    }
  }

  /** A repeated pin changes nothing and answers the same list. */
  lemma PinChatIdempotent(s: Server, me: UserId, chatId: UserId)
    ensures var once := PinChat(s, me, chatId);
              PinChat(once.state, me, chatId) == once
  {
  }

  /** A repeated unpin changes nothing and answers the same list. */
  lemma UnpinChatIdempotent(s: Server, me: UserId, chatId: UserId)
    ensures var once := UnpinChat(s, me, chatId);
              UnpinChat(once.state, me, chatId) == once
  {
  }

  /** Pinning an absent chat leaves exactly one occurrence of it at the end. */
  lemma PinAppendsOnce(s: Server, me: UserId, chatId: UserId)
    requires me in s.users
    requires chatId !in s.users[me].pinnedChats
    ensures var after := PinChat(s, me, chatId).state.users[me].pinnedChats;
              && multiset(after)[chatId] == 1
              && after[..|after| - 1] == s.users[me].pinnedChats
  {
    var before := s.users[me].pinnedChats;
    assert multiset(before)[chatId] == 0;
    assert (before + [chatId])[..|before|] == before;
  }

  /**
   * Only the receiver can flip `isViewed`, only on the requested message,
   * and only from false to true; a flipped flag never goes back.
   */
  lemma ViewedFlipsOnlyForReceiver(s: Server, me: UserId, messageId: MessageId, i: nat)
    requires i < |s.messages|
    ensures var after := MarkMessageAsViewed(s, me, messageId).state.messages[i];
              && (s.messages[i].isViewed ==> after.isViewed)
              && (after.isViewed != s.messages[i].isViewed ==>
                    i == messageId && s.messages[i].receiverId == me
                    && s.messages[i].isViewOnce && !s.messages[i].isViewed)
  {
  }

  /** A sender asking to view their own message sent to someone else is refused, unchanged. */
  lemma SenderCannotView(s: Server, me: UserId, messageId: MessageId)
    requires messageId < |s.messages|
    requires s.messages[messageId].senderId == me
    requires s.messages[messageId].receiverId != me
    ensures MarkMessageAsViewed(s, me, messageId) == Step(s, Forbidden, [])
  {
  }

  /**
   * After the one-shot transition, asking again changes nothing and emits
   * nothing; the answer is the stored message as it is, with its live text.
   */
  lemma SecondViewIsSilent(s: Server, me: UserId, messageId: MessageId)
    requires messageId < |s.messages|
    requires s.messages[messageId].receiverId == me
    requires s.messages[messageId].isViewOnce && !s.messages[messageId].isViewed
    ensures var first := MarkMessageAsViewed(s, me, messageId);
              var second := MarkMessageAsViewed(first.state, me, messageId);
              && second.state == first.state
              && second.events == []
              && second.response == Response(200, One(first.state.messages[messageId]))
              && second.response.body.message.text == s.messages[messageId].text
  {
  }

  /** The snapshot taken at send time survives the view. */
  lemma ViewKeepsSnapshot(s: Server, me: UserId, messageId: MessageId)
    requires Valid(s)
    requires messageId < |s.messages|
    ensures MarkMessageAsViewed(s, me, messageId).state.messages[messageId].originalContent
              == s.messages[messageId].originalContent
  {
    ResaveKeepsSnapshot(s.messages[messageId], true);
  }

  /**
   * In a valid store the view transition tells the receiver "**" with no
   * image, on the receiver's socket, and then tells the sender the message's
   * real content, on the sender's socket; each only when connected.
   */
  lemma ViewEventsAreRoleSpecific(s: Server, messageId: MessageId)
    requires Valid(s)
    requires messageId < |s.messages|
    requires s.messages[messageId].isViewOnce && !s.messages[messageId].isViewed
    ensures var m := s.messages[messageId];
              MarkMessageAsViewed(s, m.receiverId, messageId).events
                == EmitTo(s.presence, m.receiverId, MessageViewed(messageId, ViewedContent(Str(Mask), Null, true)))
                 + EmitTo(s.presence, m.senderId, MessageViewed(messageId, ViewedContent(m.text, m.image, true)))
  {
    var m := s.messages[messageId];
    ResaveKeepsSnapshot(m, true);
    SenderContentIsLiveContent(m.(isViewed := true));
  }

  /** Both parties are told when both are connected: "**" to the receiver first, then the content to the sender. */
  lemma ViewNotifiesBothWhenOnline(s: Server, messageId: MessageId)
    requires Valid(s)
    requires messageId < |s.messages|
    requires s.messages[messageId].isViewOnce && !s.messages[messageId].isViewed
    requires SocketOf(s.presence, s.messages[messageId].receiverId).Some?
    requires SocketOf(s.presence, s.messages[messageId].senderId).Some?
    ensures var m := s.messages[messageId];
              var evs := MarkMessageAsViewed(s, m.receiverId, messageId).events;
              && |evs| == 2
              && evs[0].socket == s.presence[m.receiverId]
              && evs[0].payload == MessageViewed(messageId, ViewedContent(Str(Mask), Null, true))
              && evs[1].socket == s.presence[m.senderId]
              && evs[1].payload == MessageViewed(messageId, ViewedContent(m.text, m.image, true))
  {
    ViewEventsAreRoleSpecific(s, messageId);
  }

  /**
   * The receiver of a viewed view-once message gets "**" and no image from
   * `getMessages`, even when they also sent it.
   */
  lemma ViewedIsMaskedForReceiver(m: Message, me: UserId)
    requires m.isViewOnce && m.isViewed && m.receiverId == me
    ensures ViewFor(m, me).text == Str(Mask) && ViewFor(m, me).image == Null
  {
  }

  /**
   * In a valid store the sender of a view-once message always gets it back
   * unaltered, unless they sent it to themselves and already viewed it.
   */
  lemma SenderSeesOriginal(s: Server, me: UserId, i: nat)
    requires Valid(s)
    requires i < |s.messages|
    requires s.messages[i].senderId == me
    requires !(s.messages[i].isViewed && s.messages[i].receiverId == me)
    ensures ViewFor(s.messages[i], me) == s.messages[i]
  {
    SenderContentIsLiveContent(s.messages[i]);
  }

  /**
   * The masked answers leave `originalContent` in place: a client that reads
   * the raw JSON still finds the original text there.
   */
  lemma MaskedAnswerKeepsSnapshot(s: Server, me: UserId, peer: UserId, i: nat)
    requires Valid(s)
    requires me in s.users
    requires i < |ConversationOf(s.messages, me, peer)|
    ensures var shown := GetMessages(s, me, peer).response.body.messages;
              var m := ConversationOf(s.messages, me, peer)[i];
              shown[i].originalContent == m.originalContent
              && (m.isViewOnce ==> shown[i].originalContent == Some(Snapshot(m.text, m.image)))
  {
    var m := ConversationOf(s.messages, me, peer)[i];
    assert m in s.messages;
  }

  /** Reading a conversation right after a send clears the counter the send raised. */
  lemma SendThenReadClears(s: Server, sender: UserId, receiver: UserId, text: StringField,
                           image: StringField, isViewOnce: Value, upload: string -> string)
    requires receiver in s.users
    ensures var sent := SendMessage(s, sender, receiver, text, image, isViewOnce, upload);
              && CountOf(sent.state.users[receiver].unreadCounts, sender)
                   == CountOf(s.users[receiver].unreadCounts, sender) + 1
              && CountOf(MarkMessagesAsRead(sent.state, receiver, sender).state.users[receiver].unreadCounts, sender) == 0
              && CountOf(GetMessages(sent.state, receiver, sender).state.users[receiver].unreadCounts, sender) == 0
  {
  }

  /**
   * Opening a conversation resets one counter only: every other counter of
   * every user reads as before.
   */
  lemma GetMessagesKeepsOtherCounts(s: Server, me: UserId, peer: UserId, u: UserId, p: UserId)
    requires u in s.users
    requires u != me || p != peer
    ensures var after := GetMessages(s, me, peer).state.users;
              u in after && CountOf(after[u].unreadCounts, p) == CountOf(s.users[u].unreadCounts, p)
  {
  }

  /** Marking read resets one counter only. */
  lemma MarkMessagesAsReadKeepsOtherCounts(s: Server, me: UserId, other: UserId, u: UserId, p: UserId)
    requires u in s.users
    requires u != me || p != other
    ensures var after := MarkMessagesAsRead(s, me, other).state.users;
              u in after && CountOf(after[u].unreadCounts, p) == CountOf(s.users[u].unreadCounts, p)
  {
  }

  /** A send raises the receiver's counter for the sender and no other counter. */
  lemma SendMessageKeepsOtherCounts(s: Server, me: UserId, receiverId: UserId, text: StringField,
                                    image: StringField, isViewOnce: Value, upload: string -> string,
                                    u: UserId, p: UserId)
    requires u in s.users
    requires u != receiverId || p != me
    ensures var after := SendMessage(s, me, receiverId, text, image, isViewOnce, upload).state.users;
              u in after && CountOf(after[u].unreadCounts, p) == CountOf(s.users[u].unreadCounts, p)
  {
  }

  /** Pinning and unpinning touch no counter of any user. */
  lemma PinningKeepsCounts(s: Server, me: UserId, chatId: UserId, u: UserId)
    requires u in s.users
    ensures u in PinChat(s, me, chatId).state.users
    ensures u in UnpinChat(s, me, chatId).state.users
    ensures PinChat(s, me, chatId).state.users[u].unreadCounts == s.users[u].unreadCounts
    ensures UnpinChat(s, me, chatId).state.users[u].unreadCounts == s.users[u].unreadCounts
  {
  }

  /**
   * The content the sender's `messageViewed` event carries is what the sender
   * gets by fetching the conversation again, except for a message sent to
   * oneself: the fetch masks it, while the event still carries the content.
   */
  lemma SenderEventMatchesFetch(s: Server, messageId: MessageId)
    requires Valid(s)
    requires messageId < |s.messages|
    requires s.messages[messageId].isViewOnce && !s.messages[messageId].isViewed
    ensures var m := s.messages[messageId];
              var v := MarkMessageAsViewed(s, m.receiverId, messageId).state.messages[messageId];
              var shown := ViewFor(v, m.senderId);
              && SenderPatch(v) == ViewedContent(m.text, m.image, true)
              && (m.senderId != m.receiverId ==> shown.text == m.text && shown.image == m.image)
              && (m.senderId == m.receiverId ==> shown.text == Str(Mask) && shown.image == Null)
  {
    var m := s.messages[messageId];
    ResaveKeepsSnapshot(m, true);
    SenderContentIsLiveContent(m.(isViewed := true));
  }
}
