# LetsChat message lifecycle, in Dafny

This project models the message lifecycle of LetsChat, a one-to-one web chat. The lifecycle runs from sending a message, through unread counting and pinning, to the one-shot "view once" transition. The model has three layers:

- **The server engine** (`MessageController`, over `MessageModel` and `UserModel`).
  - Every state-changing request handler is a pure transition, `Step(state, response, events)`. `GetUsersForSidebar` only reads, so it returns a bare `Response`.
  - The state holds:
    - the message collection, where a message's id is its position in the store;
    - the user directory;
    - the presence map from user to live socket.
  - The response is an HTTP status and body.
  - The events are the socket emissions, in the order they are sent.
  - The Mongoose `pre("save")` hook is modelled as written: `PreSave` takes a snapshot of `originalContent` only when none exists. So does the schema's validation and defaulting (`Create`, `NewUser`, `Insert`).
  - `Valid` is the store invariant, and every handler keeps it. Under `Valid`:
    - each message's id equals its position;
    - every view-once message carries the snapshot of its own content;
    - users are well formed and emails are unique.
- **The browser chat store** (`ChatStore`). It is a second state machine over the message list, the local unread counters, the pinned list and the selected contact.
  - Each action is split into the requests it issues and the update applied when the HTTP answer (`Http`) arrives.
  - The two socket handlers are `OnNewMessage` and `OnMessageViewed`.
- **Two views** (`Sidebar` and `ChatContainer`):
  - the contact list: online filter, pinned-first partition, and a stable descending sort by unread count;
  - the chat bubble's hide, mask, alignment, label and click rules.

`Js` models the few JavaScript rules the code relies on:

- truthiness;
- `||`;
- what `{...msg, ...patch}` does with a field that was `undefined` before JSON serialisation dropped it.

`Lifecycle` connects the layers. It covers:

- over any sequence of requests, a receiver's counter for a sender is the number of that sender's messages since the receiver last opened the chat or marked it read;
- a worked send → open → view → sender-reads scenario;
- the click on a hidden bubble issues the request that the server turns into the one-shot transition;
- what each side's client shows after the `messageViewed` patch;
- the pin toggle keeps the client's list in step with the server's;
- after opening a conversation, the client's list is the server's conversation redacted for the requester; after opening it or marking it read, the client's badge and the server's counter for that contact both read 0;
- selecting a contact issues the mark-read request, after which both sides' counters for it read 0;
- after sending, the message the client appends is the one the server stored.

Behaviours of the code worth knowing:

- **Repeated view.** A second `markMessageAsViewed` on an already viewed message returns the stored message as it is (backend/src/controllers/message.controller.js:225). That message still has its live text, so it is not a redacted copy. `SecondViewIsSilent` states this.
- **Masked answers keep the snapshot.** The masked responses of `getMessages` and `markMessageAsViewed` spread the whole document, so they still carry `originalContent` (`MaskedAnswerKeepsSnapshot`).
- **Self-sent messages.** The receiver branch of the redaction is evaluated before the sender branch. A viewed view-once message sent to oneself is therefore masked even for its sender (`ViewFor`, `SenderSeesOriginal`).
- **The client's counter.** The client ignores the `unreadCount` the server sends with `newMessage` and increments its own local counter instead (`OnNewMessage`).
- **Client counters are never loaded.** The client's counters start empty (frontend/src/store/useChatStore.js:15). They are written only by zeroing after a fetch or mark-read (lines 40 and 69) and by the local increment (line 109). None of these loads the server's counts. So the client and the server are guaranteed to agree on a contact's counter only right after that contact's chat was opened or marked read. They diverge when:
  - a message arrives from the open contact: the client's badge stays at 0 while the server adds 1 (`LiveMessageReachesOpenChat`);
  - a message arrives while the receiver is offline or before the socket handler is installed: the server counts it and the client never does;
  - the page is loaded while the server holds non-zero counts: the client starts from empty counters.

## Model

| member | source | states |
|---|---|---|
| UserModel.WithoutPassword | backend/src/controllers/message.controller.js:12 | the public record keeps every field of the user except the password |
| UserModel.FailingPaths | backend/src/models/user.model.js:5-18 | a path fails validation iff its value is missing: empty email, empty full name, or a password shorter than 6 |
| UserModel.NewUser | backend/src/models/user.model.js:5-33 | a user is created iff email and full name are present and the password has at least 6 characters; an error names exactly the failing paths; profilePic defaults to "", pinnedChats to [] and unreadCounts to the empty map |
| UserModel.Insert | backend/src/models/user.model.js:5-9 | insertion fails iff the id or the email is already taken (unique index); otherwise exactly the new user is added |
| UserModel.InsertKeepsDirectoryWellFormed | backend/src/models/user.model.js:5-33 | registering a schema-valid user keeps every user well formed and every email unique |
| MessageModel.Create | backend/src/models/message.model.js:5-28 | a new message has the given sender, receiver and content; isViewOnce defaults to false; isViewed starts false; there is no snapshot yet |
| MessageModel.PreSave | backend/src/models/message.model.js:38-46 | a view-once message without a snapshot gets exactly {text, image} as it stands; an existing snapshot, or a message that is not view-once, is left as it is; no other field changes |
| MessageModel.FirstSaveIsConsistent | backend/src/models/message.model.js:38-44 | the first save of a new message establishes the store invariant |
| MessageModel.ResaveKeepsSnapshot | backend/src/models/message.model.js:39 | saving again after isViewed changes never overwrites the snapshot |
| MessageModel.SenderText | backend/src/controllers/message.controller.js:54 | with no snapshot, or a falsy snapshot text, the sender gets the live text; a truthy snapshot text wins; the result is truthy iff either is |
| MessageModel.SenderImage | backend/src/controllers/message.controller.js:55 | with no snapshot, or a falsy snapshot image, the sender gets the live image; a truthy snapshot image wins; the result is truthy iff either is |
| MessageModel.SenderContentIsLiveContent | backend/src/controllers/message.controller.js:54-55 | for a consistent message, or one with no snapshot, the snapshot-or-live fallback yields the live content |
| Js.Or | backend/src/controllers/message.controller.js:54-55 | JavaScript's logical or of a and b is a when a is truthy and b otherwise; the result is truthy iff either operand is |
| Js.Spread | frontend/src/store/useChatStore.js:141 | a patch field that was undefined leaves the old field in place; any other patch value replaces it |
| MessageController.SocketOf | backend/src/controllers/message.controller.js:103-104 | a user is reachable iff they are in the presence map with a non-empty socket id, and then on that socket |
| MessageController.EmitTo | backend/src/controllers/message.controller.js:103-110 | an offline user (no truthy socket id) gets no event; an online one gets exactly one, on their socket |
| MessageController.GetUsersForSidebar | backend/src/controllers/message.controller.js:7-19 | answers 200 with every user except the requester, each without a password |
| MessageController.ConversationOf | backend/src/controllers/message.controller.js:26-31 | a message is in the result iff it is in the store and goes between the two users, in either direction |
| MessageController.ConversationOfAppend | backend/src/controllers/message.controller.js:26-31 | the query distributes over concatenation of the store, so it never reorders messages |
| MessageController.ConversationKeepsStoreOrder | backend/src/controllers/message.controller.js:26-31 | filtering a store ordered by id gives a result ordered by id |
| MessageController.ViewFor | backend/src/controllers/message.controller.js:34-60 | only text and image can change. The receiver of a viewed view-once message gets "**" and null; otherwise the sender of a view-once message gets the snapshot-or-live fallback. A message that is not view-once is returned unchanged, and so is a view-once one that the viewer did not send and that is not a viewed one addressed to them |
| MessageController.SetCounterSets | backend/src/controllers/message.controller.js:64 | setting a counter changes exactly the owner's key for that peer; every other key, field and user is unchanged |
| MessageController.GetMessages | backend/src/controllers/message.controller.js:21-72 | answers 200 with the conversation, each message redacted for the requester, and resets only the requester's counter for the peer; an unknown requester gets 500 and no change |
| MessageController.UploadedImage | backend/src/controllers/message.controller.js:80-84 | a truthy image is stored as the upload's URL; otherwise no image is stored |
| MessageController.SendMessage | backend/src/controllers/message.controller.js:74-117 | appends one message, numbered next, with isViewOnce coerced to Boolean and its snapshot taken. An unknown receiver gets 500 with the message kept. Otherwise the answer is 201 and the receiver's counter becomes its old value (absent = 0) + 1, nothing else changing. A `newMessage` event carrying that stored value is emitted iff the receiver is online |
| MessageController.MarkMessagesAsRead | backend/src/controllers/message.controller.js:119-134 | sets only the requester's counter for the peer to 0 and answers "Messages marked as read"; an unknown requester gets 500 and no change |
| MessageController.PinChat | backend/src/controllers/message.controller.js:136-149 | the id is appended only if absent, so a repeated pin changes nothing and a duplicate-free list stays duplicate-free; the answer is the new list; an unknown user gets 500 "Failed to pin chat" |
| MessageController.UnpinChat | backend/src/controllers/message.controller.js:151-164 | every occurrence of the id is removed and no other entry is touched; removing an absent id changes nothing; the answer is the new list; an unknown user gets 500 "Failed to unpin chat" |
| MessageController.MarkMessageAsViewed | backend/src/controllers/message.controller.js:166-230 | a missing message gets 404 and a non-receiver 403, each with no change. An unviewed view-once message becomes viewed (after a re-save): the answer is masked, and "**" goes to the receiver's socket and then the content to the sender's. Otherwise the stored message comes back unchanged with no event |
| Seqs.RemoveAll | backend/src/controllers/message.controller.js:156-158 | the element is gone and every other element keeps its multiplicity |
| Seqs.RemoveAllAppend | backend/src/controllers/message.controller.js:156-158 | removal distributes over concatenation, so the survivors keep their relative order |
| Seqs.RemoveAllAbsent | backend/src/controllers/message.controller.js:156-158 | removing an id that is not listed leaves the list unchanged |
| Seqs.RemoveAllNoDups | backend/src/controllers/message.controller.js:156-158 | removal keeps a duplicate-free list duplicate-free |
| ControllerProperties.ConversationIsExact | backend/src/controllers/message.controller.js:26-31 | in a valid store the conversation holds exactly the messages between the two users, in store order |
| ControllerProperties.GetMessagesKeepsValid | backend/src/controllers/message.controller.js:21-72 | opening a conversation keeps the store invariant |
| ControllerProperties.SendMessageKeepsValid | backend/src/controllers/message.controller.js:86-94 | sending keeps the store invariant |
| ControllerProperties.MarkMessagesAsReadKeepsValid | backend/src/controllers/message.controller.js:119-134 | marking read keeps the store invariant |
| ControllerProperties.PinChatKeepsValid | backend/src/controllers/message.controller.js:141-145 | pinning keeps the invariant, including duplicate-free pinned lists |
| ControllerProperties.UnpinChatKeepsValid | backend/src/controllers/message.controller.js:156-159 | unpinning keeps the store invariant |
| ControllerProperties.MarkMessageAsViewedKeepsValid | backend/src/controllers/message.controller.js:182-184 | the view transition keeps the store invariant |
| ControllerProperties.GetMessagesIdempotent | backend/src/controllers/message.controller.js:63-65 | opening a conversation twice gives the same state and answer as opening it once |
| ControllerProperties.MarkMessagesAsReadIdempotent | backend/src/controllers/message.controller.js:125-127 | marking read twice is the same as once |
| ControllerProperties.PinChatIdempotent | backend/src/controllers/message.controller.js:141-145 | a second pin changes nothing and gives the same answer |
| ControllerProperties.UnpinChatIdempotent | backend/src/controllers/message.controller.js:156-160 | a second unpin changes nothing and gives the same answer |
| ControllerProperties.PinAppendsOnce | backend/src/controllers/message.controller.js:141-142 | pinning an absent id puts exactly one occurrence at the end and keeps the earlier entries |
| ControllerProperties.ViewedFlipsOnlyForReceiver | backend/src/controllers/message.controller.js:178-184 | isViewed never goes back to false, and it changes only on the requested message, only for its receiver, and only from unviewed |
| ControllerProperties.SenderCannotView | backend/src/controllers/message.controller.js:178-180 | a sender asking to view their own message to someone else gets 403 and nothing changes |
| ControllerProperties.SecondViewIsSilent | backend/src/controllers/message.controller.js:182-225 | after the transition, a second request changes nothing, emits nothing, and returns the stored message with its live text |
| ControllerProperties.ViewKeepsSnapshot | backend/src/controllers/message.controller.js:183-184 | the snapshot taken at send time survives the view |
| ControllerProperties.ViewEventsAreRoleSpecific | backend/src/controllers/message.controller.js:186-215 | the events are exactly a `messageViewed` with "**", null and isViewed set to the receiver's socket when the receiver is online, followed by one with the message's true text and image to the sender's socket when the sender is online |
| ControllerProperties.ViewNotifiesBothWhenOnline | backend/src/controllers/message.controller.js:209-215 | with both parties online, exactly two events go out: the masked one ("**", null) to the receiver's socket first, then the true text and image to the sender's |
| ControllerProperties.ViewedIsMaskedForReceiver | backend/src/controllers/message.controller.js:40-49 | the receiver of a viewed view-once message gets "**" and no image, even when they sent it |
| ControllerProperties.SenderSeesOriginal | backend/src/controllers/message.controller.js:50-57 | in a valid store the sender gets their view-once message with its original content, except a self-sent message they have already viewed |
| ControllerProperties.MaskedAnswerKeepsSnapshot | backend/src/controllers/message.controller.js:44-48 | a redacted message in the answer still carries originalContent, which holds the original text and image |
| ControllerProperties.GetMessagesKeepsOtherCounts | backend/src/controllers/message.controller.js:63-65 | opening a conversation leaves every counter other than the requester's for that peer as it was, for every user |
| ControllerProperties.MarkMessagesAsReadKeepsOtherCounts | backend/src/controllers/message.controller.js:125-127 | marking read leaves every counter other than the requester's for that peer as it was, for every user |
| ControllerProperties.SendMessageKeepsOtherCounts | backend/src/controllers/message.controller.js:97-101 | a send leaves every counter other than the receiver's for the sender as it was, for every user |
| ControllerProperties.PinningKeepsCounts | backend/src/controllers/message.controller.js:136-164 | pinning and unpinning leave every user's counters as they were |
| ControllerProperties.SenderEventMatchesFetch | backend/src/controllers/message.controller.js:50-57 | the sender's `messageViewed` event carries the message's true text and image, which is what a fresh fetch shows the sender, except for a message sent to oneself, which the fetch masks |
| ControllerProperties.SendThenReadClears | backend/src/controllers/message.controller.js:97-101 | a send raises the receiver's counter by one, and a following read or fetch by the receiver clears it to 0 |
| ChatStore.GetMessages | frontend/src/store/useChatStore.js:33-50 | on success the list becomes the answer and only the peer's counter becomes 0; on failure nothing changes; pins and selection are kept |
| ChatStore.SendMessage | frontend/src/store/useChatStore.js:52-63 | with a contact selected, the server's stored message is appended to the list held when the send began and a failure changes nothing; with no selection no request leaves |
| ChatStore.MarkMessagesAsRead | frontend/src/store/useChatStore.js:65-77 | the local counter is zeroed only after the server agrees, and only for that peer; a failure leaves the state unchanged |
| ChatStore.PinChat | frontend/src/store/useChatStore.js:79-86 | on success the pinned list becomes the server's list with nothing else changed; on failure nothing changes |
| ChatStore.UnpinChat | frontend/src/store/useChatStore.js:87-94 | on success the pinned list becomes the server's list with nothing else changed; on failure nothing changes |
| ChatStore.OnNewMessage | frontend/src/store/useChatStore.js:102-134 | a message from anyone but the subscribed contact raises only that sender's local counter (absent = 0) and leaves the list alone; one from the subscribed contact is appended and no counter changes |
| ChatStore.ApplyPatch | frontend/src/store/useChatStore.js:141 | the patch sets isViewed and, where present, text and image; id, parties, view-once flag and snapshot are kept |
| ChatStore.OnMessageViewed | frontend/src/store/useChatStore.js:136-144 | only messages with the matching id are patched; the list length and every other message are preserved |
| ChatStore.OnEvent | frontend/src/store/useChatStore.js:102-144 | a `newMessage` event goes to the `newMessage` handler and a `messageViewed` event to the patch handler; neither touches the pinned list or the selection, and a `messageViewed` changes no counter and no list length |
| ChatStore.SetSelectedUser | frontend/src/store/useChatStore.js:153-158 | selecting a contact issues its mark-read request and records the selection; clearing it issues nothing |
| ChatStore.OnMessageViewedIdempotent | frontend/src/store/useChatStore.js:136-144 | a repeated `messageViewed` with the same patch changes nothing more |
| ChatStore.OtherSendersOnlyCount | frontend/src/store/useChatStore.js:104-113 | a run of messages from contacts other than the open one leaves the conversation alone, raises each sender's counter by the number of their messages, and leaves the open contact's counter alone |
| Sidebar.Activity | frontend/src/components/Sidebar.jsx:32 | a contact's activity is their unread counter, 0 when absent, and positive iff they carry a badge |
| Sidebar.KeepMembers | frontend/src/components/Sidebar.jsx:36-39 | a user is kept iff they are in the input and the id's membership matches the side asked for |
| Sidebar.KeepSplits | frontend/src/components/Sidebar.jsx:35-40 | the pinned and unpinned sides together hold every user exactly as often as the input does |
| Sidebar.KeepAppend | frontend/src/components/Sidebar.jsx:35-40 | the filter distributes over concatenation, so the kept users keep their order |
| Sidebar.FilteredUsers | frontend/src/components/Sidebar.jsx:26-28 | with "online only" off, every user is listed; with it on, exactly the users whose id is online, in their original order and multiplicity |
| Sidebar.Insert | frontend/src/components/Sidebar.jsx:37 | insertion adds exactly one entry and loses none |
| Sidebar.InsertKeepsOrder | frontend/src/components/Sidebar.jsx:37 | inserting into a list ordered by descending activity keeps it ordered |
| Sidebar.SortByActivity | frontend/src/components/Sidebar.jsx:32-40 | the result is a permutation of the group, and activity (unread count, absent = 0) never increases from front to back |
| Sidebar.InsertIsStable | frontend/src/components/Sidebar.jsx:37 | insertion places the new entry after every existing entry of the same activity |
| Sidebar.SortIsStable | frontend/src/components/Sidebar.jsx:37-40 | for every activity value, the sorted group lists the users of that value exactly as the input does, in the same order |
| Sidebar.Arrange | frontend/src/components/Sidebar.jsx:35-40 | the pinned group holds only pinned contacts and the other only unpinned ones, each ordered by descending activity |
| Sidebar.ArrangeIsPermutation | frontend/src/components/Sidebar.jsx:35-41 | `sortedUsers` is a permutation of `filteredUsers` |
| Sidebar.ArrangePinnedFirst | frontend/src/components/Sidebar.jsx:41 | every pinned contact precedes every unpinned one |
| Sidebar.ArrangeIsStable | frontend/src/components/Sidebar.jsx:37-40 | within each group, ties keep their order from the user list |
| Sidebar.Render | frontend/src/components/Sidebar.jsx:26-41 | the rows are exactly the pinned-first, activity-ordered arrangement of the filtered users, so a permutation of them; the "Pinned" heading shows iff a pinned row exists, and "Chats" iff both groups are non-empty; "No online users" shows iff the filtered list is empty |
| Sidebar.Badge | frontend/src/components/Sidebar.jsx:108-112 | a badge with the count shows iff the contact's counter is positive |
| Sidebar.PinToggle | frontend/src/components/Sidebar.jsx:118-131 | the toggle asks to unpin iff the contact is pinned, and to pin otherwise |
| Sidebar.PinLabel | frontend/src/components/Sidebar.jsx:133-135 | the label reads "Unpin chat" iff the toggle would unpin |
| ChatContainer.ShouldHideContent | frontend/src/components/ChatContainer.jsx:74-76 | content is hidden only from the receiver of a view-once message, and from them iff it has not been viewed |
| ChatContainer.IsViewedOnce | frontend/src/components/ChatContainer.jsx:77 | a message counts as viewed-once only if it is view-once, and a view-once message does iff it was viewed |
| ChatContainer.Render | frontend/src/components/ChatContainer.jsx:74-144 | the bubble offers "Click to view" iff the message is view-once, unviewed and the viewer is its receiver. A viewed view-once message shows "**" and no image. Otherwise the image shows iff it is truthy, and the text iff it is non-empty |
| ChatContainer.Alignment | frontend/src/components/ChatContainer.jsx:82-84 | a bubble sits at the chat end iff the viewer sent it |
| ChatContainer.Label | frontend/src/components/ChatContainer.jsx:103-111 | a label shows iff the message is view-once; it reads "Viewed" iff it was viewed and "View once" otherwise |
| ChatContainer.OnClick | frontend/src/components/ChatContainer.jsx:24-37 | a click requests the view of this message iff its content is hidden; otherwise nothing happens |
| ChatContainer.PlainMessagesShowContent | frontend/src/components/ChatContainer.jsx:131-141 | a message that is not view-once is never hidden, masked, labelled or clickable |
| ChatContainer.ViewedNeverShowsContent | frontend/src/components/ChatContainer.jsx:77-142 | a viewed view-once message shows "**" without its image to every viewer, and a click does nothing |
| Lifecycle.HandleCounts | backend/src/controllers/message.controller.js:97-101 | any one request other than the receiver opening or marking read the chat raises the receiver's counter for the sender by one if it is a send from that sender to that receiver and leaves it unchanged otherwise; only a send grows the store, by one |
| Lifecycle.RunKeepsUsers | backend/src/controllers/message.controller.js:21-230 | no sequence of requests adds or removes a user |
| Lifecycle.UnreadCountsEverySend | backend/src/controllers/message.controller.js:97-101 | over any sequence of requests with differing content and any unrelated traffic, in which the receiver never opens or marks read the chat, the counter rises by exactly the number of sends from that sender to that receiver, and the store grows by the number of all sends in the sequence, whoever they are between |
| Lifecycle.UnreadCountsSinceLastRead | backend/src/controllers/message.controller.js:63-64 | after a read or fetch of the chat by the receiver followed by any traffic without another, the counter equals the number of sends from the sender since that read |
| Lifecycle.SelectingClearsBadge | frontend/src/store/useChatStore.js:153-158 | selecting a contact records it and issues the mark-read request; once the server answers, the server's counter is 0 and the client shows no badge for the contact |
| Lifecycle.ViewOnceWalkThrough | backend/src/controllers/message.controller.js:21-230 | "u1" sends "hi" once-only to "u2". The send answers 201 and u2's counter is 1. u2 opens the chat, sees "hi", and the counter returns to 0. u2's view answers "**". u1 then still reads "hi" |
| Lifecycle.HiddenUntilClicked | frontend/src/components/ChatContainer.jsx:24-37 | an unviewed view-once message fetched by its receiver is hidden; the click requests exactly its view, and the server then marks it viewed |
| Lifecycle.ReceiverClientMasksAfterView | frontend/src/store/useChatStore.js:136-144 | the receiver's client, patched by the masked event, holds "**" and null and draws the masked bubble |
| Lifecycle.SenderClientKeepsButMasks | frontend/src/store/useChatStore.js:136-144 | the sender's client, patched by the sender's event, keeps the true content yet draws the masked bubble |
| Lifecycle.PinToggleFlips | frontend/src/components/Sidebar.jsx:118-123 | one toggle, served by the server, flips the contact's pinned state, and the client adopts the server's list |
| Lifecycle.LiveMessageReachesOpenChat | frontend/src/store/useChatStore.js:131-133 | the `newMessage` event for an online receiver appends the saved message to the sender's open chat without touching counters, and carries the counter the server stored |
| Lifecycle.OpenConversationAgrees | frontend/src/store/useChatStore.js:33-50 | after opening a conversation, the client's list is the server's conversation redacted for the requester, and both the client's badge and the server's counter for the contact read 0 |
| Lifecycle.MarkReadAgrees | frontend/src/store/useChatStore.js:65-77 | once the server answers the mark-read request, both the client's and the server's counter for the contact read 0 |
| Lifecycle.SentMessageJoinsOwnList | frontend/src/store/useChatStore.js:52-63 | the message the client appends after a send is the one the server stored, addressed to the selected contact and numbered after every earlier message |

## Left out

- The image host upload (backend/src/controllers/message.controller.js:82-83) is a foreign call. It is the parameter `upload`. Its failure, which would give 500, is not modelled.
- Socket transport: `getReceiverSocketId` is the `presence` map. An empty socket id counts as offline. Delivery is a list of events, with no queueing and no disconnect race.
- Persistence: the store is modelled instead of Mongoose and MongoDB.
  - A message id is its position in the store.
  - A malformed id string (which would be a CastError, 500) is not modelled. An absent id is `messageId >= |messages|` (404).
  - Timestamps and `toObject` are not modelled.
  - Casting non-string `text`/`image` request values to strings is not modelled; text and image are `StringField` values.
  - JSON objects and arrays are not among the modelled values (`Js.Value` has only the primitives). A request whose `isViewOnce` is `{}` or `[]`, which `Boolean` makes true (backend/src/controllers/message.controller.js:91), cannot be expressed.
- MessageModel.PreSave: the nested-path subtlety is not modelled. Mongoose may never report `originalContent` as absent, which could stop the hook from firing at all. The model takes the guard literally. The controller's `||` fallback to the live fields keeps the sender's content right in either case (`SenderContentIsLiveContent`).
- Numbers: JavaScript numbers are doubles, but counters are modelled as unbounded `nat` and JSON numbers as `Num(n: int)`, which has no fractions and no NaN. The model therefore never loses precision above 2^53, where the code would.
- Concurrency is not modelled; every operation runs alone. This leaves out:
  - lost updates in the unread-counter and pinned-list read-modify-write;
  - the stale message list that the client's `sendMessage` captures before awaiting.
- MessageController.GetUsersForSidebar: the answer is a map keyed by user id, so the order of the query's result list is not modelled.
- UserModel.NewUser: the password's minimum length is counted in characters of the Dafny string. JavaScript counts UTF-16 code units, so the two can differ for characters outside the Basic Multilingual Plane.
- UserModel.Insert and the directory: the model does not reconcile `pinnedChats` ids stored as ObjectIds with the string ids in the requests. Ids are plain strings throughout.
- The client's `getUsers` (the contact fetch and the `/auth/check` call) is not modelled. It belongs to the authentication layer. The sidebar takes the user list as input.
- Notifications, toasts, loading flags, scrolling, the online count "(n online)" and time formatting are presentation or I/O, and are not modelled. So are the browser Notification API and the notification component.
- The Express routes and the authentication middleware are not modelled. The requester id is a parameter of each handler.
- `subscribeToMessages` returning early with no selection, and `unsubscribeFromMessages`: the handlers take the contact selected at subscription (`subscribedTo`) as a parameter.
