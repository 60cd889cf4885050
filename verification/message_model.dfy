/**
 * The Message record: defaults, and the pre-save hook that snapshots the
 * content of a view-once message into `originalContent`.
 */
module MessageModel {
  import opened Wrappers
  import opened Js
  import opened UserModel

  /** The placeholder that stands for consumed view-once content. */
  const Mask := "**"

  /** Messages are numbered in insertion order; the id is the store position. */
  type MessageId = nat

  /** The `originalContent` nested path: the content as it was when first saved. */
  datatype Snapshot = Snapshot(text: StringField, image: StringField)

  datatype Message = Message(
    id: MessageId,
    senderId: UserId,
    receiverId: UserId,
    text: StringField,
    image: StringField,
    isViewOnce: bool,
    isViewed: bool,
    originalContent: Option<Snapshot>)

  /**
   * `new Message({...})`: the two user references are always given (the
   * schema requires them); an omitted `isViewOnce` defaults to false,
   * `isViewed` always starts false, and no snapshot exists yet.
   */
  function Create(id: MessageId, senderId: UserId, receiverId: UserId, text: StringField,
                  image: StringField, isViewOnce: Option<bool>): (m: Message)
    ensures m.id == id && m.senderId == senderId && m.receiverId == receiverId
    ensures m.text == text && m.image == image
    ensures isViewOnce.None? ==> !m.isViewOnce
    ensures isViewOnce.Some? ==> m.isViewOnce == isViewOnce.value
    ensures !m.isViewed
    ensures m.originalContent.None?
  {
    Message(id, senderId, receiverId, text, image, isViewOnce.GetOr(false), false, None)
  }

  /**
   * The `pre("save")` hook: a view-once message without a snapshot gets one
   * holding its current text and image; nothing else is ever touched.
   */
  function PreSave(m: Message): (r: Message)
    ensures m.isViewOnce && m.originalContent.None? ==>
              r.originalContent == Some(Snapshot(m.text, m.image))
    ensures m.originalContent.Some? ==> r == m
    ensures !m.isViewOnce ==> r == m
    ensures r.(originalContent := m.originalContent) == m
  {
    if m.isViewOnce && m.originalContent.None? then
      m.(originalContent := Some(Snapshot(m.text, m.image)))
    else m
  }

  /**
   * The durable invariant of a stored message: a view-once message carries
   * the snapshot of its own content, any other message carries none.
   */
  predicate Consistent(m: Message) {
    if m.isViewOnce then m.originalContent == Some(Snapshot(m.text, m.image))
    else m.originalContent.None?
  }

  /** The first save of a freshly built message establishes the invariant. */
  lemma FirstSaveIsConsistent(id: MessageId, senderId: UserId, receiverId: UserId,
                              text: StringField, image: StringField, isViewOnce: Option<bool>)
    ensures Consistent(PreSave(Create(id, senderId, receiverId, text, image, isViewOnce)))
  {
  }

  /** Saving again, after `isViewed` flips, never overwrites the snapshot. */
  lemma ResaveKeepsSnapshot(m: Message, viewed: bool)
    requires Consistent(m)
    ensures PreSave(m.(isViewed := viewed)) == m.(isViewed := viewed)
    ensures Consistent(PreSave(m.(isViewed := viewed)))
  {
  }

  /** `message.originalContent?.text`. */
  function SnapshotText(m: Message): StringField {
    match m.originalContent
    case None => Undefined
    case Some(c) => c.text
  }

  /** `message.originalContent?.image`. */
  function SnapshotImage(m: Message): StringField {
    match m.originalContent
    case None => Undefined
    case Some(c) => c.image
  }

  /** `message.originalContent?.text || message.text`: what the sender is shown. */
  function SenderText(m: Message): (t: StringField)
    ensures m.originalContent.None? ==> t == m.text
    ensures m.originalContent.Some? && Truthy(m.originalContent.value.text) ==> t == m.originalContent.value.text
    ensures m.originalContent.Some? && !Truthy(m.originalContent.value.text) ==> t == m.text
    ensures Truthy(t) <==> Truthy(SnapshotText(m)) || Truthy(m.text)
  {
    OrField(SnapshotText(m), m.text)
  }

  /** `message.originalContent?.image || message.image`. */
  function SenderImage(m: Message): (i: StringField)
    ensures m.originalContent.None? ==> i == m.image
    ensures m.originalContent.Some? && Truthy(m.originalContent.value.image) ==> i == m.originalContent.value.image
    ensures m.originalContent.Some? && !Truthy(m.originalContent.value.image) ==> i == m.image
    ensures Truthy(i) <==> Truthy(SnapshotImage(m)) || Truthy(m.image)
  {
    OrField(SnapshotImage(m), m.image)
  }

  /**
   * The fallback yields the live content whether or not the hook took a
   * snapshot, which is why the sender's view is right either way.
   */
  lemma SenderContentIsLiveContent(m: Message)
    requires m.originalContent.None? || m.originalContent == Some(Snapshot(m.text, m.image))
    ensures SenderText(m) == m.text
    ensures SenderImage(m) == m.image
  {
  }
}
