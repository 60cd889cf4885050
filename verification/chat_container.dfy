/**
 * The open conversation's display rules: when a bubble hides its content,
 * what a bubble shows otherwise, which side it sits on, its view-once label,
 * and when a click asks the server to mark the message viewed.
 */
module ChatContainer {
  import opened Wrappers
  import opened Js
  import opened UserModel
  import opened MessageModel
  import ChatStore

  /** Content is hidden from the receiver of a view-once message not yet viewed. */
  function ShouldHideContent(m: Message, me: UserId): (hidden: bool)
    ensures !m.isViewOnce ==> !hidden
    ensures m.receiverId != me ==> !hidden
    ensures m.isViewOnce && m.receiverId == me ==> (hidden <==> !IsViewedOnce(m))
  {
    m.isViewOnce && !m.isViewed && m.receiverId == me
  }

  /** A view-once message whose one view has happened. */
  function IsViewedOnce(m: Message): (viewed: bool)
    ensures viewed ==> m.isViewOnce
    ensures m.isViewOnce ==> (viewed <==> m.isViewed)
  {
    m.isViewOnce && m.isViewed
  }

  datatype TextView = Masked | Plain(text: string) | NoText

  datatype Bubble =
    | ClickToView
    | Shown(image: Option<string>, text: TextView)

  /** What the bubble draws for the viewer `me`. */
  function Render(m: Message, me: UserId): (b: Bubble)
    ensures b.ClickToView? <==> ShouldHideContent(m, me)
    ensures b.Shown? && IsViewedOnce(m) ==> b.image.None? && b.text == Masked
    ensures b.Shown? && !IsViewedOnce(m) ==>
              (b.image.Some? <==> Truthy(m.image)) && (b.image.Some? ==> m.image == Str(b.image.value))
    ensures b.Shown? && !IsViewedOnce(m) ==>
              (b.text.Plain? <==> Truthy(m.text)) && (b.text.Plain? ==> m.text == Str(b.text.text))
    ensures b.Shown? && !IsViewedOnce(m) ==> b.text != Masked
  {
    if ShouldHideContent(m, me) then ClickToView
    else
      Shown(if Truthy(m.image) && !IsViewedOnce(m) then Some(m.image.s) else None,
            if IsViewedOnce(m) then Masked
            else if Truthy(m.text) then Plain(m.text.s)
            else NoText)
  }

  /** `chat-end` for one's own messages, `chat-start` for the peer's. */
  datatype Side = ChatEnd | ChatStart

  function Alignment(m: Message, me: UserId): (side: Side)
    ensures side == ChatEnd <==> m.senderId == me
  {
    if m.senderId == me then ChatEnd else ChatStart
  }

  /** The header label: only on view-once messages, chosen by `isViewed`. */
  function Label(m: Message): (l: Option<string>)
    ensures l.Some? <==> m.isViewOnce
    ensures l.Some? ==> (l.value == "Viewed" <==> m.isViewed)
    ensures l.Some? ==> (l.value == "View once" <==> !m.isViewed)
  {
    if !m.isViewOnce then None
    else if m.isViewed then Some("Viewed")
    else Some("View once")
  }

  /** A click posts the view request exactly when the content is hidden. */
  function OnClick(m: Message, me: UserId): (req: Option<ChatStore.Request>)
    ensures req.Some? <==> Render(m, me).ClickToView?
    ensures req.Some? ==> req.value == ChatStore.View(m.id)
  {
    if ShouldHideContent(m, me) then Some(ChatStore.View(m.id)) else None
  }

  /** A message that is not view-once never has its content withheld or masked. */
  lemma PlainMessagesShowContent(m: Message, me: UserId)
    requires !m.isViewOnce
    ensures Render(m, me).Shown?
    ensures Render(m, me).text != Masked
    ensures OnClick(m, me).None? && Label(m).None?
  {
  }

  /** Once viewed, neither side is ever shown the image or the text again. */
  lemma ViewedNeverShowsContent(m: Message, me: UserId)
    requires IsViewedOnce(m)
    ensures Render(m, me) == Shown(None, Masked)
    ensures OnClick(m, me).None?
  {
  }
}
