/**
 * callback_button: the button-press filter of the frame window. Only a single
 * press of the right mouse button (button 3) pops up the context menu and
 * consumes the event.
 */
module Button {
  import opened Wrappers

  /** The GdkEventType values a "button_press_event" handler can receive, and the rest. */
  datatype EventKind = ButtonPress | DoubleButtonPress | TripleButtonPress | ButtonRelease | OtherEvent

  /** The fields of a GdkEventButton that the handler reads. */
  datatype GdkEvent = GdkEvent(kind: EventKind, button: nat, time: int)

  /** The arguments handed to gtk_menu_popup. */
  datatype Popup = Popup(button: nat, time: int)

  /** What the handler does: whether it pops up the menu, and what it returns. */
  datatype Reply = Reply(popup: Option<Popup>, consumed: bool)

  /** callback_button; `event` is None for a NULL event pointer. */
  function HandleButton(event: Option<GdkEvent>): (r: Reply)
    ensures r.consumed <==> r.popup.Some?
    ensures r.consumed <==> event.Some? && event.value.kind == ButtonPress && event.value.button == 3
    ensures r.popup.Some? ==> r.popup.value == Popup(3, event.value.time)
  {
    match event
    case None => Reply(None, false)
    case Some(e) =>
      if e.kind == ButtonPress && e.button == 3 then Reply(Some(Popup(e.button, e.time)), true)
      else Reply(None, false)
  }
}
