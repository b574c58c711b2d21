/** When a user action asks the callout modal to close, and with which reason
    (`onOpenChange(false, {reason})`): Escape, a pointer-down outside both the
    panel and the anchor, and a click on the backdrop layer. */
module Dismissal {
  import opened Maybe

  datatype Key = Escape | Tab | OtherKey

  /** The `reason` passed to `onOpenChange`: 'esc', 'outside' or 'backdrop'. */
  datatype Reason = Esc | Outside | Backdrop

  /** The `backdrop` prop: 'none', 'invisible' or 'dim'. */
  datatype BackdropMode = NoBackdrop | Invisible | Dim

  /** The dismissal props of one callout. */
  datatype Policy = Policy(closeOnEsc: bool, closeOnOutsideClick: bool, dismissible: bool, backdrop: BackdropMode)

  /** A user action reaching the open callout. For a pointer-down, where its
      target lies: inside the panel, inside the anchor element. */
  datatype UserEvent = KeyDown(key: Key) | PointerDown(inPanel: bool, inReference: bool) | BackdropClick

  /** What the page looks like: whether the callout is open, whether it has
      a portal container (and so is rendered), whether its panel element is
      mounted and whether an anchor element is set. */
  datatype Mount = Mount(open: bool, portal: bool, panelMounted: bool, referenceMounted: bool)

  /** The Escape branch of the key handler: only Escape, and never on a
      callout that is not dismissible or ignores Escape. */
  function EscapeCloses(key: Key, closeOnEsc: bool, dismissible: bool): (r: bool)
    ensures r ==> key == Escape && closeOnEsc && dismissible
    ensures closeOnEsc && dismissible ==> (r <==> key == Escape)
  {
    key == Escape && closeOnEsc && dismissible
  }

  /** The reason the callout asks to close with, if any. The key listener
      exists while open; the pointer listener exists only while open with
      `closeOnOutsideClick && dismissible`; the backdrop layer exists only
      while rendered with a backdrop other than 'none'. */
  function CloseRequest(m: Mount, p: Policy, ev: UserEvent): (r: Option<Reason>)
    ensures r == Some(Esc) <==> m.open && ev == KeyDown(Escape) && p.closeOnEsc && p.dismissible
    ensures r == Some(Outside) <==>
      m.open && ev.PointerDown? && p.closeOnOutsideClick && p.dismissible && m.panelMounted
      && !ev.inPanel && !(m.referenceMounted && ev.inReference)
    ensures r == Some(Backdrop) <==>
      m.open && m.portal && ev == BackdropClick && p.backdrop != NoBackdrop && p.dismissible
  {
    match ev
    case KeyDown(key) =>
      if m.open && EscapeCloses(key, p.closeOnEsc, p.dismissible) then Some(Esc) else None
    case PointerDown(inPanel, inReference) =>
      if !m.open || !p.closeOnOutsideClick || !p.dismissible then None
      else if !m.panelMounted || inPanel then None
      else if m.referenceMounted && inReference then None
      else Some(Outside)
    case BackdropClick =>
      if m.open && m.portal && p.backdrop != NoBackdrop && p.dismissible then Some(Backdrop) else None
  }

  /** A callout with `dismissible=false` is never closed by a user action,
      nor is a closed one asked to close again. */
  lemma OnlyDismissibleOpenCloses(m: Mount, p: Policy, ev: UserEvent)
    ensures CloseRequest(m, p, ev).Some? ==> p.dismissible && m.open
  {
  }

  /** The close requests one click on the backdrop makes, in order, while
      the callout stays mounted. The backdrop covers the page outside the
      panel, anchor included, so the gesture's pointer-down reaches the
      document's capturing listener as a pointer-down outside both; only
      then does the click reach the backdrop's own handler. A host that
      closes on the first request unmounts the backdrop before the click
      arrives, so the first reason is the one the host acts on. */
  function BackdropGesture(m: Mount, p: Policy): (r: seq<Reason>)
    ensures |r| <= 2 && Esc !in r
    ensures Outside in r <==> m.open && p.closeOnOutsideClick && p.dismissible && m.panelMounted
    ensures Backdrop in r <==> m.open && m.portal && p.backdrop != NoBackdrop && p.dismissible
    ensures Outside in r ==> r[0] == Outside
  {
    var down := CloseRequest(m, p, PointerDown(false, false));
    var click := CloseRequest(m, p, BackdropClick);
    (if down.Some? then [down.value] else []) + (if click.Some? then [click.value] else [])
  }

  /** A backdrop click on a rendered callout with a dim backdrop: nothing
      when it is not dismissible; otherwise 'outside' first whenever
      `closeOnOutsideClick` holds, so 'backdrop' is the reason the host
      sees only when `closeOnOutsideClick` is false. */
  lemma BackdropScenario(m: Mount, p: Policy)
    requires m.open && m.portal && m.panelMounted && p.backdrop == Dim
    ensures BackdropGesture(m, p) ==
      if !p.dismissible then [] else if p.closeOnOutsideClick then [Outside, Backdrop] else [Backdrop]
    ensures var r := BackdropGesture(m, p);
      |r| > 0 && r[0] == Backdrop <==> p.dismissible && !p.closeOnOutsideClick
  {
  }
}
