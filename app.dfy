/** The demo host page: three standalone callouts A, B and C, of which the
    single `openId` state cell says which one is open, and an effect that
    opens A once after all three anchors are mounted. */
module App {
  import opened Maybe
  import Dismissal

  datatype CalloutId = A | B | C

  /** The page's state cells: `openId` and `autoOpened`. */
  datatype Tour = Tour(openId: Option<CalloutId>, autoOpened: bool)

  /** What can happen on the page: the auto-open effect runs (with all three
      anchors mounted or not), callout `from` requests the next one, callout
      `id` reports `onOpenChange(next)`, or one of the page's buttons is clicked
      ('Open A', 'Close all', and C's 'Done' footer action). */
  datatype Event =
    | AutoOpenEffect(refsMounted: bool)
    | RequestNext(from: CalloutId)
    | OpenChange(id: CalloutId, next: bool)
    | OpenAClicked
    | CloseAllClicked
    | DoneClicked

  /** `openNext`: A -> B, B -> C, anything else -> closed. */
  function OpenNext(current: Option<CalloutId>): (r: Option<CalloutId>)
    ensures r == Some(B) <==> current == Some(A)
    ensures r == Some(C) <==> current == Some(B)
    ensures r != Some(A)
  {
    if current == Some(A) then Some(B)
    else if current == Some(B) then Some(C)
    else None
  }

  /** `open={openId === id}` for each callout. */
  predicate IsOpen(t: Tour, id: CalloutId)
  {
    t.openId == Some(id)
  }

  /** The page's state after one event. A's and B's `onRequestNext` ignore
      their argument and call `openNext` with their own id; C has no
      `onRequestNext`, so it requests nothing. */
  function Apply(t: Tour, e: Event): (r: Tour)
    ensures t.autoOpened ==> r.autoOpened
    ensures r.autoOpened != t.autoOpened <==> AutoOpens(t, e)
    ensures AutoOpens(t, e) ==> r.openId == Some(A)
    ensures e.RequestNext? && e.from == C ==> r == t
  {
    match e
    case AutoOpenEffect(refsMounted) =>
      if !t.autoOpened && refsMounted then Tour(Some(A), true) else t
    case RequestNext(from) =>
      if from == C then t else t.(openId := OpenNext(Some(from)))
    case OpenChange(id, next) => t.(openId := if next then Some(id) else None)
    case OpenAClicked => t.(openId := Some(A))
    case CloseAllClicked => t.(openId := None)
    case DoneClicked => t.(openId := None)
  }

  function Run(t: Tour, events: seq<Event>): Tour
    decreases events
  {
    if events == [] then t else Run(Apply(t, events[0]), events[1..])
  }

  /** The transition table walks A, B, C and then closes, from any start. */
  lemma OpenNextChain(current: Option<CalloutId>)
    ensures OpenNext(Some(A)) == Some(B) && OpenNext(Some(B)) == Some(C)
    ensures current != Some(A) && current != Some(B) ==> OpenNext(current) == None
    ensures OpenNext(OpenNext(OpenNext(current))) == None
  {
  }

  /** At most one callout is open at any time. */
  lemma AtMostOneOpen(t: Tour, x: CalloutId, y: CalloutId)
    requires IsOpen(t, x) && IsOpen(t, y)
    ensures x == y
  {
  }

  /** Each callout's `onOpenChange` opens itself or closes everything. */
  lemma OpenChangeTargetsSelf(t: Tour, id: CalloutId, next: bool)
    ensures IsOpen(Apply(t, OpenChange(id, next)), id) <==> next
    ensures !next ==> forall other :: !IsOpen(Apply(t, OpenChange(id, next)), other)
  {
  }

  /** Whether this event is the auto-open effect actually opening A. */
  predicate AutoOpens(t: Tour, e: Event)
  {
    e.AutoOpenEffect? && e.refsMounted && !t.autoOpened
  }

  /** The number of times the auto-open fires during `events`. */
  function AutoOpenCount(t: Tour, events: seq<Event>): nat
    decreases events
  {
    if events == [] then 0
    else (if AutoOpens(t, events[0]) then 1 else 0) + AutoOpenCount(Apply(t, events[0]), events[1..])
  }

  /** Once set, `autoOpened` stays set. */
  lemma {:induction false} AutoOpenedStays(t: Tour, events: seq<Event>)
    requires t.autoOpened
    ensures Run(t, events).autoOpened
    ensures AutoOpenCount(t, events) == 0
    decreases events
  {
    if events != [] {
      AutoOpenedStays(Apply(t, events[0]), events[1..]);
    }
  }

  /** The auto-open fires at most once, whatever happens on the page. */
  lemma {:induction false} AutoOpenAtMostOnce(t: Tour, events: seq<Event>)
    ensures AutoOpenCount(t, events) <= (if t.autoOpened then 0 else 1)
    decreases events
  {
    if events != [] {
      var u := Apply(t, events[0]);
      if AutoOpens(t, events[0]) {
        AutoOpenedStays(u, events[1..]);
      } else {
        AutoOpenAtMostOnce(u, events[1..]);
      }
    }
  }

  /** The tour as the page runs it: the auto-open shows A, Next on A shows B,
      Next on B shows C, Done on C closes everything. */
  lemma GuidedTour()
    ensures var t0 := Tour(None, false);
      var t1 := Apply(t0, AutoOpenEffect(true));
      var t2 := Apply(t1, RequestNext(A));
      var t3 := Apply(t2, RequestNext(B));
      var t4 := Apply(t3, DoneClicked);
      IsOpen(t1, A) && IsOpen(t2, B) && IsOpen(t3, C) && t4.openId == None && t4.autoOpened
  {
  }

  /** The per-callout dismissal props: only B sets `dismissible={false}`. */
  function PolicyOf(id: CalloutId): Dismissal.Policy
  {
    Dismissal.Policy(true, true, id != B, Dismissal.Invisible)
  }

  /** B cannot be closed by Escape, an outside click or the backdrop: only
      its Next button (or the page's buttons) move on from it. A, rendered
      with its panel mounted, is closed by a backdrop click with reason
      'outside', since its pointer-down comes first. */
  lemma BStaysUnlessAdvanced(m: Dismissal.Mount, ev: Dismissal.UserEvent)
    ensures Dismissal.CloseRequest(m, PolicyOf(B), ev) == None
    ensures Dismissal.BackdropGesture(m, PolicyOf(B)) == []
    ensures m.open && m.portal && m.panelMounted ==>
      Dismissal.BackdropGesture(m, PolicyOf(A)) == [Dismissal.Outside, Dismissal.Backdrop]
  {
  }

  /** The page's state cells. */
  class Page {
    var openId: Option<CalloutId>
    var autoOpened: bool

    constructor ()
      ensures openId == None && !autoOpened
    {
      openId := None;
      autoOpened := false;
    }

    function State(): Tour
      reads this
    {
      Tour(openId, autoOpened)
    }

    /** The effect on `[autoOpened]`. */
    method AutoOpen(refsMounted: bool)
      modifies this
      ensures State() == Apply(old(State()), AutoOpenEffect(refsMounted))
      ensures autoOpened && !old(autoOpened) ==> openId == Some(A)
    {
      if !autoOpened && refsMounted {
        openId := Some(A);
        autoOpened := true;
      }
    }

    /** `openNext(current)`. */
    method SetOpenNext(current: Option<CalloutId>)
      modifies this`openId
      ensures openId == OpenNext(current)
    {
      if current == Some(A) {
        openId := Some(B);
      } else if current == Some(B) {
        openId := Some(C);
      } else {
        openId := None;
      }
    }

    /** `onOpenChange={(next) => setOpenId(next ? id : null)}`. */
    method OnOpenChange(id: CalloutId, next: bool)
      modifies this`openId
      ensures State() == Apply(old(State()), OpenChange(id, next))
    {
      openId := if next then Some(id) else None;
    }

    /** The 'Open A' button. */
    method OpenA()
      modifies this`openId
      ensures openId == Some(A) && State() == Apply(old(State()), OpenAClicked)
    {
      openId := Some(A);
    }

    /** 'Close all' and C's 'Done'. */
    method CloseAll()
      modifies this`openId
      ensures openId == None && State() == Apply(old(State()), CloseAllClicked)
    {
      openId := None;
    }
  }
}
