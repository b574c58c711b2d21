/** Focus handling of the callout modal: which descendants of the panel are
    focusable (`getFocusable`), where focus goes when the callout opens, the
    Tab/Shift+Tab trap and Escape in the key handler, and the focus restore on close.
    The panel's descendants are a sequence in document order; an element is
    named by its index in it. */
module Focus {
  import opened Maybe
  import opened Dismissal

  datatype Tag = ButtonTag | InputTag | SelectTag | TextAreaTag | OtherTag

  /** The parts of an element the focus code reads: its tag, whether it has
      an `href`, its `tabindex` attribute and `tabIndex` property, whether it
      has a `disabled` attribute, its `aria-hidden` attribute, whether it
      carries `data-autofocus`, and whether the browser lets `focus()` move
      focus to it (a `div` with only `href` or only `data-autofocus` does not). */
  datatype Element = Element(tag: Tag, hasHref: bool, tabIndexAttr: Option<string>, tabIndex: int,
                             disabled: bool, ariaHidden: Option<string>, autofocus: bool, canFocus: bool)

  /** `button, [href], input, select, textarea, [tabindex]:not([tabindex="-1"])`. */
  predicate MatchesSelector(e: Element)
  {
    e.tag != OtherTag || e.hasHref || (e.tabIndexAttr.Some? && e.tabIndexAttr.value != "-1")
  }

  /** A JavaScript truthiness test on an attribute value: present and not
      empty (so `aria-hidden="false"` is truthy too). */
  predicate Truthy(a: Option<string>)
  {
    a.Some? && a.value != ""
  }

  /** The filter applied to the matched elements. */
  predicate Focusable(e: Element)
  {
    MatchesSelector(e) && !e.disabled && e.tabIndex != -1 && !Truthy(e.ariaHidden)
  }

  predicate Increasing(r: seq<nat>)
  {
    forall a, b :: 0 <= a < b < |r| ==> r[a] < r[b]
  }

  /** The focusable elements among `d[i..]`, as indices in document order. */
  function FocusableFrom(d: seq<Element>, i: nat): (r: seq<nat>)
    requires i <= |d|
    ensures Increasing(r)
    ensures forall k :: 0 <= k < |r| ==> i <= r[k] < |d| && Focusable(d[r[k]])
    ensures forall j :: i <= j < |d| && Focusable(d[j]) ==> j in r
    decreases |d| - i
  {
    if i == |d| then []
    else if Focusable(d[i]) then [i] + FocusableFrom(d, i + 1)
    else FocusableFrom(d, i + 1)
  }

  /** `getFocusable(container)`: nothing for a missing container, otherwise
      exactly the focusable descendants, in document order. */
  function GetFocusable(container: Option<seq<Element>>): (r: seq<nat>)
    ensures container.None? ==> r == []
    ensures container.Some? ==>
      var d := container.value;
      Increasing(r) &&
      (forall k :: 0 <= k < |r| ==> r[k] < |d| && Focusable(d[r[k]])) &&
      (forall j :: 0 <= j < |d| && Focusable(d[j]) ==> j in r)
  {
    if container.None? then [] else FocusableFrom(container.value, 0)
  }

  /** Where `document.activeElement` is: nowhere (`null`), an element of the
      page outside the panel, the panel itself, or a descendant of the panel. */
  datatype Focus = Nowhere | Outside(id: nat) | Panel | Inside(index: nat)

  /** `querySelector('[data-autofocus]')` over `d[i..]`. */
  function FirstAutofocus(d: seq<Element>, i: nat): (r: Option<nat>)
    requires i <= |d|
    ensures r.Some? ==> i <= r.value < |d| && d[r.value].autofocus
    ensures r.Some? ==> forall j :: i <= j < r.value ==> !d[j].autofocus
    ensures r.None? ==> forall j :: i <= j < |d| ==> !d[j].autofocus
    decreases |d| - i
  {
    if i == |d| then None
    else if d[i].autofocus then Some(i)
    else FirstAutofocus(d, i + 1)
  }

  /** The element focused when the callout opens: the first `data-autofocus`
      descendant, else the first focusable one, else the panel. */
  function AutoFocus(d: seq<Element>): (r: Focus)
    ensures r.Panel? || (r.Inside? && r.index < |d|)
    ensures (exists j :: 0 <= j < |d| && d[j].autofocus) ==>
      r.Inside? && d[r.index].autofocus && forall j :: 0 <= j < r.index ==> !d[j].autofocus
    ensures (forall j :: 0 <= j < |d| ==> !d[j].autofocus) && (exists j :: 0 <= j < |d| && Focusable(d[j])) ==>
      r.Inside? && Focusable(d[r.index]) && forall j :: 0 <= j < r.index ==> !Focusable(d[j])
    ensures r.Panel? <==> forall j :: 0 <= j < |d| ==> !d[j].autofocus && !Focusable(d[j])
  {
    var marked := FirstAutofocus(d, 0);
    if marked.Some? then Inside(marked.value)
    else
      var f := GetFocusable(Some(d));
      if |f| > 0 then
        assert forall j :: 0 <= j < f[0] ==> !Focusable(d[j]);
        Inside(f[0])
      else Panel
  }

  /** The Tab branch of the key handler, given the focusables `f`: the
      element it calls `focus()` on, or `None` when it leaves the key to the
      browser. It acts only at the edge the key moves away from, and sends
      focus to the opposite edge. */
  function TrapTab(f: seq<nat>, active: Focus, shift: bool): (r: Option<Focus>)
    ensures |f| == 0 ==> r == Some(Panel)
    ensures |f| > 0 ==> (r.Some? <==> active == Inside(if shift then f[0] else f[|f| - 1]))
    ensures |f| > 0 && r.Some? ==> r.value == Inside(if shift then f[|f| - 1] else f[0])
  {
    if |f| == 0 then Some(Panel)
    else if shift && active == Inside(f[0]) then Some(Inside(f[|f| - 1]))
    else if !shift && active == Inside(f[|f| - 1]) then Some(Inside(f[0]))
    else None
  }

  /** Whether `focus()` on `target` moves focus there. The panel has
      `tabIndex = -1` and always accepts, and so does an element outside the
      panel (it held focus before); a descendant accepts when the browser
      lets it take focus. */
  predicate Accepts(d: seq<Element>, target: Focus)
  {
    !target.Inside? || (target.index < |d| && d[target.index].canFocus)
  }

  /** `target.focus()`: focus moves when the target accepts it, and stays put otherwise. */
  function FocusOn(d: seq<Element>, current: Focus, target: Focus): Focus
  {
    if Accepts(d, target) then target else current
  }

  /** A forced focus always lands on the panel or on a focusable descendant. */
  lemma TrapStaysInPanel(d: seq<Element>, active: Focus, shift: bool)
    ensures var t := TrapTab(GetFocusable(Some(d)), active, shift);
      t.Some? ==> t.value == Panel || (t.value.Inside? && t.value.index < |d| && Focusable(d[t.value.index]))
  {
  }

  /** Where focus ends after Tab from the `k`-th focusable: the trap's target,
      or else the browser's own move to the neighbouring focusable (for
      descendants in document order with no positive `tabindex`). */
  ghost function TabFrom(f: seq<nat>, k: nat, shift: bool): Focus
    requires k < |f|
  {
    match TrapTab(f, Inside(f[k]), shift)
    case Some(t) => t
    case None => Inside(if shift then f[if k > 0 then k - 1 else k] else f[if k + 1 < |f| then k + 1 else k])
  }

  lemma ModNeighbours(k: nat, n: nat)
    requires k < n
    ensures (k + 1) % n == if k + 1 < n then k + 1 else 0
    ensures (k + n - 1) % n == if k > 0 then k - 1 else n - 1
  {
  }

  /** The focus trap cycles: Tab moves to the next focusable and wraps from
      the last to the first; Shift+Tab moves to the previous one and wraps
      from the first to the last. */
  lemma {:induction false} TrapWrapsAround(d: seq<Element>, k: nat)
    ensures var f := GetFocusable(Some(d));
      k < |f| ==>
        TabFrom(f, k, false) == Inside(f[(k + 1) % |f|]) &&
        TabFrom(f, k, true) == Inside(f[(k + |f| - 1) % |f|])
  {
    var f := GetFocusable(Some(d));
    if k < |f| {
      CyclesOver(f, k);
    }
  }

  lemma {:induction false} CyclesOver(f: seq<nat>, k: nat)
    requires Increasing(f) && k < |f|
    ensures TabFrom(f, k, false) == Inside(f[(k + 1) % |f|])
    ensures TabFrom(f, k, true) == Inside(f[(k + |f| - 1) % |f|])
  {
    var n := |f|;
    ModNeighbours(k, n);
    assert Inside(f[k]) == Inside(f[0]) <==> k == 0 by {
      if k > 0 { assert f[0] < f[k]; }
    }
    assert Inside(f[k]) == Inside(f[n - 1]) <==> k == n - 1 by {
      if k < n - 1 { assert f[k] < f[n - 1]; }
    }
  }

  /** The document's focus and the callout's `lastFocused` ref, over one panel. */
  class FocusScope {
    /** The panel's descendants; `None` when the panel element is not mounted. */
    const panel: Option<seq<Element>>
    var active: Focus
    var lastFocused: Focus
    /** Whether the open effect left a cleanup that restores focus. */
    var restoreOnClose: bool

    constructor (panel: Option<seq<Element>>, active: Focus)
      ensures this.panel == panel && this.active == active
      ensures lastFocused == Nowhere && !restoreOnClose
    {
      this.panel := panel;
      this.active := active;
      lastFocused := Nowhere;
      restoreOnClose := false;
    }

    /** The panel's descendants, none when it is not mounted. */
    function Descendants(): seq<Element>
    {
      if panel.Some? then panel.value else []
    }

    /** The focus effect when the callout opens: remember the focused
        element, then call `focus()` on the autofocus target when the panel is
        mounted. A target that refuses focus leaves focus where it was: there
        is no fallback to the next candidate. */
    method Open(returnFocusOnClose: bool)
      modifies this
      ensures lastFocused == old(active)
      ensures panel.Some? ==>
        active == FocusOn(panel.value, old(active), AutoFocus(panel.value)) && restoreOnClose == returnFocusOnClose
      ensures panel.Some? && !Accepts(panel.value, AutoFocus(panel.value)) ==> active == old(active)
      ensures panel.None? ==> active == old(active) && !restoreOnClose
    {
      lastFocused := active;
      if panel.None? {
        restoreOnClose := false;
        return;
      }
      var target := AutoFocus(panel.value);
      if Accepts(panel.value, target) {
        active := target;
      }
      restoreOnClose := returnFocusOnClose;
    }

    /** The cleanup of that effect: give focus back to the remembered element
        when asked to and when there is one. */
    method Close()
      modifies this
      ensures active == if old(restoreOnClose) && old(lastFocused) != Nowhere
        then FocusOn(Descendants(), old(active), old(lastFocused)) else old(active)
      ensures lastFocused == old(lastFocused) && !restoreOnClose
    {
      if restoreOnClose && lastFocused != Nowhere && Accepts(Descendants(), lastFocused) {
        active := lastFocused;
      }
      restoreOnClose := false;
    }

    /** The capturing `keydown` listener: Escape asks to close (and stops the
        event) when allowed; Tab and Shift+Tab are trapped in the panel. */
    method OnKeyDown(key: Key, shift: bool, closeOnEsc: bool, dismissible: bool)
      returns (prevented: bool, stopped: bool, close: Option<Reason>)
      modifies this`active
      ensures stopped == EscapeCloses(key, closeOnEsc, dismissible)
      ensures close == if EscapeCloses(key, closeOnEsc, dismissible) then Some(Esc) else None
      ensures var t := if key == Tab && panel.Some? then TrapTab(GetFocusable(panel), old(active), shift) else None;
        prevented == t.Some? && active == (if t.Some? then FocusOn(Descendants(), old(active), t.value) else old(active))
    {
      prevented, stopped, close := false, false, None;
      if EscapeCloses(key, closeOnEsc, dismissible) {
        stopped := true;
        close := Some(Esc);
        return;
      }
      if key == Tab {
        if panel.None? {
          return;
        }
        var focusables := GetFocusable(panel);
        if |focusables| == 0 {
          prevented := true;
          active := Panel;
          return;
        }
        var first := Inside(focusables[0]);
        var last := Inside(focusables[|focusables| - 1]);
        if shift && active == first {
          prevented := true;
          active := FocusOn(panel.value, active, last);
        } else if !shift && active == last {
          prevented := true;
          active := FocusOn(panel.value, active, first);
        }
      }
    }
  }

  /** Opening and then closing gives focus back to the element focused
      before opening, when the panel was mounted, `returnFocusOnClose` was set
      and something was focused; otherwise focus stays where opening left it. */
  method OpenThenClose(panel: seq<Element>, before: Focus, returnFocusOnClose: bool) returns (after: Focus)
    ensures after == if returnFocusOnClose && before != Nowhere && Accepts(panel, before) then before
      else FocusOn(panel, before, AutoFocus(panel))
    ensures !Accepts(panel, AutoFocus(panel)) ==> after == before
  {
    var scope := new FocusScope(Some(panel), before);
    scope.Open(returnFocusOnClose);
    scope.Close();
    after := scope.active;
  }
}
