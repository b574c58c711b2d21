/** Hiding the siblings of the callout's container from assistive technology
    (`setSiblingsAriaHidden`): either through the `inert` property, when the
    browser has it, or through `aria-hidden` plus a marker attribute
    (`data-callout-aria-hidden`) that says the callout set it. */
module Siblings {
  import opened Maybe

  /** The parts of a child element the operation reads or writes:
      its `inert` property, its `aria-hidden` attribute (absent or a value)
      and whether it carries the marker attribute. */
  datatype Sibling = Sibling(inert: bool, ariaHidden: Option<string>, marked: bool)

  /** The element passed in: none at all, one without a parent element,
      or the child at `index` of its parent's children. */
  datatype Target = NoTarget | Detached | ChildAt(index: nat)

  /** What happens to one sibling (not the target itself). */
  function Toggle(e: Sibling, hidden: bool, inertSupported: bool): (r: Sibling)
    ensures r.inert == if inertSupported then hidden else e.inert
    ensures inertSupported ==> r.ariaHidden == e.ariaHidden && r.marked == e.marked
    ensures !inertSupported ==> (r.marked <==> hidden)
    ensures !inertSupported && hidden ==> r.ariaHidden == Some("true")
    ensures !inertSupported && !hidden ==> r.ariaHidden == if e.marked then None else e.ariaHidden
  {
    if inertSupported then e.(inert := hidden)
    else if hidden then e.(ariaHidden := Some("true"), marked := true)
    else if e.marked then e.(ariaHidden := None, marked := false)
    else e
  }

  /** The parent's children after the call. */
  function Applied(children: seq<Sibling>, target: Target, hidden: bool, inertSupported: bool): (r: seq<Sibling>)
    requires target.ChildAt? ==> target.index < |children|
    ensures |r| == |children|
    ensures forall i :: 0 <= i < |r| ==>
      r[i] == if target.ChildAt? && i != target.index then Toggle(children[i], hidden, inertSupported) else children[i]
  {
    if !target.ChildAt? then children
    else
      seq(|children|, i requires 0 <= i < |children| =>
        if i == target.index then children[i] else Toggle(children[i], hidden, inertSupported))
  }

  /** A sibling the callout can hide and then give back unchanged:
      not inert, in inert mode; without `aria-hidden` and without the marker, otherwise. */
  predicate Clean(e: Sibling, inertSupported: bool)
  {
    if inertSupported then !e.inert else e.ariaHidden.None? && !e.marked
  }

  /** The loop over `parent.children`; `children` is that list when the target has a parent. */
  method SetSiblingsAriaHidden(children: array<Sibling>, target: Target, hidden: bool, inertSupported: bool)
    requires target.ChildAt? ==> target.index < children.Length
    modifies children
    ensures children[..] == Applied(old(children[..]), target, hidden, inertSupported)
  {
    if !target.ChildAt? {
      return;
    }
    var i := 0;
    while i < children.Length
      invariant 0 <= i <= children.Length
      invariant forall k :: 0 <= k < i ==>
        children[k] == if k == target.index then old(children[k]) else Toggle(old(children[k]), hidden, inertSupported)
      invariant forall k :: i <= k < children.Length ==> children[k] == old(children[k])
    {
      if i != target.index {
        children[i] := Toggle(children[i], hidden, inertSupported);
      }
      i := i + 1;
    }
  }

  /** The target itself is never changed, and nothing at all changes when
      the target or its parent is missing. */
  lemma TargetUntouched(children: seq<Sibling>, target: Target, hidden: bool, inertSupported: bool)
    requires target.ChildAt? ==> target.index < |children|
    ensures target.ChildAt? ==> Applied(children, target, hidden, inertSupported)[target.index] == children[target.index]
    ensures !target.ChildAt? ==> Applied(children, target, hidden, inertSupported) == children
  {
  }

  /** Hiding marks every sibling: `inert`, or `aria-hidden="true"` with the
      marker, and changes nothing else about it. */
  lemma HideMarksSiblings(children: seq<Sibling>, t: nat, inertSupported: bool, k: nat)
    requires t < |children| && k < |children| && k != t
    ensures var e := Applied(children, ChildAt(t), true, inertSupported)[k];
      e == if inertSupported then children[k].(inert := true)
           else children[k].(ariaHidden := Some("true"), marked := true)
  {
  }

  /** In fallback mode, un-hiding leaves alone every sibling without the marker,
      whatever `aria-hidden` it has. */
  lemma UnhideSparesUnmarked(children: seq<Sibling>, t: nat, k: nat)
    requires t < |children| && k < |children| && !children[k].marked
    ensures Applied(children, ChildAt(t), false, false)[k] == children[k]
  {
  }

  /** Hide followed by un-hide gives back the target and every clean sibling
      exactly, so the whole list when every sibling is clean. */
  lemma HideUnhideRestores(children: seq<Sibling>, t: nat, inertSupported: bool)
    requires t < |children|
    ensures var back := Applied(Applied(children, ChildAt(t), true, inertSupported), ChildAt(t), false, inertSupported);
      forall k :: 0 <= k < |children| && (k == t || Clean(children[k], inertSupported)) ==> back[k] == children[k]
  {
  }

  /** What comes back after hide and un-hide, for every sibling: in inert
      mode a sibling that was already inert comes back not inert; in fallback
      mode `aria-hidden` and the marker are removed, so a sibling that was
      already `aria-hidden` loses the attribute. A sibling comes back
      unchanged exactly when it was clean. */
  lemma PriorStateNotRestored(children: seq<Sibling>, t: nat, inertSupported: bool, k: nat)
    requires t < |children| && k < |children| && k != t
    ensures var back := Applied(Applied(children, ChildAt(t), true, inertSupported), ChildAt(t), false, inertSupported)[k];
      back == if inertSupported then children[k].(inert := false)
              else children[k].(ariaHidden := None, marked := false)
    ensures var back := Applied(Applied(children, ChildAt(t), true, inertSupported), ChildAt(t), false, inertSupported)[k];
      back == children[k] <==> Clean(children[k], inertSupported)
  {
  }
}
