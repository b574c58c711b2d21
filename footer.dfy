/** The callout modal's footer: which buttons it shows, in which order, and
    what the default Next button does when clicked. */
module Footer {
  import opened Maybe

  /** An action's click handler, by identity: a host callback, or the
      sequence coordinator's `goNext`. */
  datatype Handler = Callback(id: nat) | Advance

  /** One entry of `footerActions`. */
  datatype Action = Action(text: string, primary: bool, disabled: bool, onClick: Handler)

  /** What a footer button does: run the action at that index of
      `footerActions`, or the default Next behaviour. */
  datatype Click = RunAction(index: nat) | RequestNext

  datatype Button = Button(text: string, primary: bool, disabled: bool, click: Click)

  /** No footer; the host's `renderFooter(footerActions)`; or the default buttons. */
  datatype Footer = NoFooter | Custom(actions: seq<Action>) | Buttons(buttons: seq<Button>)

  function ActionButtons(actions: seq<Action>): (r: seq<Button>)
    ensures |r| == |actions|
    ensures forall i :: 0 <= i < |r| ==>
      r[i] == Button(actions[i].text, actions[i].primary, actions[i].disabled, RunAction(i))
  {
    seq(|actions|, i requires 0 <= i < |actions| =>
      Button(actions[i].text, actions[i].primary, actions[i].disabled, RunAction(i)))
  }

  /** The footer for the given props; the Next button is appended when
      `onRequestNext && showDefaultNextButton`. */
  function FooterOf(actions: seq<Action>, hasRequestNext: bool, showDefaultNextButton: bool,
                    hasRenderFooter: bool, nextButtonLabel: string): (r: Footer)
    ensures r.NoFooter? <==> !hasRequestNext && |actions| == 0 && !hasRenderFooter
    ensures hasRenderFooter ==> r == Custom(actions)
    ensures !hasRenderFooter && !r.NoFooter? ==> r.Buttons?
    ensures r.Buttons? ==>
      var next := hasRequestNext && showDefaultNextButton;
      |r.buttons| == |actions| + (if next then 1 else 0) &&
      r.buttons[..|actions|] == ActionButtons(actions) &&
      (next ==> r.buttons[|actions|] == Button(nextButtonLabel, true, false, RequestNext))
  {
    if !(hasRequestNext || |actions| > 0 || hasRenderFooter) then NoFooter
    else if hasRenderFooter then Custom(actions)
    else
      var next := if hasRequestNext && showDefaultNextButton
        then [Button(nextButtonLabel, true, false, RequestNext)] else [];
      Buttons(ActionButtons(actions) + next)
  }

  /** The default Next button appears iff `onRequestNext && showDefaultNextButton`
      (and no custom footer), exactly once, after every action. */
  lemma NextButtonPlacement(actions: seq<Action>, hasRequestNext: bool, showDefaultNextButton: bool,
                            hasRenderFooter: bool, nextLabel: string)
    ensures var f := FooterOf(actions, hasRequestNext, showDefaultNextButton, hasRenderFooter, nextLabel);
      (f.Buttons? && (exists i :: 0 <= i < |f.buttons| && f.buttons[i].click == RequestNext))
        <==> hasRequestNext && showDefaultNextButton && !hasRenderFooter
    ensures var f := FooterOf(actions, hasRequestNext, showDefaultNextButton, hasRenderFooter, nextLabel);
      f.Buttons? ==> forall i :: 0 <= i < |f.buttons| ==>
        (f.buttons[i].click == RequestNext <==> i == |actions|)
  {
  }

  /** The element passed as `nextReference`; `canScroll` is `'scrollIntoView' in target`. */
  datatype Anchor = Anchor(id: nat, canScroll: bool)

  /** What clicking the default Next button does, in order. */
  datatype Effect = ScrollIntoView(anchor: nat) | Wait(ms: nat) | CallRequestNext(arg: Option<Anchor>)

  /** The settle delay between the scroll request and the advance signal, in milliseconds. */
  const SettleDelay: nat := 250

  function NextClick(scrollIntoViewOnNext: bool, nextReference: Option<Anchor>): (r: seq<Effect>)
    ensures |r| > 0 && r[|r| - 1] == CallRequestNext(nextReference)
    ensures forall i :: 0 <= i < |r| - 1 ==> !r[i].CallRequestNext?
    ensures |r| > 1 <==> scrollIntoViewOnNext && nextReference.Some? && nextReference.value.canScroll
    ensures |r| > 1 ==> r[..|r| - 1] == [ScrollIntoView(nextReference.value.id), Wait(SettleDelay)]
  {
    var signal := [CallRequestNext(nextReference)];
    if scrollIntoViewOnNext && nextReference.Some? && nextReference.value.canScroll
    then [ScrollIntoView(nextReference.value.id), Wait(SettleDelay)] + signal
    else signal
  }
}
