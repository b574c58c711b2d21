# Callout tour widget: a Dafny model

This project models the decision logic and small state machines of a React
onboarding-tour widget. The widget has three parts:

- the `CalloutModal` popover (`src/components/CalloutModal.jsx`);
- the `ChainedCallouts` sequence coordinator (`src/components/ChainedCallouts.jsx`);
- the demo host page (`src/App.jsx`).

Rendering, the floating-ui positioning engine and DOM event wiring are
abstracted away. What remains is modelled over plain records, one module per concern:

- `ScrollLock` (scroll_lock.dfy): the per-body lock record `{count, prev}` and the body's
  `overflow` style. `Body` is a class whose `LockBodyScroll` method updates the fields in place.
  The pure step functions `Lock`/`Unlock` carry the lemmas: the nesting round trip, and
  restoration after any well-nested interleaving of locks and unlocks.
- `Siblings` (siblings.dfy): `setSiblingsAriaHidden` as a loop over an array of child
  records. It works either through `inert` or, as a fallback, through `aria-hidden` plus
  the `data-callout-aria-hidden` marker.
- `Focus` (focus.dfy): `getFocusable` as an order-preserving filter over the panel's
  descendants, named by index in document order. Also here: the autofocus choice, the
  Tab/Shift+Tab focus trap and the Escape branch of the key handler. `FocusScope` is a class
  holding the document's active element and the `lastFocused` ref, restored on close.
- `Dismissal` (dismissal.dfy): when Escape, an outside pointer-down or a backdrop click
  asks the callout to close, and with which reason.
- `Placement` (placement.dfy): the initial placement, the middleware list, the resolved
  `side`, the arrow's `staticSide` table, and centred versus anchored layout.
- `Footer` (footer.dfy): the footer's buttons, and the effects of the default Next button
  (scroll, settle delay, then `onRequestNext`).
- `ChainedCallouts` (chained_callouts.dfy): the `index` cursor, its reset, `goNext`,
  `handleOpenChange`, the render guards and the `actions` list. `Chain` is a class over the
  cursor; the calls made to the host's `onOpenChange`/`onFinish` are recorded as a list
  of signals.
- `App` (app.dfy): the `openId`/`autoOpened` state cells, `openNext`, each callout's
  `onOpenChange`, the page's buttons and the one-time auto-open.

Behaviour of the code that a reader of the widget might not expect, and that the model follows:

- Under dismiss mode 'next', every dismissal of a step advances the cursor (Escape,
  outside click, backdrop), not only an "advance" dismissal.
- Focus restore on close does not check that the remembered element still exists.
- Un-hiding siblings does not restore their exact prior state.
  - In inert mode it forces `inert = false`.
  - In fallback mode it removes `aria-hidden` from every marked sibling.
  - A sibling that already had `aria-hidden` before the hide loses it.
  - `Siblings.PriorStateNotRestored` shows both cases.
- Open and closed are the only states of a callout; there is no transition state between them.
- The delayed advance after a Next click does not check that the callout is still open.
- The focus filter rejects any element whose `aria-hidden` is a non-empty string, including `"false"`.
- A click on the backdrop closes with reason 'outside' whenever `closeOnOutsideClick` holds
  (the default). The gesture's pointer-down reaches the document's capturing listener before
  the click reaches the backdrop's handler. So 'backdrop' is the reason the host sees only
  when `closeOnOutsideClick` is false (`Dismissal.BackdropScenario`).
- Opening calls `focus()` on the first `data-autofocus` element even when that element cannot
  take focus. Focus then stays where it was, outside the panel; there is no fallback to the
  first focusable element.
- The element passed to `setSiblingsAriaHidden` is the portal container itself (the
  document body by default). So the siblings it hides are those of the container, not the
  page content under the popover.

## Model

| member | source | states |
|---|---|---|
| ScrollLock.Body.constructor | src/components/CalloutModal.jsx:31 | a body never locked starts with count 0, an empty saved value, and its own overflow |
| ScrollLock.Body.LockBodyScroll | src/components/CalloutModal.jsx:28-45 | lock adds exactly 1 to the count; only from 0 does it save the overflow and set 'hidden'. Unlock sets count to max(0, count-1) and writes the saved value back exactly when the count ends at 0 |
| ScrollLock.Lock | src/components/CalloutModal.jsx:32-37 | a lock adds 1 to the count. Only the first lock (from 0) saves the overflow and hides the body; later ones leave both alone |
| ScrollLock.Unlock | src/components/CalloutModal.jsx:38-43 | a release lowers the count by 1, never below 0, and keeps the saved value. The body gets the saved value back exactly when the count ends at 0 |
| ScrollLock.LocksFromUnlocked | src/components/CalloutModal.jsx:32-37 | n locks from an unlocked body give count n, save the original overflow, and hide the body |
| ScrollLock.LocksWhileLocked | src/components/CalloutModal.jsx:33-37 | nested locks change only the count, never the saved value or the overflow |
| ScrollLock.UnlocksWhileLocked | src/components/CalloutModal.jsx:38-43 | releases that leave the count above 0 change only the count |
| ScrollLock.NestedRoundTrip | src/components/CalloutModal.jsx:31-44 | from count 0, n locks then n unlocks leave count 0 and the overflow as it was before the first lock |
| ScrollLock.RunKeeps | src/components/CalloutModal.jsx:31-44 | along any well-nested run of locks and unlocks, the count equals the nesting depth. While locked, the original overflow is saved and the body is hidden; at depth 0 the body shows the original |
| ScrollLock.BalancedRunRestores | src/components/CalloutModal.jsx:31-44 | overlapping callouts: any interleaving of locks and unlocks that releases every lock restores the body's original overflow |
| Siblings.SetSiblingsAriaHidden | src/components/CalloutModal.jsx:47-68 | the children afterwards: every child except the target is toggled; the target is kept; the array is unchanged when the target or its parent is missing |
| Siblings.Toggle | src/components/CalloutModal.jsx:52-65 | per sibling: inert mode changes only inert, to the requested value. Fallback mode changes only the attributes: after hide, aria-hidden="true" with the marker; after un-hide, no marker, with aria-hidden removed only where the marker was |
| Siblings.Applied | src/components/CalloutModal.jsx:47-67 | the same number of children; every child except the target is toggled; the target is kept; a missing target or parent keeps them all |
| Siblings.TargetUntouched | src/components/CalloutModal.jsx:48-51 | the target itself never changes, and a missing target or parent changes nothing |
| Siblings.HideMarksSiblings | src/components/CalloutModal.jsx:52-58 | hiding makes every sibling inert (inert mode), or sets aria-hidden="true" with the marker (fallback mode), and changes nothing else about it |
| Siblings.UnhideSparesUnmarked | src/components/CalloutModal.jsx:62-65 | in fallback mode, un-hiding leaves every sibling without the marker exactly as it was |
| Siblings.HideUnhideRestores | src/components/CalloutModal.jsx:52-65 | hide then un-hide gives back the target and every clean sibling exactly: not inert in inert mode, or without aria-hidden and marker in fallback mode |
| Siblings.PriorStateNotRestored | src/components/CalloutModal.jsx:52-65 | for every sibling, hide then un-hide gives it back not inert (inert mode), or without aria-hidden and marker (fallback mode). It comes back unchanged exactly when it was clean, so no already inert or already aria-hidden sibling is restored |
| Focus.FocusableFrom | src/components/CalloutModal.jsx:23-25 | the filter keeps exactly the focusable elements of the suffix, as strictly increasing indices |
| Focus.GetFocusable | src/components/CalloutModal.jsx:19-26 | [] for a missing container. Otherwise the focusable descendants in document order: each one matches the selector, is not disabled, has tabIndex other than -1 and no truthy aria-hidden; every such element is included |
| Focus.FirstAutofocus | src/components/CalloutModal.jsx:152 | the first descendant carrying data-autofocus, if any |
| Focus.AutoFocus | src/components/CalloutModal.jsx:151-154 | opening focuses the first data-autofocus descendant, else the first focusable one, else the panel; the panel exactly when neither exists |
| Focus.TrapTab | src/components/CalloutModal.jsx:171-189 | zero focusables force the panel. Otherwise the trap acts only when focus is on the edge the key moves away from (the first for Shift+Tab, the last for Tab), and it sends focus to the opposite edge |
| Focus.TrapStaysInPanel | src/components/CalloutModal.jsx:174-188 | focus forced by the trap lands on the panel or on a focusable descendant |
| Focus.CyclesOver | src/components/CalloutModal.jsx:180-188 | over distinct ordered focusables, Tab from the k-th reaches the (k+1 mod n)-th and Shift+Tab the (k-1 mod n)-th, whether the trap or the browser moves focus |
| Focus.TrapWrapsAround | src/components/CalloutModal.jsx:171-188 | the trap over getFocusable's result wraps: Tab on the last goes to the first, Shift+Tab on the first goes to the last, elsewhere the browser moves to the neighbour |
| Focus.FocusScope.Open | src/components/CalloutModal.jsx:146-155 | opening remembers the active element. With the panel mounted it calls focus() on the autofocus target, which moves focus only if the target accepts it, and arms the restore with returnFocusOnClose. Without the panel, focus is left alone and the restore is disarmed |
| Focus.FocusScope.constructor | src/components/CalloutModal.jsx:105-107 | the document focus is as given, nothing is remembered yet, and no restore is armed |
| Focus.FocusScope.Close | src/components/CalloutModal.jsx:156-160 | closing calls focus() on the remembered element only when the restore was armed and an element was remembered |
| Focus.FocusScope.OnKeyDown | src/components/CalloutModal.jsx:165-190 | Escape stops the event and asks to close with reason 'esc' iff closeOnEsc && dismissible. Tab with zero focusables is prevented and focuses the panel. Shift+Tab on the first and Tab on the last are prevented and call focus() on the opposite edge, which moves focus if that element accepts it. Otherwise nothing happens |
| Focus.OpenThenClose | src/components/CalloutModal.jsx:146-160 | open then close restores the element focused before opening when returnFocusOnClose holds and one was focused. Otherwise focus stays where opening left it, which is where it was before when the autofocus target refuses focus |
| Dismissal.CloseRequest | src/components/CalloutModal.jsx:165-222 | 'esc' iff open, Escape, closeOnEsc and dismissible. 'outside' iff open, closeOnOutsideClick, dismissible, panel mounted, and the pointer-down target outside both panel and anchor. 'backdrop' iff a click on the backdrop layer of a rendered, dismissible callout |
| Dismissal.BackdropGesture | src/components/CalloutModal.jsx:195-222 | one backdrop click requests 'outside' (from its pointer-down) iff open, closeOnOutsideClick, dismissible and panel mounted, and then 'backdrop' iff rendered with a backdrop layer and dismissible; 'outside', when present, comes first, and 'esc' never arises |
| Dismissal.OnlyDismissibleOpenCloses | src/components/CalloutModal.jsx:166-169 | no user action closes a callout with dismissible=false or one that is not open |
| Dismissal.EscapeCloses | src/components/CalloutModal.jsx:166 | only Escape asks to close, and only with closeOnEsc and dismissible; with both, Escape always does |
| Dismissal.BackdropScenario | src/components/CalloutModal.jsx:195-222 | with a dim backdrop, a backdrop click makes no request when not dismissible; otherwise 'outside' then 'backdrop' with closeOnOutsideClick, and 'backdrop' alone without it. The first reason is 'backdrop' iff dismissible and closeOnOutsideClick is false |
| Placement.BeforeDash | src/components/CalloutModal.jsx:215 | split('-')[0] is the longest dash-free prefix: a prefix, with no '-', followed by '-' or the end |
| Placement.Side | src/components/CalloutModal.jsx:215 | the side is the text before the first '-' of the resolved placement, or 'top' when there is none or it is empty; never empty |
| Placement.BeforeDashOfAligned | src/components/CalloutModal.jsx:215 | a dash-free side and the same side with any alignment suffix both yield that side |
| Placement.SideOfPlacement | src/components/CalloutModal.jsx:215 | each of the four sides, bare or aligned ('bottom-start'), resolves to itself |
| Placement.StaticSide | src/components/CalloutModal.jsx:216 | every entry is one of the four sides, different from its key |
| Placement.StaticSideInvolution | src/components/CalloutModal.jsx:216 | the opposite-side table maps each side to a different side, and applying it twice gives the side back |
| Placement.StaticSideDomain | src/components/CalloutModal.jsx:216 | the table has an entry exactly for top, right, bottom, left |
| Placement.InitialPlacement | src/components/CalloutModal.jsx:126 | 'auto' starts from 'top'; any other placement is passed through |
| Placement.Middlewares | src/components/CalloutModal.jsx:114-122 | offset first, then autoPlacement(start) for 'auto' or flip otherwise, then shift with the padding, then arrow iff showArrow |
| Placement.MiddlewareStrategy | src/components/CalloutModal.jsx:115-121 | exactly one collision strategy is present, chosen by 'auto'; the arrow stage is present iff showArrow and is then last |
| Placement.PanelLayout | src/components/CalloutModal.jsx:239-244 | the panel is centred without the engine iff there is no anchor and free float is allowed |
| Placement.ArrowShown | src/components/CalloutModal.jsx:292 | the arrow is drawn iff showArrow and an anchor; when it is drawn, the middleware list has an arrow stage |
| Placement.CenteredHasNoArrow | src/components/CalloutModal.jsx:239-292 | a centred panel never draws an arrow |
| Footer.ActionButtons | src/components/CalloutModal.jsx:258-269 | one button per footer action, in order, with its label, primary and disabled flags, running that action |
| Footer.FooterOf | src/components/CalloutModal.jsx:252-289 | no footer iff no onRequestNext, no actions and no renderFooter. renderFooter gets the actions. Without renderFooter, a footer is the default buttons: the action buttons, then the Next button iff onRequestNext && showDefaultNextButton |
| Footer.NextButtonPlacement | src/components/CalloutModal.jsx:270-285 | the Next button appears iff onRequestNext && showDefaultNextButton without a custom footer, exactly once, after every action |
| Footer.NextClick | src/components/CalloutModal.jsx:274-283 | a Next click calls onRequestNext(nextReference or null) exactly once, as its last effect. A scroll and a 250 ms wait come first iff scrollIntoViewOnNext and the target can scroll |
| ChainedCallouts.Reset | src/components/ChainedCallouts.jsx:21-23 | a cursor past the last step becomes 0; one in range is kept; with steps the result is in range |
| ChainedCallouts.GoNext | src/components/ChainedCallouts.jsx:34-41 | goNext keeps every earlier host call. It advances by exactly one iff not on the last step, and then calls nothing; otherwise it stays and calls the host |
| ChainedCallouts.HandleOpenChange | src/components/ChainedCallouts.jsx:43-54 | keeps every earlier host call; only a dismissal under 'next' can move the cursor, and by one. open=true, and a dismissal outside 'next', first call onOpenChange with the same value |
| ChainedCallouts.GoNextSteps | src/components/ChainedCallouts.jsx:34-41 | goNext keeps the cursor in range: +1 off the last step with no host calls; on the last step the index stays, onOpenChange(false) is called, and finish fires once when given |
| ChainedCallouts.HandleOpenChangeRoutes | src/components/ChainedCallouts.jsx:43-54 | open=true only forwards onOpenChange(true). A dismissal delegates to goNext under 'next'; otherwise it calls onOpenChange(false) and onFinish without moving the cursor |
| ChainedCallouts.AdvanceWithoutSignals | src/components/ChainedCallouts.jsx:39 | k presses of Next that stay within the steps advance the cursor by exactly k and call nothing |
| ChainedCallouts.WalkThrough | src/components/ChainedCallouts.jsx:27-41 | from step 0, one Next per step ends on the last step, having called only onOpenChange(false) and a single onFinish |
| ChainedCallouts.Actions | src/components/ChainedCallouts.jsx:56-59 | the step's own actions (or none), then exactly one primary action wired to goNext, labelled 'Done' iff on the last step and 'Next' otherwise |
| ChainedCallouts.RenderAsWritten | src/components/ChainedCallouts.jsx:25-32 | the render as written throws exactly when open, with a non-empty list that the cursor lies beyond |
| ChainedCallouts.RenderAsWrittenCrashes | src/components/ChainedCallouts.jsx:25-32 | as written, a list that shrank below the cursor makes the render throw |
| ChainedCallouts.Render | src/components/ChainedCallouts.jsx:21-32 | never throws. Renders nothing iff closed, no steps, or waitForAnchor with the chosen step unanchored. Otherwise it shows the step at the reset cursor with its actions; it agrees with the code whenever the cursor is in range |
| ChainedCallouts.Chain.constructor | src/components/ChainedCallouts.jsx:19 | the cursor starts at 0 with no host calls |
| ChainedCallouts.Chain.SetSteps | src/components/ChainedCallouts.jsx:5 | the host replaces the list; nothing else changes |
| ChainedCallouts.Chain.Rerender | src/components/ChainedCallouts.jsx:19-32 | after the host passes a new list, the corrected render shows the step the reset effect then selects and never throws; the cursor ends at Reset(old cursor) |
| ChainedCallouts.Chain.ResetEffect | src/components/ChainedCallouts.jsx:21-23 | the effect resets an out-of-range cursor to 0, leaving it in range whenever there are steps |
| ChainedCallouts.Chain.GoNextStep | src/components/ChainedCallouts.jsx:34-41 | the cursor and host calls follow goNext, and the cursor stays on a step |
| ChainedCallouts.Chain.HandleOpenChangeStep | src/components/ChainedCallouts.jsx:43-54 | the cursor and host calls follow handleOpenChange, and the cursor stays on a step |
| App.OpenNextChain | src/App.jsx:22-26 | openNext maps a to b and b to c, and every other input to null; three steps from anywhere reach null |
| App.OpenNext | src/App.jsx:22-26 | only a has b as successor, only b has c, and a is nobody's successor |
| App.Apply | src/App.jsx:14-90 | autoOpened never goes back to false. It becomes set exactly when the auto-open fires, which opens A. C's request for the next callout changes nothing |
| App.AtMostOneOpen | src/App.jsx:49-84 | two callouts open at the same time are the same callout |
| App.OpenChangeTargetsSelf | src/App.jsx:50 | a callout's onOpenChange(next) opens that callout iff next, and otherwise leaves none open |
| App.AutoOpenedStays | src/App.jsx:13-19 | once autoOpened is set no event clears it, and the auto-open never fires again |
| App.AutoOpenAtMostOnce | src/App.jsx:14-19 | over any sequence of page events, the auto-open fires at most once, and never if it already has |
| App.GuidedTour | src/App.jsx:14-90 | auto-open shows A, Next on A shows B, Next on B shows C, and Done on C closes everything |
| App.BStaysUnlessAdvanced | src/App.jsx:49-84 | callout B (dismissible=false) ignores Escape, outside clicks and backdrop clicks. A backdrop click on A requests 'outside' first and then 'backdrop' |
| App.Page.constructor | src/App.jsx:6-13 | nothing is open and the auto-open has not happened |
| App.Page.AutoOpen | src/App.jsx:14-19 | the effect opens A and sets autoOpened only when all anchors are mounted and it has not run before |
| App.Page.SetOpenNext | src/App.jsx:22-26 | openId becomes the successor given by the transition table |
| App.Page.OnOpenChange | src/App.jsx:50 | openId becomes the callout's own id when next, null otherwise |
| App.Page.OpenA | src/App.jsx:34 | the Open A button opens A |
| App.Page.CloseAll | src/App.jsx:35 | Close all (and C's Done) close every callout |

## Left out

- JSX rendering is not modelled, for it is UI output: the portal, styles, class names,
  z-index, button spacing, ARIA attributes and backdrop colours.
- The floating-ui engine is a foreign library whose arithmetic is not visible. Left out are
  `useFloating`, `autoUpdate`, the internals of offset/flip/shift/autoPlacement/arrow, and
  the x/y coordinates and arrow data. Only the placement handed to it, the middleware list
  and the side read back are modelled.
- Effect scheduling and listener registration are framework plumbing, not modelled. This
  covers when each `useEffect` runs and is cleaned up, `addEventListener`/`removeEventListener`,
  and the stale closures that come from missing dependencies (`dismissible` at
  CalloutModal.jsx:193). Each effect body is modelled as its own operation.
- Lock/unlock and hide/un-hide are modelled separately, not composed in one open/close effect (CalloutModal.jsx:136-144).
- The check that a document exists (CalloutModal.jsx:29, 15-16) is not modelled: `ScrollLock.Body` stands for an existing document body.
- `portalNode` resolution (CalloutModal.jsx:110-112) and `refs.setReference` (132-134) are not modelled.
- Timers and asynchrony are left out. `scrollIntoView`, its try/catch and the 250 ms
  `setTimeout` appear only as ordered effects in `Footer.NextClick`. The `async` footer
  handlers are not modelled, nor is what happens when their promises reject.
- Focus.TrapWrapsAround: the browser's default Tab move is assumed to go to the
  neighbouring focusable in document order. Positive `tabindex` ordering is not modelled.
  `TabFrom` is where Tab sends focus; when that element refuses focus, focus does not move
  (`Focus.FocusScope.OnKeyDown` states this), and the lemma does not follow that case.
- Focus.Element: the `tabIndex` property and `canFocus` are independent fields. They are not
  derived from the tag, the `tabindex` attribute, visibility or the rest of the browser's focusability rules.
- ChainedCallouts.Chain: the calls to the host are recorded as signals. What the host does
  with them (closing the sequence) is left to the host, so a second Done before the host
  closes would fire `onFinish` again, as in the code.
- Placement.Middlewares: `Shift(padding)` does not carry the `limitShift()` limiter as a field.
  The limiter is fixed in the code and acts only inside the engine.
- `allowFreeFloatIfNoRef = false` with no anchor: the coordinates the engine then leaves unset are not modelled.

## Findings

| source | as written | input that shows it | evidently intended | confidence | as-written member | corrected member |
|---|---|---|---|---|---|---|
| src/components/ChainedCallouts.jsx:25-32 | the render reads `steps[index]` before the reset effect (lines 21-23) has brought an out-of-range cursor back to 0, so `step` is undefined and `step.reference` (or, without waitForAnchor, `step.footerActions`) throws | the callouts are open with index 2, and the host replaces `steps` with a one-step list | render the step the reset selects, so that the sequence never throws | high, not executed | ChainedCallouts.RenderAsWrittenCrashes | ChainedCallouts.Render |
