/** The sequence coordinator (`ChainedCallouts`): an integer cursor over the
    host's list of steps, advanced by `goNext`, reset when the list gets
    shorter than the cursor, and the calls it makes to the host's
    `onOpenChange` and `onFinish`. */
module ChainedCallouts {
  import opened Maybe
  import Footer

  /** One step: its id, its anchor (absent until it is mounted), its
      placement override and its own footer actions, if any. */
  datatype Step = Step(id: nat, reference: Option<nat>, placement: Option<string>,
                       footerActions: Option<seq<Footer.Action>>)

  /** `dismissMode`: 'next', or any other value. */
  datatype DismissMode = AdvanceOnDismiss | CloseOnDismiss

  /** A call the coordinator makes to the host: `onOpenChange(next)` or `onFinish()`. */
  datatype Signal = OpenChange(next: bool) | Finish

  /** The cursor and every call made so far. */
  datatype Cursor = Cursor(index: nat, signals: seq<Signal>)

  /** `isLast`: `index >= steps.length - 1`. */
  predicate IsLast(index: nat, count: nat)
  {
    index >= count - 1
  }

  /** Closing the sequence: `onOpenChange(false)`, then `onFinish()` when one is given. */
  function Finished(hasOnFinish: bool): seq<Signal>
  {
    [OpenChange(false)] + (if hasOnFinish then [Finish] else [])
  }

  /** `goNext` over `count` steps. */
  function GoNext(c: Cursor, count: nat, hasOnFinish: bool): (r: Cursor)
    ensures c.signals <= r.signals
    ensures r.index == c.index + 1 <==> c.index + 1 < count
    ensures r.index != c.index + 1 ==> r.index == c.index
    ensures r.index == c.index + 1 <==> r.signals == c.signals
  {
    if IsLast(c.index, count) then c.(signals := c.signals + Finished(hasOnFinish))
    else c.(index := c.index + 1)
  }

  /** `handleOpenChange(next)`, the callout's `onOpenChange`. */
  function HandleOpenChange(c: Cursor, next: bool, mode: DismissMode, count: nat, hasOnFinish: bool): (r: Cursor)
    ensures c.signals <= r.signals
    ensures r.index != c.index ==> !next && mode == AdvanceOnDismiss && r.index == c.index + 1
    ensures next || mode == CloseOnDismiss ==>
      |r.signals| > |c.signals| && r.signals[|c.signals|] == OpenChange(next)
  {
    if next then c.(signals := c.signals + [OpenChange(true)])
    else if mode == AdvanceOnDismiss then GoNext(c, count, hasOnFinish)
    else c.(signals := c.signals + Finished(hasOnFinish))
  }

  /** The reset effect: a cursor past the last step goes back to 0. */
  function Reset(index: nat, count: nat): (r: nat)
    ensures count > 0 ==> r < count
    ensures index < count ==> r == index
    ensures index >= count ==> r == 0
  {
    if index > count - 1 then 0 else index
  }

  /** The number of `Finish` calls in `s`. */
  function Finishes(s: seq<Signal>): nat
  {
    if s == [] then 0 else (if s[0] == Finish then 1 else 0) + Finishes(s[1..])
  }

  lemma {:induction false} FinishesAppend(a: seq<Signal>, b: seq<Signal>)
    ensures Finishes(a + b) == Finishes(a) + Finishes(b)
    decreases a
  {
    if a != [] {
      assert (a + b)[1..] == a[1..] + b;
      FinishesAppend(a[1..], b);
    } else {
      assert a + b == b;
    }
  }

  /** `goNext` keeps the cursor on a step: it advances by exactly one when not
      on the last step, and on the last step it stays and closes the sequence,
      firing `onFinish` exactly once when one is given. */
  lemma GoNextSteps(c: Cursor, count: nat, hasOnFinish: bool)
    requires c.index < count
    ensures var d := GoNext(c, count, hasOnFinish);
      d.index < count &&
      (c.index < count - 1 ==> d.index == c.index + 1 && d.signals == c.signals) &&
      (c.index == count - 1 ==>
         d.index == c.index &&
         Finishes(d.signals) == Finishes(c.signals) + (if hasOnFinish then 1 else 0) &&
         d.signals[|c.signals|] == OpenChange(false))
  {
    if c.index == count - 1 {
      FinishesAppend(c.signals, Finished(hasOnFinish));
      FinishesAppend([OpenChange(false)], if hasOnFinish then [Finish] else []);
    }
  }

  /** `handleOpenChange(true)` only forwards the call; a dismissal advances
      under 'next' and otherwise closes without moving the cursor. */
  lemma HandleOpenChangeRoutes(c: Cursor, next: bool, mode: DismissMode, count: nat, hasOnFinish: bool)
    requires c.index < count
    ensures var d := HandleOpenChange(c, next, mode, count, hasOnFinish);
      d.index < count &&
      (next ==> d == Cursor(c.index, c.signals + [OpenChange(true)])) &&
      (!next && mode == CloseOnDismiss ==> d == Cursor(c.index, c.signals + Finished(hasOnFinish))) &&
      (!next && mode == AdvanceOnDismiss ==> d == GoNext(c, count, hasOnFinish))
  {
  }

  /** `k` presses of Next. */
  function NextN(c: Cursor, count: nat, hasOnFinish: bool, k: nat): Cursor
    decreases k
  {
    if k == 0 then c else NextN(GoNext(c, count, hasOnFinish), count, hasOnFinish, k - 1)
  }

  lemma {:induction false} AdvanceWithoutSignals(c: Cursor, count: nat, hasOnFinish: bool, k: nat)
    requires c.index + k < count
    ensures NextN(c, count, hasOnFinish, k) == c.(index := c.index + k)
    decreases k
  {
    if k > 0 {
      AdvanceWithoutSignals(GoNext(c, count, hasOnFinish), count, hasOnFinish, k - 1);
    }
  }

  /** A whole tour: from the first step, pressing Next once per step walks
      through every step without calling the host and then closes the
      sequence with `onOpenChange(false)` and a single `onFinish()`. */
  lemma WalkThrough(count: nat, hasOnFinish: bool)
    requires count > 0
    ensures NextN(Cursor(0, []), count, hasOnFinish, count) == Cursor(count - 1, Finished(hasOnFinish))
    ensures Finishes(Finished(hasOnFinish)) == (if hasOnFinish then 1 else 0)
  {
    AdvanceWithoutSignals(Cursor(0, []), count, hasOnFinish, count - 1);
    NextSplit(Cursor(0, []), count, hasOnFinish, count - 1);
    FinishesAppend([OpenChange(false)], if hasOnFinish then [Finish] else []);
  }

  lemma {:induction false} NextSplit(c: Cursor, count: nat, hasOnFinish: bool, k: nat)
    ensures NextN(c, count, hasOnFinish, k + 1) == GoNext(NextN(c, count, hasOnFinish, k), count, hasOnFinish)
    decreases k
  {
    if k > 0 {
      NextSplit(GoNext(c, count, hasOnFinish), count, hasOnFinish, k - 1);
    }
  }

  /** The primary action the coordinator adds after the step's own actions. */
  function PrimaryAction(isLast: bool): Footer.Action
  {
    Footer.Action(if isLast then "Done" else "Next", true, false, Footer.Advance)
  }

  /** `actions`: the step's footer actions (or none), then one primary
      action labelled 'Done' on the last step and 'Next' otherwise, wired to `goNext`. */
  function Actions(step: Step, isLast: bool): (r: seq<Footer.Action>)
    ensures var own := if step.footerActions.Some? then step.footerActions.value else [];
      |r| == |own| + 1 && r[..|own|] == own
    ensures r[|r| - 1].primary && r[|r| - 1].onClick == Footer.Advance
    ensures r[|r| - 1].text == "Done" <==> isLast
    ensures !isLast ==> r[|r| - 1].text == "Next"
  {
    var own := if step.footerActions.Some? then step.footerActions.value else [];
    own + [PrimaryAction(isLast)]
  }

  /** The outcome of a render: nothing, a callout for a step, or a render
      that throws. */
  datatype Rendered = Nothing | Crash | Shown(step: Step, isLast: bool, actions: seq<Footer.Action>)

  /** The render as written: `steps[index]` is read before the reset effect
      has run, so a list that has become shorter than the cursor makes
      `step` undefined and the next property read throws. */
  function RenderAsWritten(open: bool, steps: seq<Step>, index: nat, waitForAnchor: bool): (r: Rendered)
    ensures r == Crash <==> open && 0 < |steps| <= index
  {
    if !open || |steps| == 0 then Nothing
    else if index >= |steps| then Crash
    else
      var step := steps[index];
      var isLast := IsLast(index, |steps|);
      if waitForAnchor && step.reference.None? then Nothing
      else Shown(step, isLast, Actions(step, isLast))
  }

  /** Counterexample: the list shrinks from three steps to one while the
      cursor is on the third step. */
  lemma RenderAsWrittenCrashes()
    ensures RenderAsWritten(true, [Step(0, Some(0), None, None)], 2, true) == Crash
    ensures RenderAsWritten(true, [Step(0, Some(0), None, None)], 2, false) == Crash
  {
  }

  /** The render as evidently intended: the cursor the reset effect is about
      to establish selects the step. */
  function Render(open: bool, steps: seq<Step>, index: nat, waitForAnchor: bool): (r: Rendered)
    ensures r != Crash
    ensures r.Shown? <==> open && |steps| > 0 && !(waitForAnchor && steps[Reset(index, |steps|)].reference.None?)
    ensures r.Shown? ==> var i := Reset(index, |steps|);
      r.step == steps[i] && (r.isLast <==> i == |steps| - 1) && r.actions == Actions(r.step, r.isLast)
    ensures index < |steps| ==> r == RenderAsWritten(open, steps, index, waitForAnchor)
  {
    RenderAsWritten(open, steps, Reset(index, |steps|), waitForAnchor)
  }

  /** The coordinator's state cell and what it has called on the host. */
  class Chain {
    var steps: seq<Step>
    var index: nat
    var signals: seq<Signal>
    const dismissMode: DismissMode
    const hasOnFinish: bool
    const waitForAnchor: bool

    /** `useState(0)`. */
    constructor (steps: seq<Step>, dismissMode: DismissMode, hasOnFinish: bool, waitForAnchor: bool)
      ensures this.steps == steps && index == 0 && signals == []
      ensures this.dismissMode == dismissMode && this.hasOnFinish == hasOnFinish
      ensures this.waitForAnchor == waitForAnchor
    {
      this.steps := steps;
      index := 0;
      signals := [];
      this.dismissMode := dismissMode;
      this.hasOnFinish := hasOnFinish;
      this.waitForAnchor := waitForAnchor;
    }

    function State(): Cursor
      reads this
    {
      Cursor(index, signals)
    }

    /** The host passes a new `steps` list. */
    method SetSteps(s: seq<Step>)
      modifies this`steps
      ensures steps == s
    {
      steps := s;
    }

    /** The effect on `[steps, index]`. */
    method ResetEffect()
      modifies this`index
      ensures index == Reset(old(index), |steps|)
      ensures |steps| > 0 ==> index < |steps|
    {
      if index > |steps| - 1 {
        index := 0;
      }
    }

    function View(open: bool): Rendered
      reads this
    {
      Render(open, steps, index, waitForAnchor)
    }

    /** The host passes a new list, the callout renders, and then the reset
        effect runs: the render already shows the step the reset selects, so
        it never throws, however much shorter the new list is. */
    method Rerender(open: bool, s: seq<Step>) returns (view: Rendered)
      modifies this`steps, this`index
      ensures steps == s && index == Reset(old(index), |s|)
      ensures view == Render(open, s, old(index), waitForAnchor) && view != Crash
    {
      SetSteps(s);
      view := View(open);
      ResetEffect();
    }

    /** `goNext`; only reachable from a rendered step, so the cursor is on one. */
    method GoNextStep()
      requires index < |steps|
      modifies this`index, this`signals
      ensures State() == GoNext(old(State()), |steps|, hasOnFinish)
      ensures index < |steps|
    {
      if index >= |steps| - 1 {
        signals := signals + [OpenChange(false)];
        if hasOnFinish {
          signals := signals + [Finish];
        }
      } else {
        index := index + 1;
      }
    }

    /** `handleOpenChange(next)`. */
    method HandleOpenChangeStep(next: bool)
      requires index < |steps|
      modifies this`index, this`signals
      ensures State() == HandleOpenChange(old(State()), next, dismissMode, |steps|, hasOnFinish)
      ensures index < |steps|
    {
      if next {
        signals := signals + [OpenChange(true)];
        return;
      }
      if dismissMode == AdvanceOnDismiss {
        GoNextStep();
      } else {
        signals := signals + [OpenChange(false)];
        if hasOnFinish {
          signals := signals + [Finish];
        }
      }
    }
  }
}
