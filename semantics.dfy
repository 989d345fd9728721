/** What handling one event does. `Trace(c, e)` lists, in order, every
    action the chain `c` performs for event `e` (UI effects plus markers for
    each hand-off to an inner listener and each hover hook); `Apply` replays
    a list of actions on the state of the user interface. The imperative
    handler in module Ui is proved to perform exactly `Trace(c, e)`. */
module Semantics {
  import opened Wrappers
  import opened Events
  import opened Decorating

  /** Placeholder written on the label when the event has no URL. */
  const LabelUrlNull := "No URL"
  /** Placeholder logged by OnEnterLogUrl when the event has no URL. */
  const LogUrlNull := "n.a."

  /** The line LogEventsToConsole prints. */
  function LogLine(e: Event): string {
    "Link " + TypeName(e.kind) + "."
  }

  /** The three lines LogEventsToConsole can print. */
  lemma LogLineText(e: Event)
    ensures e.kind == Entered ==> LogLine(e) == "Link ENTERED."
    ensures e.kind == Exited ==> LogLine(e) == "Link EXITED."
    ensures e.kind == Activated ==> LogLine(e) == "Link ACTIVATED."
  {
  }

  /** The line OnEnterLogUrl prints. */
  function UrlLine(e: Event): string {
    "Link entered with URL " + UrlOr(e.url, LogUrlNull)
  }

  /** A colour restore waiting in the executor's queue. */
  datatype Restore = Restore(component: Widget, color: Color)

  /** The observable state: console output, visibility and background of the
      two widgets, the label's text (None for null) and the pending restores,
      oldest first. */
  datatype Screen = Screen(
    log: seq<string>,
    htmlVisible: bool,
    labelVisible: bool,
    htmlBackground: Color,
    labelBackground: Color,
    labelText: Option<string>,
    pending: seq<Restore>)

  function Visible(s: Screen, w: Widget): bool {
    if w.HtmlView? then s.htmlVisible else s.labelVisible
  }

  function Background(s: Screen, w: Widget): Color {
    if w.HtmlView? then s.htmlBackground else s.labelBackground
  }

  /** The console after more output: `log` is everything printed so far. */
  function WithLog(s: Screen, log: seq<string>): Screen {
    s.(log := log)
  }

  /** `urlLabel.setText(t)`; None stands for null. */
  function WithText(s: Screen, t: Option<string>): Screen {
    s.(labelText := t)
  }

  /** The executor's queue replaced by `pending`. */
  function WithPending(s: Screen, pending: seq<Restore>): Screen {
    s.(pending := pending)
  }

  /** `w.setVisible(b)`. */
  function WithVisible(s: Screen, w: Widget, b: bool): (r: Screen)
    ensures Visible(r, w) == b
  {
    if w.HtmlView? then s.(htmlVisible := b) else s.(labelVisible := b)
  }

  /** `w.setBackground(c)`. */
  function WithBackground(s: Screen, w: Widget, c: Color): (r: Screen)
    ensures Background(r, w) == c
  {
    if w.HtmlView? then s.(htmlBackground := c) else s.(labelBackground := c)
  }

  datatype Phase = Enter | Exit

  datatype Action =
    | Print(line: string)                        // System.out.println
    | SetVisible(component: Widget, visible: bool)
    | SetText(text: Option<string>)              // urlLabel.setText
    | SetBackground(component: Widget, color: Color)
    | HighlightBackground(component: Widget)     // read colour, set magenta, schedule its restore
    | Delegate(event: Event)                     // a decorator calls its wrapped listener
    | Deliver(event: Event)                      // the base handler is invoked
    | Hook(phase: Phase, hooks: Hover)           // onEnter / onExit of a hover decorator starts
    | RunRestore                                 // the executor runs the oldest pending restore

  /** The effect of one action. */
  function Step(s: Screen, a: Action): Screen {
    match a
    case Print(line) => WithLog(s, s.log + [line])
    case SetVisible(w, b) => WithVisible(s, w, b)
    case SetText(t) => WithText(s, t)
    case SetBackground(w, c) => WithBackground(s, w, c)
    case HighlightBackground(w) => Highlighted(s, w)
    case RunRestore => FireRestore(s)
    case _ => s
  }

  /** `highlightBackground`: the prior colour is captured, the background
      turns magenta and one restore carrying the prior colour is queued. */
  function Highlighted(s: Screen, w: Widget): (r: Screen)
    ensures Background(r, w) == Magenta
    ensures r.pending == s.pending + [Restore(w, Background(s, w))]
  {
    WithPending(WithBackground(s, w, Magenta), s.pending + [Restore(w, Background(s, w))])
  }

  /** Replays actions in order. */
  function Apply(s: Screen, acts: seq<Action>): Screen
    decreases |acts|
  {
    if acts == [] then s else Apply(Step(s, acts[0]), acts[1..])
  }

  /** The executor runs the oldest pending restore (on the dispatch thread):
      the background is set back to the captured colour. Nothing to run
      leaves the state as it is. */
  function FireRestore(s: Screen): Screen {
    if s.pending == [] then s
    else WithPending(WithBackground(s, s.pending[0].component, s.pending[0].color), s.pending[1..])
  }

  /** What `onEnter` does in each hover decorator. */
  function EnterHook(h: Hover, e: Event): seq<Action> {
    [Hook(Enter, h)] +
    match h
    case MakeVisible(w) => [SetVisible(w, true)]
    case SetUrlText(_) => [SetText(Some(UrlOr(e.url, LabelUrlNull)))]
  }

  /** What `onExit` does in each hover decorator. */
  function ExitHook(h: Hover): seq<Action> {
    [Hook(Exit, h)] +
    match h
    case MakeVisible(w) => [SetVisible(w, false)]
    case SetUrlText(_) => [SetText(None)]
  }

  /** What a layer does before handing the event to its wrapped listener. */
  function Before(d: Decorator, e: Event): seq<Action> {
    match d
    case Adapter => []
    case LogEvents => [Print(LogLine(e))]
    case OnHover(h) => if e.kind == Entered then EnterHook(h, e) else []
    case LogUrlOnEnter => if e.kind == Entered then [Print(UrlLine(e))] else []
    case Highlight(w) => if e.kind == Activated then [HighlightBackground(w)] else []
  }

  /** What a layer does after its wrapped listener returns. */
  function After(d: Decorator, e: Event): seq<Action> {
    if d.OnHover? && e.kind == Exited then ExitHook(d.hooks) else []
  }

  /** `changeHtmlViewBackgroundColor`. */
  function BaseTrace(e: Event): seq<Action> {
    [Deliver(e)] +
    match e.kind
    case Entered => [SetBackground(HtmlView, Orange)]
    case Exited => [SetBackground(HtmlView, White)]
    case Activated => []
  }

  /** Everything the chain does for one event, in order. */
  function Trace(c: Chain, e: Event): seq<Action> {
    match c
    case Base => BaseTrace(e)
    case Wrap(d, inner) => Before(d, e) + [Delegate(e)] + Trace(inner, e) + After(d, e)
  }

  // ---------------------------------------------------------------------
  // Replaying actions

  lemma {:induction false} ApplyConcat(s: Screen, a: seq<Action>, b: seq<Action>)
    ensures Apply(s, a + b) == Apply(Apply(s, a), b)
    decreases |a|
  {
    if a != [] {
      assert (a + b)[0] == a[0];
      assert (a + b)[1..] == a[1..] + b;
      ApplyConcat(Step(s, a[0]), a[1..], b);
    } else {
      assert a + b == b;
    }
  }

  /** One layer's trace, unfolded. */
  lemma TraceLayer(d: Decorator, inner: Chain, e: Event)
    ensures Trace(Wrap(d, inner), e) == Before(d, e) + [Delegate(e)] + Trace(inner, e) + After(d, e)
  {
  }

  /** A layer with nothing to do for this event only hands it on. */
  lemma PassThrough(d: Decorator, inner: Chain, e: Event)
    requires Before(d, e) == [] && After(d, e) == []
    ensures Trace(Wrap(d, inner), e) == [Delegate(e)] + Trace(inner, e)
  {
    TraceLayer(d, inner, e);
  }

  lemma ApplyOne(s: Screen, a: Action)
    ensures Apply(s, [a]) == Step(s, a)
  {
    assert [a][1..] == [];
  }

  /** Replaying the actions of one layer around its wrapped listener. */
  lemma LayerApply(s: Screen, d: Decorator, inner: Chain, e: Event)
    ensures Apply(s, Trace(Wrap(d, inner), e))
         == Apply(Apply(Apply(s, Before(d, e)), Trace(inner, e)), After(d, e))
  {
    var b, t, a := Before(d, e), Trace(inner, e), After(d, e);
    Assoc(b, [Delegate(e)], t + a);
    Assoc(b + [Delegate(e)], t, a);
    ApplyConcat(s, b, [Delegate(e)] + (t + a));
    ApplyCons(Apply(s, b), Delegate(e), t + a);
    ApplyConcat(Apply(s, b), t, a);
  }

  lemma ApplyCons(s: Screen, a: Action, rest: seq<Action>)
    ensures Apply(s, [a] + rest) == Apply(Step(s, a), rest)
  {
    assert ([a] + rest)[1..] == rest;
  }

  // ---------------------------------------------------------------------
  // Delegation: every layer hands the same event on exactly once

  function Keep(t: seq<Action>, p: Action -> bool): (r: seq<Action>)
    ensures |r| <= |t|
  {
    if t == [] then [] else (if p(t[0]) then [t[0]] else []) + Keep(t[1..], p)
  }

  lemma {:induction false} KeepConcat(a: seq<Action>, b: seq<Action>, p: Action -> bool)
    ensures Keep(a + b, p) == Keep(a, p) + Keep(b, p)
    decreases |a|
  {
    if a != [] {
      assert (a + b)[0] == a[0];
      assert (a + b)[1..] == a[1..] + b;
      KeepConcat(a[1..], b, p);
    } else {
      assert a + b == b;
    }
  }

  predicate IsHandoff(a: Action) {
    a.Delegate? || a.Deliver?
  }

  predicate IsHook(a: Action) {
    a.Hook?
  }

  /** `n` copies of `a`. */
  function Repeat(a: Action, n: nat): (r: seq<Action>)
    ensures |r| == n
  {
    if n == 0 then [] else [a] + Repeat(a, n - 1)
  }

  /** Concatenation regrouped. */
  lemma Assoc<T>(x: seq<T>, y: seq<T>, z: seq<T>)
    ensures x + (y + z) == x + y + z
  {
  }

  lemma {:induction false} KeepNone(t: seq<Action>, p: Action -> bool)
    requires forall i :: 0 <= i < |t| ==> !p(t[i])
    ensures Keep(t, p) == []
    decreases |t|
  {
    if t != [] { KeepNone(t[1..], p); }
  }

  lemma LayerKeep(d: Decorator, e: Event, p: Action -> bool)
    requires forall a :: p(a) ==> IsHandoff(a)
    ensures Keep(Before(d, e), p) == [] && Keep(After(d, e), p) == []
  {
    KeepNone(Before(d, e), p);
    KeepNone(After(d, e), p);
  }

  lemma BaseHandoff(e: Event)
    ensures Keep(BaseTrace(e), IsHandoff) == [Deliver(e)]
  {
    var rest := BaseTrace(e)[1..];
    assert BaseTrace(e) == [Deliver(e)] + rest;
    KeepConcat([Deliver(e)], rest, IsHandoff);
    KeepNone(rest, IsHandoff);
  }

  /** Handling an event in a chain of n layers makes exactly n hand-offs,
      each with the very same event, and then invokes the base handler once. */
  lemma {:induction false} DelegationExactlyOnce(c: Chain, e: Event)
    ensures Keep(Trace(c, e), IsHandoff) == Repeat(Delegate(e), Depth(c)) + [Deliver(e)]
  {
    match c
    case Base =>
      BaseHandoff(e);
    case Wrap(d, inner) =>
      var b, t, a := Before(d, e), Trace(inner, e), After(d, e);
      DelegationExactlyOnce(inner, e);
      LayerKeep(d, e, IsHandoff);
      TraceLayer(d, inner, e);
      Assoc(b, [Delegate(e)], t + a);
      Assoc(b + [Delegate(e)], t, a);
      KeepConcat(b, [Delegate(e)] + (t + a), IsHandoff);
      KeepConcat([Delegate(e)], t + a, IsHandoff);
      KeepConcat(t, a, IsHandoff);
      Assoc([Delegate(e)], Repeat(Delegate(e), Depth(inner)), [Deliver(e)]);
  }

  // ---------------------------------------------------------------------
  // Hover hooks: enter hooks outer-to-inner before the base handler,
  // exit hooks inner-to-outer after it

  /** The actions performed on the way in, before the base handler. */
  function Prelude(c: Chain, e: Event): seq<Action> {
    match c
    case Base => []
    case Wrap(d, inner) => Before(d, e) + [Delegate(e)] + Prelude(inner, e)
  }

  /** The actions performed on the way out, after the base handler returns. */
  function Postlude(c: Chain, e: Event): seq<Action> {
    match c
    case Base => []
    case Wrap(d, inner) => Postlude(inner, e) + After(d, e)
  }

  /** The hover decorators of a chain, outermost first. */
  function HoverLayers(c: Chain): seq<Hover> {
    match c
    case Base => []
    case Wrap(d, inner) => (if d.OnHover? then [d.hooks] else []) + HoverLayers(inner)
  }

  function HookMarks(p: Phase, hs: seq<Hover>): (r: seq<Action>)
    ensures |r| == |hs|
  {
    if hs == [] then [] else [Hook(p, hs[0])] + HookMarks(p, hs[1..])
  }

  lemma {:induction false} HookMarksSnoc(p: Phase, hs: seq<Hover>, h: Hover)
    ensures HookMarks(p, hs + [h]) == HookMarks(p, hs) + [Hook(p, h)]
    decreases |hs|
  {
    if hs == [] {
      assert hs + [h] == [h];
    } else {
      assert (hs + [h])[1..] == hs[1..] + [h];
      HookMarksSnoc(p, hs[1..], h);
    }
  }

  /** The hook markers of one layer: its `onEnter` on Entered, before the
      hand-off; its `onExit` on Exited, after it; nothing otherwise. */
  lemma LayerHooks(d: Decorator, e: Event)
    ensures Keep(Before(d, e), IsHook) == if d.OnHover? && e.kind == Entered then [Hook(Enter, d.hooks)] else []
    ensures Keep(After(d, e), IsHook) == if d.OnHover? && e.kind == Exited then [Hook(Exit, d.hooks)] else []
  {
    var b, a := Before(d, e), After(d, e);
    if |b| == 2 { assert b == [b[0]] + [b[1]]; KeepConcat([b[0]], [b[1]], IsHook); }
    if |a| == 2 { assert a == [a[0]] + [a[1]]; KeepConcat([a[0]], [a[1]], IsHook); }
  }

  lemma BaseHasNoHooks(e: Event)
    ensures Keep(BaseTrace(e), IsHook) == []
  {
    var t := BaseTrace(e);
    if |t| == 2 { assert t == [t[0]] + [t[1]]; KeepConcat([t[0]], [t[1]], IsHook); }
  }

  /** Every trace is the way in, the base handler, and the way out. */
  lemma {:induction false} TraceSplit(c: Chain, e: Event)
    ensures Trace(c, e) == Prelude(c, e) + BaseTrace(e) + Postlude(c, e)
  {
    match c
    case Base =>
    case Wrap(d, inner) =>
      TraceSplit(inner, e);
  }

  /** The hook markers on the way in: the enter hooks, outermost first, on
      Entered; none otherwise. */
  lemma {:induction false} PreludeHooks(c: Chain, e: Event)
    ensures Keep(Prelude(c, e), IsHook) == if e.kind == Entered then HookMarks(Enter, HoverLayers(c)) else []
  {
    match c
    case Base =>
    case Wrap(d, inner) =>
      PreludeHooks(inner, e);
      LayerHooks(d, e);
      var b := Before(d, e);
      KeepConcat(b, [Delegate(e)], IsHook);
      KeepConcat(b + [Delegate(e)], Prelude(inner, e), IsHook);
      assert Keep([Delegate(e)], IsHook) == [];
      var hs := HoverLayers(inner);
      if d.OnHover? {
        assert HoverLayers(c) == [d.hooks] + hs;
        assert ([d.hooks] + hs)[1..] == hs;
      } else {
        assert HoverLayers(c) == hs;
      }
  }

  /** The hook markers on the way out: the exit hooks, innermost first, on
      Exited; none otherwise. */
  lemma {:induction false} PostludeHooks(c: Chain, e: Event)
    ensures Keep(Postlude(c, e), IsHook) == if e.kind == Exited then HookMarks(Exit, Reversed(HoverLayers(c))) else []
  {
    match c
    case Base =>
    case Wrap(d, inner) =>
      PostludeHooks(inner, e);
      LayerHooks(d, e);
      KeepConcat(Postlude(inner, e), After(d, e), IsHook);
      var hs := HoverLayers(inner);
      if d.OnHover? {
        assert HoverLayers(c) == [d.hooks] + hs;
        assert ([d.hooks] + hs)[1..] == hs;
        assert Reversed(HoverLayers(c)) == Reversed(hs) + [d.hooks];
        HookMarksSnoc(Exit, Reversed(hs), d.hooks);
      } else {
        assert HoverLayers(c) == hs;
      }
  }

  /** Entered: each hover decorator's `onEnter` runs once, outermost first,
      all of them before the base handler; no `onExit` runs. */
  lemma EnterHooksOuterToInner(c: Chain, e: Event)
    requires e.kind == Entered
    ensures Trace(c, e) == Prelude(c, e) + BaseTrace(e) + Postlude(c, e)
    ensures Keep(Prelude(c, e), IsHook) == HookMarks(Enter, HoverLayers(c))
    ensures Keep(BaseTrace(e) + Postlude(c, e), IsHook) == []
  {
    TraceSplit(c, e);
    PreludeHooks(c, e);
    PostludeHooks(c, e);
    BaseHasNoHooks(e);
    KeepConcat(BaseTrace(e), Postlude(c, e), IsHook);
  }

  /** Exited: each hover decorator's `onExit` runs once, innermost first, all
      of them after the base handler; no `onEnter` runs. */
  lemma ExitHooksInnerToOuter(c: Chain, e: Event)
    requires e.kind == Exited
    ensures Trace(c, e) == Prelude(c, e) + BaseTrace(e) + Postlude(c, e)
    ensures Keep(Prelude(c, e) + BaseTrace(e), IsHook) == []
    ensures Keep(Postlude(c, e), IsHook) == HookMarks(Exit, Reversed(HoverLayers(c)))
  {
    TraceSplit(c, e);
    PreludeHooks(c, e);
    PostludeHooks(c, e);
    BaseHasNoHooks(e);
    KeepConcat(Prelude(c, e), BaseTrace(e), IsHook);
  }

  /** Activated: no hover hook runs anywhere in the chain. */
  lemma {:induction false} ActivatedRunsNoHooks(c: Chain, e: Event)
    requires e.kind == Activated
    ensures Keep(Trace(c, e), IsHook) == []
  {
    match c
    case Base =>
      BaseHasNoHooks(e);
    case Wrap(d, inner) =>
      ActivatedRunsNoHooks(inner, e);
      LayerHooks(d, e);
      KeepConcat(Before(d, e), [Delegate(e)], IsHook);
      KeepConcat(Before(d, e) + [Delegate(e)], Trace(inner, e), IsHook);
      KeepConcat(Before(d, e) + [Delegate(e)] + Trace(inner, e), After(d, e), IsHook);
  }

  // ---------------------------------------------------------------------
  // The effect of each kind of layer

  /** The base handler: orange on Entered, white on Exited, nothing on Activated. */
  lemma BaseHandler(s: Screen, e: Event)
    ensures Apply(s, BaseTrace(e)) == match e.kind
      case Entered => WithBackground(s, HtmlView, Orange)
      case Exited => WithBackground(s, HtmlView, White)
      case Activated => s
  {
    var rest := BaseTrace(e)[1..];
    assert BaseTrace(e) == [Deliver(e)] + rest;
    ApplyConcat(s, [Deliver(e)], rest);
    ApplyOne(s, Deliver(e));
    if rest != [] { ApplyOne(s, rest[0]); }
  }

  /** `from(l)` and the plain decorator: one hand-off of the same event and no
      effect of their own; the state afterwards is what `l` alone produces. */
  lemma AdapterForwards(l: Chain, s: Screen, e: Event)
    ensures Trace(From(l), e) == [Delegate(e)] + Trace(l, e)
    ensures Apply(s, Trace(From(l), e)) == Apply(s, Trace(l, e))
  {
    LayerApply(s, Adapter, l, e);
  }

  /** LogEventsToConsole: one line naming the event type is logged before the
      wrapped listener runs; nothing else changes at this layer. */
  lemma LogEventsLayer(inner: Chain, s: Screen, e: Event)
    ensures Apply(s, Trace(Wrap(LogEvents, inner), e))
         == Apply(WithLog(s, s.log + [LogLine(e)]), Trace(inner, e))
  {
    LayerApply(s, LogEvents, inner, e);
    ApplyOne(s, Print(LogLine(e)));
  }

  /** The state change made by `onEnter`. */
  function EnterEffect(h: Hover, e: Event, s: Screen): Screen {
    match h
    case MakeVisible(w) => WithVisible(s, w, true)
    case SetUrlText(_) => WithText(s, Some(UrlOr(e.url, LabelUrlNull)))
  }

  /** The state change made by `onExit`. */
  function ExitEffect(h: Hover, s: Screen): Screen {
    match h
    case MakeVisible(w) => WithVisible(s, w, false)
    case SetUrlText(_) => WithText(s, None)
  }

  /** A hover hook touches only its own target (the visibility of its
      component, or the label's text) and sets it to a fixed value: the
      enter hook makes it visible or shows the URL (or "No URL"), the exit
      hook hides it or clears the text. */
  lemma HoverHookFrame(h: Hover, e: Event, s: Screen, w: Widget)
    ensures var r := EnterEffect(h, e, s);
      r.log == s.log && r.pending == s.pending && Background(r, w) == Background(s, w)
      && (h.MakeVisible? ==> Visible(r, h.component) && r.labelText == s.labelText
                             && (w != h.component ==> Visible(r, w) == Visible(s, w)))
      && (h.SetUrlText? ==> r.labelText == Some(UrlOr(e.url, LabelUrlNull)) && Visible(r, w) == Visible(s, w))
    ensures var r := ExitEffect(h, s);
      r.log == s.log && r.pending == s.pending && Background(r, w) == Background(s, w)
      && (h.MakeVisible? ==> !Visible(r, h.component) && r.labelText == s.labelText
                             && (w != h.component ==> Visible(r, w) == Visible(s, w)))
      && (h.SetUrlText? ==> r.labelText.None? && Visible(r, w) == Visible(s, w))
  {
  }

  /** Entering again changes nothing the first enter hook did not. */
  lemma HoverEnterIdempotent(h: Hover, e: Event, s: Screen)
    ensures EnterEffect(h, e, EnterEffect(h, e, s)) == EnterEffect(h, e, s)
  {
  }

  /** A hover decorator: on Entered its enter effect happens before the
      wrapped listener runs, on Exited its exit effect happens after it, on
      Activated it only delegates. */
  lemma HoverLayer(h: Hover, inner: Chain, s: Screen, e: Event)
    ensures e.kind == Entered ==>
      Apply(s, Trace(Wrap(OnHover(h), inner), e)) == Apply(EnterEffect(h, e, s), Trace(inner, e))
    ensures e.kind == Exited ==>
      Apply(s, Trace(Wrap(OnHover(h), inner), e)) == ExitEffect(h, Apply(s, Trace(inner, e)))
    ensures e.kind == Activated ==>
      Apply(s, Trace(Wrap(OnHover(h), inner), e)) == Apply(s, Trace(inner, e))
  {
    LayerApply(s, OnHover(h), inner, e);
    var b, a := Before(OnHover(h), e), After(OnHover(h), e);
    if |b| == 2 {
      assert b == [b[0]] + [b[1]];
      ApplyConcat(s, [b[0]], [b[1]]);
      ApplyOne(s, b[0]);
      ApplyOne(s, b[1]);
    }
    var t := Apply(s, Trace(inner, e));
    if |a| == 2 {
      assert a == [a[0]] + [a[1]];
      ApplyConcat(t, [a[0]], [a[1]]);
      ApplyOne(t, a[0]);
      ApplyOne(t, a[1]);
    }
  }

  /** The hover decorator's target as `onExit` leaves it: hidden, or no text. */
  predicate HoverOff(h: Hover, s: Screen) {
    match h
    case MakeVisible(w) => !Visible(s, w)
    case SetUrlText(_) => s.labelText.None?
  }

  /** Entered then Exited leaves the target hidden (or its text null),
      whatever the URL and the state before, whatever the inner listener does. */
  lemma HoverEnterThenExit(h: Hover, inner: Chain, s: Screen, enter: Event, exit: Event)
    requires enter.kind == Entered && exit.kind == Exited
    ensures HoverOff(h, Apply(Apply(s, Trace(Wrap(OnHover(h), inner), enter)), Trace(Wrap(OnHover(h), inner), exit)))
  {
    var s1 := Apply(s, Trace(Wrap(OnHover(h), inner), enter));
    HoverLayer(h, inner, s1, exit);
  }

  /** OnEnterLogUrl: on Entered the URL (or "n.a.") is logged before the
      wrapped listener runs; otherwise it only delegates. */
  lemma LogUrlLayer(inner: Chain, s: Screen, e: Event)
    ensures e.kind == Entered ==>
      Apply(s, Trace(Wrap(LogUrlOnEnter, inner), e))
        == Apply(WithLog(s, s.log + [UrlLine(e)]), Trace(inner, e))
    ensures e.kind != Entered ==>
      Apply(s, Trace(Wrap(LogUrlOnEnter, inner), e)) == Apply(s, Trace(inner, e))
  {
    LayerApply(s, LogUrlOnEnter, inner, e);
    if e.kind == Entered { ApplyOne(s, Print(UrlLine(e))); }
  }

  /** OnActivateHighlightComponent: on Activated the component turns magenta
      and one restore carrying its prior colour is queued, before the
      wrapped listener runs; otherwise it only delegates. */
  lemma HighlightLayer(w: Widget, inner: Chain, s: Screen, e: Event)
    ensures e.kind == Activated ==>
      Apply(s, Trace(Wrap(Highlight(w), inner), e))
        == Apply(Highlighted(s, w), Trace(inner, e))
    ensures e.kind != Activated ==>
      Apply(s, Trace(Wrap(Highlight(w), inner), e)) == Apply(s, Trace(inner, e))
  {
    LayerApply(s, Highlight(w), inner, e);
    if e.kind == Activated { ApplyOne(s, HighlightBackground(w)); }
  }

  // ---------------------------------------------------------------------
  // Whole chains: the log, and the restores that are scheduled

  /** The lines one layer logs for an event. */
  function LayerLines(d: Decorator, e: Event): seq<string> {
    match d
    case LogEvents => [LogLine(e)]
    case LogUrlOnEnter => if e.kind == Entered then [UrlLine(e)] else []
    case _ => []
  }

  /** The lines a chain logs for an event, outermost layer first. */
  function LogLines(c: Chain, e: Event): seq<string> {
    match c
    case Base => []
    case Wrap(d, inner) => LayerLines(d, e) + LogLines(inner, e)
  }

  /** The components highlighted by a chain, outermost first. */
  function HighlightTargets(c: Chain): seq<Widget> {
    match c
    case Base => []
    case Wrap(d, inner) => (if d.Highlight? then [d.component] else []) + HighlightTargets(inner)
  }

  /** Highlighting each component in turn. */
  function HighlightAll(s: Screen, ws: seq<Widget>): Screen
    decreases |ws|
  {
    if ws == [] then s else HighlightAll(Highlighted(s, ws[0]), ws[1..])
  }

  lemma {:induction false} HighlightAllLog(s: Screen, ws: seq<Widget>, log: seq<string>)
    ensures HighlightAll(s, ws).log == s.log
    ensures HighlightAll(WithLog(s, log), ws) == WithLog(HighlightAll(s, ws), log)
    decreases |ws|
  {
    if ws != [] {
      HighlightAllLog(Highlighted(s, ws[0]), ws[1..], log);
      assert Highlighted(WithLog(s, log), ws[0]) == WithLog(Highlighted(s, ws[0]), log);
    }
  }

  /** The lines printed by a list of actions. */
  function Printed(acts: seq<Action>): seq<string>
    decreases |acts|
  {
    if acts == [] then [] else (if acts[0].Print? then [acts[0].line] else []) + Printed(acts[1..])
  }

  lemma {:induction false} PrintedConcat(a: seq<Action>, b: seq<Action>)
    ensures Printed(a + b) == Printed(a) + Printed(b)
    decreases |a|
  {
    if a == [] {
      assert a + b == b;
    } else {
      assert (a + b)[0] == a[0];
      assert (a + b)[1..] == a[1..] + b;
      PrintedConcat(a[1..], b);
    }
  }

  lemma {:induction false} ApplyLog(s: Screen, acts: seq<Action>)
    ensures Apply(s, acts).log == s.log + Printed(acts)
    decreases |acts|
  {
    if acts != [] {
      ApplyLog(Step(s, acts[0]), acts[1..]);
    }
  }

  lemma LayerPrinted(d: Decorator, e: Event)
    ensures Printed(Before(d, e)) == LayerLines(d, e)
    ensures Printed(After(d, e)) == []
  {
    var b, a := Before(d, e), After(d, e);
    if |b| == 2 { assert b == [b[0]] + [b[1]]; PrintedConcat([b[0]], [b[1]]); }
    if |a| == 2 { assert a == [a[0]] + [a[1]]; PrintedConcat([a[0]], [a[1]]); }
  }

  lemma BasePrintsNothing(e: Event)
    ensures Printed(BaseTrace(e)) == []
  {
    var t := BaseTrace(e);
    if |t| == 2 { assert t == [t[0]] + [t[1]]; PrintedConcat([t[0]], [t[1]]); }
  }

  lemma {:induction false} TracePrinted(c: Chain, e: Event)
    ensures Printed(Trace(c, e)) == LogLines(c, e)
  {
    match c
    case Base =>
      BasePrintsNothing(e);
    case Wrap(d, inner) =>
      TracePrinted(inner, e);
      LayerPrinted(d, e);
      var b := Before(d, e);
      PrintedConcat(b, [Delegate(e)]);
      PrintedConcat(b + [Delegate(e)], Trace(inner, e));
      PrintedConcat(b + [Delegate(e)] + Trace(inner, e), After(d, e));
  }

  /** The log after handling an event is the log before, followed by the
      lines of the logging layers in chain order. */
  lemma ChainLog(c: Chain, s: Screen, e: Event)
    ensures Apply(s, Trace(c, e)).log == s.log + LogLines(c, e)
  {
    ApplyLog(s, Trace(c, e));
    TracePrinted(c, e);
  }

  /** One layer on Activated, before its hand-off; it does nothing afterwards. */
  lemma ActivatedLayer(d: Decorator, s: Screen, e: Event)
    requires e.kind == Activated
    ensures After(d, e) == []
    ensures Apply(s, Before(d, e)) ==
      if d.LogEvents? then WithLog(s, s.log + [LogLine(e)])
      else if d.Highlight? then Highlighted(s, d.component)
      else s
  {
    var b := Before(d, e);
    if b != [] { ApplyOne(s, b[0]); }
  }

  /** Activated: the chain highlights its highlight targets in chain order
      and logs its lines; nothing else changes. */
  lemma {:induction false} ActivatedEffect(c: Chain, s: Screen, e: Event)
    requires e.kind == Activated
    ensures Apply(s, Trace(c, e)) == WithLog(HighlightAll(s, HighlightTargets(c)), s.log + LogLines(c, e))
  {
    match c
    case Base =>
      BaseHandler(s, e);
    case Wrap(d, inner) =>
      LayerApply(s, d, inner, e);
      ActivatedLayer(d, s, e);
      var s1 := Apply(s, Before(d, e));
      ActivatedEffect(inner, s1, e);
      ActivatedWrap(d, inner, s, s1, e);
  }

  lemma ActivatedWrap(d: Decorator, inner: Chain, s: Screen, s1: Screen, e: Event)
    requires e.kind == Activated
    requires s1 == if d.LogEvents? then WithLog(s, s.log + [LogLine(e)])
                   else if d.Highlight? then Highlighted(s, d.component)
                   else s
    ensures WithLog(HighlightAll(s1, HighlightTargets(inner)), s1.log + LogLines(inner, e))
         == WithLog(HighlightAll(s, HighlightTargets(Wrap(d, inner))), s.log + LogLines(Wrap(d, inner), e))
  {
    var ws := HighlightTargets(inner);
    var lines := LogLines(inner, e);
    if d.LogEvents? {
      ActivatedWrapLog(inner, s, e);
    } else if d.Highlight? {
      ActivatedWrapHighlight(d.component, inner, s, e);
    } else {
      assert LogLines(Wrap(d, inner), e) == lines;
      assert HighlightTargets(Wrap(d, inner)) == ws;
    }
  }

  lemma ActivatedWrapLog(inner: Chain, s: Screen, e: Event)
    requires e.kind == Activated
    ensures WithLog(HighlightAll(WithLog(s, s.log + [LogLine(e)]), HighlightTargets(inner)), s.log + [LogLine(e)] + LogLines(inner, e))
         == WithLog(HighlightAll(s, HighlightTargets(Wrap(LogEvents, inner))), s.log + LogLines(Wrap(LogEvents, inner), e))
  {
    var ws := HighlightTargets(inner);
    var first := s.log + [LogLine(e)];
    var all := first + LogLines(inner, e);
    HighlightAllLog(s, ws, first);
    WithLogTwice(HighlightAll(s, ws), first, all);
    Assoc(s.log, [LogLine(e)], LogLines(inner, e));
    LogEventsLines(inner, e);
  }

  lemma LogEventsLines(inner: Chain, e: Event)
    ensures HighlightTargets(Wrap(LogEvents, inner)) == HighlightTargets(inner)
    ensures LogLines(Wrap(LogEvents, inner), e) == [LogLine(e)] + LogLines(inner, e)
  {
    assert [] + HighlightTargets(inner) == HighlightTargets(inner);
  }

  lemma WithLogTwice(s: Screen, first: seq<string>, second: seq<string>)
    ensures WithLog(WithLog(s, first), second) == WithLog(s, second)
  {
  }

  lemma ActivatedWrapHighlight(w: Widget, inner: Chain, s: Screen, e: Event)
    requires e.kind == Activated
    ensures WithLog(HighlightAll(Highlighted(s, w), HighlightTargets(inner)), Highlighted(s, w).log + LogLines(inner, e))
         == WithLog(HighlightAll(s, HighlightTargets(Wrap(Highlight(w), inner))), s.log + LogLines(Wrap(Highlight(w), inner), e))
  {
    var ws := HighlightTargets(inner);
    assert HighlightTargets(Wrap(Highlight(w), inner)) == [w] + ws;
    HighlightAllCons(s, w, ws);
    assert LogLines(Wrap(Highlight(w), inner), e) == LogLines(inner, e);
    assert Highlighted(s, w).log == s.log;
  }

  lemma HighlightAllCons(s: Screen, w: Widget, ws: seq<Widget>)
    ensures HighlightAll(s, [w] + ws) == HighlightAll(Highlighted(s, w), ws)
  {
    assert ([w] + ws)[1..] == ws;
  }

  lemma HighlightOne(s: Screen, w: Widget)
    ensures HighlightAll(s, [w]) == Highlighted(s, w)
  {
    HighlightAllCons(s, w, []);
    assert [w] + [] == [w];
  }

  /** Events other than Activated schedule nothing. */
  lemma {:induction false} OnlyActivationSchedules(c: Chain, s: Screen, e: Event)
    requires e.kind != Activated
    ensures Apply(s, Trace(c, e)).pending == s.pending
  {
    match c
    case Base =>
      BaseHandler(s, e);
    case Wrap(d, inner) =>
      LayerApply(s, d, inner, e);
      var s1 := Apply(s, Before(d, e));
      var b := Before(d, e);
      if |b| == 1 { ApplyOne(s, b[0]); }
      if |b| == 2 {
        assert b == [b[0]] + [b[1]];
        ApplyConcat(s, [b[0]], [b[1]]);
        ApplyOne(s, b[0]);
        ApplyOne(Step(s, b[0]), b[1]);
      }
      OnlyActivationSchedules(inner, s1, e);
      var t := Apply(s1, Trace(inner, e));
      var a := After(d, e);
      if |a| == 2 {
        assert a == [a[0]] + [a[1]];
        ApplyConcat(t, [a[0]], [a[1]]);
        ApplyOne(t, a[0]);
        ApplyOne(Step(t, a[0]), a[1]);
      }
  }

  /** Highlight round trip: with one highlighter and no restore pending, an
      activation turns the component magenta and queues exactly one
      restore; when it fires, every UI property is back to its value before
      the activation (only the log has grown). */
  lemma HighlightRoundTrip(c: Chain, s: Screen, e: Event, w: Widget)
    requires e.kind == Activated && HighlightTargets(c) == [w] && s.pending == []
    ensures Background(Apply(s, Trace(c, e)), w) == Magenta
    ensures Apply(s, Trace(c, e)).pending == [Restore(w, Background(s, w))]
    ensures FireRestore(Apply(s, Trace(c, e))) == WithLog(s, s.log + LogLines(c, e))
  {
    ActivatedEffect(c, s, e);
    HighlightOne(s, w);
  }

  /** Two activations before the first restore fires: two restores are
      queued, nothing is cancelled, and the second carries magenta. After
      both fire, the component stays magenta instead of getting its original
      colour back. */
  lemma OverlappingActivations(c: Chain, s: Screen, e: Event, w: Widget)
    requires e.kind == Activated && HighlightTargets(c) == [w] && s.pending == []
    ensures Apply(Apply(s, Trace(c, e)), Trace(c, e)).pending
         == [Restore(w, Background(s, w)), Restore(w, Magenta)]
    ensures Background(FireRestore(Apply(Apply(s, Trace(c, e)), Trace(c, e))), w) == Background(s, w)
    ensures Background(FireRestore(FireRestore(Apply(Apply(s, Trace(c, e)), Trace(c, e)))), w) == Magenta
    ensures FireRestore(FireRestore(Apply(Apply(s, Trace(c, e)), Trace(c, e)))).pending == []
  {
    QueuedTwice(c, s, e, w);
    TwoRestores(Apply(Apply(s, Trace(c, e)), Trace(c, e)), w, Background(s, w));
  }

  /** Two activations with one highlighter queue the original colour, then magenta. */
  lemma QueuedTwice(c: Chain, s: Screen, e: Event, w: Widget)
    requires e.kind == Activated && HighlightTargets(c) == [w] && s.pending == []
    ensures Apply(Apply(s, Trace(c, e)), Trace(c, e)).pending
         == [Restore(w, Background(s, w)), Restore(w, Magenta)]
  {
    ActivatedPending(c, s, e, w);
    ActivatedPending(c, Apply(s, Trace(c, e)), e, w);
  }

  /** Firing two queued restores of one component, oldest first. */
  lemma TwoRestores(s: Screen, w: Widget, first: Color)
    requires s.pending == [Restore(w, first), Restore(w, Magenta)]
    ensures Background(FireRestore(s), w) == first
    ensures Background(FireRestore(FireRestore(s)), w) == Magenta
    ensures FireRestore(FireRestore(s)).pending == []
  {
    var f1 := FireRestore(s);
    assert f1.pending == [Restore(w, Magenta)];
  }

  /** One activation with one highlighter, whatever is already pending: the
      component turns magenta and its prior colour joins the end of the queue. */
  lemma ActivatedPending(c: Chain, s: Screen, e: Event, w: Widget)
    requires e.kind == Activated && HighlightTargets(c) == [w]
    ensures Background(Apply(s, Trace(c, e)), w) == Magenta
    ensures Apply(s, Trace(c, e)).pending == s.pending + [Restore(w, Background(s, w))]
  {
    ActivatedEffect(c, s, e);
    HighlightOne(s, w);
  }
}
