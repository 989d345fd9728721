/** Event handling as the program does it: the widgets' properties, the
    console and the executor's queue are fields that the decorators'
    `hyperlinkUpdate` methods change in place, one event at a time on the
    dispatch thread. Each method is proved to perform exactly the actions
    module Semantics assigns to it, in the same order. */
module Handling {
  import opened Wrappers
  import opened Events
  import opened Decorating
  import opened Semantics

  // Each layer's actions, as its listener method performs them, are the
  // actions `Trace` assigns to that layer: the lemmas below turn what a
  // listener method promises about its trace into the terms `Handle`
  // promises; the layer lemmas of module Semantics do the same for the state.

  lemma AdapterTrace(inner: Chain, e: Event, t0: seq<Action>, t: seq<Action>)
    requires t == t0 + [Delegate(e)] + Trace(inner, e)
    ensures t == t0 + Trace(Wrap(Adapter, inner), e)
  {
    PassThrough(Adapter, inner, e);
    Assoc(t0, [Delegate(e)], Trace(inner, e));
  }

  lemma LogEventsTrace(inner: Chain, e: Event, t0: seq<Action>, t: seq<Action>)
    requires t == t0 + [Print(LogLine(e))] + [Delegate(e)] + Trace(inner, e)
    ensures t == t0 + Trace(Wrap(LogEvents, inner), e)
  {
    TraceLayer(LogEvents, inner, e);
    Assoc(t0, [Print(LogLine(e))] + [Delegate(e)] + Trace(inner, e), []);
    Assoc(t0, [Print(LogLine(e))] + [Delegate(e)], Trace(inner, e));
    Assoc(t0, [Print(LogLine(e))], [Delegate(e)]);
  }

  lemma HoverTrace(h: Hover, inner: Chain, e: Event, t0: seq<Action>, t: seq<Action>)
    requires t == t0
      + (if e.kind == Entered then EnterHook(h, e) else [])
      + [Delegate(e)] + Trace(inner, e)
      + (if e.kind == Exited then ExitHook(h) else [])
    ensures t == t0 + Trace(Wrap(OnHover(h), inner), e)
  {
    TraceLayer(OnHover(h), inner, e);
    Assoc(t0, Before(OnHover(h), e) + [Delegate(e)] + Trace(inner, e), After(OnHover(h), e));
    Assoc(t0, Before(OnHover(h), e) + [Delegate(e)], Trace(inner, e));
    Assoc(t0, Before(OnHover(h), e), [Delegate(e)]);
  }

  lemma LogUrlTrace(inner: Chain, e: Event, t0: seq<Action>, t: seq<Action>)
    requires t == t0
      + (if e.kind == Entered then [Print(UrlLine(e))] else [])
      + [Delegate(e)] + Trace(inner, e)
    ensures t == t0 + Trace(Wrap(LogUrlOnEnter, inner), e)
  {
    TraceLayer(LogUrlOnEnter, inner, e);
    Assoc(t0, Before(LogUrlOnEnter, e) + [Delegate(e)] + Trace(inner, e), []);
    Assoc(t0, Before(LogUrlOnEnter, e) + [Delegate(e)], Trace(inner, e));
    Assoc(t0, Before(LogUrlOnEnter, e), [Delegate(e)]);
  }

  lemma HighlightTrace(w: Widget, inner: Chain, e: Event, t0: seq<Action>, t: seq<Action>)
    requires t == t0
      + (if e.kind == Activated then [HighlightBackground(w)] else [])
      + [Delegate(e)] + Trace(inner, e)
    ensures t == t0 + Trace(Wrap(Highlight(w), inner), e)
  {
    TraceLayer(Highlight(w), inner, e);
    Assoc(t0, Before(Highlight(w), e) + [Delegate(e)] + Trace(inner, e), []);
    Assoc(t0, Before(Highlight(w), e) + [Delegate(e)], Trace(inner, e));
    Assoc(t0, Before(Highlight(w), e), [Delegate(e)]);
  }

  class Ui {
    var log: seq<string>
    var htmlVisible: bool
    var labelVisible: bool
    var htmlBackground: Color
    var labelBackground: Color
    var labelText: Option<string>
    /** The restores submitted to the single-worker executor, oldest first. */
    var pending: seq<Restore>

    /** Every action performed since the window was set up. */
    ghost var trace: seq<Action>

    function State(): Screen
      reads this
    {
      Screen(log, htmlVisible, labelVisible, htmlBackground, labelBackground, labelText, pending)
    }

    constructor (initial: Screen)
      ensures State() == initial && trace == []
    {
      log, htmlVisible, labelVisible := initial.log, initial.htmlVisible, initial.labelVisible;
      htmlBackground, labelBackground := initial.htmlBackground, initial.labelBackground;
      labelText, pending := initial.labelText, initial.pending;
      trace := [];
    }

    // ------------------------------------------------------------------
    // The Swing, console and executor primitives

    /** `System.out.println(line)`. */
    method Println(line: string)
      modifies this
      ensures trace == old(trace) + [Action.Print(line)]
      ensures State() == WithLog(old(State()), old(log) + [line])
    {
      log := log + [line];
      trace := trace + [Action.Print(line)];
    }

    /** `component.setVisible(visible)`. */
    method SetVisible(w: Widget, visible: bool)
      modifies this
      ensures trace == old(trace) + [Action.SetVisible(w, visible)]
      ensures State() == WithVisible(old(State()), w, visible)
    {
      if w.HtmlView? { htmlVisible := visible; } else { labelVisible := visible; }
      trace := trace + [Action.SetVisible(w, visible)];
    }

    /** `urlLabel.setText(text)`; None stands for null. */
    method SetText(text: Option<string>)
      modifies this
      ensures trace == old(trace) + [Action.SetText(text)]
      ensures State() == WithText(old(State()), text)
    {
      labelText := text;
      trace := trace + [Action.SetText(text)];
    }

    /** `component.setBackground(color)`. */
    method SetBackground(w: Widget, color: Color)
      modifies this
      ensures trace == old(trace) + [Action.SetBackground(w, color)]
      ensures State() == WithBackground(old(State()), w, color)
    {
      if w.HtmlView? { htmlBackground := color; } else { labelBackground := color; }
      trace := trace + [Action.SetBackground(w, color)];
    }

    /** `component.getBackground()`. */
    method GetBackground(w: Widget) returns (color: Color)
      ensures color == Background(State(), w)
    {
      color := if w.HtmlView? then htmlBackground else labelBackground;
    }

    /** The executor runs its oldest task, which hands the restore to the
        dispatch thread, where it sets the captured colour. Returns whether
        there was a task to run. */
    method FireRestore() returns (fired: bool)
      modifies this
      ensures trace == old(trace) + [Action.RunRestore]
      ensures fired == (old(pending) != [])
      ensures State() == Semantics.FireRestore(old(State()))
    {
      fired := pending != [];
      if fired {
        var task := pending[0];
        pending := pending[1..];
        if task.component.HtmlView? {
          htmlBackground := task.color;
        } else {
          labelBackground := task.color;
        }
      }
      trace := trace + [Action.RunRestore];
    }

    // ------------------------------------------------------------------
    // The listeners

    /** Dispatches the event to the outermost layer of `c`: the listener
        performs exactly the actions `Trace(c, e)` and leaves the state
        those actions produce. */
    method Handle(c: Chain, e: Event)
      modifies this
      decreases c, 0
      ensures trace == old(trace) + Trace(c, e)
      ensures State() == Apply(old(State()), Trace(c, e))
    {
      match c {
        case Base =>
          HandleBase(e);
        case Wrap(d, inner) =>
          match d {
            case Adapter =>
              Delegate(inner, e);
              AdapterTrace(inner, e, old(trace), trace);
              AdapterForwards(inner, old(State()), e);
            case LogEvents =>
              LogEventsUpdate(inner, e);
              LogEventsTrace(inner, e, old(trace), trace);
              LogEventsLayer(inner, old(State()), e);
            case OnHover(h) =>
              HoverUpdate(h, inner, e);
              HoverTrace(h, inner, e, old(trace), trace);
              HoverLayer(h, inner, old(State()), e);
            case LogUrlOnEnter =>
              LogUrlUpdate(inner, e);
              LogUrlTrace(inner, e, old(trace), trace);
              LogUrlLayer(inner, old(State()), e);
            case Highlight(w) =>
              HighlightUpdate(w, inner, e);
              HighlightTrace(w, inner, e, old(trace), trace);
              HighlightLayer(w, inner, old(State()), e);
          }
      }
    }

    /** `changeHtmlViewBackgroundColor`: orange on Entered, white on Exited. */
    method HandleBase(e: Event)
      modifies this
      ensures trace == old(trace) + BaseTrace(e)
      ensures e.kind == Entered ==> State() == WithBackground(old(State()), HtmlView, Orange)
      ensures e.kind == Exited ==> State() == WithBackground(old(State()), HtmlView, White)
      ensures e.kind == Activated ==> State() == old(State())
      ensures State() == Apply(old(State()), BaseTrace(e))
    {
      trace := trace + [Action.Deliver(e)];
      if e.kind == Entered {
        SetBackground(HtmlView, Orange);
      } else if e.kind == Exited {
        SetBackground(HtmlView, White);
      }
      BaseHandler(old(State()), e);
    }

    /** `AbstractHyperlinkListenerDecorator.hyperlinkUpdate` (and the lambda
        made by `from`): hands the same event to the wrapped listener, once,
        and does nothing else. */
    method Delegate(inner: Chain, e: Event)
      modifies this
      decreases inner, 1
      ensures trace == old(trace) + [Action.Delegate(e)] + Trace(inner, e)
      ensures State() == Apply(old(State()), Trace(inner, e))
    {
      trace := trace + [Action.Delegate(e)];
      Handle(inner, e);
    }

    /** `LogEventsToConsole.hyperlinkUpdate`: logs the type, then delegates. */
    method LogEventsUpdate(inner: Chain, e: Event)
      modifies this
      decreases inner, 2
      ensures trace == old(trace) + [Action.Print(LogLine(e))] + [Action.Delegate(e)] + Trace(inner, e)
      ensures State() == Apply(WithLog(old(State()), old(log) + [LogLine(e)]), Trace(inner, e))
    {
      Println("Link " + TypeName(e.kind) + ".");
      Delegate(inner, e);
    }

    /** `AbstractOnHoverHyperlinkListenerDecorator.hyperlinkUpdate`: `onEnter`
        before delegating on Entered, `onExit` after it on Exited. */
    method HoverUpdate(h: Hover, inner: Chain, e: Event)
      modifies this
      decreases inner, 2
      ensures trace == old(trace)
        + (if e.kind == Entered then EnterHook(h, e) else [])
        + [Action.Delegate(e)] + Trace(inner, e)
        + (if e.kind == Exited then ExitHook(h) else [])
      ensures e.kind == Entered ==> State() == Apply(EnterEffect(h, e, old(State())), Trace(inner, e))
      ensures e.kind == Exited ==> State() == ExitEffect(h, Apply(old(State()), Trace(inner, e)))
      ensures e.kind == Activated ==> State() == Apply(old(State()), Trace(inner, e))
    {
      ghost var before: seq<Action> := if e.kind == Entered then EnterHook(h, e) else [];
      ghost var after: seq<Action> := if e.kind == Exited then ExitHook(h) else [];
      if e.kind == Entered {
        OnEnter(h, e);
      }
      Delegate(inner, e);
      ghost var t1 := trace;
      assert t1 == old(trace) + before + [Action.Delegate(e)] + Trace(inner, e);
      if e.kind == Exited {
        OnExit(h, e);
      }
      assert trace == t1 + after;
    }

    /** `onEnter` of OnHoverMakeComponentVisible and OnHoverSetUrlAsLabelText. */
    method OnEnter(h: Hover, e: Event)
      modifies this
      ensures trace == old(trace) + EnterHook(h, e)
      ensures State() == EnterEffect(h, e, old(State()))
    {
      trace := trace + [Action.Hook(Enter, h)];
      match h
      case MakeVisible(w) =>
        SetVisible(w, true);
      case SetUrlText(_) =>
        SetText(Some(UrlOr(e.url, LabelUrlNull)));
    }

    /** `onExit` of OnHoverMakeComponentVisible and OnHoverSetUrlAsLabelText. */
    method OnExit(h: Hover, e: Event)
      modifies this
      ensures trace == old(trace) + ExitHook(h)
      ensures State() == ExitEffect(h, old(State()))
    {
      trace := trace + [Action.Hook(Exit, h)];
      match h
      case MakeVisible(w) =>
        SetVisible(w, false);
      case SetUrlText(_) =>
        SetText(None);
    }

    /** `OnEnterLogUrl.hyperlinkUpdate`: on Entered logs the URL (or "n.a."),
        then delegates. */
    method LogUrlUpdate(inner: Chain, e: Event)
      modifies this
      decreases inner, 2
      ensures trace == old(trace)
        + (if e.kind == Entered then [Action.Print(UrlLine(e))] else [])
        + [Action.Delegate(e)] + Trace(inner, e)
      ensures e.kind == Entered ==> State() == Apply(WithLog(old(State()), old(log) + [UrlLine(e)]), Trace(inner, e))
      ensures e.kind != Entered ==> State() == Apply(old(State()), Trace(inner, e))
    {
      if e.kind == Entered {
        Println("Link entered with URL " + UrlOr(e.url, LogUrlNull));
      }
      Delegate(inner, e);
    }

    /** `OnActivateHighlightComponent.hyperlinkUpdate`: on Activated reads the
        background, sets it to magenta and submits a restore of the prior
        colour, then delegates. */
    method HighlightUpdate(w: Widget, inner: Chain, e: Event)
      modifies this
      decreases inner, 2
      ensures trace == old(trace)
        + (if e.kind == Activated then [Action.HighlightBackground(w)] else [])
        + [Action.Delegate(e)] + Trace(inner, e)
      ensures e.kind == Activated ==> State() == Apply(Highlighted(old(State()), w), Trace(inner, e))
      ensures e.kind != Activated ==> State() == Apply(old(State()), Trace(inner, e))
    {
      if e.kind == Activated {
        HighlightBackground(w);
      }
      Delegate(inner, e);
    }

    /** `highlightBackground` with `resetBackgroundColorAfterDelay`. */
    method HighlightBackground(w: Widget)
      modifies this
      ensures trace == old(trace) + [Action.HighlightBackground(w)]
      ensures Background(State(), w) == Magenta
      ensures pending == old(pending) + [Restore(w, Background(old(State()), w))]
      ensures State() == Highlighted(old(State()), w)
    {
      var colorBefore := GetBackground(w);
      if w.HtmlView? { htmlBackground := Magenta; } else { labelBackground := Magenta; }
      pending := pending + [Restore(w, colorBefore)];
      trace := trace + [Action.HighlightBackground(w)];
    }
  }
}
