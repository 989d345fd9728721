/** Listener chains and the operations that build them: the
    `DecoratingHyperlinkListener` interface, the constructor of the abstract
    decorator and the static factories of the concrete decorators. Building a
    chain is pure: nothing here can touch the user interface, whose state
    changes only when an event is handled (module Semantics). */
module Decorating {
  import opened Wrappers
  import opened Events

  /** The two hooks of a hover-phase decorator (`onEnter`/`onExit`). */
  datatype Hover =
    | MakeVisible(component: Widget)   // OnHoverMakeComponentVisible
    | SetUrlText(labelRef: Label)     // OnHoverSetUrlAsLabelText

  /** One layer of a chain. */
  datatype Decorator =
    | Adapter                          // the lambda made by `from`
    | LogEvents                        // LogEventsToConsole
    | OnHover(hooks: Hover)            // subclasses of AbstractOnHoverHyperlinkListenerDecorator
    | LogUrlOnEnter                    // Demo.OnEnterLogUrl
    | Highlight(component: Widget)     // Demo.OnActivateHighlightComponent

  /** A listener: the base handler (`changeHtmlViewBackgroundColor`) wrapped
      in layers, outermost first. */
  datatype Chain = Base | Wrap(decorator: Decorator, inner: Chain)

  /** The layers of a chain from outermost to innermost. */
  function Layers(c: Chain): (r: seq<Decorator>)
    ensures |r| == Depth(c)
  {
    match c
    case Base => []
    case Wrap(d, inner) => [d] + Layers(inner)
  }

  function Depth(c: Chain): nat {
    match c
    case Base => 0
    case Wrap(_, inner) => 1 + Depth(inner)
  }

  const ListenerNull := NullPointer("The argument 'decoratedListener' must not be null.")
  const ComponentNull := NullPointer("The argument 'component' must not be null.")
  const LabelNull := NullPointer("The argument 'label' must not be null.")

  /** The constructor of `AbstractHyperlinkListenerDecorator`: the wrapped
      listener must not be null and is fixed once and for all. */
  function NewDecorator(inner: Option<Chain>, d: Decorator): (r: Result<Chain, Error>)
    ensures r.Err? <==> inner.None?
    ensures r.Err? ==> r.error == ListenerNull
    ensures r.Ok? ==> r.value.Wrap? && r.value.decorator == d && r.value.inner == inner.value
  {
    match inner
    case None => Err(ListenerNull)
    case Some(l) => Ok(Wrap(d, l))
  }

  /** A constructor that also takes a collaborator: the listener is checked
      first (by `super`), then the collaborator. */
  function NewWithTarget<T>(inner: Option<Chain>, target: Option<T>, onNull: Error, d: T -> Decorator): (r: Result<Chain, Error>)
    ensures r.Ok? <==> inner.Some? && target.Some?
    ensures inner.None? ==> r == Err(ListenerNull)
    ensures inner.Some? && target.None? ==> r == Err(onNull)
    ensures r.Ok? ==> r.value == Wrap(d(target.value), inner.value)
  {
    match inner
    case None => Err(ListenerNull)
    case Some(l) => if target.None? then Err(onNull) else Ok(Wrap(d(target.value), l))
  }

  /** `LogEventsToConsole.decorate`. */
  function NewLogEvents(inner: Option<Chain>): (r: Result<Chain, Error>)
    ensures r.Err? <==> inner.None?
    ensures r.Err? ==> r.error == ListenerNull
    ensures r.Ok? ==> r.value == Wrap(LogEvents, inner.value)
  {
    NewDecorator(inner, LogEvents)
  }

  /** `OnHoverMakeComponentVisible.decorate`. */
  function NewMakeVisible(inner: Option<Chain>, component: Option<Widget>): (r: Result<Chain, Error>)
    ensures r.Ok? <==> inner.Some? && component.Some?
    ensures inner.None? ==> r == Err(ListenerNull)
    ensures inner.Some? && component.None? ==> r == Err(ComponentNull)
    ensures r.Ok? ==> r.value == Wrap(OnHover(MakeVisible(component.value)), inner.value)
  {
    NewWithTarget(inner, component, ComponentNull, (w: Widget) => OnHover(MakeVisible(w)))
  }

  /** `OnHoverSetUrlAsLabelText.decorate`. */
  function NewSetUrlText(inner: Option<Chain>, labelRef: Option<Label>): (r: Result<Chain, Error>)
    ensures r.Ok? <==> inner.Some? && labelRef.Some?
    ensures inner.None? ==> r == Err(ListenerNull)
    ensures inner.Some? && labelRef.None? ==> r == Err(LabelNull)
    ensures r.Ok? ==> r.value == Wrap(OnHover(SetUrlText(labelRef.value)), inner.value)
  {
    NewWithTarget(inner, labelRef, LabelNull, (l: Label) => OnHover(SetUrlText(l)))
  }

  /** `new OnEnterLogUrl(l)` (Demo). */
  function NewLogUrl(inner: Option<Chain>): (r: Result<Chain, Error>)
    ensures r.Err? <==> inner.None?
    ensures r.Err? ==> r.error == ListenerNull
    ensures r.Ok? ==> r.value == Wrap(LogUrlOnEnter, inner.value)
  {
    NewDecorator(inner, LogUrlOnEnter)
  }

  /** `new OnActivateHighlightComponent(l, component)` (Demo). */
  function NewHighlight(inner: Option<Chain>, component: Option<Widget>): (r: Result<Chain, Error>)
    ensures r.Ok? <==> inner.Some? && component.Some?
    ensures inner.None? ==> r == Err(ListenerNull)
    ensures inner.Some? && component.None? ==> r == Err(ComponentNull)
    ensures r.Ok? ==> r.value == Wrap(Highlight(component.value), inner.value)
  {
    NewWithTarget(inner, component, ComponentNull, (w: Widget) => Highlight(w))
  }

  /** `DecoratingHyperlinkListener.from`: a forwarding wrapper around `listener`. */
  function From(listener: Chain): (r: Chain)
    ensures Layers(r) == [Adapter] + Layers(listener)
  {
    Wrap(Adapter, listener)
  }

  /** `decorate(decorator)`: the decorator function applied to this listener. */
  function Decorate(self: Chain, decorator: Chain -> Result<Chain, Error>): (r: Result<Chain, Error>)
    ensures r == decorator(self)
  {
    decorator(self)
  }

  /** `logEvents()`: logging becomes the new outermost layer; never fails. */
  function LogEventsOn(self: Chain): (r: Chain)
    ensures Layers(r) == [LogEvents] + Layers(self)
  {
    NewLogEvents(Some(self)).value
  }

  /** `onHoverMakeVisible(component)`. */
  function OnHoverMakeVisible(self: Chain, component: Option<Widget>): (r: Result<Chain, Error>)
    ensures r.Err? <==> component.None?
    ensures r.Err? ==> r.error == ComponentNull
    ensures r.Ok? ==> Layers(r.value) == [OnHover(MakeVisible(component.value))] + Layers(self)
  {
    NewMakeVisible(Some(self), component)
  }

  /** `onHoverSetUrlOn(label)`. */
  function OnHoverSetUrlOn(self: Chain, labelRef: Option<Label>): (r: Result<Chain, Error>)
    ensures r.Err? <==> labelRef.None?
    ensures r.Err? ==> r.error == LabelNull
    ensures r.Ok? ==> Layers(r.value) == [OnHover(SetUrlText(labelRef.value))] + Layers(self)
  {
    NewSetUrlText(Some(self), labelRef)
  }

  /** Applying decorators one after the other, each wrapping the previous result. */
  function Compose(c: Chain, ds: seq<Decorator>): (r: Chain)
    decreases |ds|
  {
    if ds == [] then c else Compose(Wrap(ds[0], c), ds[1..])
  }

  function Reversed<T>(s: seq<T>): (r: seq<T>)
    ensures |r| == |s|
    ensures forall i :: 0 <= i < |s| ==> r[i] == s[|s| - 1 - i]
  {
    if s == [] then [] else Reversed(s[1..]) + [s[0]]
  }

  /** Decorators applied in the order d1, ..., dn give the chain dn, ..., d1
      followed by the original layers: the last one applied sees an event first. */
  lemma {:induction false} ComposeOrder(c: Chain, ds: seq<Decorator>)
    ensures Layers(Compose(c, ds)) == Reversed(ds) + Layers(c)
    decreases |ds|
  {
    if ds != [] {
      ComposeOrder(Wrap(ds[0], c), ds[1..]);
      assert ds == [ds[0]] + ds[1..];
      assert Reversed(ds) == Reversed(ds[1..]) + [ds[0]];
    }
  }
}
