# Decorating a hyperlink listener with Java 8

A Dafny model of `demo-decorator-java-8`. The program wraps one Swing
`HyperlinkListener` in layers of decorators. The base listener is
`changeHtmlViewBackgroundColor`, and each decorator forwards the event to the
listener it wraps:

- the `from` adapter;
- `LogEventsToConsole`;
- the two hover decorators `OnHoverMakeComponentVisible` and
  `OnHoverSetUrlAsLabelText`;
- the demo's `OnEnterLogUrl` and `OnActivateHighlightComponent`.

Each layer does its own small thing around that hand-off.

The project has six modules:

- `Wrappers`: `Option` and `Result`.
- `Events`: event types, events with an optional URL, widgets and colours.
- `Decorating`: the chain datatype `Base | Wrap(decorator, inner)` and the
  operations that build chains. These are the fluent default methods of
  `DecoratingHyperlinkListener` and the constructors with their null checks.
  Building is pure, so building a chain cannot change the screen or the log.
- `Semantics`: what handling one event means. `Trace(c, e)` lists every action
  the chain performs, in order. Some actions are UI effects and some are markers
  for each hand-off and each hover hook. `Apply` replays actions on a `Screen`,
  which holds:
  - the console log;
  - the visibility and background of the HTML view and the URL label;
  - the label's text;
  - the FIFO of background restores waiting in the executor.

  This module holds the properties about whole chains: delegation exactly once,
  hook order, what each layer does, the log, and the highlight round trip.
- `Handling`: the imperative listener. The class `Ui` holds the widget
  properties, the console and the executor queue as fields. Its methods
  `Handle`, `Delegate`, `LogEventsUpdate`, `HoverUpdate`, `LogUrlUpdate` and
  `HighlightUpdate` change those fields in place. Each is proved to perform
  exactly the actions `Trace` assigns to it and to reach the state `Apply`
  computes. `FireRestore` is the executor running its oldest task.
- `Demo`: the chain built by `createHyperlinkListener`, and what it does for
  Entered, Exited and Activated.

Notes on the code:

- `OnActivateHighlightComponent` does its work before it delegates (Demo.java
  lines 171-176). It reads the background, sets magenta and submits the
  restore, and only then hands the event on.
- `OnEnterLogUrl` is a plain decorator, not a hover-phase one (Demo.java line
  125). It therefore runs no `onEnter` hook.
- The highlighted component is the URL label (Demo.java line 99), not the HTML
  view.

## Model

| member | source | states |
|---|---|---|
| Decorating.NewDecorator | src/org/codefx/lab/decorator/def/AbstractHyperlinkListenerDecorator.java:15-18 | construction fails with the "decoratedListener must not be null" error exactly when the wrapped listener is null; otherwise the new layer wraps that very listener, which is fixed from then on |
| Decorating.NewLogEvents | src/org/codefx/lab/decorator/def/LogEventsToConsole.java:13-19 | `decorate(l)` fails, with the "decoratedListener must not be null" error, exactly when `l` is null; otherwise it is a logging layer whose inner listener is `l` |
| Decorating.NewMakeVisible | src/org/codefx/lab/decorator/def/OnHoverMakeComponentVisible.java:20-29 | succeeds exactly when both the listener and the component are non-null; a null listener gives the "decoratedListener must not be null" error whatever the component, because `super` checks it first; a non-null listener with a null component gives the "component must not be null" error; the result wraps the listener and targets the given component |
| Decorating.NewSetUrlText | src/org/codefx/lab/decorator/def/OnHoverSetUrlAsLabelText.java:23-32 | succeeds exactly when both the listener and the label are non-null; a null listener gives the "decoratedListener must not be null" error whatever the label; a non-null listener with a null label gives the "label must not be null" error; the result wraps the listener and targets the label |
| Decorating.NewLogUrl | src/org/codefx/lab/decorator/Demo.java:129-131 | `new OnEnterLogUrl(l)` fails, with the "decoratedListener must not be null" error, exactly when `l` is null; otherwise it wraps `l` |
| Decorating.NewHighlight | src/org/codefx/lab/decorator/Demo.java:160-166 | `new OnActivateHighlightComponent(l, c)` succeeds exactly when both are non-null; a null `l` gives the "decoratedListener must not be null" error whatever `c`; a non-null `l` with a null `c` gives the "component must not be null" error; the result wraps `l` and targets `c` |
| Decorating.From | src/org/codefx/lab/decorator/def/DecoratingHyperlinkListener.java:24-26 | `from(l)` adds exactly one forwarding layer in front of the layers of `l` |
| Decorating.Decorate | src/org/codefx/lab/decorator/def/DecoratingHyperlinkListener.java:40-43 | `decorate(f)` is exactly `f` applied to this listener, including its failure, and adds nothing of its own |
| Decorating.LogEventsOn | src/org/codefx/lab/decorator/def/DecoratingHyperlinkListener.java:50-52 | `logEvents()` never fails and makes logging the new outermost layer, with all old layers kept beneath it |
| Decorating.OnHoverMakeVisible | src/org/codefx/lab/decorator/def/DecoratingHyperlinkListener.java:61-63 | `onHoverMakeVisible(c)` fails exactly when `c` is null; otherwise it puts a make-visible layer for `c` on top of the old layers |
| Decorating.OnHoverSetUrlOn | src/org/codefx/lab/decorator/def/DecoratingHyperlinkListener.java:73-75 | `onHoverSetUrlOn(label)` fails exactly when the label is null; otherwise it puts a set-URL layer for that label on top |
| Decorating.ComposeOrder | src/org/codefx/lab/decorator/def/DecoratingHyperlinkListener.java:40-75 | decorations applied in the order d1..dn give the layers dn..d1 above the original ones: the last decoration sees an event first and the base sees it last |
| Semantics.LogLineText | src/org/codefx/lab/decorator/def/LogEventsToConsole.java:25 | the logged line is "Link ENTERED.", "Link EXITED." or "Link ACTIVATED.", according to the event type |
| Semantics.DelegationExactlyOnce | src/org/codefx/lab/decorator/def/AbstractHyperlinkListenerDecorator.java:21-23 | in a chain of n layers, handling an event makes exactly n hand-offs, all of the very same event, and invokes the base listener exactly once |
| Semantics.AdapterForwards | src/org/codefx/lab/decorator/def/DecoratingHyperlinkListener.java:24-26 | the `from` layer forwards the unchanged event once, and the state afterwards is what the wrapped listener alone produces |
| Semantics.LogEventsLayer | src/org/codefx/lab/decorator/def/LogEventsToConsole.java:23-27 | for every event type, exactly one line is appended before the inner listener runs, and nothing but the log changes at this layer |
| Semantics.HoverLayer | src/org/codefx/lab/decorator/def/AbstractOnHoverHyperlinkListenerDecorator.java:18-26 | on Entered the enter effect happens before the inner listener; on Exited the exit effect happens after it; on Activated the layer only delegates |
| Semantics.HoverHookFrame | src/org/codefx/lab/decorator/def/OnHoverMakeComponentVisible.java:33-41 | make-visible: `onEnter` shows the component and `onExit` hides it, and no other visibility, the text, the backgrounds, the log or the queue change; set-URL (OnHoverSetUrlAsLabelText.java lines 36-46): `onEnter` sets the text to the URL, or to "No URL", and `onExit` sets it to null, with nothing else changed |
| Semantics.HoverEnterIdempotent | src/org/codefx/lab/decorator/def/OnHoverMakeComponentVisible.java:35 | running an enter hook a second time changes nothing |
| Semantics.HoverEnterThenExit | src/org/codefx/lab/decorator/def/OnHoverSetUrlAsLabelText.java:40-45 | after Entered and then Exited, the hover layer's target is hidden, or its text is null, whatever the URL, the earlier state or the inner listener |
| Semantics.EnterHooksOuterToInner | src/org/codefx/lab/decorator/def/AbstractOnHoverHyperlinkListenerDecorator.java:18-22 | on Entered, each hover layer's `onEnter` runs once, outermost first, all before the base listener, and no hook runs after it |
| Semantics.ExitHooksInnerToOuter | src/org/codefx/lab/decorator/def/AbstractOnHoverHyperlinkListenerDecorator.java:22-26 | on Exited, no hook runs before the base listener, and each hover layer's `onExit` runs once after it, innermost first |
| Semantics.ActivatedRunsNoHooks | src/org/codefx/lab/decorator/def/AbstractOnHoverHyperlinkListenerDecorator.java:18-26 | on Activated, no hover hook runs anywhere in the chain |
| Semantics.BaseHandler | src/org/codefx/lab/decorator/Demo.java:105-110 | the base listener sets the HTML view to orange on Entered and to white on Exited, and leaves everything unchanged on Activated |
| Semantics.LogUrlLayer | src/org/codefx/lab/decorator/Demo.java:133-144 | on Entered, "Link entered with URL " followed by the URL, or by "n.a.", is logged before delegating; other events only delegate |
| Semantics.HighlightLayer | src/org/codefx/lab/decorator/Demo.java:170-188 | on Activated, the prior colour is read, the component turns magenta and one restore carrying the prior colour is queued, all before delegating; other events only delegate |
| Semantics.ChainLog | src/org/codefx/lab/decorator/def/LogEventsToConsole.java:23-27 | for any chain, the log afterwards is the log before, followed by the lines of the logging layers, outermost first |
| Semantics.ActivatedEffect | src/org/codefx/lab/decorator/Demo.java:170-188 | on Activated, a whole chain highlights its highlight targets in chain order and logs its lines; nothing else changes |
| Semantics.OnlyActivationSchedules | src/org/codefx/lab/decorator/Demo.java:171-176 | events other than Activated leave the restore queue unchanged in any chain |
| Semantics.HighlightRoundTrip | src/org/codefx/lab/decorator/Demo.java:178-187 | with one highlighter and nothing pending, an activation leaves magenta and exactly one queued restore of the prior colour; after it fires, every UI property is as before the activation, and only the log has grown |
| Semantics.ActivatedPending | src/org/codefx/lab/decorator/Demo.java:179-187 | whatever is already pending, each activation adds exactly one restore at the end of the queue and cancels none |
| Semantics.QueuedTwice | src/org/codefx/lab/decorator/Demo.java:179-187 | two activations before any restore runs queue the original colour and then magenta |
| Semantics.OverlappingActivations | src/org/codefx/lab/decorator/Demo.java:179-187 | after two overlapping activations, the first restore brings back the original colour, but the second sets magenta again, which then stays |
| Handling.Ui.Handle | src/org/codefx/lab/decorator/def/AbstractHyperlinkListenerDecorator.java:21-23 | handling an event performs exactly the actions of `Trace(c, e)`, in order, and leaves the state `Apply` gives for them |
| Handling.Ui.Delegate | src/org/codefx/lab/decorator/def/AbstractHyperlinkListenerDecorator.java:21-23 | forwarding hands the same event to the wrapped listener once and does nothing else |
| Handling.Ui.HandleBase | src/org/codefx/lab/decorator/Demo.java:105-110 | `changeHtmlViewBackgroundColor` sets orange on Entered and white on Exited, and changes nothing on Activated |
| Handling.Ui.LogEventsUpdate | src/org/codefx/lab/decorator/def/LogEventsToConsole.java:23-27 | prints "Link TYPE." and then delegates; the state is the inner listener's result on the screen with one more log line |
| Handling.Ui.HoverUpdate | src/org/codefx/lab/decorator/def/AbstractOnHoverHyperlinkListenerDecorator.java:17-26 | `onEnter` runs before delegating on Entered and `onExit` after it on Exited; nothing else runs |
| Handling.Ui.OnEnter | src/org/codefx/lab/decorator/def/OnHoverMakeComponentVisible.java:33-36 | the enter hooks of both hover decorators perform exactly the enter effect: visible, or the URL (or "No URL") as the text |
| Handling.Ui.OnExit | src/org/codefx/lab/decorator/def/OnHoverSetUrlAsLabelText.java:43-46 | the exit hooks perform exactly the exit effect: hidden, or null text |
| Handling.Ui.LogUrlUpdate | src/org/codefx/lab/decorator/Demo.java:133-144 | logs the URL line on Entered only, then delegates |
| Handling.Ui.HighlightUpdate | src/org/codefx/lab/decorator/Demo.java:170-176 | highlights on Activated only, then delegates |
| Handling.Ui.HighlightBackground | src/org/codefx/lab/decorator/Demo.java:178-187 | the background becomes magenta and exactly one restore carrying the colour read before is appended to the queue |
| Handling.Ui.FireRestore | src/org/codefx/lab/decorator/Demo.java:185-187 | the oldest queued restore is removed and its colour is set on its component; with an empty queue nothing changes |
| Demo.CreateHyperlinkListener | src/org/codefx/lab/decorator/Demo.java:85-103 | the chain, outermost first, is: URL logging, highlight of the label, event logging, set URL on the label, make the label visible, the `from` adapter, and the base listener |
| Demo.DemoEnteredOrder | src/org/codefx/lab/decorator/Demo.java:92-110 | on Entered the demo performs, in order: the URL line, "Link ENTERED.", the label text, label visible, and the HTML view orange |
| Demo.DemoEntered | src/org/codefx/lab/decorator/Demo.java:92-110 | on Entered the state afterwards has two new log lines, the label visible and showing the URL (or "No URL"), and an orange HTML view; nothing else changes |
| Demo.DemoEnteredTwice | src/org/codefx/lab/decorator/def/OnHoverMakeComponentVisible.java:35 | entering twice still leaves the label visible and showing the URL |
| Demo.DemoExitedOrder | src/org/codefx/lab/decorator/Demo.java:92-110 | on Exited the demo performs, in order: "Link EXITED.", the HTML view white, then the label hidden, then its text cleared |
| Demo.DemoExited | src/org/codefx/lab/decorator/Demo.java:92-110 | on Exited the state afterwards has one new log line, a white HTML view, and the label hidden with null text; nothing else changes |
| Demo.DemoActivated | src/org/codefx/lab/decorator/Demo.java:92-101 | on Activated the label turns magenta and its prior colour is queued; once the restore fires, everything but the log ("Link ACTIVATED.") is as before |

## Left out

- The window, the HTML content and widget assembly (Demo.java lines 31-80 and
  114-121) are Swing layout. The two widgets are the constants `HtmlView` and
  `UrlLabel`.
- Every `OnActivateHighlightComponent` has its own single-thread executor
  (Demo.java lines 156 and 165). The model merges them into one shared FIFO of
  restores. With one highlighter, as in the demo, that changes nothing. With
  two or more highlighters in one chain, the model runs their restores in
  submission order. The program leaves the order of restores from different
  executors to thread timing, so the final colour may differ from the model's.
- Threads are not modelled. The `ScheduledThreadPoolExecutor`, the 100 ms delay
  and `EventQueue.invokeLater` become a FIFO of pending restores, which an
  explicit `FireRestore` step drains. A single worker with a constant delay runs
  tasks in the order they were submitted. Wall-clock time is not modelled.
  Shutdown or rejection of the executor is not modelled either.
- `System.out.println` is modelled as appending to a sequence of lines.
- `URL.toExternalForm` is an opaque string carried in the event.
- AWT `Color` is an enumeration of the three colours used, plus `Other`, which
  stands for any other colour. The model does no colour arithmetic.
- Decorating.Decorate: the decorator is a function from chains to a `Result`.
  Java's `Function` with wildcard types, and a function returning null, are not
  modelled.
- Decorating.From: `from(null)` is not rejected when it is built. The lambda
  throws only when the first event arrives. The model's chains are never null,
  so that late failure is not represented.
- The `final` modifier on the hover `hyperlinkUpdate` is represented by the
  single shared `HoverUpdate` method, which the hooks cannot change.
- Exceptions thrown by a wrapped listener while it handles an event are not
  modelled. The listeners in the program throw none.
