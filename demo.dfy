/** The demo program: the listener it builds in `createHyperlinkListener` and
    what that listener does for each kind of event. */
module Demo {
  import opened Wrappers
  import opened Events
  import opened Decorating
  import opened Semantics

  /** The demo chain below the highlighter: the logging decorator, the two
      hover decorators and the adapter around the base handler. */
  const DemoInner: Chain :=
    Wrap(LogEvents,
    Wrap(OnHover(SetUrlText(UrlLabel)),
    Wrap(OnHover(MakeVisible(UrlLabel)),
    Wrap(Adapter, Base))))

  /** The chain the demo registers on the HTML view, outermost layer first. */
  const DemoChain: Chain := Wrap(LogUrlOnEnter, Wrap(Highlight(UrlLabel), DemoInner))

  /** `createHyperlinkListener`: the base handler adapted with `from`, then
      decorated, in this order, with make-visible, set-URL-text, logging,
      highlighting (through `decorate` and a lambda) and URL logging
      (through `decorate` and a constructor reference). The first decoration
      applied ends up innermost. No step fails: the label is never null. */
  function CreateHyperlinkListener(): (r: Chain)
    ensures Layers(r) == [LogUrlOnEnter, Highlight(UrlLabel), LogEvents,
                          OnHover(SetUrlText(UrlLabel)), OnHover(MakeVisible(UrlLabel)), Adapter]
    ensures r == DemoChain
  {
    var visible := OnHoverMakeVisible(From(Base), Some(UrlLabel)).value;
    var labelled := OnHoverSetUrlOn(visible, Some(UrlLabel)).value;
    var logged := LogEventsOn(labelled);
    var highlighted := Decorate(logged, (l: Chain) => NewHighlight(Some(l), Some(UrlLabel))).value;
    Decorate(highlighted, (l: Chain) => NewLogUrl(Some(l))).value
  }

  /** Entered, inside the highlighter: the type is logged, the label gets the
      URL as text, becomes visible, and last the HTML view turns orange. */
  lemma DemoInnerEntered(url: Option<string>)
    ensures Trace(DemoInner, Event(Entered, url)) == [
      Print("Link ENTERED."), Delegate(Event(Entered, url)),
      Hook(Enter, SetUrlText(UrlLabel)), SetText(Some(UrlOr(url, "No URL"))), Delegate(Event(Entered, url)),
      Hook(Enter, MakeVisible(UrlLabel)), SetVisible(UrlLabel, true), Delegate(Event(Entered, url)),
      Delegate(Event(Entered, url)),
      Deliver(Event(Entered, url)), SetBackground(HtmlView, Orange)]
  {
    var e := Event(Entered, url);
    var c6 := Wrap(Adapter, Base);
    var c5 := Wrap(OnHover(MakeVisible(UrlLabel)), c6);
    var c4 := Wrap(OnHover(SetUrlText(UrlLabel)), c5);
    var t6 := [Delegate(e), Deliver(e), SetBackground(HtmlView, Orange)];
    assert Trace(c6, e) == t6 by { TraceLayer(Adapter, Base, e); }
    var t5 := [Hook(Enter, MakeVisible(UrlLabel)), SetVisible(UrlLabel, true)] + [Delegate(e)] + t6;
    assert Trace(c5, e) == t5 by { TraceLayer(OnHover(MakeVisible(UrlLabel)), c6, e); }
    var t4 := [Hook(Enter, SetUrlText(UrlLabel)), SetText(Some(UrlOr(url, "No URL")))] + [Delegate(e)] + t5;
    assert Trace(c4, e) == t4 by { TraceLayer(OnHover(SetUrlText(UrlLabel)), c5, e); }
    assert Trace(DemoInner, e) == [Print("Link ENTERED.")] + [Delegate(e)] + t4 by {
      TraceLayer(LogEvents, c4, e);
      LogLineText(e);
    }
  }

  /** Entered, in order: the URL is logged, then the type, the label gets the
      URL as text, the label becomes visible, and last the base handler turns
      the HTML view orange. */
  lemma DemoEnteredOrder(url: Option<string>)
    ensures Trace(DemoChain, Event(Entered, url)) == [
      Print("Link entered with URL " + UrlOr(url, "n.a.")), Delegate(Event(Entered, url)),
      Delegate(Event(Entered, url))] + [
      Print("Link ENTERED."), Delegate(Event(Entered, url)),
      Hook(Enter, SetUrlText(UrlLabel)), SetText(Some(UrlOr(url, "No URL"))), Delegate(Event(Entered, url)),
      Hook(Enter, MakeVisible(UrlLabel)), SetVisible(UrlLabel, true), Delegate(Event(Entered, url)),
      Delegate(Event(Entered, url)),
      Deliver(Event(Entered, url)), SetBackground(HtmlView, Orange)]
  {
    var e := Event(Entered, url);
    var t3 := Trace(DemoInner, e);
    var line := Print("Link entered with URL " + UrlOr(url, "n.a."));
    assert Trace(DemoChain, e) == [line, Delegate(e), Delegate(e)] + t3 by {
      var c2 := Wrap(Highlight(UrlLabel), DemoInner);
      PassThrough(Highlight(UrlLabel), DemoInner, e);
      assert Trace(DemoChain, e) == [line] + [Delegate(e)] + ([Delegate(e)] + t3) by {
        TraceLayer(LogUrlOnEnter, c2, e);
        assert UrlLine(e) == "Link entered with URL " + UrlOr(url, "n.a.");
      }
      Assoc([line] + [Delegate(e)], [Delegate(e)], t3);
      assert [line] + [Delegate(e)] + [Delegate(e)] == [line, Delegate(e), Delegate(e)];
    }
    DemoInnerEntered(url);
  }

  /** Entered, inside the highlighter: one line logged, the label shows the
      URL (or "No URL") and is visible, the HTML view is orange. */
  lemma DemoInnerEnteredState(s: Screen, url: Option<string>)
    ensures Apply(s, Trace(DemoInner, Event(Entered, url))) == Screen(
      s.log + [LogLine(Event(Entered, url))],
      s.htmlVisible, true, Orange, s.labelBackground,
      Some(UrlOr(url, "No URL")), s.pending)
  {
    var e := Event(Entered, url);
    var c6 := Wrap(Adapter, Base);
    var c5 := Wrap(OnHover(MakeVisible(UrlLabel)), c6);
    var c4 := Wrap(OnHover(SetUrlText(UrlLabel)), c5);
    var s2 := WithLog(s, s.log + [LogLine(e)]);
    assert Apply(s, Trace(DemoInner, e)) == Apply(s2, Trace(c4, e)) by { LogEventsLayer(c4, s, e); }
    var s3 := EnterEffect(SetUrlText(UrlLabel), e, s2);
    assert Apply(s2, Trace(c4, e)) == Apply(s3, Trace(c5, e)) by { HoverLayer(SetUrlText(UrlLabel), c5, s2, e); }
    var s4 := EnterEffect(MakeVisible(UrlLabel), e, s3);
    assert Apply(s3, Trace(c5, e)) == Apply(s4, Trace(c6, e)) by { HoverLayer(MakeVisible(UrlLabel), c6, s3, e); }
    assert Apply(s4, Trace(c6, e)) == WithBackground(s4, HtmlView, Orange) by {
      AdapterForwards(Base, s4, e);
      BaseHandler(s4, e);
    }
  }

  /** Entered: two lines logged, the label shows the URL (or "No URL") and
      is visible, the HTML view is orange; nothing else changes. */
  lemma DemoEntered(s: Screen, url: Option<string>)
    ensures Apply(s, Trace(DemoChain, Event(Entered, url))) == Screen(
      s.log + ["Link entered with URL " + UrlOr(url, "n.a."), "Link ENTERED."],
      s.htmlVisible, true, Orange, s.labelBackground,
      Some(UrlOr(url, "No URL")), s.pending)
  {
    var e := Event(Entered, url);
    var c2 := Wrap(Highlight(UrlLabel), DemoInner);
    var s1 := WithLog(s, s.log + [UrlLine(e)]);
    assert Apply(s, Trace(DemoChain, e)) == Apply(s1, Trace(c2, e)) by { LogUrlLayer(c2, s, e); }
    assert Apply(s1, Trace(c2, e)) == Apply(s1, Trace(DemoInner, e)) by { HighlightLayer(UrlLabel, DemoInner, s1, e); }
    DemoInnerEnteredState(s1, url);
    assert s1.log + [LogLine(e)] == s.log + ["Link entered with URL " + UrlOr(url, "n.a."), "Link ENTERED."] by {
      assert UrlLine(e) == "Link entered with URL " + UrlOr(url, "n.a.");
      LogLineText(e);
    }
  }

  /** Exited, inside the highlighter: the type is logged, the HTML view
      turns white, then the label is hidden and afterwards its text cleared. */
  lemma DemoInnerExited(url: Option<string>)
    ensures Trace(DemoInner, Event(Exited, url)) == [
      Print("Link EXITED."), Delegate(Event(Exited, url)),
      Delegate(Event(Exited, url)),
      Delegate(Event(Exited, url)),
      Delegate(Event(Exited, url)),
      Deliver(Event(Exited, url)), SetBackground(HtmlView, White),
      Hook(Exit, MakeVisible(UrlLabel)), SetVisible(UrlLabel, false),
      Hook(Exit, SetUrlText(UrlLabel)), SetText(None)]
  {
    var e := Event(Exited, url);
    var c6 := Wrap(Adapter, Base);
    var c5 := Wrap(OnHover(MakeVisible(UrlLabel)), c6);
    var c4 := Wrap(OnHover(SetUrlText(UrlLabel)), c5);
    var t6 := [Delegate(e), Deliver(e), SetBackground(HtmlView, White)];
    assert Trace(c6, e) == t6 by { TraceLayer(Adapter, Base, e); }
    var t5 := [] + [Delegate(e)] + t6 + [Hook(Exit, MakeVisible(UrlLabel)), SetVisible(UrlLabel, false)];
    assert Trace(c5, e) == t5 by { TraceLayer(OnHover(MakeVisible(UrlLabel)), c6, e); }
    var t4 := [] + [Delegate(e)] + t5 + [Hook(Exit, SetUrlText(UrlLabel)), SetText(None)];
    assert Trace(c4, e) == t4 by { TraceLayer(OnHover(SetUrlText(UrlLabel)), c5, e); }
    assert Trace(DemoInner, e) == [Print("Link EXITED.")] + [Delegate(e)] + t4 + [] by {
      TraceLayer(LogEvents, c4, e);
      LogLineText(e);
    }
  }

  /** Exited, in order: the type is logged, the base handler turns the HTML
      view white, then on the way out the label is hidden and afterwards its
      text cleared. */
  lemma DemoExitedOrder(url: Option<string>)
    ensures Trace(DemoChain, Event(Exited, url)) == [
      Delegate(Event(Exited, url)),
      Delegate(Event(Exited, url))] + [
      Print("Link EXITED."), Delegate(Event(Exited, url)),
      Delegate(Event(Exited, url)),
      Delegate(Event(Exited, url)),
      Delegate(Event(Exited, url)),
      Deliver(Event(Exited, url)), SetBackground(HtmlView, White),
      Hook(Exit, MakeVisible(UrlLabel)), SetVisible(UrlLabel, false),
      Hook(Exit, SetUrlText(UrlLabel)), SetText(None)]
  {
    var e := Event(Exited, url);
    var t3 := Trace(DemoInner, e);
    PassThrough(Highlight(UrlLabel), DemoInner, e);
    PassThrough(LogUrlOnEnter, Wrap(Highlight(UrlLabel), DemoInner), e);
    Assoc([Delegate(e)], [Delegate(e)], t3);
    DemoInnerExited(url);
  }

  /** Exited, inside the highlighter: one line logged, the HTML view is
      white, the label hidden and its text null. */
  lemma DemoInnerExitedState(s: Screen, url: Option<string>)
    ensures Apply(s, Trace(DemoInner, Event(Exited, url))) == Screen(
      s.log + [LogLine(Event(Exited, url))],
      s.htmlVisible, false, White, s.labelBackground,
      None, s.pending)
  {
    var e := Event(Exited, url);
    var c6 := Wrap(Adapter, Base);
    var c5 := Wrap(OnHover(MakeVisible(UrlLabel)), c6);
    var c4 := Wrap(OnHover(SetUrlText(UrlLabel)), c5);
    var s1 := WithLog(s, s.log + [LogLine(e)]);
    assert Apply(s, Trace(DemoInner, e)) == Apply(s1, Trace(c4, e)) by { LogEventsLayer(c4, s, e); }
    var s3 := Apply(s1, Trace(c6, e));
    assert s3 == WithBackground(s1, HtmlView, White) by {
      AdapterForwards(Base, s1, e);
      BaseHandler(s1, e);
    }
    var s4 := ExitEffect(MakeVisible(UrlLabel), s3);
    assert Apply(s1, Trace(c5, e)) == s4 by { HoverLayer(MakeVisible(UrlLabel), c6, s1, e); }
    assert Apply(s1, Trace(c4, e)) == ExitEffect(SetUrlText(UrlLabel), s4) by {
      HoverLayer(SetUrlText(UrlLabel), c5, s1, e);
    }
  }

  /** Exited: one line logged, the HTML view is white, the label hidden and
      its text null; nothing else changes. */
  lemma DemoExited(s: Screen, url: Option<string>)
    ensures Apply(s, Trace(DemoChain, Event(Exited, url))) == Screen(
      s.log + ["Link EXITED."],
      s.htmlVisible, false, White, s.labelBackground,
      None, s.pending)
  {
    var e := Event(Exited, url);
    var c2 := Wrap(Highlight(UrlLabel), DemoInner);
    assert Apply(s, Trace(DemoChain, e)) == Apply(s, Trace(c2, e)) by { LogUrlLayer(c2, s, e); }
    assert Apply(s, Trace(c2, e)) == Apply(s, Trace(DemoInner, e)) by { HighlightLayer(UrlLabel, DemoInner, s, e); }
    DemoInnerExitedState(s, url);
    LogLineText(e);
  }

  /** Activated with no restore pending: the label turns magenta and one
      restore of its prior colour is queued; once it fires, everything but
      the log is as before the click. */
  lemma DemoActivated(s: Screen, url: Option<string>)
    requires s.pending == []
    ensures Apply(s, Trace(DemoChain, Event(Activated, url))).labelBackground == Magenta
    ensures Apply(s, Trace(DemoChain, Event(Activated, url))).pending == [Restore(UrlLabel, s.labelBackground)]
    ensures FireRestore(Apply(s, Trace(DemoChain, Event(Activated, url))))
         == WithLog(s, s.log + ["Link ACTIVATED."])
  {
    var e := Event(Activated, url);
    var c6 := Wrap(Adapter, Base);
    var c5 := Wrap(OnHover(MakeVisible(UrlLabel)), c6);
    var c4 := Wrap(OnHover(SetUrlText(UrlLabel)), c5);
    var c3 := Wrap(LogEvents, c4);
    var c2 := Wrap(Highlight(UrlLabel), c3);
    assert LogLines(c6, e) == [];
    assert LogLines(c5, e) == [];
    assert LogLines(c4, e) == [];
    assert LogLines(c3, e) == [LogLine(e)];
    assert LogLines(c2, e) == [LogLine(e)];
    assert LogLines(DemoChain, e) == ["Link ACTIVATED."] by { LogLineText(e); }
    assert HighlightTargets(c5) == [];
    assert HighlightTargets(c3) == [];
    assert HighlightTargets(DemoChain) == [UrlLabel];
    HighlightRoundTrip(DemoChain, s, e, UrlLabel);
  }

  /** Entering twice keeps the label visible and showing the URL. */
  lemma DemoEnteredTwice(s: Screen, url: Option<string>)
    ensures Apply(Apply(s, Trace(DemoChain, Event(Entered, url))), Trace(DemoChain, Event(Entered, url))).labelVisible
    ensures Apply(Apply(s, Trace(DemoChain, Event(Entered, url))), Trace(DemoChain, Event(Entered, url))).labelText
         == Some(UrlOr(url, "No URL"))
  {
    DemoEntered(s, url);
    DemoEntered(Apply(s, Trace(DemoChain, Event(Entered, url))), url);
  }
}
