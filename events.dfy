/** The values the listener chain works on: hyperlink events and the few
    pieces of Swing/AWT the decorators touch (widgets and colours). */
module Events {
  import opened Wrappers

  /** `HyperlinkEvent.EventType`. */
  datatype EventType = Entered | Exited | Activated

  /** `EventType.toString()`: the constant's upper-case name. */
  function TypeName(t: EventType): (r: string)
    ensures |r| > 0
  {
    match t
    case Entered => "ENTERED"
    case Exited => "EXITED"
    case Activated => "ACTIVATED"
  }

  /** A hyperlink event: its type and its URL's external form, which may be null. */
  datatype Event = Event(kind: EventType, url: Option<string>)

  /** `url != null ? url.toExternalForm() : placeholder`. */
  function UrlOr(url: Option<string>, placeholder: string): (r: string)
    ensures url.Some? ==> r == url.value
    ensures url.None? ==> r == placeholder
  {
    url.GetOr(placeholder)
  }

  /** AWT colours; only the constants the program uses are named. */
  datatype Color = Orange | White | Magenta | Other(rgb: int)

  /** The two widgets of the demo window: the HTML view and the URL label. */
  datatype Widget = HtmlView | UrlLabel

  /** A widget that is a `JLabel`; only the URL label is one. */
  type Label = w: Widget | w.UrlLabel? witness UrlLabel

  /** The exception a constructor throws, with its message. */
  datatype Error = NullPointer(message: string)
}
