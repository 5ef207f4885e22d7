/** The optional value used for the plugin's nullable parameters (`null` in Java is `None`). */
module Wrappers {

  datatype Option<+T> = None | Some(value: T)

  /** Java's string concatenation renders a null reference as the text "null". */
  function JavaText(s: Option<string>): string
  {
    match s
    case None => "null"
    case Some(v) => v
  }

  /** `s != null && !s.isEmpty()`, the guard the plugin uses for every optional string. */
  predicate Present(s: Option<string>)
  {
    s.Some? && s.value != []
  }
}
