/** The pieces of JavaScript truthiness that the bridge relies on. */
module Js {
  import opened Wrappers

  /** A string-valued property is truthy when it is present and not the
      empty string (`if (options.uri)`, `&& data.event`). */
  predicate Truthy(s: Option<string>)
  {
    s.Some? && s.value != ""
  }
}
