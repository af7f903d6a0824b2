/** Small value wrappers shared by the modules of the chat client model. */
module Common {

  /** An optional value: JavaScript's `undefined` versus a present value. */
  datatype Option<+T> = None | Some(value: T)

  /** The outcome of a call that can throw: a value, or an exception. */
  datatype Reply<+T> = Ok(value: T) | Thrown

  /**
   * JavaScript truthiness of an optional string: `undefined` and the empty
   * string are falsy, every other string is truthy.
   */
  predicate Truthy(s: Option<string>) {
    s.Some? && s.value != ""
  }

  /** Appending after a non-empty sequence: its head, then its tail and the rest. */
  lemma SplitHead<T>(a: seq<T>, b: seq<T>)
    requires a != []
    ensures a + b == [a[0]] + (a[1..] + b)
  {
    assert a == [a[0]] + a[1..];
  }
}
