/**
 * Optional values. `None` stands for JavaScript's `undefined`: a field that
 * was never assigned, an attribute a selected element does not carry, or the
 * missing second piece of a `split`.
 */
module Maybe {
  datatype Option<T> = None | Some(value: T)
}
