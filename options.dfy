/** The optional value used for partial results (a symbol lookup that may fail, a step that may be fatal). */
module Options {
  datatype Option<T> = None | Some(value: T)
}
