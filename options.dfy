/** The optional value the source writes as `None` or a value (main.py:39, 47, 50). */
module Options {

  datatype Option<T> = None | Some(value: T)
}
