/** An optional value: `None` stands for a run the C code leaves undefined. */
module Options {

  datatype Option<+T> = None | Some(value: T)
}
