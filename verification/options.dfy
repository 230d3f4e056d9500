/** The optional value used for the executor's lazily created queue and for
    the one-shot slot a deferred submission consumes. */
module Options {

  datatype Option<+T> = None | Some(value: T)
}
