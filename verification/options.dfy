/** The optional-value datatype used across the model: a turn index that may
    not exist, a search query that may not be issued, a warning that may not
    be raised. */
module Options {

  datatype Option<+T> = None | Some(value: T)

}
