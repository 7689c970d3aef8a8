/** A value that may be absent: a missing cell of a table, or a cluster id
    the label dictionary has no entry for (pandas shows both as NaN). */
module Optional {

  datatype Option<+T> = None | Some(value: T)
}
