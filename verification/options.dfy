/** An optional value, for scans that may finish without a decision and
    for parsers that may reject their input. */
module Options {

  datatype Option<+T> = None | Some(value: T)
}
