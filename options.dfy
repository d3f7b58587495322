/** A value that may be missing: a JavaScript `undefined`/`null` field or an
    absent multipart part. */
module Options {

  datatype Option<+T> = None | Some(value: T)
}
