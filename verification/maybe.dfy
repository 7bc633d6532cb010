/** The optional value used wherever the app reads something that may be absent
    (a storage key that was never written, a JSON field that is missing). */
module Maybe {
  datatype Option<+T> = None | Some(value: T)
}
