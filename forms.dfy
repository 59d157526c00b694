/** What a form schema reports. */
module Forms {
  /** A schema complaint attached to one field path. */
  datatype FieldError = FieldError(path: string, message: string)
}
