/**
  Go `error` values as the core sees them. The handlers only ever ask two
  things of an error: whether `errors.Is(err, gorm.ErrRecordNotFound)` holds,
  and its text `err.Error()`.
*/
module Errors {

  /** RecordNotFound is gorm's sentinel `gorm.ErrRecordNotFound`; every other error carries its text. */
  datatype Error = RecordNotFound | Failed(text: string)
  {
    /** err.Error(): gorm's sentinel reads "record not found". */
    function Text(): string
    {
      match this
      case RecordNotFound => "record not found"
      case Failed(t) => t
    }
  }
}
