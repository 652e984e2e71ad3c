/**
 * Outcomes of calls into code outside the model (Google APIs, the file
 * system, object storage). Each such call becomes a parameter holding what it
 * returned or what it threw.
 */
module Calls {
  import opened Wrappers

  /** A thrown value: an `Error` instance, with its `message` and optional numeric `code`, or anything else. */
  datatype Thrown = JsError(message: string, code: Option<int>) | NonError

  /** What an awaited call produced. */
  datatype Call<+T> = Returned(value: T) | Threw(thrown: Thrown)

  /** `error instanceof Error ? error.message : fallback`. */
  function MessageOr(t: Thrown, fallback: string): string
  {
    if t.JsError? then t.message else fallback
  }

  /** The file multer's `upload.single('file')` leaves in `req.file`: the name the browser sent, its size in bytes and its media type. The bytes are not modelled. */
  datatype UploadedFile = UploadedFile(originalname: string, size: nat, mimetype: string)
}
