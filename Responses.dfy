/** `OwoResponse` and `OwoFile`: what the upload endpoint's JSON reply binds to.
    The structs have internal setters only, so to a consumer they are values. */
module Responses {
  import opened Wrappers

  /** C#'s `long`. */
  type Int64 = x: int | -0x8000_0000_0000_0000 <= x < 0x8000_0000_0000_0000

  /** One uploaded file: JSON keys `name`, `hash`, `url`, `length`, `error`, `description`.
      A key the JSON leaves out stays null (`None`), `length` stays 0. `error` is the
      tri-state `bool?`. */
  datatype OwoFile = OwoFile(
    fileName: Option<string>,
    hash: Option<string>,
    url: Option<string>,
    length: Int64,
    error: Option<bool>,
    description: Option<string>)

  /** JSON key `files`; when the key is missing the list stays null (`None`). */
  datatype OwoResponse = OwoResponse(files: Option<seq<OwoFile>>)
}
