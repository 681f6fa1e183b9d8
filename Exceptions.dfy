/** The exceptions the modelled code throws or lets escape. */
module Exceptions {

  datatype Exception =
    /** `ArgumentException` with its message (the payload-length guard). */
    | ArgumentException(message: string)
    /** `ArgumentNullException` (a null `Uri` handed to `UriBuilder`). */
    | ArgumentNullException
    /** `NullReferenceException` (a member access through null). */
    | NullReferenceException
    /** `IOException` with its message (a missing input file in the CLI). */
    | IOException(message: string)
    /** `ObjectDisposedException` (a request sent through a disposed `HttpClient`). */
    | ObjectDisposedException
    /** `InvalidDataException` (a rejected configuration in the CLI). */
    | InvalidDataException
    /** A plain `System.Exception` raised when the provider reports a failed upload. */
    | UploadException(message: string)
    /** Anything thrown by code outside the model: the HTTP transport, the JSON parser, `UriBuilder`'s parser. */
    | ForeignException(message: string)

  const UploadErroredMessage: string := "OwO upload errored."

  const UploadFailedPrefix: string := "OwO upload failed with '"

  /** The message of the exception for a file entry whose error flag is set. */
  function UploadFailedMessage(description: string): (m: string)
    ensures |m| == |UploadFailedPrefix| + |description| + 2
    ensures m[..|UploadFailedPrefix|] == UploadFailedPrefix
    ensures m[|UploadFailedPrefix|..|UploadFailedPrefix| + |description|] == description
    ensures m[|UploadFailedPrefix| + |description|..] == "'."
  {
    UploadFailedPrefix + description + "'."
  }

  /** The provider's description can be read back out of the failure message, so two
      different descriptions never produce the same message. */
  lemma UploadFailedMessageInjective(d1: string, d2: string)
    requires UploadFailedMessage(d1) == UploadFailedMessage(d2)
    ensures d1 == d2
  {
    var m := UploadFailedMessage(d1);
    assert d1 == m[|UploadFailedPrefix|..|UploadFailedPrefix| + |d1|];
    assert d2 == m[|UploadFailedPrefix|..|UploadFailedPrefix| + |d2|];
  }

  /** An empty file list and a flagged file entry never produce the same message. */
  lemma UploadFailureMessagesDistinct(description: string)
    ensures UploadFailedMessage(description) != UploadErroredMessage
  {
    assert |UploadFailedMessage(description)| > |UploadErroredMessage|;
  }
}
