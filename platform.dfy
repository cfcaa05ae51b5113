/**
 * Value types of the collaborators the handlers talk to: the hosted store,
 * the multipart form of a request, the image host and the HTTP response.
 */
module Platform {
  import opened Wrappers

  /** An instant, as produced by `new Date()`; passed in, never read from a clock. */
  type Timestamp = int

  /** A JSON value, as `JSON.parse` produces it and as a store row holds it. */
  datatype Json =
    | JNull
    | JBool(b: bool)
    | JNum(n: real)
    | JStr(s: string)
    | JArr(items: seq<Json>)
    | JObj(fields: seq<(string, Json)>)

  /** The error object the store client hands back instead of throwing. */
  datatype StoreError = StoreError(message: string)

  /** One value of a multipart form: a text field or an uploaded file. */
  datatype FormEntry = Text(text: string) | File(size: nat)

  /** JavaScript truthiness of a form string: present and not empty. */
  predicate Truthy(v: Option<string>)
  {
    v.Some? && v.value != ""
  }

  /** `file && file.size > 0`: a file entry with at least one byte. */
  predicate HasContent(f: Option<FormEntry>)
  {
    f.Some? && f.value.File? && f.value.size > 0
  }

  /**
   * What an upload to the image host gives back: the promise resolves with
   * an optional secure URL, or it rejects with an error.
   */
  datatype UploadOutcome = Uploaded(url: Option<string>) | UploadRejected(message: string)

  /** The JSON body of a response. */
  datatype Body =
    | ErrorBody(error: string)
    | CodeBody(code: int, message: string)
    | RowBody(row: map<string, Json>)

  datatype Response = Response(status: int, body: Body)
}
