/** Values shared by the browser-side components. */
module Records {
  /** The category record as the browser sees it after `GET /api/categories`. */
  datatype Category = Category(id: string, name: string, words: seq<string>)

  /** How a `fetch` call ends: a response (with its `ok` flag), or a
      rejected promise (network failure, unreadable body). */
  datatype FetchResult = Responded(ok: bool) | Failed
}
