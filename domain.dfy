/** The records the pages read from and hand to the backend, with JavaScript's
    optional fields written out as `Option`, and the outcomes of the backend
    calls, which the model takes as parameters. */
module Domain {
  import opened Wrappers

  /** A JavaScript `Date`: either a valid instant, rendered by the library's
      `toISOString` as `iso`, or an invalid date (on which `toISOString` throws). */
  datatype DateValue = ValidDate(iso: string) | InvalidDate

  /** The shapes a `createdAt` value may take: absent or otherwise falsy, a
      Firestore timestamp whose `toDate()` yields a date, a plain `Date`, or
      any other truthy value. */
  datatype Timestamp =
    | NoTimestamp
    | FirestoreTimestamp(toDate: DateValue)
    | JsDate(date: DateValue)
    | OtherValue

  /** A comment document as delivered by the backend. */
  datatype Comment = Comment(
    id: string,
    commenterUid: Option<string>,
    commenterName: Option<string>,
    text: Option<string>,
    createdAt: Timestamp)

  /** A feedback document as delivered by the backend; `comments` is present
      only on the records fetched for the export. A `rating` or `likes` of
      `None` is an absent field. */
  datatype Feedback = Feedback(
    id: string,
    authorUid: Option<string>,
    authorName: Option<string>,
    authorEmail: Option<string>,
    rating: Option<int>,
    comment: Option<string>,
    suggestions: Option<string>,
    createdAt: Timestamp,
    likes: Option<int>,
    comments: Option<seq<Comment>>)

  /** The signed-in user as the authentication context exposes it. */
  datatype User = User(uid: string, displayName: Option<string>, email: Option<string>)

  /** The settlement of an awaited backend call that returns nothing of interest. */
  datatype CallOutcome = Succeeded | Failed
}
