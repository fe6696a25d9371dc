/** The feedback detail page (src/pages/FeedbackDetail.jsx): loading the
    feedback, following its comments, adding a comment, deleting the
    feedback, and what the page renders in each state. */
module FeedbackDetail {
  import opened Wrappers
  import opened Text
  import opened Domain
  import Display

  const MaxCommentLength: nat := 1000

  const CommentRequired: string := "Please enter a comment"
  const CommentTooLong: string := "Comment must be less than 1000 characters"
  const AddFailed: string := "Failed to add comment. Please try again."
  const NotFound: string := "Feedback not found"
  const LoadFailed: string := "Failed to load feedback"
  const DeleteFailed: string := "Failed to delete feedback. Please try again."

  const DashboardPath: string := "/dashboard"

  /** The record passed to `addComment`. */
  datatype NewComment = NewComment(commenterUid: string, commenterName: Option<string>, text: string)

  /** How `getFeedback(id)` settles: a document, nothing, or a thrown error. */
  datatype FetchResult = Found(feedback: Feedback) | Missing | FetchFailed

  /** What the page renders: the spinner while loading, nothing when no
      feedback was loaded, the page otherwise. */
  datatype Screen = Spinner | Nothing | Page(feedback: Feedback)

  /** The checks of `handleAddComment`: not blank, then at most 1000
      characters. The accepted text is the trimmed comment. */
  function ValidateComment(text: string): (r: Result<string>)
    ensures r.Ok? <==> !IsBlank(text) && |text| <= MaxCommentLength
    ensures IsBlank(text) ==> r == Err(CommentRequired)
    ensures !IsBlank(text) && |text| > MaxCommentLength ==> r == Err(CommentTooLong)
    ensures r.Ok? ==> r.value == Trim(text)
  {
    if IsBlank(text) then Err(CommentRequired)
    else if |text| > MaxCommentLength then Err(CommentTooLong)
    else Ok(Trim(text))
  }

  /** The limit is inclusive and measured on the text as typed. */
  lemma CommentLengthLimit(text: string)
    requires !IsBlank(text)
    ensures |text| == MaxCommentLength ==> ValidateComment(text).Ok?
    ensures |text| == MaxCommentLength + 1 ==> ValidateComment(text) == Err(CommentTooLong)
  {
  }

  /** An accepted comment is non-blank, trimmed and at most 1000 long. */
  lemma AcceptedCommentIsClean(text: string)
    requires ValidateComment(text).Ok?
    ensures var t := ValidateComment(text).value;
            t != [] && Trim(t) == t && |t| <= MaxCommentLength && !IsBlank(t)
  {
    TrimIdempotent(text);
  }

  /** `currentUser?.uid`: `undefined` without a user. */
  function UidOf(user: Option<User>): (uid: Option<string>)
    ensures uid.Some? <==> user.Some?
    ensures user.Some? ==> uid.value == user.value.uid
  {
    match user
    case None => None
    case Some(u) => Some(u.uid)
  }

  /** `currentUser?.uid === feedback.authorUid`: whether the delete button
      is shown. */
  predicate CanDelete(user: Option<User>, f: Feedback) {
    UidOf(user) == f.authorUid
  }

  /** A signed-in user sees the delete button exactly on their own feedback. */
  lemma DeleteOnlyForAuthor(user: User, f: Feedback)
    ensures CanDelete(Some(user), f) <==> f.authorUid == Some(user.uid)
  {
  }

  /** Strict equality of two `undefined` values also holds: without a user,
      the button shows on a feedback that has no author uid. */
  lemma SignedOutSeesDeleteOnAuthorless(f: Feedback)
    ensures CanDelete(None, f) <==> f.authorUid.None?
  {
  }

  /** The page's state: the `useState` cells, the route's `id`, plus the
      navigations and the backend calls made so far. */
  class FeedbackDetailView {
    const id: string
    var feedback: Option<Feedback>
    var comments: seq<Comment>
    var newComment: string
    var loading: bool
    var submitting: bool
    var error: string
    var navigations: seq<string>
    var commentCalls: seq<(string, NewComment)>
    var deleteCalls: seq<string>

    constructor(id: string)
      ensures this.id == id
      ensures feedback == None && comments == [] && newComment == ""
      ensures loading && !submitting && error == ""
      ensures navigations == [] && commentCalls == [] && deleteCalls == []
    {
      this.id := id;
      feedback := None;
      comments := [];
      newComment := "";
      loading := true;
      submitting := false;
      error := "";
      navigations := [];
      commentCalls := [];
      deleteCalls := [];
    }

    /** The page rendered from the current state. */
    function Render(): (s: Screen)
      reads this
      ensures s.Spinner? <==> loading
      ensures s.Nothing? <==> !loading && feedback.None?
      ensures s.Page? ==> feedback == Some(s.feedback)
    {
      if loading then Spinner
      else if feedback.None? then Nothing
      else Page(feedback.value)
    }

    /** The bylines of the comment list, one per comment in snapshot order;
        the list is replaced by the empty-state message when there are none. */
    function CommentBylines(): (bs: seq<Display.Byline>)
      reads this
      ensures |bs| == |comments|
      ensures forall k :: 0 <= k < |comments| ==> bs[k] == Display.BylineOf(comments[k].commenterName, comments[k].createdAt)
    {
      seq(|comments|, k requires 0 <= k < |comments| reads this =>
        Display.BylineOf(comments[k].commenterName, comments[k].createdAt))
    }

    /** `disabled={submitting || !newComment.trim()}`. */
    predicate PostDisabled()
      reads this
    {
      submitting || IsBlank(newComment)
    }

    /** With the post button enabled, the blank check always passes: the
        comment is refused only for being longer than the limit. */
    lemma EnabledPostButtonPassesBlankCheck()
      requires !PostDisabled()
      ensures !submitting
      ensures ValidateComment(newComment).Ok? <==> |newComment| <= MaxCommentLength
      ensures ValidateComment(newComment).Err? ==> ValidateComment(newComment) == Err(CommentTooLong)
    {
    }

    /** `Comments ({comments.length})`: the heading counts the comments of
        the latest snapshot. */
    function CommentsHeading(): (h: string)
      reads this
      ensures |h| >= 12 && h[..10] == "Comments (" && h[|h| - 1] == ')'
      ensures AllDigits(h[10..|h| - 1]) && DecimalValue(h[10..|h| - 1]) == |comments|
      ensures h == "Comments (" + IntToDecimal(|comments|) + ")"
    {
      var digits := IntToDecimal(|comments|);
      var h := "Comments (" + digits + ")";
      assert h[10..|h| - 1] == digits;
      h
    }

    /** `loadFeedback`: a found document is shown; a missing one sets the
        not-found message and goes back to the dashboard; a thrown error
        sets the load message. Loading ends in every case. */
    method LoadFeedback(result: FetchResult)
      modifies this
      ensures !loading
      ensures result.Found? ==> feedback == Some(result.feedback) && error == old(error) && navigations == old(navigations)
      ensures result.Missing? ==> feedback == old(feedback) && error == NotFound && navigations == old(navigations) + [DashboardPath]
      ensures result.FetchFailed? ==> feedback == old(feedback) && error == LoadFailed && navigations == old(navigations)
      ensures comments == old(comments) && newComment == old(newComment) && submitting == old(submitting)
      ensures commentCalls == old(commentCalls) && deleteCalls == old(deleteCalls)
    {
      match result {
        case Found(f) =>
          feedback := Some(f);
        case Missing =>
          error := NotFound;
          navigations := navigations + [DashboardPath];
        case FetchFailed =>
          error := LoadFailed;
      }
      loading := false;
    }

    /** The comments subscription: every snapshot replaces the list. */
    method OnCommentsSnapshot(data: seq<Comment>)
      modifies this
      ensures comments == data
      ensures feedback == old(feedback) && newComment == old(newComment) && loading == old(loading)
      ensures submitting == old(submitting) && error == old(error) && navigations == old(navigations)
      ensures commentCalls == old(commentCalls) && deleteCalls == old(deleteCalls)
    {
      comments := data;
    }

    method EditComment(text: string)
      modifies this
      ensures newComment == text
      ensures feedback == old(feedback) && comments == old(comments) && loading == old(loading)
      ensures submitting == old(submitting) && error == old(error) && navigations == old(navigations)
      ensures commentCalls == old(commentCalls) && deleteCalls == old(deleteCalls)
    {
      newComment := text;
    }

    /** `handleAddComment`. A refused comment only shows the failed check.
        An accepted one clears the error and calls `addComment` with the
        trimmed text; success empties the box, failure keeps it and shows
        the retry message; `submitting` is off again either way. Without a
        signed-in user the call is never made and the retry message shows. */
    method AddComment(user: Option<User>, outcome: CallOutcome)
      modifies this
      ensures feedback == old(feedback) && comments == old(comments) && loading == old(loading)
      ensures navigations == old(navigations) && deleteCalls == old(deleteCalls)
      ensures ValidateComment(old(newComment)).Err? ==>
                && error == ValidateComment(old(newComment)).error
                && newComment == old(newComment) && submitting == old(submitting)
                && commentCalls == old(commentCalls)
      ensures ValidateComment(old(newComment)).Ok? ==>
                var text := ValidateComment(old(newComment)).value;
                && !submitting
                && commentCalls == old(commentCalls)
                     + (if user.Some? then [(id, NewComment(user.value.uid, user.value.displayName, text))] else [])
                && (user.Some? && outcome == Succeeded ==> newComment == "" && error == "")
                && (user.None? || outcome == Failed ==> newComment == old(newComment) && error == AddFailed)
    {
      var checked := ValidateComment(newComment);
      if checked.Err? {
        error := checked.error;
        return;
      }
      submitting := true;
      error := "";
      if user.Some? {
        commentCalls := commentCalls + [(id, NewComment(user.value.uid, user.value.displayName, checked.value))];
        if outcome == Succeeded {
          newComment := "";
        } else {
          error := AddFailed;
        }
      } else {
        error := AddFailed;
      }
      submitting := false;
    }

    /** `handleDeleteFeedback`: nothing unless the confirmation is accepted;
        then `deleteFeedback(id)`, and the dashboard on success or the retry
        message on failure. */
    method DeleteFeedback(confirmed: bool, outcome: CallOutcome)
      modifies this
      ensures deleteCalls == old(deleteCalls) + (if confirmed then [id] else [])
      ensures confirmed && outcome == Succeeded ==> navigations == old(navigations) + [DashboardPath] && error == old(error)
      ensures confirmed && outcome == Failed ==> navigations == old(navigations) && error == DeleteFailed
      ensures !confirmed ==> navigations == old(navigations) && error == old(error)
      ensures feedback == old(feedback) && comments == old(comments) && newComment == old(newComment)
      ensures loading == old(loading) && submitting == old(submitting) && commentCalls == old(commentCalls)
    {
      if !confirmed {
        return;
      }
      deleteCalls := deleteCalls + [id];
      if outcome == Succeeded {
        navigations := navigations + [DashboardPath];
      } else {
        error := DeleteFailed;
      }
    }

    /** The Back to Dashboard button. */
    method Back()
      modifies this
      ensures navigations == old(navigations) + [DashboardPath]
      ensures feedback == old(feedback) && comments == old(comments) && newComment == old(newComment)
      ensures loading == old(loading) && submitting == old(submitting) && error == old(error)
      ensures commentCalls == old(commentCalls) && deleteCalls == old(deleteCalls)
    {
      navigations := navigations + [DashboardPath];
    }
  }

  /** A freshly loaded page shows the spinner until `loadFeedback` settles,
      and then the page exactly when the feedback was found. */
  method LoadThenRender(id: string, result: FetchResult) returns (before: Screen, after: Screen)
    ensures before == Spinner
    ensures after.Page? <==> result.Found?
    ensures result.Found? ==> after == Page(result.feedback)
  {
    var view := new FeedbackDetailView(id);
    before := view.Render();
    view.LoadFeedback(result);
    after := view.Render();
  }
}
