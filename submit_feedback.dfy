/** The feedback submission form (src/pages/SubmitFeedback.jsx): its state,
    the checks `handleSubmit` runs in order, the record it hands to the
    backend, and what it does when the backend call settles. */
module SubmitFeedback {
  import opened Wrappers
  import opened Text
  import opened Domain
  import Display

  const MaxCommentLength: nat := 2000
  const MaxSuggestionsLength: nat := 2000

  const RatingRequired: string := "Please select a rating"
  const CommentRequired: string := "Please provide a comment"
  const CommentTooLong: string := "Comment must be less than 2000 characters"
  const SuggestionsTooLong: string := "Suggestions must be less than 2000 characters"
  const SubmitFailed: string := "Failed to submit feedback. Please try again."

  const DashboardPath: string := "/dashboard"

  /** What survives validation: the rating, the trimmed comment, and the
      trimmed suggestions or `null` when they are blank. */
  datatype Entry = Entry(rating: int, comment: string, suggestions: Option<string>)

  /** The record passed to `createFeedback`. */
  datatype NewFeedback = NewFeedback(
    authorUid: string,
    authorName: Option<string>,
    authorEmail: Option<string>,
    rating: int,
    comment: string,
    suggestions: Option<string>)

  /** `suggestions.trim() || null`. */
  function TrimOrNull(s: string): (r: Option<string>)
    ensures r.None? <==> IsBlank(s)
    ensures r.Some? ==> r.value == Trim(s)
    ensures r.Some? ==> r.value != [] && Trim(r.value) == r.value && |r.value| <= |s|
  {
    var t := Trim(s);
    TrimIdempotent(s);
    if t == [] then None else Some(t)
  }

  /** The checks of `handleSubmit`, first failure wins: a rating must be
      chosen, the comment must not be blank, and comment and suggestions may
      hold at most 2000 characters each. Only a rating of 0 is refused; the
      star buttons only ever set 1 to 5. */
  function Validate(rating: int, comment: string, suggestions: string): (r: Result<Entry>)
    ensures r.Ok? <==> rating != 0 && !IsBlank(comment)
                       && |comment| <= MaxCommentLength && |suggestions| <= MaxSuggestionsLength
    ensures rating == 0 ==> r == Err(RatingRequired)
    ensures rating != 0 && IsBlank(comment) ==> r == Err(CommentRequired)
    ensures rating != 0 && !IsBlank(comment) && |comment| > MaxCommentLength ==> r == Err(CommentTooLong)
    ensures rating != 0 && !IsBlank(comment) && |comment| <= MaxCommentLength && |suggestions| > MaxSuggestionsLength
            ==> r == Err(SuggestionsTooLong)
    ensures r.Ok? ==> r.value.rating == rating && r.value.comment == Trim(comment)
                      && r.value.suggestions == TrimOrNull(suggestions)
  {
    if rating == 0 then Err(RatingRequired)
    else if IsBlank(comment) then Err(CommentRequired)
    else if |comment| > MaxCommentLength then Err(CommentTooLong)
    else if |suggestions| > MaxSuggestionsLength then Err(SuggestionsTooLong)
    else Ok(Entry(rating, Trim(comment), TrimOrNull(suggestions)))
  }

  /** The limits are inclusive and measured on the text as typed: exactly
      2000 characters pass, 2001 do not, whatever trimming would leave. */
  lemma LengthLimits(rating: int, comment: string, suggestions: string)
    requires rating != 0 && !IsBlank(comment)
    ensures |comment| == MaxCommentLength && |suggestions| <= MaxSuggestionsLength
            ==> Validate(rating, comment, suggestions).Ok?
    ensures |comment| == MaxCommentLength + 1 ==> Validate(rating, comment, suggestions) == Err(CommentTooLong)
    ensures |comment| <= MaxCommentLength && |suggestions| == MaxSuggestionsLength + 1
            ==> Validate(rating, comment, suggestions) == Err(SuggestionsTooLong)
  {
  }

  /** Everything the form accepts is stored in normal form: a non-blank
      comment of at most 2000 characters with no surrounding whitespace, and
      suggestions that are absent or likewise trimmed and at most 2000 long. */
  lemma AcceptedEntryIsClean(rating: int, comment: string, suggestions: string)
    requires Validate(rating, comment, suggestions).Ok?
    ensures var e := Validate(rating, comment, suggestions).value;
            && e.rating != 0
            && e.comment != [] && Trim(e.comment) == e.comment && |e.comment| <= MaxCommentLength
            && (e.suggestions.Some? ==> Trim(e.suggestions.value) == e.suggestions.value
                                        && |e.suggestions.value| <= MaxSuggestionsLength)
  {
    TrimIdempotent(comment);
  }

  /** The record built from the signed-in user and the accepted entry. */
  function Payload(user: User, e: Entry): (p: NewFeedback)
    ensures p.authorUid == user.uid && p.authorName == user.displayName && p.authorEmail == user.email
    ensures p.rating == e.rating && p.comment == e.comment && p.suggestions == e.suggestions
  {
    NewFeedback(user.uid, user.displayName, user.email, e.rating, e.comment, e.suggestions)
  }

  /** `disabled={loading || rating === 0 || !comment.trim()}`. */
  predicate SubmitDisabled(loading: bool, rating: int, comment: string) {
    loading || rating == 0 || IsBlank(comment)
  }

  /** With the submit button enabled, the first two checks always pass: only
      the length checks can still refuse the form. */
  lemma EnabledButtonPassesPresenceChecks(rating: int, comment: string, suggestions: string)
    requires !SubmitDisabled(false, rating, comment)
    ensures Validate(rating, comment, suggestions).Ok?
            || Validate(rating, comment, suggestions) == Err(CommentTooLong)
            || Validate(rating, comment, suggestions) == Err(SuggestionsTooLong)
  {
  }

  /** The component's state: the `useState` cells, plus the navigations and
      the `createFeedback` calls it has made so far. */
  class SubmitFeedbackForm {
    var rating: int
    var hoverRating: int
    var comment: string
    var suggestions: string
    var loading: bool
    var error: string
    var navigations: seq<string>
    var createCalls: seq<NewFeedback>

    /** The star buttons only ever store 0 to 5. */
    predicate Valid()
      reads this
    {
      0 <= rating <= Display.StarCount && 0 <= hoverRating <= Display.StarCount
    }

    constructor()
      ensures Valid()
      ensures rating == 0 && hoverRating == 0 && comment == "" && suggestions == ""
      ensures !loading && error == "" && navigations == [] && createCalls == []
    {
      rating := 0;
      hoverRating := 0;
      comment := "";
      suggestions := "";
      loading := false;
      error := "";
      navigations := [];
      createCalls := [];
    }

    /** The stars of the rating input: star `k + 1` is lit exactly when
        `k + 1 <= (hoverRating || rating)`. */
    function Stars(): (stars: seq<bool>)
      reads this
      ensures |stars| == Display.StarCount
      ensures forall k :: 0 <= k < Display.StarCount ==>
                (stars[k] <==> k + 1 <= (if hoverRating != 0 then hoverRating else rating))
    {
      Display.StarInput(hoverRating, rating)
    }

    /** The submit button of this form, as `SubmitDisabled` describes it. */
    predicate Disabled()
      reads this
    {
      SubmitDisabled(loading, rating, comment)
    }

    /** A click on the enabled button happens with no call in flight, and the
        form's current values can then be refused only by a length check. */
    lemma EnabledFormPassesPresenceChecks()
      requires !Disabled()
      ensures !loading && rating != 0
      ensures Validate(rating, comment, suggestions).Ok?
              || Validate(rating, comment, suggestions) == Err(CommentTooLong)
              || Validate(rating, comment, suggestions) == Err(SuggestionsTooLong)
    {
      EnabledButtonPassesPresenceChecks(rating, comment, suggestions);
    }

    /** `onClick={() => setRating(star)}` on one of the five stars. */
    method ClickStar(star: int)
      requires Valid() && 1 <= star <= Display.StarCount
      modifies this
      ensures Valid() && rating == star
      ensures hoverRating == old(hoverRating) && comment == old(comment) && suggestions == old(suggestions)
      ensures loading == old(loading) && error == old(error)
      ensures navigations == old(navigations) && createCalls == old(createCalls)
    {
      rating := star;
    }

    /** `onMouseEnter={() => setHoverRating(star)}`. */
    method HoverStar(star: int)
      requires Valid() && 1 <= star <= Display.StarCount
      modifies this
      ensures Valid() && hoverRating == star
      ensures rating == old(rating) && comment == old(comment) && suggestions == old(suggestions)
      ensures loading == old(loading) && error == old(error)
      ensures navigations == old(navigations) && createCalls == old(createCalls)
    {
      hoverRating := star;
    }

    /** `onMouseLeave={() => setHoverRating(0)}`: the stars show the
        selected rating again. */
    method LeaveStars()
      requires Valid()
      modifies this
      ensures Valid() && hoverRating == 0
      ensures rating == old(rating) && comment == old(comment) && suggestions == old(suggestions)
      ensures loading == old(loading) && error == old(error)
      ensures navigations == old(navigations) && createCalls == old(createCalls)
      ensures Display.CountFilled(Stars()) == rating
    {
      hoverRating := 0;
      Display.StarInputCount(hoverRating, rating);
    }

    method EditComment(text: string)
      requires Valid()
      modifies this
      ensures Valid() && comment == text
      ensures rating == old(rating) && hoverRating == old(hoverRating) && suggestions == old(suggestions)
      ensures loading == old(loading) && error == old(error)
      ensures navigations == old(navigations) && createCalls == old(createCalls)
    {
      comment := text;
    }

    method EditSuggestions(text: string)
      requires Valid()
      modifies this
      ensures Valid() && suggestions == text
      ensures rating == old(rating) && hoverRating == old(hoverRating) && comment == old(comment)
      ensures loading == old(loading) && error == old(error)
      ensures navigations == old(navigations) && createCalls == old(createCalls)
    {
      suggestions := text;
    }

    /** The Cancel and Back to Dashboard buttons. */
    method Cancel()
      modifies this
      ensures navigations == old(navigations) + [DashboardPath]
      ensures rating == old(rating) && hoverRating == old(hoverRating)
      ensures comment == old(comment) && suggestions == old(suggestions)
      ensures loading == old(loading) && error == old(error) && createCalls == old(createCalls)
    {
      navigations := navigations + [DashboardPath];
    }

    /** `handleSubmit`. A refused form only shows the first failed check. An
        accepted one clears the error, sets `loading` and calls
        `createFeedback`; on success it navigates to the dashboard and stays
        loading, on failure it shows the retry message and stops loading,
        keeping what was typed. Without a signed-in user, reading
        `currentUser.uid` throws inside the `try`, which ends the same way
        as a failed call, before any call is made. */
    method Submit(user: Option<User>, outcome: CallOutcome) returns (ghost checked: Result<Entry>)
      requires Valid()
      modifies this
      ensures checked == Validate(old(rating), old(comment), old(suggestions))
      ensures Valid()
      ensures rating == old(rating) && hoverRating == old(hoverRating)
      ensures comment == old(comment) && suggestions == old(suggestions)
      ensures checked.Err? ==>
                && error == checked.error && loading == old(loading)
                && navigations == old(navigations) && createCalls == old(createCalls)
      ensures checked.Ok? ==>
                && createCalls == old(createCalls) + (if user.Some? then [Payload(user.value, checked.value)] else [])
                && (user.Some? && outcome == Succeeded ==>
                      loading && error == "" && navigations == old(navigations) + [DashboardPath])
                && (user.None? || outcome == Failed ==>
                      !loading && error == SubmitFailed && navigations == old(navigations))
      ensures forall k :: |old(createCalls)| <= k < |createCalls| ==>
                1 <= createCalls[k].rating <= Display.StarCount && createCalls[k].comment != []
    {
      var result := Validate(rating, comment, suggestions);
      checked := result;
      if result.Err? {
        error := result.error;
        return;
      }
      AcceptedEntryIsClean(rating, comment, suggestions);
      Send(result.value, user, outcome);
    }

    /** The part of `handleSubmit` after the checks passed, for an accepted
        entry with a rating from 1 to 5 and a non-empty comment. */
    method Send(entry: Entry, user: Option<User>, outcome: CallOutcome)
      requires Valid() && 1 <= entry.rating <= Display.StarCount && entry.comment != []
      modifies this
      ensures Valid()
      ensures rating == old(rating) && hoverRating == old(hoverRating)
      ensures comment == old(comment) && suggestions == old(suggestions)
      ensures createCalls == old(createCalls) + (if user.Some? then [Payload(user.value, entry)] else [])
      ensures forall k :: |old(createCalls)| <= k < |createCalls| ==>
                1 <= createCalls[k].rating <= Display.StarCount && createCalls[k].comment != []
      ensures user.Some? && outcome == Succeeded ==>
                loading && error == "" && navigations == old(navigations) + [DashboardPath]
      ensures user.None? || outcome == Failed ==>
                !loading && error == SubmitFailed && navigations == old(navigations)
    {
      loading := true;
      error := "";
      if user.None? {
        error := SubmitFailed;
        loading := false;
        return;
      }
      createCalls := createCalls + [Payload(user.value, entry)];
      if outcome == Succeeded {
        navigations := navigations + [DashboardPath];
      } else {
        error := SubmitFailed;
        loading := false;
      }
    }
  }
}
