/** The dashboard (src/pages/Dashboard.jsx): the live feedback list kept up
    to date by a subscription, and which of its three sections renders. */
module Dashboard {
  import opened Domain
  import Display

  const SubmitFeedbackPath: string := "/submit-feedback"

  /** The detail page of a feedback, opened by clicking its card. */
  function FeedbackPath(id: string): (path: string)
    ensures |path| == 10 + |id| && path[..10] == "/feedback/" && path[10..] == id
  {
    "/feedback/" + id
  }

  /** The three sections, each behind its own condition. */
  predicate ShowsSpinner(loading: bool, feedbacks: seq<Feedback>) {
    loading
  }

  predicate ShowsEmptyState(loading: bool, feedbacks: seq<Feedback>) {
    !loading && |feedbacks| == 0
  }

  predicate ShowsList(loading: bool, feedbacks: seq<Feedback>) {
    !loading && |feedbacks| > 0
  }

  /** Whatever the state, exactly one of the three sections renders. */
  lemma ExactlyOneSection(loading: bool, feedbacks: seq<Feedback>)
    ensures ShowsSpinner(loading, feedbacks) || ShowsEmptyState(loading, feedbacks) || ShowsList(loading, feedbacks)
    ensures !(ShowsSpinner(loading, feedbacks) && ShowsEmptyState(loading, feedbacks))
    ensures !(ShowsSpinner(loading, feedbacks) && ShowsList(loading, feedbacks))
    ensures !(ShowsEmptyState(loading, feedbacks) && ShowsList(loading, feedbacks))
  {
  }

  /** One card of the list: where a click leads, and its byline and stars. */
  datatype Card = Card(target: string, byline: Display.Byline, stars: seq<bool>)

  function CardOf(f: Feedback): (c: Card)
    ensures c.target == FeedbackPath(f.id)
    ensures c.byline == Display.BylineOf(f.authorName, f.createdAt)
    ensures |c.stars| == Display.StarCount && Display.CountFilled(c.stars) == Display.FilledCount(f.rating)
    ensures forall k :: 0 <= k < Display.StarCount ==>
              (c.stars[k] <==> k < Display.FilledCount(f.rating))
  {
    Display.StarsFillPrefix(f.rating);
    Card(FeedbackPath(f.id), Display.BylineOf(f.authorName, f.createdAt), Display.RenderStars(f.rating))
  }

  /** The dashboard's state: the `useState` cells, whether the subscription
      is open, and the navigations made so far. `snapshots` counts the
      deliveries received, for the proofs only. */
  class DashboardView {
    var feedbacks: seq<Feedback>
    var loading: bool
    var subscribed: bool
    var navigations: seq<string>
    ghost var snapshots: nat

    /** The spinner shows exactly until the first snapshot, and nothing is
        listed before it. */
    ghost predicate Valid()
      reads this
    {
      && (loading <==> snapshots == 0)
      && (snapshots == 0 ==> feedbacks == [])
    }

    constructor()
      ensures Valid()
      ensures feedbacks == [] && loading && !subscribed && navigations == [] && snapshots == 0
    {
      feedbacks := [];
      loading := true;
      subscribed := false;
      navigations := [];
      snapshots := 0;
    }

    /** The cards of the list section, in the order of the latest snapshot. */
    function Cards(): (cs: seq<Card>)
      reads this
      ensures |cs| == |feedbacks|
      ensures forall k :: 0 <= k < |feedbacks| ==> cs[k] == CardOf(feedbacks[k])
    {
      seq(|feedbacks|, k requires 0 <= k < |feedbacks| reads this => CardOf(feedbacks[k]))
    }

    /** The effect on mount: `subscribeFeedbacks`. */
    method Mount()
      requires Valid()
      modifies this
      ensures Valid() && subscribed
      ensures feedbacks == old(feedbacks) && loading == old(loading)
      ensures navigations == old(navigations) && snapshots == old(snapshots)
    {
      subscribed := true;
    }

    /** The subscription callback: the list becomes the snapshot and the
        spinner goes away. */
    method OnSnapshot(data: seq<Feedback>)
      requires Valid() && subscribed
      modifies this
      ensures Valid() && subscribed
      ensures feedbacks == data && !loading && snapshots == old(snapshots) + 1
      ensures navigations == old(navigations)
      ensures ShowsList(loading, feedbacks) <==> |data| > 0
      ensures ShowsEmptyState(loading, feedbacks) <==> |data| == 0
    {
      feedbacks := data;
      loading := false;
      snapshots := snapshots + 1;
    }

    /** The cleanup on unmount: `unsubscribe()`; no snapshot arrives after it. */
    method Unmount()
      requires Valid()
      modifies this
      ensures Valid() && !subscribed
      ensures feedbacks == old(feedbacks) && loading == old(loading)
      ensures navigations == old(navigations) && snapshots == old(snapshots)
    {
      subscribed := false;
    }

    /** A click on card `k` of the list opens its detail page. */
    method OpenCard(k: nat)
      requires Valid() && ShowsList(loading, feedbacks) && k < |feedbacks|
      modifies this
      ensures Valid()
      ensures navigations == old(navigations) + [FeedbackPath(old(feedbacks)[k].id)]
      ensures feedbacks == old(feedbacks) && loading == old(loading)
      ensures subscribed == old(subscribed) && snapshots == old(snapshots)
    {
      navigations := navigations + [Cards()[k].target];
    }

    /** The Submit Feedback buttons, in the header and in the empty state. */
    method SubmitFeedback()
      requires Valid()
      modifies this
      ensures Valid()
      ensures navigations == old(navigations) + [SubmitFeedbackPath]
      ensures feedbacks == old(feedbacks) && loading == old(loading)
      ensures subscribed == old(subscribed) && snapshots == old(snapshots)
    {
      navigations := navigations + [SubmitFeedbackPath];
    }
  }
}
