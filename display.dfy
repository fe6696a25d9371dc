/** What the pages show for a feedback or a comment: the five rating stars,
    the author's name and avatar initial with their fallbacks, and the
    label of a timestamp. Shared by the dashboard, the detail page and the
    star input of the submission form. */
module Display {
  import opened Wrappers
  import opened Text
  import opened Domain

  const StarCount: nat := 5

  /** `star <= rating` for stars 1 to 5. A missing rating is `undefined`,
      which compares false with every number. */
  predicate StarFilled(star: int, rating: Option<int>) {
    rating.Some? && star <= rating.value
  }

  /** `renderStars(rating)`: for each of the five stars, whether it is drawn
      filled. */
  function RenderStars(rating: Option<int>): (stars: seq<bool>)
    ensures |stars| == StarCount
    ensures forall k :: 0 <= k < StarCount ==> stars[k] == StarFilled(k + 1, rating)
  {
    seq(StarCount, k requires 0 <= k < StarCount => StarFilled(k + 1, rating))
  }

  /** `hoverRating || rating`: the hovered star while the pointer is over one
      (0 is falsy), the selected rating otherwise. */
  function HighlightRating(hoverRating: int, rating: int): int {
    if hoverRating != 0 then hoverRating else rating
  }

  /** The star input of the submission form: star `k` is lit when
      `star <= (hoverRating || rating)`. */
  function StarInput(hoverRating: int, rating: int): (stars: seq<bool>)
    ensures |stars| == StarCount
    ensures forall k :: 0 <= k < StarCount ==>
              (stars[k] <==> k + 1 <= (if hoverRating != 0 then hoverRating else rating))
  {
    RenderStars(Some(HighlightRating(hoverRating, rating)))
  }

  /** The number of filled stars. */
  function CountFilled(stars: seq<bool>): (n: nat)
    ensures n <= |stars|
  {
    if stars == [] then 0 else (if stars[0] then 1 else 0) + CountFilled(stars[1..])
  }

  /** `rating` clamped into 0..5: how many stars a rating fills. */
  function FilledCount(rating: Option<int>): (n: nat)
    ensures n <= StarCount
  {
    match rating
    case None => 0
    case Some(r) => if r <= 0 then 0 else if r >= StarCount then StarCount else r
  }

  /** A row of stars whose first `m` are filled has `m` filled stars. */
  lemma {:induction false} CountPrefix(stars: seq<bool>, m: nat)
    requires m <= |stars|
    requires forall k :: 0 <= k < |stars| ==> (stars[k] <==> k < m)
    ensures CountFilled(stars) == m
  {
    if stars != [] {
      var rest := stars[1..];
      CountPrefix(rest, if m == 0 then 0 else m - 1);
    }
  }

  /** The filled stars form a prefix of the row, as many as the rating
      clamped into 0..5; a missing rating fills none. */
  lemma StarsFillPrefix(rating: Option<int>)
    ensures forall k :: 0 <= k < StarCount ==> (RenderStars(rating)[k] <==> k < FilledCount(rating))
    ensures CountFilled(RenderStars(rating)) == FilledCount(rating)
  {
    CountPrefix(RenderStars(rating), FilledCount(rating));
  }

  /** On the form, with a rating and a hovered star in 0..5, the lit stars
      are stars 1 to the hovered star while hovering, and stars 1 to the
      selected rating otherwise. */
  lemma StarInputCount(hoverRating: int, rating: int)
    requires 0 <= hoverRating <= StarCount && 0 <= rating <= StarCount
    ensures forall k :: 0 <= k < StarCount ==>
              (StarInput(hoverRating, rating)[k] <==> k < (if hoverRating != 0 then hoverRating else rating))
    ensures CountFilled(StarInput(hoverRating, rating)) == (if hoverRating != 0 then hoverRating else rating)
  {
    StarsFillPrefix(Some(HighlightRating(hoverRating, rating)));
  }

  /** `name || 'Anonymous'`. */
  function DisplayName(name: Option<string>): (shown: string)
    ensures shown != []
    ensures name.Some? && name.value != [] ==> shown == name.value
    ensures name.None? || name.value == [] ==> shown == "Anonymous"
  {
    if name.Some? && name.value != [] then name.value else "Anonymous"
  }

  /** `name?.charAt(0).toUpperCase() || 'U'`: the upper-cased first
      character, or `U` when the name is missing or empty. */
  function AvatarInitial(name: Option<string>): (initial: string)
    ensures |initial| == 1
    ensures name.Some? && name.value != [] ==> initial == [ToUpperAscii(name.value[0])]
    ensures name.None? || name.value == [] ==> initial == "U"
  {
    match name
    case None => "U"
    case Some(s) => if s == [] then "U" else [ToUpperAscii(s[0])]
  }

  /** The avatar and the name agree: when a name is shown the avatar holds
      its first character upper-cased, and the `Anonymous` fallback comes
      with the `U` fallback. */
  lemma AvatarMatchesName(name: Option<string>)
    ensures || (DisplayName(name) == "Anonymous" && AvatarInitial(name) == "U")
            || AvatarInitial(name) == [ToUpperAscii(DisplayName(name)[0])]
  {
  }

  /** The page's date label: `Just now` for a falsy timestamp, otherwise
      the locale rendering of the date, which is not modelled. */
  datatype DateLabel = JustNow | Localized(timestamp: Timestamp)

  function DateLabelOf(ts: Timestamp): (d: DateLabel)
    ensures d.JustNow? <==> ts.NoTimestamp?
    ensures d.Localized? ==> d.timestamp == ts
  {
    if ts.NoTimestamp? then JustNow else Localized(ts)
  }

  /** The avatar, name and date shown above a feedback or a comment. */
  datatype Byline = Byline(initial: string, name: string, date: DateLabel)

  function BylineOf(name: Option<string>, createdAt: Timestamp): (b: Byline)
    ensures b.initial == AvatarInitial(name) && b.name == DisplayName(name)
    ensures b.date == DateLabelOf(createdAt)
    ensures |b.initial| == 1 && b.name != []
    ensures || (b.name == "Anonymous" && b.initial == "U")
            || b.initial == [ToUpperAscii(b.name[0])]
    ensures b.date.JustNow? <==> createdAt.NoTimestamp?
  {
    AvatarMatchesName(name);
    Byline(AvatarInitial(name), DisplayName(name), DateLabelOf(createdAt))
  }
}
