/** The review page (src/pages/Reviews.tsx): the submission checks and
    form reset, the star highlighting, and the rating summary. */
module Reviews {
  import opened Common
  import opened Seqs
  import opened Text

  /** The signed-in user's profile fields the form reads; either may be null. */
  datatype User = User(displayName: Option<string>, email: Option<string>)

  /** The review form's text fields. */
  datatype ReviewForm = ReviewForm(name: string, email: string, title: string, comment: string)

  /** `field || ''`: a missing (or empty) profile field gives the empty string. */
  function OrEmpty(field: Option<string>): string {
    if field.Some? then field.value else ""
  }

  /** The form as first shown and as reset after a submission: name and email
      from the current user, title and comment empty. */
  function BlankForm(user: Option<User>): (f: ReviewForm)
    ensures f.title == "" && f.comment == ""
    ensures user.None? ==> f.name == "" && f.email == ""
    ensures user.Some? && user.value.displayName.Some? ==> f.name == user.value.displayName.value
    ensures user.Some? && user.value.email.Some? ==> f.email == user.value.email.value
    ensures user.Some? && user.value.displayName.None? ==> f.name == ""
    ensures user.Some? && user.value.email.None? ==> f.email == ""
  {
    if user.Some? then ReviewForm(OrEmpty(user.value.displayName), OrEmpty(user.value.email), "", "")
    else ReviewForm("", "", "", "")
  }

  // ---------------------------------------------------------------------
  // Submission checks.
  // ---------------------------------------------------------------------

  /** The outcome of the submission checks. */
  datatype Verdict = RatingRequired | ReviewRequired | Accepted

  /** The checks in the order the handler makes them: the rating first, then the trimmed comment. */
  function CheckSubmission(rating: int, comment: string): (v: Verdict)
    ensures rating == 0 ==> v == RatingRequired
    ensures rating != 0 ==> (v == ReviewRequired <==> IsBlank(comment))
    ensures v == Accepted <==> rating != 0 && !IsBlank(comment)
  {
    TrimEmptyIffBlank(comment);
    if rating == 0 then RatingRequired
    else if Trim(comment) == [] then ReviewRequired
    else Accepted
  }

  /** The toast shown for each verdict. */
  function VerdictToast(v: Verdict): (t: Toast)
    ensures t.kind == Warning <==> v != Accepted
  {
    match v
    case RatingRequired => Toast(Warning, "Rating Required")
    case ReviewRequired => Toast(Warning, "Review Required")
    case Accepted => Toast(Success, "Review Submitted!")
  }

  // ---------------------------------------------------------------------
  // Star highlighting.
  // ---------------------------------------------------------------------

  /** `star <= (hoveredRating || rating)`: a hovered star overrides the selection. */
  predicate StarHighlighted(star: int, hoveredRating: int, rating: int) {
    star <= (if hoveredRating != 0 then hoveredRating else rating)
  }

  /** The number of highlighted stars among stars 1..n. */
  function HighlightedAmong(n: nat, hoveredRating: int, rating: int): nat {
    if n == 0 then 0
    else HighlightedAmong(n - 1, hoveredRating, rating) + (if StarHighlighted(n, hoveredRating, rating) then 1 else 0)
  }

  /** With ratings in 0..5, the five stars show exactly the hovered rating
      while one is hovered and the selected rating otherwise. */
  lemma {:induction false} HighlightedCount(hoveredRating: int, rating: int)
    requires 0 <= hoveredRating <= 5 && 0 <= rating <= 5
    ensures HighlightedAmong(5, hoveredRating, rating) == if hoveredRating != 0 then hoveredRating else rating
  {
    HighlightedPrefix(5, hoveredRating, rating);
  }

  lemma {:induction false} HighlightedPrefix(n: nat, hoveredRating: int, rating: int)
    requires 0 <= hoveredRating && 0 <= rating
    ensures HighlightedAmong(n, hoveredRating, rating)
            == Min(n, if hoveredRating != 0 then hoveredRating else rating)
  {
    if n > 0 {
      HighlightedPrefix(n - 1, hoveredRating, rating);
    }
  }

  function Min(a: int, b: int): int {
    if a <= b then a else b
  }

  // ---------------------------------------------------------------------
  // Rating summary.
  // ---------------------------------------------------------------------

  /** The ratings of the page's four built-in reviews. */
  const ExistingRatings: seq<int> := [5, 5, 4, 5]

  /** `reduce((sum, r) => sum + r, 0)`. */
  function Sum(ratings: seq<int>): int {
    if ratings == [] then 0 else Sum(ratings[..|ratings| - 1]) + ratings[|ratings| - 1]
  }

  /** The mean rating; the page only computes it over its non-empty list of reviews. */
  function AverageRating(ratings: seq<int>): real
    requires |ratings| > 0
  {
    Sum(ratings) as real / |ratings| as real
  }

  lemma {:induction false} SumBounds(ratings: seq<int>, lo: int, hi: int)
    requires forall i :: 0 <= i < |ratings| ==> lo <= ratings[i] <= hi
    ensures lo * |ratings| <= Sum(ratings) <= hi * |ratings|
  {
    if ratings != [] {
      SumBounds(ratings[..|ratings| - 1], lo, hi);
    }
  }

  /** Dividing by a positive count keeps a total's bounds per item. */
  lemma DivisionBounds(total: real, n: real, lo: real, hi: real)
    requires n > 0.0 && lo * n <= total <= hi * n
    ensures lo <= total / n <= hi
  {
  }

  lemma CastProduct(a: int, k: int)
    ensures (a * k) as real == a as real * k as real
  {
  }

  /** The average lies within any bounds that every rating respects. */
  lemma AverageWithinBounds(ratings: seq<int>, lo: int, hi: int)
    requires |ratings| > 0
    requires forall i :: 0 <= i < |ratings| ==> lo <= ratings[i] <= hi
    ensures lo as real <= AverageRating(ratings) <= hi as real
  {
    SumBounds(ratings, lo, hi);
    CastProduct(lo, |ratings|);
    CastProduct(hi, |ratings|);
    DivisionBounds(Sum(ratings) as real, |ratings| as real, lo as real, hi as real);
  }

  /** The smallest and the largest rating. */
  function MinRating(ratings: seq<int>): (m: int)
    requires |ratings| > 0
    ensures m in ratings && forall i :: 0 <= i < |ratings| ==> m <= ratings[i]
  {
    if |ratings| == 1 then ratings[0]
    else Min(ratings[0], MinRating(ratings[1..]))
  }

  function MaxRating(ratings: seq<int>): (m: int)
    requires |ratings| > 0
    ensures m in ratings && forall i :: 0 <= i < |ratings| ==> ratings[i] <= m
  {
    if |ratings| == 1 then ratings[0]
    else if ratings[0] >= MaxRating(ratings[1..]) then ratings[0] else MaxRating(ratings[1..])
  }

  lemma AverageBetweenMinAndMax(ratings: seq<int>)
    requires |ratings| > 0
    ensures MinRating(ratings) as real <= AverageRating(ratings) <= MaxRating(ratings) as real
  {
    AverageWithinBounds(ratings, MinRating(ratings), MaxRating(ratings));
  }

  /** One row of the distribution: a star value, how many reviews gave it,
      and their share in percent. */
  datatype StarBucket = StarBucket(star: int, count: nat, percentage: real)

  /** The stars listed by the distribution, best first. */
  const DistributionStars: seq<int> := [5, 4, 3, 2, 1]

  function Bucket(ratings: seq<int>, star: int): StarBucket
    requires |ratings| > 0
  {
    var count := Count(ratings, star);
    StarBucket(star, count, count as real / |ratings| as real * 100.0)
  }

  /** `[5, 4, 3, 2, 1].map(star => ...)`. */
  function RatingDistribution(ratings: seq<int>): (d: seq<StarBucket>)
    requires |ratings| > 0
    ensures |d| == |DistributionStars|
    ensures forall i :: 0 <= i < |d| ==> d[i].star == DistributionStars[i]
  {
    seq(|DistributionStars|, i requires 0 <= i < |DistributionStars| => Bucket(ratings, DistributionStars[i]))
  }

  function SumCounts(d: seq<StarBucket>): nat {
    if d == [] then 0 else d[0].count + SumCounts(d[1..])
  }

  function SumPercentages(d: seq<StarBucket>): real {
    if d == [] then 0.0 else d[0].percentage + SumPercentages(d[1..])
  }

  /** Every rating is a whole number of stars from 1 to 5. */
  predicate AllStarRatings(ratings: seq<int>) {
    forall i :: 0 <= i < |ratings| ==> 1 <= ratings[i] <= 5
  }

  lemma {:induction false} StarCountsCoverAll(ratings: seq<int>)
    requires AllStarRatings(ratings)
    ensures Count(ratings, 5) + Count(ratings, 4) + Count(ratings, 3) + Count(ratings, 2) + Count(ratings, 1)
            == |ratings|
  {
    if ratings != [] {
      StarCountsCoverAll(ratings[1..]);
    }
  }

  lemma DistributionRows(ratings: seq<int>)
    requires |ratings| > 0
    ensures RatingDistribution(ratings)
            == [Bucket(ratings, 5), Bucket(ratings, 4), Bucket(ratings, 3), Bucket(ratings, 2), Bucket(ratings, 1)]
  {
  }

  lemma SumCountsFive(b5: StarBucket, b4: StarBucket, b3: StarBucket, b2: StarBucket, b1: StarBucket)
    ensures SumCounts([b5, b4, b3, b2, b1]) == b5.count + b4.count + b3.count + b2.count + b1.count
  {
    assert SumCounts([b1]) == b1.count + SumCounts([b1][1..]);
    assert [b1][1..] == [];
    assert SumCounts([b2, b1]) == b2.count + SumCounts([b2, b1][1..]);
    assert [b2, b1][1..] == [b1];
    assert SumCounts([b3, b2, b1]) == b3.count + SumCounts([b3, b2, b1][1..]);
    assert [b3, b2, b1][1..] == [b2, b1];
    assert SumCounts([b4, b3, b2, b1]) == b4.count + SumCounts([b4, b3, b2, b1][1..]);
    assert [b4, b3, b2, b1][1..] == [b3, b2, b1];
    assert SumCounts([b5, b4, b3, b2, b1]) == b5.count + SumCounts([b5, b4, b3, b2, b1][1..]);
    assert [b5, b4, b3, b2, b1][1..] == [b4, b3, b2, b1];
  }

  lemma SumPercentagesFive(b5: StarBucket, b4: StarBucket, b3: StarBucket, b2: StarBucket, b1: StarBucket)
    ensures SumPercentages([b5, b4, b3, b2, b1])
            == b5.percentage + b4.percentage + b3.percentage + b2.percentage + b1.percentage
  {
    assert SumPercentages([b1]) == b1.percentage + SumPercentages([b1][1..]);
    assert [b1][1..] == [];
    assert SumPercentages([b2, b1]) == b2.percentage + SumPercentages([b2, b1][1..]);
    assert [b2, b1][1..] == [b1];
    assert SumPercentages([b3, b2, b1]) == b3.percentage + SumPercentages([b3, b2, b1][1..]);
    assert [b3, b2, b1][1..] == [b2, b1];
    assert SumPercentages([b4, b3, b2, b1]) == b4.percentage + SumPercentages([b4, b3, b2, b1][1..]);
    assert [b4, b3, b2, b1][1..] == [b3, b2, b1];
    assert SumPercentages([b5, b4, b3, b2, b1]) == b5.percentage + SumPercentages([b5, b4, b3, b2, b1][1..]);
    assert [b5, b4, b3, b2, b1][1..] == [b4, b3, b2, b1];
  }

  /** Shares of a whole, in percent, add up to 100 when the parts make up the whole. */
  lemma PercentagesAdd(c5: real, c4: real, c3: real, c2: real, c1: real, n: real)
    requires n > 0.0 && c5 + c4 + c3 + c2 + c1 == n
    ensures c5 / n * 100.0 + c4 / n * 100.0 + c3 / n * 100.0 + c2 / n * 100.0 + c1 / n * 100.0 == 100.0
  {
  }

  /** Each row counts the reviews with exactly that rating; when every rating
      is 1..5 the counts add up to the number of reviews and the
      percentages to 100. */
  lemma DistributionTotals(ratings: seq<int>)
    requires |ratings| > 0
    ensures forall i :: 0 <= i < |DistributionStars| ==>
      RatingDistribution(ratings)[i].count == Count(ratings, DistributionStars[i])
    ensures forall i :: 0 <= i < |DistributionStars| ==>
      RatingDistribution(ratings)[i].percentage
        == Count(ratings, DistributionStars[i]) as real / |ratings| as real * 100.0
    ensures AllStarRatings(ratings) ==> SumCounts(RatingDistribution(ratings)) == |ratings|
    ensures AllStarRatings(ratings) ==> SumPercentages(RatingDistribution(ratings)) == 100.0
  {
    var n := |ratings| as real;
    var b5, b4, b3, b2, b1 := Bucket(ratings, 5), Bucket(ratings, 4), Bucket(ratings, 3), Bucket(ratings, 2), Bucket(ratings, 1);
    DistributionRows(ratings);
    SumCountsFive(b5, b4, b3, b2, b1);
    SumPercentagesFive(b5, b4, b3, b2, b1);
    if AllStarRatings(ratings) {
      StarCountsCoverAll(ratings);
      PercentagesAdd(b5.count as real, b4.count as real, b3.count as real, b2.count as real, b1.count as real, n);
    }
  }

  /** The page's own summary: average 4.75, three five-star reviews and one four-star. */
  lemma ExistingSummary()
    ensures AverageRating(ExistingRatings) == 4.75
    ensures [Count(ExistingRatings, 5), Count(ExistingRatings, 4), Count(ExistingRatings, 3),
             Count(ExistingRatings, 2), Count(ExistingRatings, 1)] == [3, 1, 0, 0, 0]
  {
    var rs := ExistingRatings;
    assert rs[..1] == [5] && rs[..2] == [5, 5] && rs[..3] == [5, 5, 4];
    assert Sum([5]) == 5 by { assert [5][..0] == []; }
    assert Sum([5, 5]) == 10 by { assert [5, 5][..1] == [5]; }
    assert Sum([5, 5, 4]) == 14 by { assert [5, 5, 4][..2] == [5, 5]; }
    assert Sum(rs) == 19 by { assert rs[..3] == [5, 5, 4]; }
  }

  // ---------------------------------------------------------------------
  // The form's component state.
  // ---------------------------------------------------------------------

  class ReviewPage {
    var rating: int
    var hoveredRating: int
    var reviewData: ReviewForm

    /** Ratings are only ever set from the five star buttons or reset to 0. */
    ghost predicate Valid()
      reads this
    {
      0 <= rating <= 5 && 0 <= hoveredRating <= 5
    }

    /** Whether star `star` is drawn filled. */
    predicate Highlighted(star: int)
      reads this
    {
      StarHighlighted(star, hoveredRating, rating)
    }

    /** The number of filled stars among the five: the hovered rating while
        a star is hovered, the selected rating otherwise, and always the
        first ones. */
    function LitStars(): (n: nat)
      reads this
      requires Valid()
      ensures n == if hoveredRating != 0 then hoveredRating else rating
      ensures forall star :: 1 <= star <= 5 ==> (Highlighted(star) <==> star <= n)
    {
      HighlightedCount(hoveredRating, rating);
      HighlightedAmong(5, hoveredRating, rating)
    }

    constructor (user: Option<User>)
      ensures Valid()
      ensures rating == 0 && hoveredRating == 0 && reviewData == BlankForm(user)
    {
      rating := 0;
      hoveredRating := 0;
      reviewData := BlankForm(user);
    }

    /** Clicking star `star`. */
    method ClickStar(star: int)
      requires Valid() && 1 <= star <= 5
      modifies this`rating
      ensures Valid() && rating == star
    {
      rating := star;
    }

    /** The mouse entering star `star`. */
    method HoverStar(star: int)
      requires Valid() && 1 <= star <= 5
      modifies this`hoveredRating
      ensures Valid() && hoveredRating == star
    {
      hoveredRating := star;
    }

    /** The mouse leaving a star. */
    method LeaveStar()
      requires Valid()
      modifies this`hoveredRating
      ensures Valid() && hoveredRating == 0
    {
      hoveredRating := 0;
    }

    /** Typing in one of the four inputs replaces that field only. */
    method EditName(value: string)
      modifies this`reviewData
      ensures reviewData == old(reviewData).(name := value)
    {
      reviewData := reviewData.(name := value);
    }

    method EditEmail(value: string)
      modifies this`reviewData
      ensures reviewData == old(reviewData).(email := value)
    {
      reviewData := reviewData.(email := value);
    }

    method EditTitle(value: string)
      modifies this`reviewData
      ensures reviewData == old(reviewData).(title := value)
    {
      reviewData := reviewData.(title := value);
    }

    method EditComment(value: string)
      modifies this`reviewData
      ensures reviewData == old(reviewData).(comment := value)
    {
      reviewData := reviewData.(comment := value);
    }

    /** `handleSubmitReview`: a rejected submission warns and changes nothing;
        an accepted one reports success and resets the form for `user`. */
    method SubmitReview(user: Option<User>) returns (toast: Toast)
      requires Valid()
      modifies this`rating, this`reviewData
      ensures Valid()
      ensures toast == VerdictToast(CheckSubmission(old(rating), old(reviewData).comment))
      ensures CheckSubmission(old(rating), old(reviewData).comment) != Accepted ==>
        rating == old(rating) && reviewData == old(reviewData)
      ensures CheckSubmission(old(rating), old(reviewData).comment) == Accepted ==>
        rating == 0 && reviewData == BlankForm(user)
    {
      if rating == 0 {
        toast := Toast(Warning, "Rating Required");
        return;
      }
      if Trim(reviewData.comment) == [] {
        toast := Toast(Warning, "Review Required");
        return;
      }
      toast := Toast(Success, "Review Submitted!");
      rating := 0;
      reviewData := BlankForm(user);
    }
  }
}
