/**
 * The frontend's star rating: a rating becomes five fill values, and each
 * fill becomes a full, half or empty star. Numbers are exact reals.
 */
module StarRating {
  import opened Wrappers

  /** The fill of star `k` (1 to 5) for `rating`; the last star is full only at exactly 5. */
  function Fill(rating: real, k: nat): (f: real)
    requires 1 <= k <= 5
    ensures k < 5 && rating >= k as real ==> f == 1.0
    ensures k == 5 && rating == 5.0 ==> f == 1.0
    ensures f != 1.0 ==> f == rating - (k - 1) as real
    ensures f <= 1.0 || (k == 5 && rating > 5.0)
  {
    if k < 5 then (if rating >= k as real then 1.0 else rating - (k - 1) as real)
    else if rating == 5.0 then 1.0 else rating - 4.0
  }

  /** The five fills, left to right. */
  function Fills(rating: real): (fs: seq<real>)
    ensures |fs| == 5
    ensures forall i :: 0 <= i < 5 ==> fs[i] == Fill(rating, i + 1)
  {
    [Fill(rating, 1), Fill(rating, 2), Fill(rating, 3), Fill(rating, 4), Fill(rating, 5)]
  }

  datatype Tag = Full | Half | Empty

  /** Threshold above which a partial fill shows as half a star. */
  const HalfThreshold: real := 0.333

  /** The tag of a star: full at exactly 1, half above the threshold (also above 1), empty otherwise. */
  function TagOf(fill: real): (t: Tag)
    ensures t == Full <==> fill == 1.0
    ensures t == Half <==> fill != 1.0 && fill > HalfThreshold
    ensures t == Empty <==> fill <= HalfThreshold
  {
    if fill == 1.0 then Full else if fill > HalfThreshold then Half else Empty
  }

  /** The tags of the five stars, left to right. */
  function Tags(rating: real): (ts: seq<Tag>)
    ensures |ts| == 5
    ensures forall i :: 0 <= i < 5 ==> ts[i] == TagOf(Fill(rating, i + 1))
  {
    var fs := Fills(rating);
    [TagOf(fs[0]), TagOf(fs[1]), TagOf(fs[2]), TagOf(fs[3]), TagOf(fs[4])]
  }

  const DefaultSize: real := 24.0

  /** The rendered size: a missing or zero size falls back to 24. */
  function Size(size: Option<real>): (s: real)
    ensures size.None? || size == Some(0.0) ==> s == DefaultSize
    ensures size.Some? && size.value != 0.0 ==> s == size.value
  {
    if size.None? || size.value == 0.0 then DefaultSize else size.value
  }

  /** How many tags are `Full`. */
  function CountFull(ts: seq<Tag>): (n: nat)
    ensures n <= |ts|
    ensures n == multiset(ts)[Full]
  {
    if |ts| == 0 then 0
    else
      assert ts == ts[..|ts| - 1] + [ts[|ts| - 1]];
      CountFull(ts[..|ts| - 1]) + (if ts[|ts| - 1] == Full then 1 else 0)
  }

  /** The first `n` tags are `Full` and the rest are not: then exactly `n` are. */
  lemma {:induction false} CountFullPrefix(ts: seq<Tag>, n: nat)
    requires n <= |ts|
    requires forall i :: 0 <= i < |ts| ==> (ts[i] == Full <==> i < n)
    ensures CountFull(ts) == n
  {
    if |ts| > 0 {
      var init := ts[..|ts| - 1];
      if n == |ts| {
        CountFullPrefix(init, n - 1);
      } else {
        CountFullPrefix(init, n);
      }
    }
  }

  /** A whole rating r from 0 to 5 shows r full stars followed by empty ones. */
  lemma WholeRatingStars(r: nat)
    requires r <= 5
    ensures var ts := Tags(r as real); forall i :: 0 <= i < 5 ==> ts[i] == (if i < r then Full else Empty)
    ensures CountFull(Tags(r as real)) == r
  {
    var ts := Tags(r as real);
    forall i | 0 <= i < 5 ensures ts[i] == (if i < r then Full else Empty) {
      var f := Fill(r as real, i + 1);
      if i < r {
        assert f == 1.0;
      } else {
        assert f == r as real - i as real;
        assert f <= 0.0;
      }
    }
    CountFullPrefix(ts, r);
  }

  /** Within 0 to 5 the fills never increase from left to right. */
  lemma FillsNonIncreasing(rating: real)
    requires 0.0 <= rating <= 5.0
    ensures forall i, j :: 0 <= i < j < 5 ==> Fills(rating)[i] >= Fills(rating)[j]
  {
    var fs := Fills(rating);
    forall i | 0 <= i < 4 ensures fs[i] >= fs[i + 1] {
      assert fs[i] == Fill(rating, i + 1) && fs[i + 1] == Fill(rating, i + 2);
    }
  }

  /** A rating of n and a half (n from 0 to 4) shows n full stars, one half star, then empty ones. */
  lemma HalfRatingStars(n: nat)
    requires n <= 4
    ensures var ts := Tags(n as real + 0.5);
            forall i :: 0 <= i < 5 ==> ts[i] == (if i < n then Full else if i == n then Half else Empty)
  {
    var rating := n as real + 0.5;
    forall i | 0 <= i < 5
      ensures Tags(rating)[i] == (if i < n then Full else if i == n then Half else Empty)
    {
      var f := Fill(rating, i + 1);
      if i > n {
        assert f == rating - i as real;
      }
    }
  }

  /** Above 5 the last star's fill exceeds 1: it shows half, not full. */
  lemma AboveFiveLastStarHalf(rating: real)
    requires rating > 5.0
    ensures Tags(rating)[4] == Half
    ensures forall i :: 0 <= i < 4 ==> Tags(rating)[i] == Full
  {
  }
}
