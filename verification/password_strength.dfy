/** The four-segment strength meter (components/ui/PasswordStrength.tsx). The
    score is an integer; the theme's colours are names. */
module PasswordStrength {

  datatype Colour = ErrorColour | WarningColour | SuccessColour | BorderColour

  const SegmentCount: nat := 4

  /** The colour every filled segment shares. */
  function FillColour(score: int): (c: Colour)
    ensures c != BorderColour
    ensures c == ErrorColour <==> score <= 1
    ensures c == WarningColour <==> score == 2
    ensures c == SuccessColour <==> score >= 3
  {
    if score <= 1 then ErrorColour else if score == 2 then WarningColour else SuccessColour
  }

  /** Segment `i`: filled when `i < score`, border-coloured otherwise. */
  function SegmentColour(i: nat, score: int): Colour {
    if i < score then FillColour(score) else BorderColour
  }

  /** The first `n` segments of the meter. */
  function Row(n: nat, score: int): (r: seq<Colour>)
    ensures |r| == n
    ensures forall i :: 0 <= i < n ==> (r[i] != BorderColour <==> i < score)
    ensures forall i :: 0 <= i < n && r[i] != BorderColour ==> r[i] == FillColour(score)
  {
    seq(n, i requires 0 <= i < n => SegmentColour(i, score))
  }

  function Segments(score: int): (r: seq<Colour>)
    ensures |r| == SegmentCount
  {
    Row(SegmentCount, score)
  }

  /** How many segments are filled. */
  function Filled(colours: seq<Colour>): nat {
    if |colours| == 0 then 0
    else Filled(colours[..|colours| - 1]) + (if colours[|colours| - 1] != BorderColour then 1 else 0)
  }

  function Clamp(x: int, lo: int, hi: int): int
    requires lo <= hi
  {
    if x < lo then lo else if x > hi then hi else x
  }

  /** A row of `n` segments has the score, clamped to `0..n`, filled. */
  lemma {:induction false} FilledRow(n: nat, score: int)
    ensures Filled(Row(n, score)) == Clamp(score, 0, n)
  {
    if n > 0 {
      FilledRow(n - 1, score);
      assert Row(n, score)[..n - 1] == Row(n - 1, score);
    }
  }

  /** The meter shows the score clamped to `0..4` filled segments. */
  lemma FilledSegments(score: int)
    ensures Filled(Segments(score)) == Clamp(score, 0, SegmentCount)
  {
    FilledRow(SegmentCount, score);
  }
}
