/**
 * The progress bar of the status report: a row of glyphs, the first ones filled
 * in proportion to the amount of work done, hidden once the work is complete.
 */
module Progress {

  /** Number of glyphs in the bar. */
  const Total: nat := 22

  /** Glyph for completed progress. */
  const Filled: char := '\U{25AA}'

  /** Glyph for remaining progress. */
  const Empty: char := '\U{25AB}'

  /** `Total` copies of one glyph, as the two constant glyph strings are. */
  function Glyphs(c: char): (r: string)
    ensures |r| == Total
  {
    seq(Total, _ => c)
  }

  /** Math.ceil on a real number. */
  function Ceil(x: real): (r: int)
    ensures (r - 1) as real < x <= r as real
  {
    -((-x).Floor)
  }

  /** What the progress element shows: whether it is visible, and its text. */
  datatype Bar = Bar(visible: bool, text: string)

  /**
   * report.progress(amount): for an amount in [0, 1) the bar is shown with the
   * first ceil(amount * Total) glyphs filled and the rest empty; otherwise the
   * bar is hidden and its text cleared.
   */
  function ShowProgress(amount: real): (r: Bar)
    ensures r.visible <==> 0.0 <= amount < 1.0
    ensures !r.visible ==> r.text == ""
    ensures r.visible ==> |r.text| == Total
    ensures r.visible ==> forall k :: 0 <= k < Total ==>
      r.text[k] == if (k as real) < amount * (Total as real) then Filled else Empty
  {
    if 0.0 <= amount < 1.0 then
      var i := Ceil(amount * Total as real);
      Bar(true, Glyphs(Filled)[..i] + Glyphs(Empty)[..Total - i])
    else
      Bar(false, "")
  }

  /** Number of occurrences of c in s. */
  function Occurrences(s: string, c: char): nat
  {
    if |s| == 0 then 0 else Occurrences(s[..|s| - 1], c) + (if s[|s| - 1] == c then 1 else 0)
  }

  /** A string whose first i characters are c and whose others are not holds c exactly i times. */
  lemma {:induction false} OccurrencesOfPrefix(s: string, c: char, i: nat)
    requires i <= |s|
    requires forall k :: 0 <= k < |s| ==> (s[k] == c <==> k < i)
    ensures Occurrences(s, c) == i
  {
    if |s| > 0 {
      var s' := s[..|s| - 1];
      if i == |s| {
        OccurrencesOfPrefix(s', c, i - 1);
      } else {
        OccurrencesOfPrefix(s', c, i);
      }
    }
  }

  /** A visible bar holds exactly ceil(amount * Total) filled glyphs. */
  lemma FilledGlyphs(amount: real)
    requires 0.0 <= amount < 1.0
    ensures Occurrences(ShowProgress(amount).text, Filled) == Ceil(amount * Total as real)
  {
    var i := Ceil(amount * Total as real);
    var text := ShowProgress(amount).text;
    forall k | 0 <= k < Total ensures text[k] == Filled <==> k < i {
      assert (k as real) < amount * (Total as real) <==> k < i;
    }
    OccurrencesOfPrefix(text, Filled, i);
  }

  /** More progress never empties a glyph that was already filled. */
  lemma ProgressMonotone(a: real, a': real, k: nat)
    requires 0.0 <= a <= a' < 1.0 && k < Total
    requires ShowProgress(a).text[k] == Filled
    ensures ShowProgress(a').text[k] == Filled
  {
    assert (k as real) < a * (Total as real);
    assert a * (Total as real) <= a' * (Total as real);
  }

  /**
   * The progress reported after a batch of columns that has reached column x of
   * the range [xMin, xMax) keeps the bar visible exactly while the sweep is not
   * past the end, and shows at least one filled glyph.
   */
  lemma SweepProgress(xMin: int, x: int, xMax: int)
    requires xMin < x && xMin < xMax
    ensures var r := ShowProgress((x - xMin) as real / (xMax - xMin) as real);
      (r.visible <==> x < xMax) && (r.visible ==> r.text[0] == Filled)
  {
    var p := (x - xMin) as real / (xMax - xMin) as real;
    assert p * (xMax - xMin) as real == (x - xMin) as real;
    assert 0.0 < p;
    assert p < 1.0 <==> x < xMax;
  }
}
