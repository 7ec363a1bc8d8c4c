/**
 * The progress bar's units. The bar is started at the rounded total and each item
 * adds its own rounded size: both are a size divided by 10^7, rounded half up, times
 * ten. The sync itself counts raw sizes, which is where its progress meets the total.
 */
module ProgressBar {
  import opened Catalog

  /** `Math.round(n / 1_000_000_0) * 10`. For an integer n, Math.round(n / 10^7) is
      the floor of (n + 5 * 10^6) / 10^7, which is Dafny's division by a positive divisor. */
  function BarUnits(n: int): (u: int)
    ensures u % 10 == 0
    ensures 10_000_000 * (u / 10) - 5_000_000 <= n < 10_000_000 * (u / 10) + 5_000_000
  {
    ((n + 5_000_000) / 10_000_000) * 10
  }

  /** The bar's value once every item has been skipped or written. */
  function BarIncrements(media: seq<Download>): int
  {
    if |media| == 0 then 0 else BarUnits(media[0].size) + BarIncrements(media[1..])
  }

  /** The bar's end value and its total: two items of 5 000 000 each round up to ten
      units apiece, while their sum rounds to ten units in all. */
  lemma BarOvershootsTotal(d1: Download, d2: Download)
    requires d1.size == 5_000_000 && d2.size == 5_000_000
    ensures BarIncrements([d1, d2]) == 20
    ensures BarUnits(TotalDownloadSize([d1, d2])) == 10
  {
    var media := [d1, d2];
    assert media[1..] == [d2] && media[1..][1..] == [];
    assert BarUnits(5_000_000) == 10;
    assert BarIncrements([d2]) == BarUnits(d2.size) + BarIncrements([d2][1..]);
    TotalIsSum(media);
    assert SumSizes(media) == d1.size + SumSizes([d2]);
  }
}
