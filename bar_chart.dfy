/**
 * The stepped progress display: the progress ratio selects how many bars of
 * a fixed 20-bar table are drawn, in steps of four.
 */
module BarChart {

  /** One bar: its label and its height (the chart's maximum height is 100). */
  type Bar = (string, nat)

  /** The full table; every step of the display shows a prefix of it. */
  const Table: seq<Bar> := [
    ("B0", 10), ("B1", 10), ("B2", 10), ("B3", 10),
    ("B0", 40), ("B1", 40), ("B2", 40), ("B3", 40),
    ("B0", 60), ("B1", 60), ("B2", 60), ("B3", 60),
    ("B0", 90), ("B1", 90), ("B2", 90), ("B3", 90),
    ("B0", 100), ("B1", 100), ("B2", 100), ("B3", 100)
  ]

  /**
   * The bars drawn for a progress ratio. The thresholds are 0.25, 0.5, 0.75
   * and 100.0: the last step is reached only at a ratio of 100, not 1.
   */
  function Bucket(progress: real): (bars: seq<Bar>)
    ensures |bars| <= |Table| && bars == Table[..|bars|]
    ensures |bars| == 4 <==> progress < 0.25
    ensures |bars| == 8 <==> 0.25 <= progress < 0.5
    ensures |bars| == 12 <==> 0.5 <= progress < 0.75
    ensures |bars| == 16 <==> 0.75 <= progress < 100.0
    ensures |bars| == 20 <==> 100.0 <= progress
  {
    if progress < 0.25 then
      [("B0", 10), ("B1", 10), ("B2", 10), ("B3", 10)]
    else if progress < 0.5 then
      [("B0", 10), ("B1", 10), ("B2", 10), ("B3", 10),
       ("B0", 40), ("B1", 40), ("B2", 40), ("B3", 40)]
    else if progress < 0.75 then
      [("B0", 10), ("B1", 10), ("B2", 10), ("B3", 10),
       ("B0", 40), ("B1", 40), ("B2", 40), ("B3", 40),
       ("B0", 60), ("B1", 60), ("B2", 60), ("B3", 60)]
    else if progress < 100.0 then
      [("B0", 10), ("B1", 10), ("B2", 10), ("B3", 10),
       ("B0", 40), ("B1", 40), ("B2", 40), ("B3", 40),
       ("B0", 60), ("B1", 60), ("B2", 60), ("B3", 60),
       ("B0", 90), ("B1", 90), ("B2", 90), ("B3", 90)]
    else
      [("B0", 10), ("B1", 10), ("B2", 10), ("B3", 10),
       ("B0", 40), ("B1", 40), ("B2", 40), ("B3", 40),
       ("B0", 60), ("B1", 60), ("B2", 60), ("B3", 60),
       ("B0", 90), ("B1", 90), ("B2", 90), ("B3", 90),
       ("B0", 100), ("B1", 100), ("B2", 100), ("B3", 100)]
  }

  /** More progress never draws fewer bars: the smaller display is a prefix of the larger. */
  lemma BucketMonotone(p: real, q: real)
    requires p <= q
    ensures |Bucket(p)| <= |Bucket(q)|
    ensures Bucket(p) == Bucket(q)[..|Bucket(p)|]
  {
  }

  /** A completed countdown (ratio 1.0) shows 16 bars, not the full 20. */
  lemma BucketAtOne()
    ensures |Bucket(1.0)| == 16
  {
  }
}
