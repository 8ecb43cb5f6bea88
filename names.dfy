/** The display labels of the two layouts, side by side. */
module LayoutNames {
  import FibonacciLayout
  import TatamiLayout

  /** The Fibonacci and Tatami layouts carry different labels. */
  lemma NamesDiffer(f: FibonacciLayout.Fibonacci, t: TatamiLayout.Tatami)
    ensures f.Name() != t.Name()
  {
  }
}
