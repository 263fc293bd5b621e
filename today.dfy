/** The selection rule of `pick_today` (daily.py:36-41). The SHA-256 digest
    of date, host name and seed variable is taken as the parameter `h`. */
module Today {
  import opened Quotes

  /** `h % len(quotes)`; `h` is non-negative, so Python's floored `%` and
      Dafny's Euclidean `%` agree. */
  function PickIndex(h: nat, n: nat): (i: nat)
    requires n > 0
    ensures i < n
  {
    h % n
  }

  /** The quote of the day: always an element of the collection, and a
      function of `h` and the collection alone (no stored state). */
  function PickToday(quotes: seq<Quote>, h: nat): (q: Quote)
    requires |quotes| > 0
    ensures q in quotes
    ensures q == quotes[PickIndex(h, |quotes|)]
  {
    quotes[h % |quotes|]
  }

  /** Every quote of the collection is the quote of the day for some hash. */
  lemma EveryQuoteReachable(quotes: seq<Quote>, k: nat)
    requires k < |quotes|
    ensures PickToday(quotes, k) == quotes[k]
  {
  }
}
