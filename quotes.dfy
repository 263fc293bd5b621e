/** `load_quotes` (daily.py:24-34): the decoded store is filtered down to the
    records that are objects holding both "text" and "author", each field is
    stripped, order is kept, and an empty result ends the program. */
module Quotes {
  import opened Wrappers
  import opened Text

  /** One element of the decoded JSON list. `Obj` is a JSON object, with its
      "text" and "author" entries (`None` when the key is absent); its other
      keys are never read. `NotObj` is any element that is not an object. */
  datatype Record = Obj(text: Option<string>, author: Option<string>) | NotObj

  /** A validated quote: the only two keys the cleaned collection holds. */
  datatype Quote = Quote(text: string, author: string)

  /** How the script stops without finishing its action. */
  datatype Error =
    | SystemExit(message: string)           // raise SystemExit(message)
    | UnpackError(expected: nat, got: nat)  // ValueError: not enough values to unpack
    | SeedMissing                           // the bundled seed file cannot be opened

  const EmptyMessage := "La base de citations est vide ou invalide."

  /** `isinstance(q, dict) and "text" in q and "author" in q` */
  predicate IsQuoteRecord(q: Record) {
    q.Obj? && q.text.Some? && q.author.Some?
  }

  /** The cleaned record: both fields stripped, so neither end is whitespace. */
  function Normalize(q: Record): (r: Quote)
    requires IsQuoteRecord(q)
    ensures IsClean(r)
  {
    Quote(Strip(q.text.value), Strip(q.author.value))
  }

  predicate IsClean(q: Quote) {
    IsStripped(q.text) && IsStripped(q.author)
  }

  /** The list `cleaned` that the loop of `load_quotes` builds. */
  function Clean(data: seq<Record>): (r: seq<Quote>)
    ensures |r| <= |data|
    ensures forall k :: 0 <= k < |r| ==> IsClean(r[k])
  {
    if data == [] then []
    else
      var last := data[|data| - 1];
      Clean(data[..|data| - 1]) + (if IsQuoteRecord(last) then [Normalize(last)] else [])
  }

  /** The value `load_quotes` returns, or the exit it raises instead. */
  function Load(data: seq<Record>): (r: Result<seq<Quote>, Error>)
    ensures r.Success? ==> r.value == Clean(data) && |r.value| > 0
    ensures r.Failure? ==> r.error == SystemExit(EmptyMessage) && Clean(data) == []
  {
    var cleaned := Clean(data);
    if cleaned == [] then Failure(SystemExit(EmptyMessage)) else Success(cleaned)
  }

  /** The loop of `load_quotes`, appending to `cleaned` in place. */
  method LoadQuotes(data: seq<Record>) returns (r: Result<seq<Quote>, Error>)
    ensures r == Load(data)
    ensures r.Success? ==> |r.value| > 0
  {
    var cleaned: seq<Quote> := [];
    for i := 0 to |data|
      invariant cleaned == Clean(data[..i])
    {
      assert data[..i + 1][..i] == data[..i];
      var q := data[i];
      if q.Obj? && q.text.Some? && q.author.Some? {
        cleaned := cleaned + [Quote(Strip(q.text.value), Strip(q.author.value))];
      }
    }
    assert data[..|data|] == data;
    if cleaned == [] {
      return Failure(SystemExit(EmptyMessage));
    }
    return Success(cleaned);
  }

  /** Loading fails exactly when no record passes the filter, and then with
      the fixed message; a successful load is never empty. */
  lemma {:induction false} LoadFailsIffNoQuoteRecord(data: seq<Record>)
    ensures Load(data).Failure? <==> forall i :: 0 <= i < |data| ==> !IsQuoteRecord(data[i])
    ensures Load(data).Failure? ==> Load(data).error == SystemExit(EmptyMessage)
    ensures Load(data).Success? ==> |Load(data).value| > 0
  {
    CleanEmptyIff(data);
  }

  lemma {:induction false} CleanEmptyIff(data: seq<Record>)
    ensures Clean(data) == [] <==> forall i :: 0 <= i < |data| ==> !IsQuoteRecord(data[i])
  {
    if data != [] {
      var init := data[..|data| - 1];
      CleanEmptyIff(init);
      assert forall i :: 0 <= i < |init| ==> init[i] == data[i];
    }
  }

  /** Filtering distributes over concatenation of the decoded list. */
  lemma {:induction false} CleanAppend(a: seq<Record>, b: seq<Record>)
    ensures Clean(a + b) == Clean(a) + Clean(b)
  {
    if b == [] {
      assert a + b == a;
    } else {
      var b' := b[..|b| - 1];
      assert (a + b)[..|a + b| - 1] == a + b';
      CleanAppend(a, b');
    }
  }

  /** The positions, in increasing order, of the records that pass the filter. */
  function KeptIndices(data: seq<Record>): seq<nat> {
    if data == [] then []
    else
      KeptIndices(data[..|data| - 1]) + (if IsQuoteRecord(data[|data| - 1]) then [|data| - 1] else [])
  }

  /** The kept positions are increasing positions of quote records, one per
      loaded quote, and no quote record is skipped. */
  lemma {:induction false} KeptIndicesExact(data: seq<Record>)
    ensures |KeptIndices(data)| == |Clean(data)|
    ensures forall k :: 0 <= k < |KeptIndices(data)| ==>
      KeptIndices(data)[k] < |data| && IsQuoteRecord(data[KeptIndices(data)[k]])
    ensures forall k, l :: 0 <= k < l < |KeptIndices(data)| ==> KeptIndices(data)[k] < KeptIndices(data)[l]
    ensures forall i :: 0 <= i < |data| && IsQuoteRecord(data[i]) ==> i in KeptIndices(data)
  {
    if data != [] {
      var n := |data| - 1;
      var init := data[..n];
      KeptIndicesExact(init);
      var ks, ks0 := KeptIndices(data), KeptIndices(init);
      assert forall i :: 0 <= i < n ==> init[i] == data[i];
      if IsQuoteRecord(data[n]) {
        assert ks == ks0 + [n];
        assert Clean(data) == Clean(init) + [Normalize(data[n])];
        assert forall k :: 0 <= k < |ks0| ==> ks[k] == ks0[k] < n;
      } else {
        assert ks == ks0;
        assert Clean(data) == Clean(init);
      }
    }
  }

  /** The loaded collection is exactly the quote records of the input, in
      their original order, each normalised: the k-th loaded quote is the
      record at the k-th kept position, with both fields stripped. */
  lemma {:induction false} CleanIsOrderedSelection(data: seq<Record>)
    ensures |KeptIndices(data)| == |Clean(data)|
    ensures forall k :: 0 <= k < |Clean(data)| ==>
      KeptIndices(data)[k] < |data| && IsQuoteRecord(data[KeptIndices(data)[k]])
      && Clean(data)[k] == Normalize(data[KeptIndices(data)[k]])
  {
    KeptIndicesExact(data);
    if data != [] {
      var n := |data| - 1;
      var init := data[..n];
      CleanIsOrderedSelection(init);
      var ks, ks0 := KeptIndices(data), KeptIndices(init);
      var cs, cs0 := Clean(data), Clean(init);
      if IsQuoteRecord(data[n]) {
        assert ks == ks0 + [n];
        assert cs == cs0 + [Normalize(data[n])];
        forall k | 0 <= k < |cs0|
          ensures cs[k] == Normalize(data[ks[k]])
        {
          assert ks[k] == ks0[k] && cs[k] == cs0[k] && init[ks0[k]] == data[ks0[k]];
        }
      } else {
        assert ks == ks0 && cs == cs0;
        forall k | 0 <= k < |cs0|
          ensures cs[k] == Normalize(data[ks[k]])
        {
          assert init[ks0[k]] == data[ks0[k]];
        }
      }
    }
  }

  /** The records `json.dump` writes for a collection of quotes. */
  function ToRecords(quotes: seq<Quote>): (r: seq<Record>)
    ensures |r| == |quotes|
    ensures forall k :: 0 <= k < |r| ==> IsQuoteRecord(r[k]) && r[k].text.value == quotes[k].text && r[k].author.value == quotes[k].author
  {
    if quotes == [] then []
    else ToRecords(quotes[..|quotes| - 1]) + [Obj(Some(quotes[|quotes| - 1].text), Some(quotes[|quotes| - 1].author))]
  }

  /** Reloading a written collection of clean quotes gives it back unchanged. */
  lemma {:induction false} CleanToRecords(quotes: seq<Quote>)
    requires forall k :: 0 <= k < |quotes| ==> IsClean(quotes[k])
    ensures Clean(ToRecords(quotes)) == quotes
  {
    if quotes != [] {
      var n := |quotes| - 1;
      var init, q := quotes[..n], quotes[n];
      var recs := ToRecords(quotes);
      var rec := Obj(Some(q.text), Some(q.author));
      assert recs == ToRecords(init) + [rec];
      assert recs[..n] == ToRecords(init);
      CleanToRecords(init);
      StripFixesStripped(q.text);
      StripFixesStripped(q.author);
      assert Normalize(rec) == q;
      assert quotes == init + [q];
    }
  }

  /** Loading is idempotent: writing a loaded collection and loading it again
      changes nothing. */
  lemma LoadIdempotent(data: seq<Record>)
    requires Load(data).Success?
    ensures Load(ToRecords(Load(data).value)) == Load(data)
  {
    CleanToRecords(Clean(data));
  }
}
