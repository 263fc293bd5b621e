/** `add_quote` (daily.py:47-53): parse `TEXT|AUTHOR`, load the validated
    collection, append the new quote; the file rewrite is the caller's. */
module AddQuote {
  import opened Wrappers
  import opened Text
  import opened Quotes

  const Separator := '|'
  const Placeholder := "Anonyme"

  /** `s.split(sep, 1)`: two parts around the first `sep`, or `[s]` when
      `s` has no `sep`. */
  function SplitFirst(s: string, sep: char): (parts: seq<string>)
    ensures |parts| == 1 || |parts| == 2
    ensures |parts| == 1 <==> sep !in s
    ensures |parts| == 1 ==> parts[0] == s
    ensures |parts| == 2 ==> s == parts[0] + [sep] + parts[1] && sep !in parts[0]
  {
    if s == [] then [s]
    else if s[0] == sep then
      assert s == [] + [sep] + s[1..];
      [[], s[1..]]
    else
      var rest := SplitFirst(s[1..], sep);
      if |rest| == 1 then [s]
      else
        assert s == [s[0]] + s[1..];
        [[s[0]] + rest[0], rest[1]]
  }

  /** Splitting undoes joining at a separator that the first part lacks:
      every later separator stays in the second part. */
  lemma {:induction false} SplitFirstJoin(a: string, sep: char, b: string)
    requires sep !in a
    ensures SplitFirst(a + [sep] + b, sep) == [a, b]
  {
    var s := a + [sep] + b;
    if a == [] {
      assert s == [sep] + b;
    } else {
      assert s[1..] == a[1..] + [sep] + b;
      SplitFirstJoin(a[1..], sep, b);
      assert [a[0]] + a[1..] == a;
    }
  }

  /** `txt, author = (part.strip() for part in item.split("|", 1))` followed
      by `author or "Anonyme"`. Without a separator the two-name unpacking
      fails. */
  function ParseItem(item: string): (r: Result<Quote, Error>)
    ensures r.Failure? <==> Separator !in item
    ensures r.Failure? ==> r.error == UnpackError(2, 1)
    ensures r.Success? ==> IsClean(r.value) && r.value.author != []
  {
    var parts := SplitFirst(item, Separator);
    if |parts| != 2 then Failure(UnpackError(2, |parts|))
    else
      var text := Strip(parts[0]);
      var author := Strip(parts[1]);
      Success(Quote(text, if author == [] then Placeholder else author))
  }

  /** The parse of any input with a separator: the stripped part before the
      first separator is the text, the stripped rest is the author, or the
      placeholder when that is empty. */
  lemma ParseItemSplit(a: string, b: string)
    requires Separator !in a
    ensures ParseItem(a + [Separator] + b)
      == Success(Quote(Strip(a), if Strip(b) == [] then Placeholder else Strip(b)))
  {
    SplitFirstJoin(a, Separator, b);
  }

  /** Parsing inverts `TEXT|AUTHOR` rendering, whatever whitespace pads either
      part, for a text without separator and a non-empty author (which may
      contain separators). */
  lemma ParseItemRoundTrip(q: Quote, w1: string, w2: string, w3: string, w4: string)
    requires IsClean(q) && Separator !in q.text && q.author != []
    requires AllSpace(w1) && AllSpace(w2) && AllSpace(w3) && AllSpace(w4)
    ensures ParseItem(w1 + q.text + w2 + "|" + w3 + q.author + w4) == Success(q)
  {
    var left := w1 + q.text + w2;
    var right := w3 + q.author + w4;
    assert Separator !in left by {
      assert forall i :: 0 <= i < |left| ==> left[i] == Separator ==> !IsSpace(left[i]);
    }
    assert w1 + q.text + w2 + "|" + w3 + q.author + w4 == left + [Separator] + right;
    SplitFirstJoin(left, Separator, right);
    StripUnique(w1, q.text, w2);
    StripUnique(w3, q.author, w4);
  }

  /** An author part that is empty or only whitespace becomes the placeholder;
      the text is taken as it strips, even when empty. */
  lemma ParseItemPlaceholder(text: string, w: string)
    requires Separator !in text && AllSpace(w)
    ensures ParseItem(text + "|" + w) == Success(Quote(Strip(text), Placeholder))
  {
    assert text + "|" + w == text + [Separator] + w;
    SplitFirstJoin(text, Separator, w);
    StripAllSpace(w);
  }

  /** The collection that `add_quote` writes back, or the error it stops with.
      The separator check comes first, so malformed input fails before the
      store is read; then the store is re-validated by `load_quotes`. */
  function AddResult(data: seq<Record>, item: string): (r: Result<seq<Quote>, Error>)
    ensures Separator !in item ==> r == Failure(UnpackError(2, 1))
    ensures Separator in item && Load(data).Failure? ==> r == Failure(SystemExit(EmptyMessage))
    ensures r.Success? <==> Separator in item && Load(data).Success?
    ensures r.Success? ==>
      |r.value| == |Clean(data)| + 1
      && r.value[..|Clean(data)|] == Clean(data)
      && Success(r.value[|Clean(data)|]) == ParseItem(item)
  {
    LoadFailsIffNoQuoteRecord(data);
    match ParseItem(item)
    case Failure(e) => Failure(e)
    case Success(q) =>
      match Load(data)
      case Failure(e) => Failure(e)
      case Success(quotes) => Success(quotes + [q])
  }

  /** `add_quote` up to the rewrite: `data.append(...)` on the loaded list. */
  method Add(data: seq<Record>, item: string) returns (r: Result<seq<Quote>, Error>)
    ensures r == AddResult(data, item)
  {
    var parsed := ParseItem(item);
    if parsed.Failure? {
      return Failure(parsed.error);
    }
    var loaded := LoadQuotes(data);
    if loaded.Failure? {
      return Failure(loaded.error);
    }
    var quotes := loaded.value;
    quotes := quotes + [parsed.value];
    return Success(quotes);
  }

  /** After a successful add, the file holds only quote records, and loading
      it again yields exactly the written collection, one longer than the
      validated collection it came from. */
  lemma AddedCollectionReloads(data: seq<Record>, item: string)
    requires AddResult(data, item).Success?
    ensures var written := AddResult(data, item).value;
      Load(ToRecords(written)) == Success(written)
      && |written| == |Clean(data)| + 1
      && forall k :: 0 <= k < |written| ==> IsQuoteRecord(ToRecords(written)[k])
  {
    var written := AddResult(data, item).value;
    forall k | 0 <= k < |written| ensures IsClean(written[k]) {
      if k < |Clean(data)| {
        assert written[k] == written[..|Clean(data)|][k];
      }
    }
    CleanToRecords(written);
  }

  /** Adding to a clean store of N quotes gives N + 1 quotes ending with the
      parsed one, whatever the store held. */
  lemma AddToCleanStore(quotes: seq<Quote>, q: Quote)
    requires |quotes| > 0 && forall k :: 0 <= k < |quotes| ==> IsClean(quotes[k])
    requires IsClean(q) && Separator !in q.text && q.author != []
    ensures AddResult(ToRecords(quotes), q.text + "|" + q.author) == Success(quotes + [q])
  {
    var data := ToRecords(quotes);
    CleanToRecords(quotes);
    LoadFailsIffNoQuoteRecord(data);
    ParseItemPlain(q);
    var r := AddResult(data, q.text + "|" + q.author);
    assert r.value == r.value[..|quotes|] + [r.value[|quotes|]];
  }

  lemma ParseItemPlain(q: Quote)
    requires IsClean(q) && Separator !in q.text && q.author != []
    ensures ParseItem(q.text + "|" + q.author) == Success(q)
  {
    assert [] + q.text + [] + "|" + [] + q.author + [] == q.text + "|" + q.author;
    ParseItemRoundTrip(q, [], [], [], []);
  }
}
