/** `list_quotes` (daily.py:61-64): one line per loaded quote,
    `f"{i:02d}. {text} — {author}"` with `i` counted from 1. */
module Listing {
  import opened Wrappers
  import opened Quotes

  predicate IsDigit(c: char) {
    '0' <= c <= '9'
  }

  predicate AllDigits(s: string) {
    forall i :: 0 <= i < |s| ==> IsDigit(s[i])
  }

  function DigitValue(c: char): nat
    requires IsDigit(c)
  {
    c as int - '0' as int
  }

  function DigitChar(d: nat): (c: char)
    requires d < 10
    ensures IsDigit(c) && DigitValue(c) == d
  {
    ('0' as int + d) as char
  }

  /** The number a string of decimal digits denotes. */
  function Value(s: string): nat
    requires AllDigits(s)
  {
    if s == [] then 0 else Value(s[..|s| - 1]) * 10 + DigitValue(s[|s| - 1])
  }

  /** The decimal digits of `n` (`str(n)`), with no leading zero. */
  function Digits(n: nat): (s: string)
    ensures |s| >= 1 && AllDigits(s)
    ensures |s| == 1 <==> n < 10
    ensures n > 0 ==> s[0] != '0'
  {
    if n < 10 then [DigitChar(n)] else Digits(n / 10) + [DigitChar(n % 10)]
  }

  lemma {:induction false} ValueOfDigits(n: nat)
    ensures Value(Digits(n)) == n
  {
    if n >= 10 {
      var s := Digits(n);
      assert s[..|s| - 1] == Digits(n / 10);
      ValueOfDigits(n / 10);
    }
  }

  lemma {:induction false} ValueLeadingZero(s: string)
    requires AllDigits(s)
    ensures Value("0" + s) == Value(s)
  {
    if s != [] {
      var t := "0" + s;
      assert t[..|t| - 1] == "0" + s[..|s| - 1];
      ValueLeadingZero(s[..|s| - 1]);
    } else {
      assert "0" + s == "0";
      assert "0"[..0] == [];
    }
  }

  /** `f"{n:02d}"`: the decimal form of `n`, zero-padded to at least two
      digits; a form longer than two digits has no leading zero. */
  function Pad2(n: nat): (s: string)
    ensures |s| >= 2 && AllDigits(s) && Value(s) == n
    ensures |s| > 2 ==> s[0] != '0'
  {
    ValueOfDigits(n);
    if n < 10 then
      ValueLeadingZero(Digits(n));
      "0" + Digits(n)
    else Digits(n)
  }

  /** The line printed for the quote numbered `i`: the padded number, then
      the text and the author. */
  function Line(i: nat, q: Quote): (line: string)
    ensures |line| == |Pad2(i)| + |q.text| + |q.author| + 5
    ensures line[..|Pad2(i)|] == Pad2(i)
  {
    Pad2(i) + ". " + q.text + " \U{2014} " + q.author
  }

  /** The longest prefix of `s` made of decimal digits. */
  function LeadingDigits(s: string): (d: string)
    ensures AllDigits(d)
  {
    if s != [] && IsDigit(s[0]) then [s[0]] + LeadingDigits(s[1..]) else []
  }

  lemma {:induction false} LeadingDigitsOf(d: string, rest: string)
    requires AllDigits(d) && (rest == [] || !IsDigit(rest[0]))
    ensures LeadingDigits(d + rest) == d
  {
    if d == [] {
      assert d + rest == rest;
    } else {
      assert (d + rest)[1..] == d[1..] + rest;
      LeadingDigitsOf(d[1..], rest);
    }
  }

  /** A printed line starts with its number: reading the leading digits of
      `Line(i, q)` gives back `i`, whatever the quote holds. */
  lemma LineNumber(i: nat, q: Quote)
    ensures LeadingDigits(Line(i, q)) == Pad2(i)
    ensures Value(LeadingDigits(Line(i, q))) == i
  {
    var rest := ". " + q.text + " \U{2014} " + q.author;
    assert Line(i, q) == Pad2(i) + rest;
    LeadingDigitsOf(Pad2(i), rest);
  }

  /** Lines with different numbers differ, so no two listed lines coincide. */
  lemma LinesDistinct(i: nat, q: Quote, j: nat, p: Quote)
    requires i != j
    ensures Line(i, q) != Line(j, p)
  {
    LineNumber(i, q);
    LineNumber(j, p);
  }

  /** The printed listing of a collection, one line per quote. */
  function Numbered(quotes: seq<Quote>): (lines: seq<string>)
    ensures |lines| == |quotes|
  {
    seq(|quotes|, k requires 0 <= k < |quotes| => Line(k + 1, quotes[k]))
  }

  /** The listing has one line per quote, in collection order: line k shows
      quote k and its number reads back as k + 1. */
  lemma NumberedInOrder(quotes: seq<Quote>, k: nat)
    requires k < |quotes|
    ensures |Numbered(quotes)| == |quotes|
    ensures Numbered(quotes)[k] == Line(k + 1, quotes[k])
    ensures Value(LeadingDigits(Numbered(quotes)[k])) == k + 1
  {
    LineNumber(k + 1, quotes[k]);
  }

  /** What `list_quotes` prints, or the exit of `load_quotes`. */
  function ListResult(data: seq<Record>): (r: Result<seq<string>, Error>)
    ensures r.Success? <==> Load(data).Success?
    ensures r.Failure? ==> r.error == SystemExit(EmptyMessage)
    ensures r.Success? ==> |r.value| == |Clean(data)| > 0
  {
    match Load(data)
    case Failure(e) => Failure(e)
    case Success(quotes) => Success(Numbered(quotes))
  }

  /** `list_quotes`: load, then print the numbered lines. */
  method ListQuotes(data: seq<Record>) returns (r: Result<seq<string>, Error>)
    ensures r == ListResult(data)
    ensures r.Success? ==> |r.value| == |Clean(data)| > 0
  {
    var loaded := LoadQuotes(data);
    if loaded.Failure? {
      return Failure(loaded.error);
    }
    var lines := NumberLines(loaded.value);
    return Success(lines);
  }

  /** The `enumerate(data, 1)` loop of `list_quotes`, one line per pass. */
  method NumberLines(quotes: seq<Quote>) returns (lines: seq<string>)
    ensures lines == Numbered(quotes)
  {
    lines := [];
    for i := 0 to |quotes|
      invariant |lines| == i
      invariant forall k :: 0 <= k < i ==> lines[k] == Line(k + 1, quotes[k])
    {
      lines := lines + [Line(i + 1, quotes[i])];
    }
  }
}
