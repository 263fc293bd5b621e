# daily-quote, modelled in Dafny

`daily.py` is a small command-line tool that keeps a JSON list of quotations
(`text`, `author`) in a store file, prints a deterministic "quote of the day"
or a random quote, appends a quote given as `TEXT|AUTHOR`, or lists all
quotes numbered. This project models the logic of that script:

- `Text` — Python's `str.strip()`, with whitespace defined as exactly the
  characters for which `str.isspace()` holds.
- `Quotes` — `load_quotes`: the decoded list is filtered to the objects that
  hold both `text` and `author`, both fields are stripped, order is kept, and
  an empty result ends the program with `SystemExit`. The loop that builds
  `cleaned` is the method `LoadQuotes`, proved against the function `Clean`.
- `Today` — the index rule of `pick_today`, `h % len(quotes)`, with the
  SHA-256 value `h` taken as a parameter.
- `AddQuote` — `add_quote`: `split("|", 1)`, stripping, the `"Anonyme"`
  default, the two-name unpacking that fails without a separator, and the
  append to the re-validated collection.
- `Listing` — `list_quotes`: `f"{i:02d}. {text} — {author}"` for each quote,
  counted from 1; the loop is the method `ListQuotes`.
- `Cli` — `ensure_db` (does the store exist, else copy the seed) and the
  branch order of `main`.

The store file is modelled by its decoded content, a sequence of `Record`
values; a record is `Obj(text, author)` with optional fields, or `NotObj`.

Three behaviours of `daily.py` that its usage text does not suggest are
modelled as the code has them:

- input to `--add` with no `|` is not accepted with a placeholder author:
  unpacking the one-element result of `split` into two names raises
  `ValueError` before the store is read (`AddQuote.ParseItem`, `Cli.MalformedAddWritesNothing`);
- the placeholder author is `"Anonyme"`;
- `if args.add:` is false for an empty string, so `--add ""` is ignored and
  the run goes on to `--list` or selection (`Cli.EmptyAddIgnored`).

## Model

| member | source | states |
|---|---|---|
| `Text.IsSpace` | daily.py:31 | the whitespace `strip()` removes: exactly the characters for which `str.isspace()` holds |
| `Text.TrimLeft` | daily.py:31 | the result is no longer than the input and does not start with whitespace |
| `Text.TrimLeftSplits` | daily.py:31 | the result is a suffix of the input and what precedes it is all whitespace |
| `Text.TrimRight` | daily.py:31 | the result is no longer than the input and does not end with whitespace |
| `Text.TrimRightSplits` | daily.py:31 | the result is a prefix of the input and what follows it is all whitespace |
| `Text.Strip` | daily.py:31 | `strip()` yields a string no longer than the input with no whitespace at either end |
| `Text.StripSplits` | daily.py:31 | the stripped string sits in the input between two runs of whitespace, the first being what `lstrip` removes |
| `Text.StripUnique` | daily.py:31 | any stripped string padded with whitespace on both sides strips back to itself, so the decomposition is unique |
| `Text.StripFixesStripped` | daily.py:31 | stripping an already stripped string changes nothing |
| `Text.StripIdempotent` | daily.py:31 | stripping twice equals stripping once |
| `Text.StripAllSpace` | daily.py:31 | an all-whitespace string strips to the empty string |
| `Quotes.IsQuoteRecord` | daily.py:30 | a record is kept exactly when it is an object holding both a `text` and an `author` key |
| `Quotes.Normalize` | daily.py:31 | a kept record becomes a quote whose text and author are stripped |
| `Quotes.Clean` | daily.py:28-31 | the cleaned list is no longer than the input and every kept text and author is stripped |
| `Quotes.Load` | daily.py:24-34 | loading returns the cleaned collection when it is non-empty and otherwise exits with the fixed message |
| `Quotes.LoadQuotes` | daily.py:24-34 | the loop's result equals the filter-and-strip specification, or the empty-collection exit; a returned collection is non-empty |
| `Quotes.LoadFailsIffNoQuoteRecord` | daily.py:32-34 | loading fails exactly when no record is an object with both keys, then with the fixed message; otherwise the collection is non-empty |
| `Quotes.CleanEmptyIff` | daily.py:28-32 | the cleaned list is empty if and only if no input record passes the filter |
| `Quotes.KeptIndicesExact` | daily.py:29-30 | the kept positions increase, each holds a record with both keys, and no such record is skipped |
| `Quotes.CleanIsOrderedSelection` | daily.py:29-31 | the k-th loaded quote is the record at the k-th kept position with both fields stripped |
| `Quotes.CleanAppend` | daily.py:29-31 | filtering a concatenation is the concatenation of the filtered parts |
| `Quotes.ToRecords` | daily.py:50-52 | the written list has one object with both keys per quote, holding that quote's fields |
| `Quotes.CleanToRecords` | daily.py:49-52 | re-reading a written collection of stripped quotes gives it back unchanged |
| `Quotes.LoadIdempotent` | daily.py:24-34 | loading a collection that was loaded and written back gives the same collection |
| `Today.PickIndex` | daily.py:41 | for a non-empty collection the index `h % len` lies in `[0, len)` |
| `Today.PickToday` | daily.py:36-41 | the quote of the day is an element of the collection, at the index rule's position, and depends only on the hash and the collection |
| `Today.EveryQuoteReachable` | daily.py:41 | every quote is the quote of the day for some hash value |
| `AddQuote.SplitFirst` | daily.py:48 | splitting on the separator at most once gives one part exactly when there is no separator, else two parts around the first separator |
| `AddQuote.SplitFirstJoin` | daily.py:48 | splitting `a`, separator, `b` with no separator in `a` gives back `[a, b]`, later separators staying in `b` |
| `AddQuote.ParseItem` | daily.py:48-50 | parsing fails with the unpacking error exactly when there is no separator; otherwise both fields are stripped and the author is non-empty |
| `AddQuote.ParseItemSplit` | daily.py:48-50 | for any input with a separator, the text is the stripped part before the first separator and the author is the stripped rest, or `"Anonyme"` when that is empty |
| `AddQuote.ParseItemRoundTrip` | daily.py:48-50 | a text without separator and a non-empty author, padded with any whitespace and joined by the separator, parse back to that quote |
| `AddQuote.ParseItemPlain` | daily.py:48-50 | text, separator, author parses back to the quote when the text has no separator and the author is non-empty |
| `AddQuote.ParseItemPlaceholder` | daily.py:48-50 | an empty or all-whitespace author becomes `"Anonyme"` and the text is kept even when empty |
| `AddQuote.AddResult` | daily.py:47-50 | a missing separator fails first, whatever the store; then an invalid store fails; else the result is the validated collection followed by the parsed quote, one longer |
| `AddQuote.Add` | daily.py:47-50 | parsing, loading and the in-place append compute exactly the add specification |
| `AddQuote.AddedCollectionReloads` | daily.py:49-53 | after an add only valid records are written, reloading gives the written collection, and it is one longer than the validated one |
| `AddQuote.AddToCleanStore` | daily.py:47-53 | adding text, separator, author to a clean store of N quotes gives those N quotes followed by the new one |
| `Listing.DigitChar` | daily.py:64 | a digit below ten is written as the character denoting it |
| `Listing.Digits` | daily.py:64 | `str(n)` is a non-empty digit string, one digit exactly for n below ten, with no leading zero for positive n |
| `Listing.ValueOfDigits` | daily.py:64 | the digit string of n denotes n |
| `Listing.ValueLeadingZero` | daily.py:64 | a leading zero does not change the number a digit string denotes |
| `Listing.Pad2` | daily.py:64 | `{n:02d}` is a digit string of at least two characters denoting n, with no leading zero when longer than two |
| `Listing.Line` | daily.py:64 | a printed line starts with the padded number and is as long as the number, text, author and the five separator characters together |
| `Listing.LeadingDigits` | daily.py:64 | the leading-digit prefix consists of digits |
| `Listing.LeadingDigitsOf` | daily.py:64 | the leading digits of a digit string followed by a non-digit are that digit string |
| `Listing.LineNumber` | daily.py:64 | each printed line starts with its zero-padded number, which reads back as that number |
| `Listing.LinesDistinct` | daily.py:63-64 | lines with different numbers are different |
| `Listing.Numbered` | daily.py:63-64 | the listing has one line per quote |
| `Listing.NumberedInOrder` | daily.py:63-64 | the listing has one line per quote in collection order, line k showing quote k with a number reading back as k + 1 |
| `Listing.NumberLines` | daily.py:63-64 | the `enumerate` loop builds exactly the numbered listing |
| `Listing.ListResult` | daily.py:61-64 | listing succeeds exactly when loading does, with one line per loaded quote, and otherwise exits with the load message |
| `Listing.ListQuotes` | daily.py:61-64 | loading followed by the numbering loop gives exactly the numbered listing of the loaded collection, a non-empty one, or stops with the load error |
| `Cli.Dispatch` | daily.py:77-84 | adding needs a non-empty `--add` value, listing needs `--list`, random selection needs `--random` |
| `Cli.DispatchPriority` | daily.py:77-84 | `--add` wins over `--list`, which wins over selection, whatever the other flags |
| `Cli.EmptyAddIgnored` | daily.py:77 | an empty `--add` value runs as if `--add` were absent |
| `Cli.EnsureDb` | daily.py:17-22 | an existing store is kept as it is; an absent one becomes the seed; an absent seed then stops the program |
| `Cli.Run` | daily.py:66-84 | the store is ensured before any action, and a missing seed stops the run; otherwise the run is the action `main` dispatches, run on the ensured store; only a successful add rewrites the store |
| `Cli.RunAction` | daily.py:77-84 | an add reports the add result and writes it, a listing reports the numbered lines, the day selection shows the `PickToday` quote of the validated collection, the random selection draws from it; each stops with its load or parse error instead, and only a successful add changes the store |
| `Cli.FirstRunUsesSeed` | daily.py:17-22 | on a first run the store becomes the seed and the run is the one on a store holding the seed |
| `Cli.MalformedAddWritesNothing` | daily.py:48 | an `--add` value without separator stops with the unpacking error and leaves the store untouched, whatever it holds |

## Left out

- Reading and writing files, `json.load` and `json.dump`: the store is given by its decoded records and the rewrite by the records written; malformed JSON, a top level that is not a list, indentation and `ensure_ascii` are not modelled.
- Directory creation in `ensure_db` (`os.makedirs`) and the byte-for-byte copy of the seed: the copy is modelled as the store taking the seed's decoded content.
- SHA-256 of the date, `os.uname().nodename` and `DAILY_QUOTE_SEED`: these are clock, host and environment inputs to a foreign hash; the resulting integer is the parameter `h`.
- `pick_random`: OS-seeded randomness; the outcome `ShownRandom` carries the collection an element is drawn from.
- `print_quote`: `textwrap.fill` at 88 columns and the header and attribution lines are presentation only.
- `argparse`: the parsed flags are the datatype `Args`; unknown flags and `--help` are not modelled.
- The confirmation message of `add_quote` is not produced; its total is the length of the written collection.
- `text` or `author` values that are not strings (which make `.strip()` raise `AttributeError`): fields are strings in the model.
