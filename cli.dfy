/** `ensure_db` and `main` (daily.py:17-22, 66-84): the store is made to exist
    first, then exactly one action runs, `--add` before `--list` before the
    selection of a quote. */
module Cli {
  import opened Wrappers
  import opened Quotes
  import opened Today
  import opened AddQuote
  import opened Listing

  /** The parsed command line: `--random`, `--add TEXT|AUTHOR`, `--list`. */
  datatype Args = Args(random: bool, add: Option<string>, list: bool)

  datatype Action = AddItem(item: string) | ListAll | ShowRandom | ShowToday

  /** `if args.add:` is taken only for a present, non-empty string. */
  predicate AddRequested(args: Args) {
    args.add.Some? && args.add.value != []
  }

  /** The branch of `main` that runs. */
  function Dispatch(args: Args): (a: Action)
    ensures a.AddItem? ==> args.add == Some(a.item) && a.item != []
    ensures a.ListAll? ==> args.list
    ensures a.ShowRandom? ==> args.random
  {
    if AddRequested(args) then AddItem(args.add.value)
    else if args.list then ListAll
    else if args.random then ShowRandom
    else ShowToday
  }

  /** `--add` wins over `--list`, which wins over selection, whatever the
      other flags say. */
  lemma DispatchPriority(args: Args)
    ensures AddRequested(args) ==> Dispatch(args) == AddItem(args.add.value)
    ensures !AddRequested(args) && args.list ==> Dispatch(args) == ListAll
    ensures !AddRequested(args) && !args.list ==> Dispatch(args) == (if args.random then ShowRandom else ShowToday)
  {
  }

  /** An empty `--add ""` is falsy and is ignored: the run is the one without
      `--add`. */
  lemma EmptyAddIgnored(args: Args)
    ensures Dispatch(args.(add := Some([]))) == Dispatch(args.(add := None))
  {
  }

  /** `ensure_db`: the store, if present, is left as it is; otherwise it is
      a copy of the seed, and a missing seed stops the program. `None` is an
      absent file; a present file is given by its decoded records. */
  function EnsureDb(store: Option<seq<Record>>, seed: Option<seq<Record>>): (r: Result<seq<Record>, Error>)
    ensures store.Some? ==> r == Success(store.value)
    ensures store.None? ==> (r.Success? <==> seed.Some?)
    ensures store.None? && seed.Some? ==> r.value == seed.value
    ensures r.Failure? ==> r.error == SeedMissing
  {
    match store
    case Some(existing) => Success(existing)
    case None =>
      match seed
      case Some(bundled) => Success(bundled)
      case None => Failure(SeedMissing)
  }

  /** What one run reports. `ShownRandom` stands for `pick_random`: some
      element of `choices`, drawn from OS entropy. */
  datatype Outcome =
    | Stopped(error: Error)
    | Added(written: seq<Quote>)
    | Listed(lines: seq<string>)
    | Shown(quote: Quote)
    | ShownRandom(choices: seq<Quote>)

  /** The outcome of a run and the store file afterwards. */
  datatype RunResult = RunResult(outcome: Outcome, store: Option<seq<Record>>)

  /** One run of `main`; `h` is the SHA-256 value of the day's key. */
  function Run(args: Args, store: Option<seq<Record>>, seed: Option<seq<Record>>, h: nat): (r: RunResult)
    ensures EnsureDb(store, seed).Failure? ==> r == RunResult(Stopped(SeedMissing), store)
    ensures EnsureDb(store, seed).Success? ==> r.store.Some?
    ensures EnsureDb(store, seed).Success? && !r.outcome.Added? ==> r.store == Some(EnsureDb(store, seed).value)
    ensures r.outcome.Added? ==>
      AddRequested(args) && r.store == Some(ToRecords(r.outcome.written))
      && Load(ToRecords(r.outcome.written)) == Success(r.outcome.written)
    ensures r.outcome.Listed? ==> !AddRequested(args) && args.list && |r.outcome.lines| > 0
    ensures r.outcome.Shown? ==>
      !AddRequested(args) && !args.list && !args.random && r.outcome.quote in Clean(EnsureDb(store, seed).value)
    ensures r.outcome.ShownRandom? ==>
      !AddRequested(args) && !args.list && args.random && r.outcome.choices == Clean(EnsureDb(store, seed).value)
    ensures EnsureDb(store, seed).Success? ==> r == RunAction(Dispatch(args), EnsureDb(store, seed).value, h)
  {
    match EnsureDb(store, seed)
    case Failure(e) => RunResult(Stopped(e), store)
    case Success(db) =>
      RunAction(Dispatch(args), db, h)
  }

  /** The action of a run, on the store `db` that `ensure_db` left. */
  function RunAction(action: Action, db: seq<Record>, h: nat): (r: RunResult)
    ensures r.store.Some?
    ensures !r.outcome.Added? ==> r.store == Some(db)
    ensures r.outcome.Added? ==>
      action.AddItem? && r.store == Some(ToRecords(r.outcome.written))
      && Load(ToRecords(r.outcome.written)) == Success(r.outcome.written)
    ensures r.outcome.Listed? ==> action == ListAll && |r.outcome.lines| > 0
    ensures r.outcome.Shown? ==> action == ShowToday && r.outcome.quote in Clean(db)
    ensures r.outcome.ShownRandom? ==> action == ShowRandom && |r.outcome.choices| > 0
    ensures action.AddItem? ==>
      r.outcome == (match AddResult(db, action.item)
                    case Success(written) => Added(written)
                    case Failure(e) => Stopped(e))
    ensures action == ListAll ==>
      r.outcome == (match ListResult(db)
                    case Success(lines) => Listed(lines)
                    case Failure(e) => Stopped(e))
    ensures action == ShowToday ==>
      r.outcome == (if Clean(db) == [] then Stopped(SystemExit(EmptyMessage)) else Shown(PickToday(Clean(db), h)))
    ensures action == ShowRandom ==>
      r.outcome == (if Clean(db) == [] then Stopped(SystemExit(EmptyMessage)) else ShownRandom(Clean(db)))
  {
    var same := Some(db);
    match action
    case AddItem(item) =>
      (match AddResult(db, item)
       case Failure(e) => RunResult(Stopped(e), same)
       case Success(written) =>
         AddedCollectionReloads(db, item);
         RunResult(Added(written), Some(ToRecords(written))))
    case ListAll =>
      (match ListResult(db)
       case Failure(e) => RunResult(Stopped(e), same)
       case Success(lines) => RunResult(Listed(lines), same))
    case ShowToday =>
      (match Load(db)
       case Failure(e) => RunResult(Stopped(e), same)
       case Success(quotes) => RunResult(Shown(PickToday(quotes, h)), same))
    case ShowRandom =>
      (match Load(db)
       case Failure(e) => RunResult(Stopped(e), same)
       case Success(quotes) => RunResult(ShownRandom(quotes), same))
  }

  /** On a first run the store becomes the seed, and the run proceeds on it. */
  lemma FirstRunUsesSeed(args: Args, seed: seq<Record>, h: nat)
    ensures Run(args, None, Some(seed), h).store.Some?
    ensures !Run(args, None, Some(seed), h).outcome.Added? ==> Run(args, None, Some(seed), h).store == Some(seed)
    ensures Run(args, None, Some(seed), h) == Run(args, Some(seed), None, h)
  {
  }

  /** Malformed `--add` input stops the run before the store is read or
      written, even when the store holds no valid quote. */
  lemma MalformedAddWritesNothing(args: Args, db: seq<Record>, seed: Option<seq<Record>>, h: nat)
    requires AddRequested(args) && Separator !in args.add.value
    ensures Run(args, Some(db), seed, h) == RunResult(Stopped(UnpackError(2, 1)), Some(db))
  {
  }
}
