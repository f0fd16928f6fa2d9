/**
 * The resumable cache of monthly kline files, `update_cache` in `src/data/binance_archive.py`: a symbol's cached
 * rows say which months it has, and only the files of other months are downloaded.
 */
module ArchiveCache {
  import opened Numbers

  /** `month` counts calendar months, which is what a date's year and month determine. */
  datatype Date = Date(month: int, day: int)

  datatype Row = Row(date: Date, close: real, volume: real)

  /** One listed key: the month in its name, if the name has one, and the parsed rows behind it. */
  datatype File = File(month: Option<int>, rows: seq<Row>)

  type Listing = string -> seq<File>

  /** What downloading one file of one symbol brings in one run; none means that it failed or is gone. */
  type Download = (string, File) -> Option<seq<Row>>

  type Cache = map<string, seq<Row>>

  function Before(a: Date, b: Date): bool {
    a.month < b.month || (a.month == b.month && a.day < b.day)
  }

  // ---------- one symbol ----------

  function Months(rows: seq<Row>): set<int> {
    set i | 0 <= i < |rows| :: rows[i].date.month
  }

  /** The files whose month is not cached yet. */
  function Tasks(files: seq<File>, have: set<int>): seq<File> {
    if files == [] then []
    else
      var file := files[|files| - 1];
      Tasks(files[..|files| - 1], have) + if file.month.Some? && file.month.value !in have then [file] else []
  }

  function Fetched(symbol: string, tasks: seq<File>, download: Download): seq<seq<Row>> {
    if tasks == [] then []
    else
      var frame := download(symbol, tasks[|tasks| - 1]);
      Fetched(symbol, tasks[..|tasks| - 1], download) + if frame.Some? && frame.value != [] then [frame.value] else []
  }

  function Concat(frames: seq<seq<Row>>): seq<Row> {
    if frames == [] then [] else Concat(frames[..|frames| - 1]) + frames[|frames| - 1]
  }

  /** Of rows with the same date the last one stays. */
  function KeepLast(rows: seq<Row>): seq<Row> {
    if rows == [] then []
    else if exists i :: 0 < i < |rows| && rows[i].date == rows[0].date then KeepLast(rows[1..])
    else [rows[0]] + KeepLast(rows[1..])
  }

  function InsertRow(row: Row, sorted: seq<Row>): seq<Row> {
    if sorted == [] || Before(row.date, sorted[0].date) then [row] + sorted
    else [sorted[0]] + InsertRow(row, sorted[1..])
  }

  function SortByDate(rows: seq<Row>): seq<Row> {
    if rows == [] then [] else InsertRow(rows[0], SortByDate(rows[1..]))
  }

  function Cached(cache: Cache, symbol: string): seq<Row> {
    if symbol in cache then cache[symbol] else []
  }

  function TasksFor(cache: Cache, listing: Listing, symbol: string): seq<File> {
    Tasks(listing(symbol), Months(Cached(cache, symbol)))
  }

  /** A symbol's file is rewritten only when something new came in. */
  function Save(cache: Cache, symbol: string, frames: seq<seq<Row>>): Cache {
    if frames == [] then cache
    else cache[symbol := SortByDate(KeepLast(Cached(cache, symbol) + Concat(frames)))]
  }

  function UpdateSymbol(cache: Cache, listing: Listing, download: Download, symbol: string): Cache {
    Save(cache, symbol, Fetched(symbol, TasksFor(cache, listing, symbol), download))
  }

  // ---------- a whole run ----------

  function UpdateAll(cache: Cache, listing: Listing, download: Download, symbols: seq<string>): Cache {
    if symbols == [] then cache
    else
      var init, last := symbols[..|symbols| - 1], symbols[|symbols| - 1];
      UpdateSymbol(UpdateAll(cache, listing, download, init), listing, download, last)
  }

  /** How many downloads a run starts. */
  function TaskCount(cache: Cache, listing: Listing, download: Download, symbols: seq<string>): nat {
    if symbols == [] then 0
    else
      var init, last := symbols[..|symbols| - 1], symbols[|symbols| - 1];
      TaskCount(cache, listing, download, init) + |TasksFor(UpdateAll(cache, listing, download, init), listing, last)|
  }

  ghost predicate Distinct(symbols: seq<string>) {
    forall i, j :: 0 <= i < j < |symbols| ==> symbols[i] != symbols[j]
  }

  /** Each symbol where it first occurs: the keys of a dictionary filled in this order. */
  function Unique(symbols: seq<string>): (r: seq<string>)
    ensures Distinct(r)
    ensures forall symbol :: symbol in r <==> symbol in symbols
  {
    if symbols == [] then []
    else
      var init, last := symbols[..|symbols| - 1], symbols[|symbols| - 1];
      assert symbols == init + [last];
      if last in init then Unique(init) else Unique(init) + [last]
  }

  /** The symbols a run works through: repetitions fall away within a batch, not between batches. */
  function Batched(symbols: seq<string>, batchSize: nat): seq<string>
    requires batchSize > 0
  {
    if |symbols| <= batchSize then Unique(symbols)
    else Unique(symbols[..batchSize]) + Batched(symbols[batchSize..], batchSize)
  }

  /** The cache directory of one dataset. */
  class KlinesCache {
    var files: Cache

    constructor ()
      ensures files == map[]
    {
      files := map[];
    }

    /** Batches of `batchSize` symbols: plan the batch's downloads, do them, then save what came in. */
    method Update(symbols: seq<string>, listing: Listing, download: Download, batchSize: int) returns (r: Result<nat>)
      modifies this
      ensures batchSize == 0 ==> r.Err? && files == old(files)
      ensures batchSize < 0 ==> r == Ok(0) && files == old(files)
      ensures batchSize > 0 ==> files == UpdateAll(old(files), listing, download, Batched(symbols, batchSize))
      ensures batchSize > 0 ==> r == Ok(TaskCount(old(files), listing, download, Batched(symbols, batchSize)))
    {
      hide UpdateAll;
      hide TaskCount;
      hide Batched;
      if batchSize == 0 {
        return Err("range() arg 3 must not be zero");
      }
      if batchSize < 0 {
        return Ok(0);
      }
      var fetched, first: nat := 0, 0;
      ghost var done: seq<string> := [];
      NoSymbols(files, listing, download);
      assert symbols[0..] == symbols && done + Batched(symbols, batchSize) == Batched(symbols, batchSize);
      while first < |symbols|
        invariant first <= |symbols|
        invariant done + Batched(symbols[first..], batchSize) == Batched(symbols, batchSize)
        invariant files == UpdateAll(old(files), listing, download, done)
        invariant fetched == TaskCount(old(files), listing, download, done)
        decreases |symbols| - first
      {
        var last: nat := if first + batchSize < |symbols| then first + batchSize else |symbols|;
        var batch := Unique(symbols[first..last]);
        var count := UpdateBatch(batch, listing, download);
        NextBatch(symbols, batchSize, first, last);
        RunsConcat(old(files), listing, download, done, batch);
        fetched, first := fetched + count, last;
        done := done + batch;
      }
      NoBatches(batchSize);
      assert symbols[|symbols|..] == [] && done + [] == done;
      r := Ok(fetched);
    }

    method UpdateBatch(batch: seq<string>, listing: Listing, download: Download) returns (count: nat)
      requires Distinct(batch)
      modifies this
      ensures files == UpdateAll(old(files), listing, download, batch)
      ensures count == TaskCount(old(files), listing, download, batch)
    {
      hide UpdateAll;
      hide TaskCount;
      hide Save;
      hide TasksFor;
      hide Fetched;
      hide Distinct;
      ghost var start := files;
      NoSymbols(files, listing, download);
      assert batch[..0] == [];
      var tasks: seq<seq<File>> := [];
      count := 0;
      for k := 0 to |batch|
        invariant files == start && |tasks| == k
        invariant forall j :: 0 <= j < k ==> tasks[j] == TasksFor(start, listing, batch[j])
        invariant count == TaskCount(start, listing, download, batch[..k])
      {
        PlanNext(start, listing, download, batch, k);
        var planned := TasksFor(files, listing, batch[k]);
        tasks := tasks + [planned];
        count := count + |planned|;
      }
      var new': seq<seq<seq<Row>>> := [];
      for k := 0 to |batch|
        invariant files == start && |new'| == k
        invariant forall j :: 0 <= j < k ==> new'[j] == Fetched(batch[j], tasks[j], download)
      {
        new' := new' + [Fetched(batch[k], tasks[k], download)];
      }
      for k := 0 to |batch|
        invariant files == UpdateAll(start, listing, download, batch[..k])
        invariant |tasks| == |new'| == |batch|
      {
        PlanNext(start, listing, download, batch, k);
        files := Save(files, batch[k], new'[k]);
      }
      assert batch[..|batch|] == batch;
    }
  }

  lemma NoSymbols(cache: Cache, listing: Listing, download: Download)
    ensures UpdateAll(cache, listing, download, []) == cache && TaskCount(cache, listing, download, []) == 0
  {
  }

  lemma NoBatches(batchSize: nat)
    requires batchSize > 0
    ensures Batched([], batchSize) == []
  {
  }

  lemma NextBatch(symbols: seq<string>, batchSize: nat, first: nat, last: nat)
    requires batchSize > 0 && first < |symbols|
    requires last == if first + batchSize < |symbols| then first + batchSize else |symbols|
    ensures Batched(symbols[first..], batchSize) == Unique(symbols[first..last]) + Batched(symbols[last..], batchSize)
  {
    if |symbols[first..]| <= batchSize {
      NoBatches(batchSize);
      assert symbols[last..] == [] && symbols[first..last] == symbols[first..];
    } else {
      assert symbols[first..][..batchSize] == symbols[first..last] && symbols[first..][batchSize..] == symbols[last..];
    }
  }

  /** Planning from the cache at the start of a batch is as good as planning from the cache just before the save. */
  lemma PlanNext(start: Cache, listing: Listing, download: Download, batch: seq<string>, k: nat)
    requires Distinct(batch) && k < |batch|
    ensures UpdateAll(start, listing, download, batch[..k + 1])
         == Save(UpdateAll(start, listing, download, batch[..k]), batch[k],
           Fetched(batch[k], TasksFor(start, listing, batch[k]), download))
    ensures TaskCount(start, listing, download, batch[..k + 1])
         == TaskCount(start, listing, download, batch[..k]) + |TasksFor(start, listing, batch[k])|
  {
    hide Save;
    hide Fetched;
    OthersUntouched(start, listing, download, batch, k, k);
    assert batch[..k + 1][..k] == batch[..k];
  }

  /** Updating the first `k` symbols leaves the rows of a later one alone. */
  lemma {:induction false} OthersUntouched(
    cache: Cache, listing: Listing, download: Download, symbols: seq<string>, k: nat, j: nat)
    requires Distinct(symbols) && k <= j < |symbols|
    ensures Cached(UpdateAll(cache, listing, download, symbols[..k]), symbols[j]) == Cached(cache, symbols[j])
  {
    hide Fetched;
    if k > 0 {
      assert symbols[..k][..k - 1] == symbols[..k - 1];
      OthersUntouched(cache, listing, download, symbols, k - 1, j);
    }
  }

  /** Two runs in a row are one run over both lists of symbols. */
  lemma {:induction false} RunsConcat(
    cache: Cache, listing: Listing, download: Download, a: seq<string>, b: seq<string>)
    ensures UpdateAll(cache, listing, download, a + b)
        == UpdateAll(UpdateAll(cache, listing, download, a), listing, download, b)
    ensures TaskCount(cache, listing, download, a + b)
         == TaskCount(cache, listing, download, a)
           + TaskCount(UpdateAll(cache, listing, download, a), listing, download, b)
  {
    hide UpdateSymbol;
    hide TasksFor;
    if b == [] {
      assert a + b == a;
    } else {
      RunsConcat(cache, listing, download, a, b[..|b| - 1]);
      assert (a + b)[..|a + b| - 1] == a + b[..|b| - 1];
    }
  }

  /** With no symbol listed twice the batch size makes no difference. */
  lemma {:induction false} BatchSizeIsIrrelevant(symbols: seq<string>, batchSize: nat)
    requires batchSize > 0 && Distinct(symbols)
    ensures Batched(symbols, batchSize) == symbols
  {
    if |symbols| <= batchSize {
      UniqueOfDistinct(symbols);
    } else {
      UniqueOfDistinct(symbols[..batchSize]);
      BatchSizeIsIrrelevant(symbols[batchSize..], batchSize);
      assert symbols[..batchSize] + symbols[batchSize..] == symbols;
    }
  }

  lemma {:induction false} UniqueOfDistinct(symbols: seq<string>)
    requires Distinct(symbols)
    ensures Unique(symbols) == symbols
  {
    if symbols != [] {
      UniqueOfDistinct(symbols[..|symbols| - 1]);
      assert symbols == symbols[..|symbols| - 1] + [symbols[|symbols| - 1]];
    }
  }

  /** In any case a run works through exactly the symbols it is given. */
  lemma {:induction false} BatchesCoverSymbols(symbols: seq<string>, batchSize: nat, symbol: string)
    requires batchSize > 0
    ensures symbol in Batched(symbols, batchSize) <==> symbol in symbols
  {
    if |symbols| > batchSize {
      BatchesCoverSymbols(symbols[batchSize..], batchSize, symbol);
      assert symbols == symbols[..batchSize] + symbols[batchSize..];
    }
  }
}
