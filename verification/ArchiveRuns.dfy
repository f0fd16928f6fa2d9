/** What any sequence of complete, interrupted and failing runs leaves in the klines cache. */
module ArchiveRuns {
  import opened Numbers
  import opened ArchiveCache

  // ---------- a well-formed archive ----------

  ghost predicate DistinctDates(rows: seq<Row>) {
    forall i, j :: 0 <= i < j < |rows| ==> rows[i].date != rows[j].date
  }

  /** A monthly file has rows, all of its own month, one per date. */
  ghost predicate Monthly(file: File) {
    file.month.Some? ==>
      && file.rows != [] && DistinctDates(file.rows)
      && forall i :: 0 <= i < |file.rows| ==> file.rows[i].date.month == file.month.value
  }

  /** One file a month. */
  ghost predicate WellFormed(files: seq<File>) {
    && (forall i :: 0 <= i < |files| ==> Monthly(files[i]))
    && (forall i, j :: 0 <= i < j < |files| && files[i].month.Some? ==> files[i].month != files[j].month)
  }

  ghost predicate Archive(listing: Listing) {
    forall symbol :: WellFormed(listing(symbol))
  }

  /** A download can fail, but what it brings is the file. */
  ghost predicate Honest(download: Download) {
    forall symbol, file :: download(symbol, file).Some? ==> download(symbol, file).value == file.rows
  }

  ghost predicate Flawless(download: Download) {
    forall symbol, file :: download(symbol, file) == Some(file.rows)
  }

  // ---------- sorting and de-duplication ----------

  ghost predicate Sorted(rows: seq<Row>) {
    forall i, j :: 0 <= i < j < |rows| ==> Before(rows[i].date, rows[j].date)
  }

  lemma {:induction false} KeepLastOfDistinct(rows: seq<Row>)
    requires DistinctDates(rows)
    ensures KeepLast(rows) == rows
  {
    if rows != [] {
      KeepLastOfDistinct(rows[1..]);
    }
  }

  lemma {:induction false} InsertKeepsOrder(row: Row, rows: seq<Row>)
    requires Sorted(rows) && forall i :: 0 <= i < |rows| ==> rows[i].date != row.date
    ensures Sorted(InsertRow(row, rows))
    ensures forall r :: r in InsertRow(row, rows) <==> r == row || r in rows
  {
    if rows != [] && !Before(row.date, rows[0].date) {
      InsertKeepsOrder(row, rows[1..]);
      var rest := InsertRow(row, rows[1..]);
      forall i | 0 <= i < |rest|
        ensures Before(rows[0].date, rest[i].date)
      {
        assert rest[i] in rest;
        if rest[i] != row {
          assert rest[i] in rows[1..];
        }
      }
      assert rows == [rows[0]] + rows[1..];
    }
  }

  lemma {:induction false} SortSorts(rows: seq<Row>)
    requires DistinctDates(rows)
    ensures Sorted(SortByDate(rows))
    ensures forall r :: r in SortByDate(rows) <==> r in rows
  {
    if rows != [] {
      SortSorts(rows[1..]);
      var rest := SortByDate(rows[1..]);
      forall i | 0 <= i < |rest|
        ensures rest[i].date != rows[0].date
      {
        assert rest[i] in rest;
        var j :| 0 <= j < |rows[1..]| && rows[1..][j] == rest[i];
        assert rows[1 + j] == rest[i];
      }
      InsertKeepsOrder(rows[0], rest);
      assert rows == [rows[0]] + rows[1..];
    }
  }

  /** Two sorted lists of the same rows are the same list. */
  lemma {:induction false} SortedIsUnique(a: seq<Row>, b: seq<Row>)
    requires Sorted(a) && Sorted(b) && forall row :: row in a <==> row in b
    ensures a == b
  {
    assert b != [] ==> b[0] in a;
    if a != [] {
      assert a[0] in b && b != [];
      assert b[0] in a;
      FirstIsEarliest(a, b[0]);
      FirstIsEarliest(b, a[0]);
      forall row
        ensures row in a[1..] <==> row in b[1..]
      {
        InTail(a, row);
        InTail(b, row);
      }
      SortedIsUnique(a[1..], b[1..]);
      assert a == [a[0]] + a[1..] && b == [b[0]] + b[1..];
    }
  }

  lemma FirstIsEarliest(rows: seq<Row>, row: Row)
    requires Sorted(rows) && row in rows
    ensures rows != [] && (row == rows[0] || Before(rows[0].date, row.date))
  {
  }

  lemma InTail(rows: seq<Row>, row: Row)
    requires rows != [] && Sorted(rows)
    ensures row in rows[1..] <==> row in rows && row != rows[0]
  {
    if row in rows && row != rows[0] {
      var i :| 0 <= i < |rows| && rows[i] == row;
      assert rows[1..][i - 1] == row;
    }
  }

  // ---------- what one symbol's update adds ----------

  ghost predicate Missing(file: File, have: set<int>) {
    file.month.Some? && file.month.value !in have
  }

  ghost predicate Arrives(symbol: string, file: File, have: set<int>, download: Download) {
    Missing(file, have) && download(symbol, file).Some?
  }

  ghost function NewRows(symbol: string, files: seq<File>, have: set<int>, download: Download): seq<Row> {
    Concat(Fetched(symbol, Tasks(files, have), download))
  }

  lemma NewRowsAppend(symbol: string, files: seq<File>, have: set<int>, download: Download)
    requires files != [] && Honest(download) && Monthly(files[|files| - 1])
    ensures NewRows(symbol, files, have, download)
         == NewRows(symbol, files[..|files| - 1], have, download)
          + if Arrives(symbol, files[|files| - 1], have, download) then files[|files| - 1].rows else []
  {
    var file := files[|files| - 1];
    var tasks := Tasks(files[..|files| - 1], have);
    if Missing(file, have) {
      FetchedAppend(symbol, tasks, file, download);
      if download(symbol, file).Some? {
        ConcatAppend(Fetched(symbol, tasks, download), file.rows);
      } else {
        assert Fetched(symbol, Tasks(files, have), download) == Fetched(symbol, tasks, download);
      }
    } else {
      assert Tasks(files, have) == tasks;
    }
  }

  lemma FetchedAppend(symbol: string, tasks: seq<File>, file: File, download: Download)
    requires Honest(download) && file.rows != []
    ensures Fetched(symbol, tasks + [file], download)
         == Fetched(symbol, tasks, download) + if download(symbol, file).Some? then [file.rows] else []
  {
    assert (tasks + [file])[..|tasks|] == tasks;
  }

  lemma ConcatAppend(frames: seq<seq<Row>>, frame: seq<Row>)
    ensures Concat(frames + [frame]) == Concat(frames) + frame
  {
    assert (frames + [frame])[..|frames|] == frames;
  }

  /** Whether `row` comes in with some listed file of a month not cached. */
  ghost predicate Incoming(symbol: string, files: seq<File>, have: set<int>, download: Download, row: Row) {
    exists i :: 0 <= i < |files| && Arrives(symbol, files[i], have, download) && row in files[i].rows
  }

  lemma {:induction false} NewRowsAre(symbol: string, files: seq<File>, have: set<int>, download: Download)
    requires WellFormed(files) && Honest(download)
    ensures DistinctDates(NewRows(symbol, files, have, download))
    ensures forall row ::
              row in NewRows(symbol, files, have, download) <==> Incoming(symbol, files, have, download, row)
  {
    if files != [] {
      var n := |files| - 1;
      var init, file := files[..n], files[n];
      NewRowsAre(symbol, init, have, download);
      NewRowsAppend(symbol, files, have, download);
      forall row
        ensures Incoming(symbol, files, have, download, row)
           <==> (|| Incoming(symbol, init, have, download, row)
                 || (Arrives(symbol, file, have, download) && row in file.rows))
      {
        IncomingAppend(symbol, files, have, download, row);
      }
      if Arrives(symbol, file, have, download) {
        DistinctAppend(symbol, files, have, download);
      }
    }
  }

  lemma IncomingAppend(symbol: string, files: seq<File>, have: set<int>, download: Download, row: Row)
    requires files != []
    ensures Incoming(symbol, files, have, download, row)
       <==> Incoming(symbol, files[..|files| - 1], have, download, row)
            || (Arrives(symbol, files[|files| - 1], have, download) && row in files[|files| - 1].rows)
  {
    var n := |files| - 1;
    if Incoming(symbol, files[..n], have, download, row) {
      var i :| 0 <= i < n && Arrives(symbol, files[..n][i], have, download) && row in files[..n][i].rows;
      assert files[i] == files[..n][i];
    }
    if Incoming(symbol, files, have, download, row) {
      var i :| 0 <= i < |files| && Arrives(symbol, files[i], have, download) && row in files[i].rows;
      assert i < n ==> files[..n][i] == files[i];
    }
  }

  lemma DistinctAppend(symbol: string, files: seq<File>, have: set<int>, download: Download)
    requires files != [] && WellFormed(files)
    requires var init := NewRows(symbol, files[..|files| - 1], have, download);
             && DistinctDates(init)
             && forall row :: row in init ==> Incoming(symbol, files[..|files| - 1], have, download, row)
    requires files[|files| - 1].month.Some?
    ensures DistinctDates(NewRows(symbol, files[..|files| - 1], have, download) + files[|files| - 1].rows)
  {
    var n := |files| - 1;
    var init, file := NewRows(symbol, files[..n], have, download), files[n];
    forall k | 0 <= k < |init|
      ensures init[k].date.month != file.month.value
    {
      assert init[k] in init;
      var i :| 0 <= i < n && Arrives(symbol, files[..n][i], have, download) && init[k] in files[..n][i].rows;
      assert files[i] == files[..n][i] && Monthly(files[i]);
    }
    assert Monthly(file);
  }

  // ---------- soundness ----------

  /** `row` belongs to a listed monthly file of one of the `months`. */
  ghost predicate Listed(files: seq<File>, months: set<int>, row: Row) {
    exists i :: 0 <= i < |files| && files[i].month.Some? && files[i].month.value in months && row in files[i].rows
  }

  /** The cached rows are in order, and are all the rows of whichever months they touch. */
  ghost predicate Sound(rows: seq<Row>, files: seq<File>) {
    Sorted(rows) && forall row :: row in rows <==> Listed(files, Months(rows), row)
  }

  ghost predicate FromMonthly(files: seq<File>, row: Row) {
    exists i :: 0 <= i < |files| && files[i].month.Some? && row in files[i].rows
  }

  /** The cached rows are in order, and are all the rows of all listed monthly files. */
  ghost predicate Complete(rows: seq<Row>, files: seq<File>) {
    Sorted(rows) && forall row :: row in rows <==> FromMonthly(files, row)
  }

  ghost function Merged(rows: seq<Row>, symbol: string, files: seq<File>, download: Download): seq<Row> {
    SortByDate(KeepLast(rows + NewRows(symbol, files, Months(rows), download)))
  }

  lemma MonthOfRow(rows: seq<Row>, row: Row)
    requires row in rows
    ensures row.date.month in Months(rows)
  {
  }

  /** The rows after an update are the rows before it and those that came in. */
  lemma MergedRows(rows: seq<Row>, symbol: string, files: seq<File>, download: Download)
    requires Sorted(rows) && WellFormed(files) && Honest(download)
    ensures Sorted(Merged(rows, symbol, files, download))
    ensures forall row ::
              row in Merged(rows, symbol, files, download)
              <==> row in rows || Incoming(symbol, files, Months(rows), download, row)
  {
    hide Months;
    var have := Months(rows);
    var new' := NewRows(symbol, files, have, download);
    NewRowsAre(symbol, files, have, download);
    forall i, j | 0 <= i < |rows| && 0 <= j < |new'|
      ensures rows[i].date != new'[j].date
    {
      MonthOfRow(rows, rows[i]);
      assert new'[j] in new';
      var k :| 0 <= k < |files| && Arrives(symbol, files[k], have, download) && new'[j] in files[k].rows;
      assert Monthly(files[k]);
    }
    DistinctUnion(rows, new');
    KeepLastOfDistinct(rows + new');
    SortSorts(rows + new');
  }

  lemma DistinctUnion(a: seq<Row>, b: seq<Row>)
    requires Sorted(a) && DistinctDates(b)
    requires forall i, j :: 0 <= i < |a| && 0 <= j < |b| ==> a[i].date != b[j].date
    ensures DistinctDates(a + b)
  {
  }

  lemma IncomingIsListed(
    rows: seq<Row>, symbol: string, files: seq<File>, download: Download, row: Row, merged: seq<Row>)
    requires Sound(rows, files) && WellFormed(files)
    requires forall r :: r in merged <==> r in rows || Incoming(symbol, files, Months(rows), download, r)
    ensures Listed(files, Months(merged), row) <==> row in rows || Incoming(symbol, files, Months(rows), download, row)
  {
    hide Sorted;
    hide DistinctDates;
    var have := Months(rows);
    if row in rows {
      assert Listed(files, have, row);
      var i :| 0 <= i < |files| && files[i].month.Some? && files[i].month.value in have && row in files[i].rows;
      assert Monthly(files[i]);
      assert row in merged;
      MonthOfRow(merged, row);
    } else if Incoming(symbol, files, have, download, row) {
      var i :| 0 <= i < |files| && Arrives(symbol, files[i], have, download) && row in files[i].rows;
      assert Monthly(files[i]);
      assert row in merged;
      MonthOfRow(merged, row);
    } else if Listed(files, Months(merged), row) {
      var i :| 0 <= i < |files| && files[i].month.Some? && files[i].month.value in Months(merged)
        && row in files[i].rows;
      var k :| 0 <= k < |merged| && merged[k].date.month == files[i].month.value;
      assert merged[k] in merged;
      SameMonthArrives(rows, symbol, files, download, merged[k], i, row);
    }
  }

  /** When one row of a month is cached or comes in, every row of that month's file is cached or comes in. */
  lemma SameMonthArrives(
    rows: seq<Row>, symbol: string, files: seq<File>, download: Download, sibling: Row, i: nat, row: Row)
    requires Sound(rows, files) && WellFormed(files) && i < |files|
    requires files[i].month == Some(sibling.date.month) && row in files[i].rows
    requires sibling in rows || Incoming(symbol, files, Months(rows), download, sibling)
    ensures row in rows || Incoming(symbol, files, Months(rows), download, row)
  {
    hide Sorted;
    hide DistinctDates;
    var have := Months(rows);
    if sibling in rows {
      MonthOfRow(rows, sibling);
      assert Listed(files, have, row);
    } else {
      var k :| 0 <= k < |files| && Arrives(symbol, files[k], have, download) && sibling in files[k].rows;
      assert Monthly(files[k]);
      assert files[k].month == files[i].month;
      assert k == i;
    }
  }

  lemma MergedIsSound(rows: seq<Row>, symbol: string, files: seq<File>, download: Download)
    requires Sound(rows, files) && WellFormed(files) && Honest(download)
    ensures Sound(Merged(rows, symbol, files, download), files)
  {
    hide Merged;
    hide Listed;
    hide Incoming;
    hide Months;
    MergedRows(rows, symbol, files, download);
    var merged := Merged(rows, symbol, files, download);
    forall row
      ensures row in merged <==> Listed(files, Months(merged), row)
    {
      IncomingIsListed(rows, symbol, files, download, row, merged);
    }
  }

  /** With every download arriving, nothing of the listed months is missing afterwards. */
  lemma MergedIsComplete(rows: seq<Row>, symbol: string, files: seq<File>, download: Download)
    requires Sound(rows, files) && WellFormed(files) && Flawless(download)
    ensures Complete(Merged(rows, symbol, files, download), files)
  {
    hide Merged;
    hide DistinctDates;
    MergedRows(rows, symbol, files, download);
    var have, merged := Months(rows), Merged(rows, symbol, files, download);
    forall row
      ensures row in merged <==> FromMonthly(files, row)
    {
      if FromMonthly(files, row) {
        var i :| 0 <= i < |files| && files[i].month.Some? && row in files[i].rows;
        if files[i].month.value in have {
          assert Listed(files, have, row);
        } else {
          assert Arrives(symbol, files[i], have, download);
        }
      }
    }
  }

  // ---------- runs ----------

  /**
   * One symbol's update in terms of its rows: unchanged when nothing came in, which is also what merging nothing would
   * give.
   */
  lemma UpdateIsMerge(cache: Cache, listing: Listing, download: Download, symbol: string)
    requires Sorted(Cached(cache, symbol)) && WellFormed(listing(symbol)) && Honest(download)
    ensures Cached(UpdateSymbol(cache, listing, download, symbol), symbol)
        == Merged(Cached(cache, symbol), symbol, listing(symbol), download)
    ensures forall other :: other != symbol ==>
              Cached(UpdateSymbol(cache, listing, download, symbol), other) == Cached(cache, other)
  {
    hide SortByDate;
    hide KeepLast;
    hide Fetched;
    var rows := Cached(cache, symbol);
    var frames := Fetched(symbol, TasksFor(cache, listing, symbol), download);
    if frames == [] {
      assert rows + Concat(frames) == rows;
      SortedStays(rows);
    }
  }

  lemma SortedStays(rows: seq<Row>)
    requires Sorted(rows)
    ensures SortByDate(KeepLast(rows)) == rows
  {
    KeepLastOfDistinct(rows);
    SortSorts(rows);
    SortedIsUnique(SortByDate(rows), rows);
  }

  ghost predicate SoundCache(cache: Cache, listing: Listing) {
    forall symbol :: Sound(Cached(cache, symbol), listing(symbol))
  }

  lemma {:induction false} RunKeepsSound(cache: Cache, listing: Listing, download: Download, symbols: seq<string>)
    requires SoundCache(cache, listing) && Archive(listing) && Honest(download)
    ensures SoundCache(UpdateAll(cache, listing, download, symbols), listing)
  {
    hide Sound;
    hide WellFormed;
    hide Honest;
    hide UpdateSymbol;
    hide Merged;
    hide Cached;
    if symbols != [] {
      var last := symbols[|symbols| - 1];
      var before := UpdateAll(cache, listing, download, symbols[..|symbols| - 1]);
      RunKeepsSound(cache, listing, download, symbols[..|symbols| - 1]);
      SoundIsSorted(Cached(before, last), listing(last));
      UpdateIsMerge(before, listing, download, last);
      MergedIsSound(Cached(before, last), last, listing(last), download);
    }
  }

  lemma SoundIsSorted(rows: seq<Row>, files: seq<File>)
    requires Sound(rows, files)
    ensures Sorted(rows)
  {
  }

  lemma FlawlessIsHonest(download: Download)
    requires Flawless(download)
    ensures Honest(download)
  {
  }

  lemma {:induction false} NothingMissing(files: seq<File>, have: set<int>)
    requires forall i :: 0 <= i < |files| ==> !Missing(files[i], have)
    ensures Tasks(files, have) == []
  {
    if files != [] {
      NothingMissing(files[..|files| - 1], have);
    }
  }

  lemma CompleteHasNoTasks(cache: Cache, listing: Listing, symbol: string)
    requires Complete(Cached(cache, symbol), listing(symbol)) && WellFormed(listing(symbol))
    ensures TasksFor(cache, listing, symbol) == []
  {
    hide Tasks;
    hide Sorted;
    hide DistinctDates;
    var rows, files := Cached(cache, symbol), listing(symbol);
    forall i | 0 <= i < |files|
      ensures !Missing(files[i], Months(rows))
    {
      if files[i].month.Some? {
        assert Monthly(files[i]);
        assert FromMonthly(files, files[i].rows[0]);
        MonthOfRow(rows, files[i].rows[0]);
      }
    }
    NothingMissing(files, Months(rows));
  }

  /** A run in which every download arrives completes each of its symbols, whatever it found cached. */
  lemma {:induction false} FlawlessRunCompletes(
    cache: Cache, listing: Listing, download: Download, symbols: seq<string>, symbol: string)
    requires SoundCache(cache, listing) && Archive(listing) && Flawless(download) && symbol in symbols
    ensures Complete(Cached(UpdateAll(cache, listing, download, symbols), symbol), listing(symbol))
  {
    hide Sound;
    hide Complete;
    hide WellFormed;
    hide UpdateSymbol;
    hide Merged;
    hide Cached;
    hide Honest;
    hide Flawless;
    var init, last := symbols[..|symbols| - 1], symbols[|symbols| - 1];
    var before := UpdateAll(cache, listing, download, init);
    FlawlessIsHonest(download);
    RunKeepsSound(cache, listing, download, init);
    SoundIsSorted(Cached(before, last), listing(last));
    UpdateIsMerge(before, listing, download, last);
    if symbol == last {
      MergedIsComplete(Cached(before, last), last, listing(last), download);
    } else {
      assert symbols == init + [last];
      FlawlessRunCompletes(cache, listing, download, init, symbol);
    }
  }

  /** Once every symbol is complete, a further run downloads nothing and changes nothing. */
  lemma {:induction false} FurtherRunIsIdle(cache: Cache, listing: Listing, download: Download, symbols: seq<string>)
    requires Archive(listing)
    requires forall k :: 0 <= k < |symbols| ==> Complete(Cached(cache, symbols[k]), listing(symbols[k]))
    ensures TaskCount(cache, listing, download, symbols) == 0
    ensures UpdateAll(cache, listing, download, symbols) == cache
  {
    hide Complete;
    hide TasksFor;
    if symbols != [] {
      var n := |symbols| - 1;
      assert forall k :: 0 <= k < n ==> symbols[..n][k] == symbols[k];
      FurtherRunIsIdle(cache, listing, download, symbols[..n]);
      CompleteHasNoTasks(cache, listing, symbols[n]);
    }
  }

  // ---------- histories ----------

  /**
   * A run that was interrupted is one over fewer symbols; a run with failures is one whose downloads did not all
   * arrive.
   */
  datatype PastRun = PastRun(symbols: seq<string>, download: Download)

  ghost function AfterRuns(listing: Listing, runs: seq<PastRun>): Cache {
    if runs == [] then map[]
    else
      var last := runs[|runs| - 1];
      UpdateAll(AfterRuns(listing, runs[..|runs| - 1]), listing, last.download, last.symbols)
  }

  lemma {:induction false} HistoryIsSound(listing: Listing, runs: seq<PastRun>)
    requires Archive(listing) && forall i :: 0 <= i < |runs| ==> Honest(runs[i].download)
    ensures SoundCache(AfterRuns(listing, runs), listing)
  {
    if runs != [] {
      var last := runs[|runs| - 1];
      HistoryIsSound(listing, runs[..|runs| - 1]);
      RunKeepsSound(AfterRuns(listing, runs[..|runs| - 1]), listing, last.download, last.symbols);
    } else {
      EmptyIsSound(listing);
    }
  }

  lemma EmptyIsSound(listing: Listing)
    ensures SoundCache(map[], listing)
  {
    forall symbol
      ensures Sound(Cached(map[], symbol), listing(symbol))
    {
      assert Months([]) == {};
    }
  }

  /**
   * After any history of interrupted runs and failed files, one run without failures leaves each of its symbols with
   * exactly the rows of all its monthly files, in order: the same cache a first run without failures would leave,
   * whatever the batch sizes of the two.
   */
  lemma ResumedRunEqualsFresh(
    listing: Listing, runs: seq<PastRun>, download: Download, symbols: seq<string>, size: nat, size': nat,
    symbol: string)
    requires Archive(listing) && forall i :: 0 <= i < |runs| ==> Honest(runs[i].download)
    requires Flawless(download) && symbol in symbols && 0 < size && 0 < size'
    ensures var resumed := UpdateAll(AfterRuns(listing, runs), listing, download, Batched(symbols, size));
            var fresh' := UpdateAll(map[], listing, download, Batched(symbols, size'));
            && Complete(Cached(resumed, symbol), listing(symbol))
            && Cached(resumed, symbol) == Cached(fresh', symbol)
  {
    hide SoundCache;
    hide UpdateAll;
    hide AfterRuns;
    hide FromMonthly;
    hide Batched;
    HistoryIsSound(listing, runs);
    EmptyIsSound(listing);
    BatchesCoverSymbols(symbols, size, symbol);
    BatchesCoverSymbols(symbols, size', symbol);
    FlawlessRunCompletes(AfterRuns(listing, runs), listing, download, Batched(symbols, size), symbol);
    FlawlessRunCompletes(map[], listing, download, Batched(symbols, size'), symbol);
    SortedIsUnique(Cached(UpdateAll(AfterRuns(listing, runs), listing, download, Batched(symbols, size)), symbol),
                   Cached(UpdateAll(map[], listing, download, Batched(symbols, size')), symbol));
  }

  /** After such a run another one, of any batch size and with any luck, starts no download and changes nothing. */
  lemma CompletedRunIsIdle(
    listing: Listing, runs: seq<PastRun>, download: Download, again: Download, symbols: seq<string>, size: nat,
    size': nat)
    requires Archive(listing) && forall i :: 0 <= i < |runs| ==> Honest(runs[i].download)
    requires Flawless(download) && 0 < size && 0 < size'
    ensures var resumed := UpdateAll(AfterRuns(listing, runs), listing, download, Batched(symbols, size));
            && TaskCount(resumed, listing, again, Batched(symbols, size')) == 0
            && UpdateAll(resumed, listing, again, Batched(symbols, size')) == resumed
  {
    hide Complete;
    hide UpdateAll;
    hide AfterRuns;
    hide Batched;
    var resumed, later := UpdateAll(AfterRuns(listing, runs), listing, download, Batched(symbols, size)),
      Batched(symbols, size');
    forall k | 0 <= k < |later|
      ensures Complete(Cached(resumed, later[k]), listing(later[k]))
    {
      BatchesCoverSymbols(symbols, size', later[k]);
      ResumedRunEqualsFresh(listing, runs, download, symbols, size, size', later[k]);
    }
    FurtherRunIsIdle(resumed, listing, again, later);
  }

  // ---------- what planning and saving do, whatever the files hold ----------

  /** The planned files are the listed ones of a month that is not cached. */
  lemma {:induction false} TasksMean(files: seq<File>, have: set<int>)
    ensures forall file :: file in Tasks(files, have) <==> file in files && Missing(file, have)
    ensures |Tasks(files, have)| == |set i | 0 <= i < |files| && Missing(files[i], have)|
  {
    if files != [] {
      var n := |files| - 1;
      var init := files[..n];
      TasksMean(init, have);
      assert files == init + [files[n]];
      var before := set i | 0 <= i < |init| && Missing(init[i], have);
      var all := set i | 0 <= i < |files| && Missing(files[i], have);
      assert all == before + if Missing(files[n], have) then {n} else {};
    }
  }

  /** Row `i` is the last with its date. */
  ghost predicate LastOfDate(rows: seq<Row>, i: int) {
    0 <= i < |rows| && forall j :: i < j < |rows| ==> rows[j].date != rows[i].date
  }

  ghost predicate IsLastRow(rows: seq<Row>, row: Row) {
    exists i :: LastOfDate(rows, i) && rows[i] == row
  }

  lemma {:induction false} KeepLastMeans(rows: seq<Row>)
    ensures DistinctDates(KeepLast(rows))
    ensures forall row :: row in KeepLast(rows) <==> IsLastRow(rows, row)
  {
    if rows != [] {
      var rest := rows[1..];
      KeepLastMeans(rest);
      forall row
        ensures row in KeepLast(rows) <==> IsLastRow(rows, row)
      {
        LastOfDateTail(rows, row);
      }
      if LastOfDate(rows, 0) {
        assert KeepLast(rows) == [rows[0]] + KeepLast(rest);
        forall k | 0 <= k < |KeepLast(rest)|
          ensures KeepLast(rest)[k].date != rows[0].date
        {
          assert KeepLast(rest)[k] in KeepLast(rest);
          var i :| LastOfDate(rest, i) && rest[i] == KeepLast(rest)[k];
          assert rest[i] == rows[i + 1];
        }
      }
    }
  }

  lemma {:induction false} LastOfDateTail(rows: seq<Row>, row: Row)
    requires rows != []
    ensures IsLastRow(rows, row) <==> (LastOfDate(rows, 0) && rows[0] == row) || IsLastRow(rows[1..], row)
  {
    var rest := rows[1..];
    assert forall i :: 0 <= i < |rest| ==> rest[i] == rows[i + 1];
    forall i | 0 <= i < |rest|
      ensures LastOfDate(rest, i) <==> LastOfDate(rows, i + 1)
    {
      if LastOfDate(rest, i) {
        forall j | i + 1 < j < |rows|
          ensures rows[j].date != rows[i + 1].date
        {
          assert rows[j] == rest[j - 1];
        }
      }
    }
    if i :| LastOfDate(rows, i) && rows[i] == row && i > 0 {
      assert LastOfDate(rest, i - 1) && rest[i - 1] == row;
    }
    if i :| LastOfDate(rest, i) && rest[i] == row {
      assert LastOfDate(rows, i + 1) && rows[i + 1] == row;
    }
  }

  /** Whatever came in, a saved symbol is in order of date, and of each date holds the row that came last. */
  lemma SavedRows(cache: Cache, symbol: string, frames: seq<seq<Row>>)
    requires frames != []
    ensures var rows, saved := Cached(cache, symbol) + Concat(frames), Cached(Save(cache, symbol, frames), symbol);
            && Sorted(saved)
            && forall row :: row in saved <==> IsLastRow(rows, row)
  {
    hide Concat;
    hide KeepLast;
    hide SortByDate;
    hide IsLastRow;
    hide Sorted;
    hide DistinctDates;
    var rows := Cached(cache, symbol) + Concat(frames);
    KeepLastMeans(rows);
    SortSorts(KeepLast(rows));
  }
}
