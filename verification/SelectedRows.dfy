/** The rows a selection takes, read a batch of databases at a time and matched to their units, in
    app/src/by_database.py: all together, exactly the rows the selection's own filter takes, each once.

    The filter is the one the selection's queries use to count and to list (app/src/queries.py). The units come from
    another path: the source's databases page by page, the databases named, and the tables named, each database once.
    That the two agree is what lets a job be written database by database. */
module SelectedRows {
  import opened Text
  import opened Selecting

  const DATABASES_PER_READ := 100
  const SEPARATOR: char := '\U{1f}'

  /** A database as the read matches it: lower-case server and name, joined by the unit separator. */
  function ReadKey(server: string, database: string): string {
    Lower(server) + ([SEPARATOR] + Lower(database))
  }

  /** The key tells databases apart, as no server's name holds the separator. */
  lemma {:induction false} KeyTellsApart(a: string, b: string, c: string, d: string)
    requires SEPARATOR !in a && SEPARATOR !in c && a + ([SEPARATOR] + b) == c + ([SEPARATOR] + d)
    ensures a == c && b == d
    decreases |a|
  {
    var s, t := a + ([SEPARATOR] + b), c + ([SEPARATOR] + d);
    assert a != "" ==> s[0] == a[0];
    assert c != "" ==> t[0] == c[0];
    assert a == "" ==> s[0] == SEPARATOR;
    assert c == "" ==> t[0] == SEPARATOR;
    if a == "" || c == "" {
      assert a == "" && c == "";
      assert s[1..] == b && t[1..] == d;
    } else {
      assert s[1..] == a[1..] + ([SEPARATOR] + b) && t[1..] == c[1..] + ([SEPARATOR] + d);
      KeyTellsApart(a[1..], b, c[1..], d);
      assert a == [a[0]] + a[1..] && c == [c[0]] + c[1..];
    }
  }

  predicate NoSeparator(server: string) {
    SEPARATOR !in Lower(server)
  }

  lemma SameKeySamePair(server: string, database: string, other: string, otherDatabase: string)
    requires NoSeparator(server) && NoSeparator(other)
    ensures ReadKey(server, database) == ReadKey(other, otherDatabase)
            <==> PairOf(server, database) == PairOf(other, otherDatabase)
  {
    if ReadKey(server, database) == ReadKey(other, otherDatabase) {
      KeyTellsApart(Lower(server), Lower(database), Lower(other), Lower(otherDatabase));
    }
  }

  function RowKey(row: Table): string {
    ReadKey(row.server, row.database)
  }

  function UnitKey(u: Unit): string {
    ReadKey(u.server, u.database)
  }

  predicate Keeps(u: Unit, row: Table) {
    u.every || TableName(row) in u.tables
  }

  predicate Takes(u: Unit, row: Table) {
    UnitKey(u) == RowKey(row) && Keeps(u, row)
  }

  function Taken(u: Unit, rows: seq<Table>, n: nat): seq<Table>
    requires n <= |rows|
  {
    if n == 0 then [] else Taken(u, rows, n - 1) + IfTaken(rows[n - 1], Takes(u, rows[n - 1]))
  }

  // ---- matching rows to units ---------------------------------------------------------------------------------------

  function RowsOfKey(rows: seq<Table>, key: string, n: nat): seq<Table>
    requires n <= |rows|
  {
    if n == 0 then [] else RowsOfKey(rows, key, n - 1) + if RowKey(rows[n - 1]) == key then [rows[n - 1]] else []
  }

  function Kept(u: Unit, rows: seq<Table>, n: nat): seq<Table>
    requires n <= |rows|
  {
    if n == 0 then [] else Kept(u, rows, n - 1) + if Keeps(u, rows[n - 1]) then [rows[n - 1]] else []
  }

  lemma {:induction false} KeptBefore(u: Unit, rows: seq<Table>, more: Table, n: nat)
    requires n <= |rows|
    ensures Kept(u, rows + [more], n) == Kept(u, rows, n)
    decreases n
  {
    if n > 0 {
      assert (rows + [more])[n - 1] == rows[n - 1];
      KeptBefore(u, rows, more, n - 1);
    }
  }

  lemma {:induction false} KeptOfKeyIsTaken(u: Unit, rows: seq<Table>, n: nat)
    requires n <= |rows|
    ensures var mine := RowsOfKey(rows, UnitKey(u), n); Kept(u, mine, |mine|) == Taken(u, rows, n)
    decreases n
  {
    if n > 0 {
      KeptOfKeyIsTaken(u, rows, n - 1);
      var mine := RowsOfKey(rows, UnitKey(u), n - 1);
      if RowKey(rows[n - 1]) == UnitKey(u) {
        KeptBefore(u, mine, rows[n - 1], |mine|);
        assert (mine + [rows[n - 1]])[|mine|] == rows[n - 1];
      } else {
        assert mine + [] == mine && Taken(u, rows, n - 1) + [] == Taken(u, rows, n - 1);
      }
    }
  }

  type Answer = seq<(Unit, seq<Table>)>

  /** Each of the first n units with the rows it takes. */
  function ByUnit(units: seq<Unit>, rows: seq<Table>, n: nat): (answer: Answer)
    requires n <= |units|
    ensures |answer| == n
  {
    if n == 0 then [] else ByUnit(units, rows, n - 1) + [(units[n - 1], Taken(units[n - 1], rows, |rows|))]
  }

  /** The rows by key, then each unit's of its key. */
  method RowsByUnit(units: seq<Unit>, rows: seq<Table>) returns (answer: Answer)
    ensures answer == ByUnit(units, rows, |units|)
  {
    var byKey := RowsByKey(rows);
    answer := [];
    for i := 0 to |units|
      invariant answer == ByUnit(units, rows, i)
    {
      var kept := KeepRows(units[i], Look(byKey, UnitKey(units[i])));
      KeptOfKeyIsTaken(units[i], rows, |rows|);
      answer := answer + [(units[i], kept)];
    }
  }

  function Look(byKey: map<string, seq<Table>>, key: string): seq<Table> {
    if key in byKey then byKey[key] else []
  }

  ghost predicate Filed(rows: seq<Table>, byKey: map<string, seq<Table>>, n: nat)
    requires n <= |rows|
  {
    forall key :: Look(byKey, key) == RowsOfKey(rows, key, n)
  }

  method RowsByKey(rows: seq<Table>) returns (byKey: map<string, seq<Table>>)
    ensures Filed(rows, byKey, |rows|)
  {
    byKey := map[];
    for i := 0 to |rows|
      invariant Filed(rows, byKey, i)
    {
      FileOne(rows, byKey, i);
      byKey := byKey[RowKey(rows[i]) := Look(byKey, RowKey(rows[i])) + [rows[i]]];
    }
  }

  lemma FileOne(rows: seq<Table>, byKey: map<string, seq<Table>>, i: nat)
    requires i < |rows| && Filed(rows, byKey, i)
    ensures Filed(rows, byKey[RowKey(rows[i]) := Look(byKey, RowKey(rows[i])) + [rows[i]]], i + 1)
  {
    var more := byKey[RowKey(rows[i]) := Look(byKey, RowKey(rows[i])) + [rows[i]]];
    forall key ensures Look(more, key) == RowsOfKey(rows, key, i + 1) {
      RowsOfKeyNext(rows, key, i);
    }
  }

  lemma RowsOfKeyNext(rows: seq<Table>, key: string, i: nat)
    requires i < |rows|
    ensures RowsOfKey(rows, key, i + 1)
            == if RowKey(rows[i]) == key then RowsOfKey(rows, key, i) + [rows[i]] else RowsOfKey(rows, key, i)
  {
  }

  method KeepRows(u: Unit, rows: seq<Table>) returns (kept: seq<Table>)
    ensures kept == Kept(u, rows, |rows|)
  {
    kept := [];
    for i := 0 to |rows|
      invariant kept == Kept(u, rows, i)
    {
      if Keeps(u, rows[i]) {
        kept := kept + [rows[i]];
      }
    }
  }

  // ---- batches ------------------------------------------------------------------------------------------------------

  function KeysOf(units: seq<Unit>, from: nat, to: nat): set<string>
    requires from <= to <= |units|
  {
    set i | from <= i < to :: UnitKey(units[i])
  }

  /** The rows of a batch's databases: what one statement reads. */
  function RowsOfKeys(source: seq<Table>, keys: set<string>, n: nat): seq<Table>
    requires n <= |source|
  {
    if n == 0 then [] else
      RowsOfKeys(source, keys, n - 1) + if RowKey(source[n - 1]) in keys then [source[n - 1]] else []
  }

  lemma {:induction false} TakenBefore(u: Unit, rows: seq<Table>, more: Table, n: nat)
    requires n <= |rows|
    ensures Taken(u, rows + [more], n) == Taken(u, rows, n)
    decreases n
  {
    if n > 0 {
      assert (rows + [more])[n - 1] == rows[n - 1];
      TakenBefore(u, rows, more, n - 1);
    }
  }

  lemma {:induction false} TakenOfBatch(u: Unit, source: seq<Table>, keys: set<string>, n: nat)
    requires n <= |source| && UnitKey(u) in keys
    ensures var read := RowsOfKeys(source, keys, n); Taken(u, read, |read|) == Taken(u, source, n)
    decreases n
  {
    if n > 0 {
      TakenOfBatch(u, source, keys, n - 1);
      var read := RowsOfKeys(source, keys, n - 1);
      if RowKey(source[n - 1]) in keys {
        TakenBefore(u, read, source[n - 1], |read|);
        assert (read + [source[n - 1]])[|read|] == source[n - 1];
      } else {
        assert read + [] == read && Taken(u, source, n - 1) + [] == Taken(u, source, n - 1);
      }
    }
  }

  /** The units a batch at a time, each batch's rows read together. */
  method ReadAll(units: seq<Unit>, source: seq<Table>) returns (answer: Answer)
    ensures answer == ByUnit(units, source, |units|)
  {
    answer := [];
    var at := 0;
    while at < |units|
      invariant at <= |units| && answer == ByUnit(units, source, at)
    {
      var end := if |units| - at <= DATABASES_PER_READ then |units| else at + DATABASES_PER_READ;
      var keys := KeysOf(units, at, end);
      var rows := RowsOfKeys(source, keys, |source|);
      var some := RowsByUnit(units[at..end], rows);
      BatchIsPart(units, source, at, end, end - at);
      answer := answer + some;
      at := end;
    }
  }

  lemma {:induction false} BatchIsPart(units: seq<Unit>, source: seq<Table>, at: nat, end: nat, n: nat)
    requires at <= end <= |units| && n <= end - at
    ensures var keys := KeysOf(units, at, end);
            ByUnit(units, source, at) + ByUnit(units[at..end], RowsOfKeys(source, keys, |source|), n)
                == ByUnit(units, source, at + n)
    decreases n
  {
    if n > 0 {
      var keys := KeysOf(units, at, end);
      var u := units[at + n - 1];
      BatchIsPart(units, source, at, end, n - 1);
      assert units[at..end][n - 1] == u && UnitKey(u) in keys;
      TakenOfBatch(u, source, keys, |source|);
    }
  }

  // ---- exactly the selection's rows ---------------------------------------------------------------------------------

  predicate AnyTakes(units: seq<Unit>, n: nat, row: Table)
    requires n <= |units|
  {
    n > 0 && (Takes(units[n - 1], row) || AnyTakes(units, n - 1, row))
  }

  ghost predicate Plain(units: seq<Unit>, source: seq<Table>) {
    && (forall i :: 0 <= i < |units| ==> NoSeparator(units[i].server))
    && (forall i :: 0 <= i < |source| ==> NoSeparator(source[i].server))
  }

  lemma {:induction false} PairOfTaker(units: seq<Unit>, n: nat, row: Table)
    requires n <= |units| && AnyTakes(units, n, row) && NoSeparator(row.server)
    requires forall i :: 0 <= i < |units| ==> NoSeparator(units[i].server)
    ensures PairOf(row.server, row.database) in WholePairs(units, n) + PartPairs(units, n)
    decreases n
  {
    var u := units[n - 1];
    if Takes(u, row) {
      SameKeySamePair(u.server, u.database, row.server, row.database);
    } else {
      PairOfTaker(units, n - 1, row);
    }
  }

  /** No row is taken by two units. */
  lemma TakenByOne(units: seq<Unit>, n: nat, row: Table)
    requires 0 < n <= |units| && Apart(units, n) && Takes(units[n - 1], row) && NoSeparator(row.server)
    requires forall i :: 0 <= i < |units| ==> NoSeparator(units[i].server)
    ensures !AnyTakes(units, n - 1, row)
  {
    SameKeySamePair(units[n - 1].server, units[n - 1].database, row.server, row.database);
    if AnyTakes(units, n - 1, row) {
      PairOfTaker(units, n - 1, row);
    }
  }

  function TakenByAny(units: seq<Unit>, n: nat, rows: seq<Table>, m: nat): seq<Table>
    requires n <= |units| && m <= |rows|
  {
    if m == 0 then [] else
      TakenByAny(units, n, rows, m - 1) + IfTaken(rows[m - 1], AnyTakes(units, n, rows[m - 1]))
  }

  lemma {:induction false} OneUnitMore(units: seq<Unit>, n: nat, source: seq<Table>, m: nat)
    requires 0 < n <= |units| && Apart(units, n) && Plain(units, source) && m <= |source|
    ensures multiset(TakenByAny(units, n, source, m))
            == multiset(TakenByAny(units, n - 1, source, m)) + multiset(Taken(units[n - 1], source, m))
    decreases m
  {
    if m > 0 {
      OneUnitMore(units, n, source, m - 1);
      var row := source[m - 1];
      if Takes(units[n - 1], row) {
        TakenByOne(units, n, row);
      }
      OneRowMore(TakenByAny(units, n, source, m - 1), TakenByAny(units, n - 1, source, m - 1),
          Taken(units[n - 1], source, m - 1),
                 row, AnyTakes(units, n, row), AnyTakes(units, n - 1, row), Takes(units[n - 1], row));
    }
  }

  function IfTaken(row: Table, taken: bool): seq<Table> {
    if taken then [row] else []
  }

  lemma OneRowMore(all: seq<Table>, before: seq<Table>, own: seq<Table>, row: Table, a: bool, b: bool, c: bool)
    requires multiset(all) == multiset(before) + multiset(own) && a == (b || c) && !(b && c)
    ensures multiset(all + IfTaken(row, a)) == multiset(before + IfTaken(row, b)) + multiset(own + IfTaken(row, c))
  {
  }

  /** Every row of an answer, unit after unit. */
  function RowsIn(answer: Answer, n: nat): seq<Table>
    requires n <= |answer|
  {
    if n == 0 then [] else RowsIn(answer, n - 1) + answer[n - 1].1
  }

  lemma {:induction false} RowsBefore(answer: Answer, more: (Unit, seq<Table>), n: nat)
    requires n <= |answer|
    ensures RowsIn(answer + [more], n) == RowsIn(answer, n)
    decreases n
  {
    if n > 0 {
      assert (answer + [more])[n - 1] == answer[n - 1];
      RowsBefore(answer, more, n - 1);
    }
  }

  lemma {:induction false} AnswerIsTaken(units: seq<Unit>, n: nat, source: seq<Table>)
    requires n <= |units| && Apart(units, n) && Plain(units, source)
    ensures multiset(RowsIn(ByUnit(units, source, n), n)) == multiset(TakenByAny(units, n, source, |source|))
    decreases n
  {
    if n == 0 {
      NoneTaken(units, source, |source|);
    } else {
      AnswerIsTaken(units, n - 1, source);
      OneUnitMore(units, n, source, |source|);
      RowsBefore(ByUnit(units, source, n - 1), (units[n - 1], Taken(units[n - 1], source, |source|)), n - 1);
    }
  }

  lemma {:induction false} NoneTaken(units: seq<Unit>, source: seq<Table>, m: nat)
    requires m <= |source|
    ensures TakenByAny(units, 0, source, m) == []
    decreases m
  {
    if m > 0 {
      NoneTaken(units, source, m - 1);
    }
  }

  /** The listing the pages give: the databases of the source whose name holds the filter, and only for a whole
      server. */
  ghost predicate ListingOf(selection: Selection, source: seq<Table>, listing: seq<Named>) {
    && (forall i :: 0 <= i < |source| && Covered(selection, source[i].database) ==>
          PairOf(source[i].server, source[i].database) in Listed(listing, |listing|))
    && (forall key :: key in Listed(listing, |listing|) ==> CoveredKey(selection, key))
  }

  lemma {:induction false} WholeIsTaken(units: seq<Unit>, n: nat, row: Table)
    requires n <= |units| && PairOf(row.server, row.database) in WholePairs(units, n)
    ensures AnyTakes(units, n, row)
    decreases n
  {
    if !(units[n - 1].every && UnitPair(units[n - 1]) == PairOf(row.server, row.database)) {
      WholeIsTaken(units, n - 1, row);
    }
  }

  lemma {:induction false} PartIsTaken(selection: Selection, units: seq<Unit>, n: nat, row: Table)
    requires n <= |units| && PairOf(row.server, row.database) in PartPairs(units, n) && PartsOk(selection, units)
    requires TableName(row) in TakenTables(selection, PairOf(row.server, row.database))
    ensures AnyTakes(units, n, row)
    decreases n
  {
    if !(!units[n - 1].every && UnitPair(units[n - 1]) == PairOf(row.server, row.database)) {
      PartIsTaken(selection, units, n - 1, row);
    }
  }

  lemma {:induction false} TakerSays(selection: Selection, units: seq<Unit>, n: nat, row: Table)
    requires n <= |units| && PartsOk(selection, units) && AnyTakes(units, n, row) && NoSeparator(row.server)
    requires forall i :: 0 <= i < |units| ==> NoSeparator(units[i].server)
    ensures var key := PairOf(row.server, row.database);
            key in WholePairs(units, n) || TableName(row) in TakenTables(selection, key)
    decreases n
  {
    var u := units[n - 1];
    if Takes(u, row) {
      SameKeySamePair(u.server, u.database, row.server, row.database);
    } else {
      TakerSays(selection, units, n - 1, row);
    }
  }

  lemma {:induction false} NamedWholeIs(selection: Selection, n: nat, key: Pair)
    requires n <= |selection.databases|
    ensures key in NamedWhole(selection, n)
            <==> !CoveredKey(selection, key) && exists i :: 0 <= i < n && NamedPair(selection.databases[i]) == key
    decreases n
  {
    if n > 0 {
      NamedWholeIs(selection, n - 1, key);
      assert NamedPair(selection.databases[n - 1]) == key
          ==> Covered(selection, selection.databases[n - 1].database) == CoveredKey(selection, key);
    }
  }

  lemma {:induction false} NamedOfIs(selection: Selection, n: nat, row: Table)
    requires n <= |selection.tables|
    ensures TableName(row) in NamedOf(selection, n, PairOf(row.server, row.database))
            <==> exists i :: 0 <= i < n && NamesTable(selection.tables[i], row)
    decreases n
  {
    if n > 0 {
      NamedOfIs(selection, n - 1, row);
    }
  }

  /** The selection takes the row's database whole. */
  predicate WholeOf(selection: Selection, row: Table) {
    || Covered(selection, row.database)
    || (exists i :: 0 <= i < |selection.databases| &&
          PairOf(selection.databases[i].server, selection.databases[i].database) == PairOf(row.server, row.database))
  }

  /** The row is named, but only under a spelling of its database met after the first. */
  predicate NamedLater(selection: Selection, row: Table) {
    !WholeOf(selection, row) && Selected(selection, row)
    && TableName(row) !in TakenTables(selection, PairOf(row.server, row.database))
  }

  /** A unit takes a row exactly when the selection does, but for a row named only under a later spelling. */
  lemma TakenIffSelected(selection: Selection, source: seq<Table>, listing: seq<Named>, units: seq<Unit>, k: nat)
    requires Chosen(selection, listing, units) && ListingOf(selection, source, listing) && Plain(units, source)
            && k < |source|
    ensures AnyTakes(units, |units|, source[k]) <==> Selected(selection, source[k]) && !NamedLater(selection, source[k])
  {
    var row := source[k];
    var key := PairOf(row.server, row.database);
    NamedWholeIs(selection, |selection.databases|, key);
    TakenAreNamed(selection, row);
    if AnyTakes(units, |units|, row) {
      TakerSays(selection, units, |units|, row);
    }
    if key in WholePairs(units, |units|) {
      WholeIsTaken(units, |units|, row);
    } else if key in PartPairs(units, |units|) && TableName(row) in TakenTables(selection, key) {
      PartIsTaken(selection, units, |units|, row);
    }
  }

  /** A table named under the first spelling is named. */
  lemma TakenAreNamed(selection: Selection, row: Table)
    ensures TableName(row) in TakenTables(selection, PairOf(row.server, row.database))
            ==> exists i :: 0 <= i < |selection.tables| && NamesTable(selection.tables[i], row)
  {
    var key := PairOf(row.server, row.database);
    NamedOfIs(selection, |selection.tables|, row);
    match FirstSpelled(selection, |selection.tables|, key)
    case None =>
    case Some(database) => SpelledIsNamed(selection, |selection.tables|, (key.0, key.1, database));
  }

  lemma {:induction false} SpelledIsNamed(selection: Selection, n: nat, key: Spelled)
    requires n <= |selection.tables|
    ensures SpelledTables(selection, n, key) <= NamedOf(selection, n, (key.0, key.1))
    decreases n
  {
    if n > 0 {
      SpelledIsNamed(selection, n - 1, key);
    }
  }

  /** No row of the source is named only under a later spelling. */
  ghost predicate NoneNamedLater(selection: Selection, source: seq<Table>) {
    forall k :: 0 <= k < |source| ==> !NamedLater(selection, source[k])
  }

  /** No database is spelled two ways among the entries that name tables. */
  ghost predicate OneSpelling(selection: Selection) {
    forall i, j :: 0 <= i < |selection.tables| && 0 <= j < |selection.tables| ==>
      SameSpelling(selection.tables[i], selection.tables[j])
  }

  predicate SameSpelling(a: NamedTables, b: NamedTables) {
    PairOf(a.server, a.database) == PairOf(b.server, b.database) ==> a.database == b.database
  }

  /** With each database spelled one way, no row is. */
  lemma OneSpellingNamesNoneLater(selection: Selection, source: seq<Table>)
    requires OneSpelling(selection)
    ensures NoneNamedLater(selection, source)
  {
    forall k | 0 <= k < |source| ensures !NamedLater(selection, source[k]) {
      var key := PairOf(source[k].server, source[k].database);
      NamedOfIs(selection, |selection.tables|, source[k]);
      AllUnderOne(selection, |selection.tables|, |selection.tables|, key);
    }
  }

  lemma {:induction false} AllUnderOne(selection: Selection, n: nat, all: nat, key: Pair)
    requires OneSpelling(selection) && n <= all <= |selection.tables|
    ensures NamedOf(selection, n, key) != {} ==> FirstSpelled(selection, all, key).Some?
    ensures FirstSpelled(selection, all, key).Some?
            ==> NamedOf(selection, n, key)
                == SpelledTables(selection, n, (key.0, key.1, FirstSpelled(selection, all, key).value))
    decreases n
  {
    if n > 0 {
      AllUnderOne(selection, n - 1, all, key);
      LowerAllOfSome(selection.tables[n - 1].tables);
      FirstIsOf(selection, n - 1, all, key);
    }
  }

  /** An entry that names a table of a database spells it as the first does. */
  lemma {:induction false} FirstIsOf(selection: Selection, i: nat, all: nat, key: Pair)
    requires OneSpelling(selection) && i < all <= |selection.tables|
    ensures PairOf(selection.tables[i].server, selection.tables[i].database) == key && selection.tables[i].tables != []
            ==> FirstSpelled(selection, all, key) == Some(selection.tables[i].database)
    ensures PairOf(selection.tables[i].server, selection.tables[i].database) == key
            && FirstSpelled(selection, all, key).Some?
            ==> FirstSpelled(selection, all, key).value == selection.tables[i].database
    decreases all
  {
    if i < all - 1 {
      FirstIsOf(selection, i, all - 1, key);
    }
    assert SameSpelling(selection.tables[i], selection.tables[all - 1]);
    if FirstSpelled(selection, all - 1, key).Some? && i == all - 1
       && PairOf(selection.tables[i].server, selection.tables[i].database) == key {
      FirstIsSome(selection, all - 1, key, i);
    }
  }

  lemma {:induction false} FirstIsSome(selection: Selection, n: nat, key: Pair, i: nat)
    requires OneSpelling(selection) && n <= |selection.tables| && FirstSpelled(selection, n, key).Some?
    requires i < |selection.tables| && PairOf(selection.tables[i].server, selection.tables[i].database) == key
    ensures FirstSpelled(selection, n, key).value == selection.tables[i].database
    decreases n
  {
    if FirstSpelled(selection, n - 1, key).Some? {
      FirstIsSome(selection, n - 1, key, i);
    } else {
      assert SameSpelling(selection.tables[n - 1], selection.tables[i]);
    }
  }

  function SelectedOf(selection: Selection, source: seq<Table>, n: nat): seq<Table>
    requires n <= |source|
  {
    if n == 0 then [] else
      SelectedOf(selection, source, n - 1) + if Selected(selection, source[n - 1]) then [source[n - 1]] else []
  }

  lemma {:induction false} TakenAreSelected(selection: Selection, source: seq<Table>, listing: seq<Named>,
                          units: seq<Unit>, m: nat)
    requires Chosen(selection, listing, units) && ListingOf(selection, source, listing) && Plain(units, source)
            && m <= |source|
    requires NoneNamedLater(selection, source)
    ensures TakenByAny(units, |units|, source, m) == SelectedOf(selection, source, m)
    decreases m
  {
    if m > 0 {
      TakenAreSelected(selection, source, listing, units, m - 1);
      TakenIffSelected(selection, source, listing, units, m - 1);
    }
  }

  lemma {:induction false} SelectedHas(selection: Selection, source: seq<Table>, n: nat, k: nat)
    requires k < n <= |source| && Selected(selection, source[k])
    ensures source[k] in SelectedOf(selection, source, n)
    decreases n
  {
    if k < n - 1 {
      SelectedHas(selection, source, n - 1, k);
    }
  }

  lemma {:induction false} TakenHas(units: seq<Unit>, source: seq<Table>, m: nat, row: Table)
    requires m <= |source| && row in TakenByAny(units, |units|, source, m)
    ensures AnyTakes(units, |units|, row)
    decreases m
  {
    if row in TakenByAny(units, |units|, source, m - 1) {
      TakenHas(units, source, m - 1, row);
    }
  }

  /** Paging, units, batches and matching together: the rows the units take are those the selection's filter takes, each
      as often as the source has it and each in one unit, if and only if none is named only under a later spelling of
      its database: those are lost. */
  lemma UnitsTakeTheSelection(selection: Selection, source: seq<Table>, listing: seq<Named>, units: seq<Unit>)
    requires Chosen(selection, listing, units) && ListingOf(selection, source, listing) && Plain(units, source)
    ensures multiset(RowsIn(ByUnit(units, source, |units|), |units|))
            == multiset(SelectedOf(selection, source, |source|))
            <==> NoneNamedLater(selection, source)
  {
    AnswerIsTaken(units, |units|, source);
    if NoneNamedLater(selection, source) {
      TakenAreSelected(selection, source, listing, units, |source|);
    } else {
      var k :| 0 <= k < |source| && NamedLater(selection, source[k]);
      SelectedHas(selection, source, |source|, k);
      LaterIsLost(selection, source, listing, units, k);
    }
  }

  lemma LaterIsLost(selection: Selection, source: seq<Table>, listing: seq<Named>, units: seq<Unit>, k: nat)
    requires Chosen(selection, listing, units) && ListingOf(selection, source, listing) && Plain(units, source)
    requires k < |source| && NamedLater(selection, source[k]) && source[k] in SelectedOf(selection, source, |source|)
    ensures multiset(TakenByAny(units, |units|, source, |source|)) != multiset(SelectedOf(selection, source, |source|))
  {
    TakenIffSelected(selection, source, listing, units, k);
    assert source[k] in multiset(SelectedOf(selection, source, |source|));
    if source[k] in TakenByAny(units, |units|, source, |source|) {
      TakenHas(units, source, |source|, source[k]);
    }
  }

  /** No server named anywhere holds the separator. */
  ghost predicate PlainServers(selection: Selection, source: seq<Table>, listing: seq<Named>) {
    && (forall i :: 0 <= i < |source| ==> NoSeparator(source[i].server))
    && (forall i :: 0 <= i < |listing| ==> NoSeparator(listing[i].server))
    && (forall i :: 0 <= i < |selection.databases| ==> NoSeparator(selection.databases[i].server))
    && (forall i :: 0 <= i < |selection.tables| ==> NoSeparator(selection.tables[i].server))
  }

  lemma {:induction false} ListedIs(listing: seq<Named>, n: nat, key: Pair)
    requires n <= |listing|
    ensures key in Listed(listing, n) <==> exists i :: 0 <= i < n && NamedPair(listing[i]) == key
    decreases n
  {
    if n > 0 {
      ListedIs(listing, n - 1, key);
    }
  }

  lemma {:induction false} FirstSpelledIs(selection: Selection, n: nat, key: Pair)
    requires n <= |selection.tables| && FirstSpelled(selection, n, key).Some?
    ensures exists i :: 0 <= i < n && PairOf(selection.tables[i].server, selection.tables[i].database) == key
    decreases n
  {
    if FirstSpelled(selection, n - 1, key).Some? {
      FirstSpelledIs(selection, n - 1, key);
    }
  }

  lemma {:induction false} WholeIsIn(units: seq<Unit>, n: nat, i: nat)
    requires i < n <= |units| && units[i].every
    ensures UnitPair(units[i]) in WholePairs(units, n)
    decreases n
  {
    if i < n - 1 {
      WholeIsIn(units, n - 1, i);
    }
  }

  /** Nor then does a unit's server. */
  lemma UnitsArePlain(selection: Selection, source: seq<Table>, listing: seq<Named>, units: seq<Unit>, i: nat)
    requires Chosen(selection, listing, units) && PlainServers(selection, source, listing) && i < |units|
    ensures NoSeparator(units[i].server)
  {
    var key := UnitPair(units[i]);
    if units[i].every {
      WholeIsIn(units, |units|, i);
      ListedIs(listing, |listing|, key);
      NamedWholeIs(selection, |selection.databases|, key);
    } else {
      assert PartOf(selection, units[i]);
      FirstSpelledIs(selection, |selection.tables|, key);
    }
  }

  /** The whole of it: the source's databases page by page, the units of the selection, and their rows a batch at a
      time. All rows read are those the selection's filter takes, each as often as the source has it, if and only if
      none is named only under a later spelling of its database. */
  method ReadSelection(selection: Selection, source: seq<Table>, listing: seq<Named>) returns (answer: Answer)
    requires InKeyOrder(listing) && forall i :: 0 <= i < |listing| ==> KeyBefore(Named("", ""), listing[i])
    requires ListedOnce(listing, |listing|) && ListingOf(selection, source, listing)
    requires PlainServers(selection, source, listing)
    ensures multiset(RowsIn(answer, |answer|)) == multiset(SelectedOf(selection, source, |source|))
            <==> NoneNamedLater(selection, source)
  {
    var databases := DatabasePages(listing);
    var units := SelectionUnits(selection, databases);
    forall i | 0 <= i < |units| ensures NoSeparator(units[i].server) {
      UnitsArePlain(selection, source, listing, units, i);
    }
    answer := ReadAll(units, source);
    UnitsTakeTheSelection(selection, source, listing, units);
  }

  /** A selection that names one table of a database in one spelling and another in a second takes only the first. */
  lemma SecondSpellingIsLost(selection: Selection, first: NamedTables, second: NamedTables, row: Table)
    requires selection == Selection(false, "", [], [first, second])
    requires PairOf(first.server, first.database) == PairOf(second.server, second.database)
            && first.database != second.database
    requires NamesTable(second, row) && first.tables != [] && TableName(row) !in LowerAll(first.tables)
    ensures NamedLater(selection, row)
  {
    var key := PairOf(row.server, row.database);
    assert selection.tables[0] == first && selection.tables[1] == second && NamesTable(selection.tables[1], row);
    assert FirstSpelled(selection, 0, key) == None && FirstSpelled(selection, 1, key) == Some(first.database);
    assert FirstSpelled(selection, 2, key) == Some(first.database);
    var spelled: Spelled := (key.0, key.1, first.database);
    assert SpelledTables(selection, 0, spelled) == {} && SpelledTables(selection, 1, spelled) == LowerAll(first.tables);
    assert SpelledTables(selection, 2, spelled) == LowerAll(first.tables);
  }
}
