/** transactions_of in app/src/by_database.py: checked databases packed, in order, into write transactions. */
module Packing {

  const TABLES_PER_TRANSACTION := 5_000

  /** A database the check planned: its tables, and the lines its plan writes. */
  datatype Checked = Checked(server: string, database: string, tables: nat, lines: seq<string>)

  /** The tables of the first n. */
  function Tables(items: seq<Checked>, n: nat): nat
    requires n <= |items|
  {
    if n == 0 then 0 else Tables(items, n - 1) + items[n - 1].tables
  }

  /** The first n chunks, joined. */
  function Joined(chunks: seq<seq<Checked>>, n: nat): seq<Checked>
    requires n <= |chunks|
  {
    if n == 0 then [] else Joined(chunks, n - 1) + chunks[n - 1]
  }

  /** A transaction holds at most the cap, or is a single database. */
  predicate Fits(chunk: seq<Checked>) {
    chunk != [] && (|chunk| == 1 || Tables(chunk, |chunk|) <= TABLES_PER_TRANSACTION)
  }

  ghost predicate Splits(chunks: seq<seq<Checked>>, checked: seq<Checked>) {
    Joined(chunks, |chunks|) == checked && AllFit(chunks)
  }

  predicate NoRoom(chunk: seq<Checked>, next: seq<Checked>) {
    next != [] && Tables(chunk, |chunk|) + next[0].tables > TABLES_PER_TRANSACTION
  }

  /** No transaction has room for the database the next one starts with. */
  ghost predicate Filled(chunks: seq<seq<Checked>>) {
    forall i, j :: 0 <= i < |chunks| && 0 <= j < |chunks| && j == i + 1 ==> NoRoom(chunks[i], chunks[j])
  }

  lemma {:induction false} SameFirst(a: seq<Checked>, b: seq<Checked>, n: nat)
    requires n <= |a| && n <= |b| && forall k :: 0 <= k < n ==> a[k] == b[k]
    ensures Tables(a, n) == Tables(b, n)
    decreases n
  {
    if n > 0 {
      SameFirst(a, b, n - 1);
    }
  }

  lemma {:induction false} TablesFrom(whole: seq<Checked>, at: nat, part: seq<Checked>, n: nat)
    requires at + |part| <= |whole| && n <= |part| && part == whole[at..at + |part|]
    ensures Tables(whole, at + n) == Tables(whole, at) + Tables(part, n)
    decreases n
  {
    if n > 0 {
      TablesFrom(whole, at, part, n - 1);
      assert part[n - 1] == whole[at + n - 1];
    }
  }

  lemma TablesOfOneMore(chunk: seq<Checked>, item: Checked)
    ensures Tables(chunk + [item], |chunk| + 1) == Tables(chunk, |chunk|) + item.tables
  {
    SameFirst(chunk + [item], chunk, |chunk|);
  }

  lemma {:induction false} JoinedPrefix(chunks: seq<seq<Checked>>, more: seq<Checked>, n: nat)
    requires n <= |chunks|
    ensures Joined(chunks + [more], n) == Joined(chunks, n)
    decreases n
  {
    if n > 0 {
      JoinedPrefix(chunks, more, n - 1);
    }
  }

  lemma JoinedOneMore(chunks: seq<seq<Checked>>, more: seq<Checked>)
    ensures Joined(chunks + [more], |chunks| + 1) == Joined(chunks, |chunks|) + more
  {
    JoinedPrefix(chunks, more, |chunks|);
  }

  ghost predicate AllFit(chunks: seq<seq<Checked>>) {
    forall k :: 0 <= k < |chunks| ==> Fits(chunks[k])
  }

  /** The chunks given so far and the one being filled, once the databases done are packed. */
  ghost predicate Packed(chunks: seq<seq<Checked>>, chunk: seq<Checked>, done: seq<Checked>) {
    && Joined(chunks, |chunks|) + chunk == done
    && AllFit(chunks)
    && (if chunk == [] then chunks == [] else Fits(chunk) && Filled(chunks + [chunk]))
  }

  lemma FilledOneMore(chunks: seq<seq<Checked>>, chunk: seq<Checked>, next: seq<Checked>)
    requires Filled(chunks + [chunk]) && NoRoom(chunk, next)
    ensures Filled(chunks + [chunk] + [next])
  {
    var was: seq<seq<Checked>> := chunks + [chunk];
    var all: seq<seq<Checked>> := was + [next];
    forall i, j | 0 <= i < |all| && 0 <= j < |all| && j == i + 1 ensures NoRoom(all[i], all[j]) {
      if j < |was| {
        assert NoRoom(was[i], was[j]);
      }
    }
  }

  lemma FilledLonger(chunks: seq<seq<Checked>>, chunk: seq<Checked>, item: Checked)
    requires chunk != [] && Filled(chunks + [chunk])
    ensures Filled(chunks + [chunk + [item]])
  {
    var was: seq<seq<Checked>> := chunks + [chunk];
    var all: seq<seq<Checked>> := chunks + [chunk + [item]];
    forall i, j | 0 <= i < |all| && 0 <= j < |all| && j == i + 1 ensures NoRoom(all[i], all[j]) {
      assert NoRoom(was[i], was[j]);
    }
  }

  lemma PackNext(chunks: seq<seq<Checked>>, chunk: seq<Checked>, done: seq<Checked>, item: Checked)
    requires Packed(chunks, chunk, done) && chunk != []
    requires Tables(chunk, |chunk|) + item.tables > TABLES_PER_TRANSACTION
    ensures Packed(chunks + [chunk], [item], done + [item])
  {
    JoinedOneMore(chunks, chunk);
    FilledOneMore(chunks, chunk, [item]);
    assert Fits([item]);
  }

  lemma PackInto(chunks: seq<seq<Checked>>, chunk: seq<Checked>, done: seq<Checked>, item: Checked)
    requires Packed(chunks, chunk, done)
    requires chunk == [] || Tables(chunk, |chunk|) + item.tables <= TABLES_PER_TRANSACTION
    ensures Packed(chunks, chunk + [item], done + [item])
  {
    TablesOfOneMore(chunk, item);
    var joined := Joined(chunks, |chunks|);
    assert joined + (chunk + [item]) == (joined + chunk) + [item];
    if chunk != [] {
      FilledLonger(chunks, chunk, item);
    }
  }

  /** Each database joins the transaction being filled, until that would take it past the cap. */
  method TransactionsOf(checked: seq<Checked>) returns (chunks: seq<seq<Checked>>)
    ensures Splits(chunks, checked) && Filled(chunks)
  {
    chunks := [];
    var chunk: seq<Checked>, tables := [], 0;
    for i := 0 to |checked|
      invariant Packed(chunks, chunk, checked[..i])
      invariant tables == Tables(chunk, |chunk|)
    {
      var database := checked[i];
      assert checked[..i + 1] == checked[..i] + [database];
      if chunk != [] && tables + database.tables > TABLES_PER_TRANSACTION {
        PackNext(chunks, chunk, checked[..i], database);
        chunks := chunks + [chunk];
        chunk, tables := [], 0;
        assert [] + [database] == [database];
      } else {
        PackInto(chunks, chunk, checked[..i], database);
      }
      TablesOfOneMore(chunk, database);
      chunk := chunk + [database];
      tables := tables + database.tables;
    }
    assert checked[..|checked|] == checked;
    if chunk != [] {
      JoinedOneMore(chunks, chunk);
      chunks := chunks + [chunk];
    }
  }

  // ---- no split has fewer -------------------------------------------------------------------------------------------

  /** How many of the databases the first n chunks take. */
  function Cover(chunks: seq<seq<Checked>>, n: nat): nat
    requires n <= |chunks|
  {
    |Joined(chunks, n)|
  }

  lemma {:induction false} CoverGrows(chunks: seq<seq<Checked>>, m: nat, n: nat)
    requires m <= n <= |chunks|
    ensures Cover(chunks, m) <= Cover(chunks, n) && Joined(chunks, m) == Joined(chunks, n)[..Cover(chunks, m)]
    decreases n
  {
    if m < n {
      CoverGrows(chunks, m, n - 1);
    }
  }

  lemma {:induction false} TablesGrow(items: seq<Checked>, m: nat, n: nat)
    requires m <= n <= |items|
    ensures Tables(items, m) <= Tables(items, n)
    decreases n
  {
    if m < n {
      TablesGrow(items, m, n - 1);
    }
  }

  /** Chunk n is what lies between its covers, and weighs the difference. */
  lemma ChunkAt(chunks: seq<seq<Checked>>, checked: seq<Checked>, n: nat)
    requires Splits(chunks, checked) && n < |chunks|
    ensures Cover(chunks, n + 1) == Cover(chunks, n) + |chunks[n]| <= |checked|
    ensures chunks[n] != [] && checked[Cover(chunks, n)] == chunks[n][0]
    ensures Tables(checked, Cover(chunks, n + 1)) == Tables(checked, Cover(chunks, n)) + Tables(chunks[n], |chunks[n]|)
  {
    var before, chunk := Joined(chunks, n), chunks[n];
    CoverGrows(chunks, n + 1, |chunks|);
    assert Fits(chunk);
    ChunkIsSlice(before, chunk, checked);
    ChunkWeighs(|before|, chunk, checked);
  }

  lemma ChunkWeighs(at: nat, chunk: seq<Checked>, checked: seq<Checked>)
    requires at + |chunk| <= |checked| && chunk == checked[at..at + |chunk|] && chunk != []
    ensures checked[at] == chunk[0]
    ensures Tables(checked, at + |chunk|) == Tables(checked, at) + Tables(chunk, |chunk|)
  {
    TablesFrom(checked, at, chunk, |chunk|);
  }

  lemma ChunkIsSlice(before: seq<Checked>, chunk: seq<Checked>, checked: seq<Checked>)
    requires |before| + |chunk| <= |checked| && checked[..|before| + |chunk|] == before + chunk
    ensures chunk == checked[|before|..|before| + |chunk|]
  {
    assert chunk == (before + chunk)[|before|..];
  }

  /** After as many transactions, the greedy packing is never behind another. */
  lemma {:induction false} StaysAhead(chunks: seq<seq<Checked>>, other: seq<seq<Checked>>, checked: seq<Checked>,
                          n: nat)
    requires Splits(chunks, checked) && Filled(chunks) && Splits(other, checked)
    requires n <= |other| && n <= |chunks|
    ensures Cover(other, n) <= Cover(chunks, n)
    decreases n
  {
    if n > 0 {
      StaysAhead(chunks, other, checked, n - 1);
      ChunkAt(chunks, checked, n - 1);
      ChunkAt(other, checked, n - 1);
      if n < |chunks| {
        ChunkAt(chunks, checked, n);
        AheadByOne(chunks, other, checked, n - 1);
      } else {
        assert Cover(chunks, n) == |checked|;
      }
    }
  }

  lemma Overfull(checked: seq<Checked>, start: nat, from: nat, end: nat, later: nat)
    requires start <= from <= end < later <= |checked|
    requires Tables(checked, end) - Tables(checked, from) + checked[end].tables > TABLES_PER_TRANSACTION
    ensures Tables(checked, later) - Tables(checked, start) > TABLES_PER_TRANSACTION
  {
    TablesGrow(checked, start, from);
    TablesGrow(checked, end + 1, later);
  }

  lemma AheadByOne(chunks: seq<seq<Checked>>, other: seq<seq<Checked>>, checked: seq<Checked>, k: nat)
    requires Splits(chunks, checked) && Filled(chunks) && Splits(other, checked)
    requires k < |other| && k + 1 < |chunks| && Cover(other, k) <= Cover(chunks, k)
    ensures Cover(other, k + 1) <= Cover(chunks, k + 1)
  {
    ChunkAt(chunks, checked, k);
    ChunkAt(chunks, checked, k + 1);
    ChunkAt(other, checked, k);
    assert NoRoom(chunks[k], chunks[k + 1]) && Fits(other[k]);
    var end, otherEnd := Cover(chunks, k + 1), Cover(other, k + 1);
    if otherEnd > end {
      Overfull(checked, Cover(other, k), Cover(chunks, k), end, otherEnd);
    }
  }

  /** No split of the same databases, in order, into transactions that fit has fewer of them. */
  lemma FewestTransactions(chunks: seq<seq<Checked>>, other: seq<seq<Checked>>, checked: seq<Checked>)
    requires Splits(chunks, checked) && Filled(chunks) && Splits(other, checked)
    ensures |chunks| <= |other|
  {
    if |other| < |chunks| {
      StaysAhead(chunks, other, checked, |other|);
      ChunkAt(chunks, checked, |other|);
    }
  }
}
