/** What re-discovery adds to a job: server_key, table_key and wanted in app/src/rediscovery.py. */
module Rediscovery {
  import opened Text
  import Templates

  // ---- server keys --------------------------------------------------------------------------------------------------

  /** Where the last run of digits of a name's first n characters starts. */
  function DigitsFrom(s: string, n: nat): (at: nat)
    requires n <= |s|
    ensures at <= n
  {
    if n > 0 && Digit(s[n - 1]) then DigitsFrom(s, n - 1) else n
  }

  /** Less a port: a colon and digits at the end. */
  function WithoutPort(s: string): string {
    var at := DigitsFrom(s, |s|);
    if at < |s| && at > 0 && s[at - 1] == ':' then s[..at - 1] else s
  }

  function ServerKey(server: string): string {
    WithoutPort(Lower(Templates.Strip(server)))
  }

  lemma {:induction false} DigitsAtEnd(before: string, digits: string, n: nat)
    requires n <= |digits| && Digits(digits) && (before == "" || !Digit(before[|before| - 1]))
    ensures DigitsFrom(before + digits, |before| + n) == |before|
    decreases n
  {
    if n > 0 {
      assert (before + digits)[|before| + n - 1] == digits[n - 1];
      DigitsAtEnd(before, digits, n - 1);
    } else if before != "" {
      assert (before + digits)[|before| - 1] == before[|before| - 1];
    }
  }

  /** A port comes off, one at a time. */
  lemma OnePortComesOff(host: string, digits: string)
    requires Digits(digits) && digits != ""
    ensures WithoutPort(host + ":" + digits) == host
  {
    DigitsAtEnd(host + ":", digits, |digits|);
  }

  lemma KeyOfPlain(name: string)
    requires Lower(name) == name && Templates.Trimmed(name)
    ensures ServerKey(name) == WithoutPort(name)
  {
    Templates.StripOfTrimmed(name);
  }

  /** A name with two has a key that is not its own key. */
  lemma TwoPortsComeOffInTurn(host: string, first: string, once: string, second: string, twice: string)
    requires Digits(first) && first != "" && Digits(second) && second != ""
    requires once == host + ":" + first && Lower(once) == once && Templates.Trimmed(once)
    requires twice == once + ":" + second && Lower(twice) == twice && Templates.Trimmed(twice)
    ensures ServerKey(twice) == once && ServerKey(once) == host
  {
    KeyOfPlain(once);
    KeyOfPlain(twice);
    OnePortComesOff(once, second);
    OnePortComesOff(host, first);
  }

  // ---- tables -------------------------------------------------------------------------------------------------------

  /** A table as it is compared: its server's key, the key of that key, and its names in lower case. */
  datatype Table = Table(server: string, serverAgain: string, database: string, schema: string, name: string)

  function TableOf(server: string, database: string, schema: string, name: string): Table {
    Table(ServerKey(server), ServerKey(ServerKey(server)), Lower(database), Lower(schema), Lower(name))
  }

  /** A server's key is its own key: no second port comes off. */
  predicate Stable(t: Table) {
    t.serverAgain == t.server
  }

  type Key = (string, string, string, string)

  function FoundKey(t: Table): Key {
    (t.server, t.database, t.schema, t.name)
  }

  /** A job's table, by its server's key; table_key takes the key of that again. */
  function JobKey(t: Table): Key {
    (t.serverAgain, t.database, t.schema, t.name)
  }

  function DatabaseKey(t: Table): (string, string) {
    (t.server, t.database)
  }

  function FoundKeys(rows: seq<Table>, n: nat): set<Key>
    requires n <= |rows|
  {
    if n == 0 then {} else FoundKeys(rows, n - 1) + {FoundKey(rows[n - 1])}
  }

  /** What the job has now: its tables' keys and its databases, of the first n rows. */
  function JobKeys(rows: seq<Table>, n: nat): set<Key>
    requires n <= |rows|
  {
    if n == 0 then {} else JobKeys(rows, n - 1) + {JobKey(rows[n - 1])}
  }

  function Databases(rows: seq<Table>, n: nat): set<(string, string)>
    requires n <= |rows|
  {
    if n == 0 then {} else Databases(rows, n - 1) + {DatabaseKey(rows[n - 1])}
  }

  /** A part of what the job was made from: a whole server, its databases holding a filter, or one database; by the
      server's key and in lower case. */
  datatype Part = Server(server: string, filter: string) | Database(server: string, database: string)

  /** The part covers the table's database. */
  predicate Covers(part: Part, t: Table) {
    match part
    case Server(server, filter) => t.server == server && Contains(t.database, filter)
    case Database(server, database) => DatabaseKey(t) == (server, database)
  }

  /** What the job has, and may not take. */
  datatype Have = Have(tables: set<Key>, databases: set<(string, string)>, excluded: set<Key>)

  function HaveOf(job: seq<Table>, excluded: set<Key>): Have {
    Have(JobKeys(job, |job|), Databases(job, |job|), excluded)
  }

  /** The part takes the table: a whole server takes only databases the job does not have, and nothing excluded is
      taken. */
  predicate Takes(part: Part, t: Table, have: Have) {
    Covers(part, t) && FoundKey(t) !in have.excluded && (part.Server? ==> DatabaseKey(t) !in have.databases)
  }

  predicate Adds(part: Part, t: Table, have: Have) {
    Takes(part, t, have) && FoundKey(t) !in have.tables
  }

  // ---- what is wanted -----------------------------------------------------------------------------------------------

  /** The tables a part adds, of the first n found, by key; and the databases a whole server finds new. */
  function PartKeys(part: Part, found: seq<Table>, have: Have, n: nat): set<Key>
    requires n <= |found|
  {
    if n == 0 then {} else
      PartKeys(part, found, have, n - 1) + if Adds(part, found[n - 1], have) then {FoundKey(found[n - 1])} else {}
  }

  function PartNames(part: Part, found: seq<Table>, have: Have, n: nat): set<(string, string)>
    requires n <= |found|
  {
    if n == 0 then {} else
      PartNames(part, found, have, n - 1)
      + if part.Server? && Takes(part, found[n - 1], have) then {DatabaseKey(found[n - 1])} else {}
  }

  function AllKeys(parts: seq<Part>, found: seq<Table>, have: Have, n: nat): set<Key>
    requires n <= |parts|
  {
    if n == 0 then {} else AllKeys(parts, found, have, n - 1) + PartKeys(parts[n - 1], found, have, |found|)
  }

  function AllNames(parts: seq<Part>, found: seq<Table>, have: Have, n: nat): set<(string, string)>
    requires n <= |parts|
  {
    if n == 0 then {} else AllNames(parts, found, have, n - 1) + PartNames(parts[n - 1], found, have, |found|)
  }

  predicate InScope(part: Part, t: Table) {
    match part
    case Server(server, _) => t.server == server
    case Database(server, database) => DatabaseKey(t) == (server, database)
  }

  predicate AnyInScope(parts: seq<Part>, t: Table, n: nat)
    requires n <= |parts|
  {
    n > 0 && (InScope(parts[n - 1], t) || AnyInScope(parts, t, n - 1))
  }

  /** A job's table is gone: its server or database is a part's, the database was read, and it is not found. */
  predicate Gone(parts: seq<Part>, found: seq<Table>, listed: set<(string, string)>, t: Table) {
    AnyInScope(parts, t, |parts|) && DatabaseKey(t) in listed && JobKey(t) !in FoundKeys(found, |found|)
  }

  function GoneOf(parts: seq<Part>, found: seq<Table>, listed: set<(string, string)>, job: seq<Table>,
                  n: nat): set<Table>
    requires n <= |job|
  {
    if n == 0 then {} else
      GoneOf(parts, found, listed, job, n - 1) + if Gone(parts, found, listed, job[n - 1]) then {job[n - 1]} else {}
  }

  datatype Wanted = Wanted(add: map<Key, Table>, newDatabases: set<(string, string)>, vanished: set<Table>)

  /** What is added is found under its key. */
  ghost predicate FromFound(found: seq<Table>, add: map<Key, Table>) {
    forall key :: key in add ==> FoundKey(add[key]) == key && add[key] in found
  }

  ghost predicate IsWanted(parts: seq<Part>, found: seq<Table>, listed: set<(string, string)>, job: seq<Table>,
                           excluded: set<Key>, wanted: Wanted) {
    var have := HaveOf(job, excluded);
    && FromFound(found, wanted.add) && wanted.add.Keys == AllKeys(parts, found, have, |parts|)
    && wanted.newDatabases == AllNames(parts, found, have, |parts|)
    && wanted.vanished == GoneOf(parts, found, listed, job, |job|)
  }

  /** Part by part, row by row; the first row found for a table is the one added. */
  method Want(parts: seq<Part>, found: seq<Table>, listed: set<(string, string)>, job: seq<Table>, excluded: set<Key>)
    returns (wanted: Wanted)
    ensures IsWanted(parts, found, listed, job, excluded, wanted)
  {
    var have := HaveOf(job, excluded);
    var add: map<Key, Table>, names: set<(string, string)> := map[], {};
    for i := 0 to |parts|
      invariant FromFound(found, add) && add.Keys == AllKeys(parts, found, have, i)
      invariant names == AllNames(parts, found, have, i)
    {
      add, names := WantPart(parts[i], found, have, add, names);
    }
    var vanished: set<Table> := {};
    for k := 0 to |job|
      invariant vanished == GoneOf(parts, found, listed, job, k)
    {
      if Gone(parts, found, listed, job[k]) {
        vanished := vanished + {job[k]};
      }
    }
    wanted := Wanted(add, names, vanished);
  }

  method WantPart(part: Part, found: seq<Table>, have: Have, wasAdd: map<Key, Table>, wasNames: set<(string, string)>)
    returns (add: map<Key, Table>, names: set<(string, string)>)
    requires FromFound(found, wasAdd)
    ensures FromFound(found, add) && add.Keys == wasAdd.Keys + PartKeys(part, found, have, |found|)
    ensures names == wasNames + PartNames(part, found, have, |found|)
  {
    add, names := wasAdd, wasNames;
    for j := 0 to |found|
      invariant FromFound(found, add) && add.Keys == wasAdd.Keys + PartKeys(part, found, have, j)
      invariant names == wasNames + PartNames(part, found, have, j)
    {
      var row := found[j];
      if Takes(part, row, have) {
        if part.Server? {
          names := names + {DatabaseKey(row)};
        }
        if FoundKey(row) !in have.tables && FoundKey(row) !in add {
          add := add[FoundKey(row) := row];
        }
      }
    }
  }

  // ---- asking again -------------------------------------------------------------------------------------------------

  lemma {:induction false} KeyOfPart(part: Part, found: seq<Table>, have: Have, n: nat, key: Key) returns (j: nat)
    requires n <= |found| && key in PartKeys(part, found, have, n)
    ensures j < n && Adds(part, found[j], have) && FoundKey(found[j]) == key
    decreases n
  {
    if Adds(part, found[n - 1], have) && FoundKey(found[n - 1]) == key {
      j := n - 1;
    } else {
      j := KeyOfPart(part, found, have, n - 1, key);
    }
  }

  lemma {:induction false} PartHasKey(part: Part, found: seq<Table>, have: Have, n: nat, j: nat)
    requires j < n <= |found| && Adds(part, found[j], have)
    ensures FoundKey(found[j]) in PartKeys(part, found, have, n)
    decreases n
  {
    if j < n - 1 {
      PartHasKey(part, found, have, n - 1, j);
    }
  }

  lemma {:induction false} KeyOfSome(parts: seq<Part>, found: seq<Table>, have: Have, n: nat, key: Key)
    returns (i: nat, j: nat)
    requires n <= |parts| && key in AllKeys(parts, found, have, n)
    ensures i < n && j < |found| && Adds(parts[i], found[j], have) && FoundKey(found[j]) == key
    decreases n
  {
    if key in PartKeys(parts[n - 1], found, have, |found|) {
      i := n - 1;
      j := KeyOfPart(parts[i], found, have, |found|, key);
    } else {
      i, j := KeyOfSome(parts, found, have, n - 1, key);
    }
  }

  lemma {:induction false} AllHaveKey(parts: seq<Part>, found: seq<Table>, have: Have, n: nat, i: nat, j: nat)
    requires i < n <= |parts| && j < |found| && Adds(parts[i], found[j], have)
    ensures FoundKey(found[j]) in AllKeys(parts, found, have, n)
    decreases n
  {
    if i < n - 1 {
      AllHaveKey(parts, found, have, n - 1, i, j);
    } else {
      PartHasKey(parts[i], found, have, |found|, j);
    }
  }

  lemma {:induction false} NameOfPart(part: Part, found: seq<Table>, have: Have, n: nat, name: (string, string))
    returns (j: nat)
    requires n <= |found| && name in PartNames(part, found, have, n)
    ensures j < n && part.Server? && Takes(part, found[j], have) && DatabaseKey(found[j]) == name
    decreases n
  {
    if part.Server? && Takes(part, found[n - 1], have) && DatabaseKey(found[n - 1]) == name {
      j := n - 1;
    } else {
      j := NameOfPart(part, found, have, n - 1, name);
    }
  }

  lemma {:induction false} NameOfSome(parts: seq<Part>, found: seq<Table>, have: Have, n: nat, name: (string, string))
    returns (i: nat, j: nat)
    requires n <= |parts| && name in AllNames(parts, found, have, n)
    ensures i < n && j < |found| && parts[i].Server? && Takes(parts[i], found[j], have) && DatabaseKey(found[j]) == name
    decreases n
  {
    if name in PartNames(parts[n - 1], found, have, |found|) {
      i := n - 1;
      j := NameOfPart(parts[i], found, have, |found|, name);
    } else {
      i, j := NameOfSome(parts, found, have, n - 1, name);
    }
  }

  /** An excluded table is never added. */
  lemma ExcludedIsNeverAdded(parts: seq<Part>, found: seq<Table>, listed: set<(string, string)>, job: seq<Table>,
                             excluded: set<Key>, wanted: Wanted, key: Key)
    requires IsWanted(parts, found, listed, job, excluded, wanted) && key in wanted.add
    ensures key !in excluded
  {
    var i, j := KeyOfSome(parts, found, HaveOf(job, excluded), |parts|, key);
  }

  /** The job once what is wanted is added: the rows it had and those, in any order. */
  ghost predicate AddedTo(job: seq<Table>, wanted: Wanted, after: seq<Table>) {
    forall t :: t in after <==> t in job || exists key :: key in wanted.add && wanted.add[key] == t
  }

  lemma {:induction false} JobHas(job: seq<Table>, n: nat, t: Table)
    requires n <= |job| && t in job[..n]
    ensures JobKey(t) in JobKeys(job, n) && DatabaseKey(t) in Databases(job, n)
    decreases n
  {
    if job[n - 1] != t {
      assert job[..n] == job[..n - 1] + [job[n - 1]];
      JobHas(job, n - 1, t);
    }
  }

  lemma InJob(job: seq<Table>, t: Table)
    requires t in job
    ensures JobKey(t) in JobKeys(job, |job|) && DatabaseKey(t) in Databases(job, |job|)
  {
    assert job[..|job|] == job;
    JobHas(job, |job|, t);
  }

  lemma {:induction false} JobKeyOf(job: seq<Table>, n: nat, key: Key) returns (t: Table)
    requires n <= |job| && key in JobKeys(job, n)
    ensures t in job && JobKey(t) == key
    decreases n
  {
    t := job[n - 1];
    if JobKey(t) != key {
      t := JobKeyOf(job, n - 1, key);
    }
  }

  lemma {:induction false} DatabaseOf(job: seq<Table>, n: nat, database: (string, string)) returns (t: Table)
    requires n <= |job| && database in Databases(job, n)
    ensures t in job && DatabaseKey(t) == database
    decreases n
  {
    t := job[n - 1];
    if DatabaseKey(t) != database {
      t := DatabaseOf(job, n - 1, database);
    }
  }

  /** The job only has more after: what it had, it has. */
  lemma HasMore(job: seq<Table>, wanted: Wanted, after: seq<Table>)
    requires AddedTo(job, wanted, after)
    ensures JobKeys(job, |job|) <= JobKeys(after, |after|) && Databases(job, |job|) <= Databases(after, |after|)
  {
    forall key | key in JobKeys(job, |job|) ensures key in JobKeys(after, |after|) {
      var t := JobKeyOf(job, |job|, key);
      InJob(after, t);
    }
    forall database | database in Databases(job, |job|) ensures database in Databases(after, |after|) {
      var t := DatabaseOf(job, |job|, database);
      InJob(after, t);
    }
  }

  ghost predicate AllStable(found: seq<Table>) {
    forall j :: 0 <= j < |found| ==> Stable(found[j])
  }

  /** What a part took the first time, the job has the second. */
  lemma TakenIsHad(parts: seq<Part>, found: seq<Table>, listed: set<(string, string)>, job: seq<Table>,
                   excluded: set<Key>,
                   wanted: Wanted, after: seq<Table>, i: nat, j: nat)
    requires IsWanted(parts, found, listed, job, excluded, wanted) && AddedTo(job, wanted, after) && AllStable(found)
    requires i < |parts| && j < |found| && Takes(parts[i], found[j], HaveOf(job, excluded))
    ensures FoundKey(found[j]) in JobKeys(after, |after|)
  {
    var key := FoundKey(found[j]);
    HasMore(job, wanted, after);
    if key !in JobKeys(job, |job|) {
      AllHaveKey(parts, found, HaveOf(job, excluded), |parts|, i, j);
      var t := wanted.add[key];
      assert t in after;
      InJob(after, t);
    }
  }

  lemma DatabaseIsHad(parts: seq<Part>, found: seq<Table>, listed: set<(string, string)>, job: seq<Table>,
                      excluded: set<Key>,
                      wanted: Wanted, after: seq<Table>, i: nat, j: nat)
    requires IsWanted(parts, found, listed, job, excluded, wanted) && AddedTo(job, wanted, after) && AllStable(found)
    requires i < |parts| && j < |found| && Takes(parts[i], found[j], HaveOf(job, excluded))
    requires forall t :: t in job ==> Stable(t)
    ensures DatabaseKey(found[j]) in Databases(after, |after|)
  {
    var key := FoundKey(found[j]);
    HasMore(job, wanted, after);
    if key !in JobKeys(job, |job|) {
      AllHaveKey(parts, found, HaveOf(job, excluded), |parts|, i, j);
      var t := wanted.add[key];
      assert t in after;
      InJob(after, t);
    } else {
      var t := JobKeyOf(job, |job|, key);
      InJob(job, t);
    }
  }

  lemma TakesLater(part: Part, t: Table, have: Have, later: Have)
    requires Takes(part, t, later) && have.databases <= later.databases && have.excluded == later.excluded
    ensures Takes(part, t, have)
  {
  }

  lemma {:induction false} FoundHas(found: seq<Table>, n: nat, j: nat)
    requires j < n <= |found|
    ensures FoundKey(found[j]) in FoundKeys(found, n)
    decreases n
  {
    if j < n - 1 {
      FoundHas(found, n - 1, j);
    }
  }

  lemma {:induction false} GoneIs(parts: seq<Part>, found: seq<Table>, listed: set<(string, string)>, job: seq<Table>,
                          n: nat, t: Table)
    requires n <= |job|
    ensures t in GoneOf(parts, found, listed, job, n) <==> t in job[..n] && Gone(parts, found, listed, t)
    decreases n
  {
    if n > 0 {
      GoneIs(parts, found, listed, job, n - 1, t);
      assert job[..n] == job[..n - 1] + [job[n - 1]];
    }
  }

  /** Re-discovery settles: adding what is wanted and asking again with the same findings adds nothing, names no new
      database and reports the same tables gone, when no server found, or of the job, has a second port to lose. */
  lemma Settles(parts: seq<Part>, found: seq<Table>, listed: set<(string, string)>, job: seq<Table>, excluded: set<Key>,
                wanted: Wanted, after: seq<Table>, again: Wanted)
    requires IsWanted(parts, found, listed, job, excluded, wanted) && AddedTo(job, wanted, after)
    requires IsWanted(parts, found, listed, after, excluded, again)
    requires AllStable(found) && forall t :: t in job ==> Stable(t)
    ensures again.add == map[] && again.newDatabases == {} && again.vanished == wanted.vanished
  {
    var have, later := HaveOf(job, excluded), HaveOf(after, excluded);
    HasMore(job, wanted, after);
    if again.add != map[] {
      var key :| key in again.add;
      var i, j := KeyOfSome(parts, found, later, |parts|, key);
      TakesLater(parts[i], found[j], have, later);
      TakenIsHad(parts, found, listed, job, excluded, wanted, after, i, j);
    }
    if again.newDatabases != {} {
      var name :| name in again.newDatabases;
      var i, j := NameOfSome(parts, found, later, |parts|, name);
      TakesLater(parts[i], found[j], have, later);
      DatabaseIsHad(parts, found, listed, job, excluded, wanted, after, i, j);
    }
    SameVanished(parts, found, listed, job, excluded, wanted, after);
  }

  lemma SameVanished(parts: seq<Part>, found: seq<Table>, listed: set<(string, string)>, job: seq<Table>,
                     excluded: set<Key>,
                     wanted: Wanted, after: seq<Table>)
    requires IsWanted(parts, found, listed, job, excluded, wanted) && AddedTo(job, wanted, after) && AllStable(found)
    ensures GoneOf(parts, found, listed, after, |after|) == GoneOf(parts, found, listed, job, |job|)
  {
    assert after[..|after|] == after && job[..|job|] == job;
    forall t
      ensures t in GoneOf(parts, found, listed, after, |after|) <==> t in GoneOf(parts, found, listed, job, |job|) {
      GoneIs(parts, found, listed, after, |after|, t);
      GoneIs(parts, found, listed, job, |job|, t);
      if t in after && t !in job {
        AddedIsFound(found, wanted, t);
      }
    }
  }

  lemma AddedIsFound(found: seq<Table>, wanted: Wanted, t: Table)
    requires FromFound(found, wanted.add) && AllStable(found) && exists key :: key in wanted.add && wanted.add[key] == t
    ensures JobKey(t) in FoundKeys(found, |found|)
  {
    var j :| 0 <= j < |found| && found[j] == t;
    FoundHas(found, |found|, j);
  }

  // ---- what asking again gives, exactly -----------------------------------------------------------------------------

  ghost predicate IsAdded(wanted: Wanted, t: Table) {
    exists key :: key in wanted.add && wanted.add[key] == t
  }

  /** The job has the key of some table added, as the job keeps it. */
  ghost predicate KeptAs(wanted: Wanted, key: Key) {
    exists k :: k in wanted.add && JobKey(wanted.add[k]) == key
  }

  predicate DatabasePart(parts: seq<Part>, key: Key) {
    exists i :: 0 <= i < |parts| && parts[i] == Database(key.0, key.1)
  }

  lemma KeysAfter(job: seq<Table>, wanted: Wanted, after: seq<Table>, key: Key)
    requires AddedTo(job, wanted, after)
    ensures key in JobKeys(after, |after|) <==> key in JobKeys(job, |job|) || KeptAs(wanted, key)
  {
    HasMore(job, wanted, after);
    if key in JobKeys(after, |after|) {
      var t := JobKeyOf(after, |after|, key);
      if t in job {
        InJob(job, t);
      }
    }
    if KeptAs(wanted, key) {
      var k :| k in wanted.add && JobKey(wanted.add[k]) == key;
      assert wanted.add[k] in after;
      InJob(after, wanted.add[k]);
    }
  }

  lemma DatabasesAfter(job: seq<Table>, wanted: Wanted, after: seq<Table>, database: (string, string))
    requires AddedTo(job, wanted, after)
    ensures database in Databases(after, |after|)
            <==> (|| database in Databases(job, |job|)
                  || exists k :: k in wanted.add && DatabaseKey(wanted.add[k]) == database)
  {
    HasMore(job, wanted, after);
    if database in Databases(after, |after|) {
      var t := DatabaseOf(after, |after|, database);
      if t in job {
        InJob(job, t);
      }
    }
    if k :| k in wanted.add && DatabaseKey(wanted.add[k]) == database {
      assert wanted.add[k] in after;
      InJob(after, wanted.add[k]);
    }
  }

  /** A table is added again exactly when it was added, a database part covers it and no table added is kept under its
      key: a whole server takes nothing again. */
  lemma AddedAgainExactly(parts: seq<Part>, found: seq<Table>, listed: set<(string, string)>, job: seq<Table>,
                          excluded: set<Key>, wanted: Wanted, after: seq<Table>, again: Wanted, key: Key)
    requires IsWanted(parts, found, listed, job, excluded, wanted) && AddedTo(job, wanted, after)
    requires IsWanted(parts, found, listed, after, excluded, again)
    ensures key in again.add <==> key in wanted.add && DatabasePart(parts, key) && !KeptAs(wanted, key)
  {
    var have, later := HaveOf(job, excluded), HaveOf(after, excluded);
    KeysAfter(job, wanted, after, key);
    if key in again.add {
      var i, j := KeyOfSome(parts, found, later, |parts|, key);
      HasMore(job, wanted, after);
      TakesLater(parts[i], found[j], have, later);
      AllHaveKey(parts, found, have, |parts|, i, j);
      DatabasesAfter(job, wanted, after, DatabaseKey(found[j]));
      assert DatabaseKey(wanted.add[key]) == DatabaseKey(found[j]);
    }
    if key in wanted.add && DatabasePart(parts, key) && !KeptAs(wanted, key) {
      var i :| 0 <= i < |parts| && parts[i] == Database(key.0, key.1);
      var _, j := KeyOfSome(parts, found, have, |parts|, key);
      assert Adds(parts[i], found[j], later);
      AllHaveKey(parts, found, later, |parts|, i, j);
    }
  }

  /** A database is named new again exactly when it was named and no table of it was added. */
  lemma NamedAgainExactly(parts: seq<Part>, found: seq<Table>, listed: set<(string, string)>, job: seq<Table>,
                          excluded: set<Key>, wanted: Wanted, after: seq<Table>, again: Wanted, name: (string, string))
    requires IsWanted(parts, found, listed, job, excluded, wanted) && AddedTo(job, wanted, after)
    requires IsWanted(parts, found, listed, after, excluded, again)
    ensures name in again.newDatabases
            <==> name in wanted.newDatabases && !exists k :: k in wanted.add && DatabaseKey(wanted.add[k]) == name
  {
    var have, later := HaveOf(job, excluded), HaveOf(after, excluded);
    DatabasesAfter(job, wanted, after, name);
    HasMore(job, wanted, after);
    if name in again.newDatabases {
      var i, j := NameOfSome(parts, found, later, |parts|, name);
      TakesLater(parts[i], found[j], have, later);
      AllHaveName(parts, found, have, |parts|, i, j);
    }
    if name in wanted.newDatabases {
      var i, j := NameOfSome(parts, found, have, |parts|, name);
      if name !in Databases(after, |after|) {
        AllHaveName(parts, found, later, |parts|, i, j);
      }
    }
  }

  lemma {:induction false} PartHasName(part: Part, found: seq<Table>, have: Have, n: nat, j: nat)
    requires j < n <= |found| && part.Server? && Takes(part, found[j], have)
    ensures DatabaseKey(found[j]) in PartNames(part, found, have, n)
    decreases n
  {
    if j < n - 1 {
      PartHasName(part, found, have, n - 1, j);
    }
  }

  lemma {:induction false} AllHaveName(parts: seq<Part>, found: seq<Table>, have: Have, n: nat, i: nat, j: nat)
    requires i < n <= |parts| && j < |found| && parts[i].Server? && Takes(parts[i], found[j], have)
    ensures DatabaseKey(found[j]) in AllNames(parts, found, have, n)
    decreases n
  {
    if i < n - 1 {
      AllHaveName(parts, found, have, n - 1, i, j);
    } else {
      PartHasName(parts[i], found, have, |found|, j);
    }
  }

  /** A table is reported gone again exactly when it was, or it was added and its key in the job is no found table's. */
  lemma GoneAgainExactly(parts: seq<Part>, found: seq<Table>, listed: set<(string, string)>, job: seq<Table>,
                         excluded: set<Key>, wanted: Wanted, after: seq<Table>, again: Wanted, t: Table)
    requires IsWanted(parts, found, listed, job, excluded, wanted) && AddedTo(job, wanted, after)
    requires IsWanted(parts, found, listed, after, excluded, again)
    ensures t in again.vanished <==> t in wanted.vanished || (IsAdded(wanted, t) && Gone(parts, found, listed, t))
  {
    assert after[..|after|] == after && job[..|job|] == job;
    GoneIs(parts, found, listed, after, |after|, t);
    GoneIs(parts, found, listed, job, |job|, t);
  }

  /** The same, said of the first call's result. */
  lemma SettlesByResult(parts: seq<Part>, found: seq<Table>, listed: set<(string, string)>, job: seq<Table>,
                        excluded: set<Key>, wanted: Wanted, after: seq<Table>, again: Wanted)
    requires IsWanted(parts, found, listed, job, excluded, wanted) && AddedTo(job, wanted, after)
    requires IsWanted(parts, found, listed, after, excluded, again)
    ensures again.add == map[] <==> forall key :: key in wanted.add && DatabasePart(parts, key) ==> KeptAs(wanted, key)
    ensures again.newDatabases == {}
            <==> forall name :: name in wanted.newDatabases ==>
                   exists k :: k in wanted.add && DatabaseKey(wanted.add[k]) == name
    ensures again.vanished == wanted.vanished
            <==> forall t :: IsAdded(wanted, t) && Gone(parts, found, listed, t) ==> t in wanted.vanished
  {
    forall key ensures key in again.add <==> key in wanted.add && DatabasePart(parts, key) && !KeptAs(wanted, key) {
      AddedAgainExactly(parts, found, listed, job, excluded, wanted, after, again, key);
    }
    forall name ensures name in again.newDatabases
                        <==> (&& name in wanted.newDatabases
                              && !exists k :: k in wanted.add && DatabaseKey(wanted.add[k]) == name) {
      NamedAgainExactly(parts, found, listed, job, excluded, wanted, after, again, name);
    }
    forall t
      ensures t in again.vanished <==> t in wanted.vanished || (IsAdded(wanted, t) && Gone(parts, found, listed, t)) {
      GoneAgainExactly(parts, found, listed, job, excluded, wanted, after, again, t);
    }
  }

  /** One server key has one key of its own. */
  ghost predicate Keyed(found: seq<Table>) {
    forall j, k :: 0 <= j < |found| && 0 <= k < |found| && found[j].server == found[k].server
                   ==> found[j].serverAgain == found[k].serverAgain
  }

  /** The table is one of some names. */
  ghost predicate Made(t: Table) {
    exists server, database, schema, name :: t == TableOf(server, database, schema, name)
  }

  /** As it has in every source's tables. */
  lemma MadeAreKeyed(found: seq<Table>)
    requires forall j :: 0 <= j < |found| ==> Made(found[j])
    ensures Keyed(found)
  {
    forall j | 0 <= j < |found| ensures found[j].serverAgain == ServerKey(found[j].server) {
      var server, database, schema, name :| found[j] == TableOf(server, database, schema, name);
    }
  }

  /** Some part adds the table found; some whole server names its database. */
  ghost predicate AnyAdds(parts: seq<Part>, have: Have, t: Table) {
    exists i :: 0 <= i < |parts| && Adds(parts[i], t, have)
  }

  ghost predicate AnyNames(parts: seq<Part>, have: Have, t: Table) {
    exists i :: 0 <= i < |parts| && parts[i].Server? && Takes(parts[i], t, have)
  }

  /** Each table added for a database part is kept under its key by some table added. */
  ghost predicate EachKept(parts: seq<Part>, found: seq<Table>, have: Have) {
    forall j :: 0 <= j < |found| && AnyAdds(parts, have, found[j]) && DatabasePart(parts, FoundKey(found[j]))
                ==> KeptByFound(parts, found, have, FoundKey(found[j]))
  }

  ghost predicate KeptByFound(parts: seq<Part>, found: seq<Table>, have: Have, key: Key) {
    exists k :: 0 <= k < |found| && AnyAdds(parts, have, found[k]) && JobKey(found[k]) == key
  }

  /** Each database named has a table added. */
  ghost predicate EachNamedHasTable(parts: seq<Part>, found: seq<Table>, have: Have) {
    forall j :: 0 <= j < |found| && AnyNames(parts, have, found[j])
        ==> HasTable(parts, found, have, DatabaseKey(found[j]))
  }

  ghost predicate HasTable(parts: seq<Part>, found: seq<Table>, have: Have, database: (string, string)) {
    exists k :: 0 <= k < |found| && AnyAdds(parts, have, found[k]) && DatabaseKey(found[k]) == database
  }

  /** No table added is at once gone, but one the job has already. */
  ghost predicate NoneAtOnceGone(parts: seq<Part>, found: seq<Table>, listed: set<(string, string)>, job: seq<Table>,
                          have: Have) {
    forall j :: 0 <= j < |found| && AnyAdds(parts, have, found[j]) && Gone(parts, found, listed, found[j])
        ==> found[j] in job
  }

  /** What is wanted is the tables found that some part adds. */
  lemma WantedIs(parts: seq<Part>, found: seq<Table>, listed: set<(string, string)>, job: seq<Table>,
                 excluded: set<Key>,
                 wanted: Wanted, t: Table)
    requires IsWanted(parts, found, listed, job, excluded, wanted) && Keyed(found)
    ensures IsAdded(wanted, t) <==> t in found && AnyAdds(parts, HaveOf(job, excluded), t)
  {
    var have := HaveOf(job, excluded);
    if IsAdded(wanted, t) {
      var key :| key in wanted.add && wanted.add[key] == t;
      var i, j := KeyOfSome(parts, found, have, |parts|, key);
      SameTable(found, t, found[j]);
    }
    if t in found && AnyAdds(parts, have, t) {
      var j :| 0 <= j < |found| && found[j] == t;
      var i :| 0 <= i < |parts| && Adds(parts[i], t, have);
      AllHaveKey(parts, found, have, |parts|, i, j);
      SameTable(found, wanted.add[FoundKey(t)], t);
    }
  }

  lemma SameTable(found: seq<Table>, t: Table, u: Table)
    requires Keyed(found) && t in found && u in found && FoundKey(t) == FoundKey(u)
    ensures t == u
  {
  }

  lemma NamedIs(parts: seq<Part>, found: seq<Table>, listed: set<(string, string)>, job: seq<Table>, excluded: set<Key>,
                wanted: Wanted, name: (string, string))
    requires IsWanted(parts, found, listed, job, excluded, wanted)
    ensures name in wanted.newDatabases
            <==> exists j :: && 0 <= j < |found| && AnyNames(parts, HaveOf(job, excluded), found[j])
                             && DatabaseKey(found[j]) == name
  {
    var have := HaveOf(job, excluded);
    if name in wanted.newDatabases {
      var i, j := NameOfSome(parts, found, have, |parts|, name);
      assert AnyNames(parts, have, found[j]);
    }
    if j :| 0 <= j < |found| && AnyNames(parts, have, found[j]) && DatabaseKey(found[j]) == name {
      var i :| 0 <= i < |parts| && parts[i].Server? && Takes(parts[i], found[j], have);
      AllHaveName(parts, found, have, |parts|, i, j);
    }
  }

  lemma KeptIsByFound(parts: seq<Part>, found: seq<Table>, listed: set<(string, string)>, job: seq<Table>,
                      excluded: set<Key>,
                      wanted: Wanted, key: Key)
    requires IsWanted(parts, found, listed, job, excluded, wanted) && Keyed(found)
    ensures KeptAs(wanted, key) <==> KeptByFound(parts, found, HaveOf(job, excluded), key)
  {
    if KeptAs(wanted, key) {
      var k :| k in wanted.add && JobKey(wanted.add[k]) == key;
      WantedIs(parts, found, listed, job, excluded, wanted, wanted.add[k]);
    }
    if KeptByFound(parts, found, HaveOf(job, excluded), key) {
      var k :| 0 <= k < |found| && AnyAdds(parts, HaveOf(job, excluded), found[k]) && JobKey(found[k]) == key;
      WantedIs(parts, found, listed, job, excluded, wanted, found[k]);
    }
  }

  lemma TableIsAdded(parts: seq<Part>, found: seq<Table>, listed: set<(string, string)>, job: seq<Table>,
                     excluded: set<Key>,
                     wanted: Wanted, name: (string, string))
    requires IsWanted(parts, found, listed, job, excluded, wanted) && Keyed(found)
    ensures (exists k :: k in wanted.add && DatabaseKey(wanted.add[k]) == name)
            <==> HasTable(parts, found, HaveOf(job, excluded), name)
  {
    if k :| k in wanted.add && DatabaseKey(wanted.add[k]) == name {
      WantedIs(parts, found, listed, job, excluded, wanted, wanted.add[k]);
    }
    if HasTable(parts, found, HaveOf(job, excluded), name) {
      var k :| 0 <= k < |found| && AnyAdds(parts, HaveOf(job, excluded), found[k]) && DatabaseKey(found[k]) == name;
      WantedIs(parts, found, listed, job, excluded, wanted, found[k]);
    }
  }

  /** Re-discovery settles if and only if, of the tables found, each one added for a database part is kept under its
      key, each database named has one added, and none added is at once gone. */
  lemma SettlesExactly(parts: seq<Part>, found: seq<Table>, listed: set<(string, string)>, job: seq<Table>,
                       excluded: set<Key>, wanted: Wanted, after: seq<Table>, again: Wanted)
    requires IsWanted(parts, found, listed, job, excluded, wanted) && AddedTo(job, wanted, after) && Keyed(found)
    requires IsWanted(parts, found, listed, after, excluded, again)
    ensures again.add == map[] <==> EachKept(parts, found, HaveOf(job, excluded))
    ensures again.newDatabases == {} <==> EachNamedHasTable(parts, found, HaveOf(job, excluded))
    ensures again.vanished == wanted.vanished <==> NoneAtOnceGone(parts, found, listed, job, HaveOf(job, excluded))
  {
    SettlesByResult(parts, found, listed, job, excluded, wanted, after, again);
    KeptExactly(parts, found, listed, job, excluded, wanted);
    NamedExactly(parts, found, listed, job, excluded, wanted);
    GoneExactly(parts, found, listed, job, excluded, wanted);
  }

  lemma KeptExactly(parts: seq<Part>, found: seq<Table>, listed: set<(string, string)>, job: seq<Table>,
                    excluded: set<Key>,
                    wanted: Wanted)
    requires IsWanted(parts, found, listed, job, excluded, wanted) && Keyed(found)
    ensures (forall key :: key in wanted.add && DatabasePart(parts, key) ==> KeptAs(wanted, key))
            <==> EachKept(parts, found, HaveOf(job, excluded))
  {
    var have := HaveOf(job, excluded);
    forall key ensures KeptAs(wanted, key) <==> KeptByFound(parts, found, have, key) {
      KeptIsByFound(parts, found, listed, job, excluded, wanted, key);
    }
    forall t ensures IsAdded(wanted, t) <==> t in found && AnyAdds(parts, have, t) {
      WantedIs(parts, found, listed, job, excluded, wanted, t);
    }
    if EachKept(parts, found, have) {
      forall key | key in wanted.add && DatabasePart(parts, key) ensures KeptAs(wanted, key) {
        assert IsAdded(wanted, wanted.add[key]) && FoundKey(wanted.add[key]) == key;
      }
    }
    if forall key :: key in wanted.add && DatabasePart(parts, key) ==> KeptAs(wanted, key) {
      forall j | 0 <= j < |found| && AnyAdds(parts, have, found[j]) && DatabasePart(parts, FoundKey(found[j]))
        ensures KeptByFound(parts, found, have, FoundKey(found[j]))
      {
        assert IsAdded(wanted, found[j]);
      }
    }
  }

  lemma NamedExactly(parts: seq<Part>, found: seq<Table>, listed: set<(string, string)>, job: seq<Table>,
                     excluded: set<Key>,
                     wanted: Wanted)
    requires IsWanted(parts, found, listed, job, excluded, wanted) && Keyed(found)
    ensures (forall name :: name in wanted.newDatabases ==>
               exists k :: k in wanted.add && DatabaseKey(wanted.add[k]) == name)
            <==> EachNamedHasTable(parts, found, HaveOf(job, excluded))
  {
    var have := HaveOf(job, excluded);
    forall name
      ensures (exists k :: k in wanted.add && DatabaseKey(wanted.add[k]) == name)
              <==> HasTable(parts, found, have, name) {
      TableIsAdded(parts, found, listed, job, excluded, wanted, name);
    }
    forall name ensures name in wanted.newDatabases
                        <==> exists j :: && 0 <= j < |found| && AnyNames(parts, have, found[j])
                                         && DatabaseKey(found[j]) == name {
      NamedIs(parts, found, listed, job, excluded, wanted, name);
    }
    if forall name :: name in wanted.newDatabases
        ==> exists k :: k in wanted.add && DatabaseKey(wanted.add[k]) == name {
      forall j | 0 <= j < |found| && AnyNames(parts, have, found[j])
        ensures HasTable(parts, found, have, DatabaseKey(found[j])) {
        assert DatabaseKey(found[j]) in wanted.newDatabases;
      }
    }
  }

  lemma GoneExactly(parts: seq<Part>, found: seq<Table>, listed: set<(string, string)>, job: seq<Table>,
                    excluded: set<Key>,
                    wanted: Wanted)
    requires IsWanted(parts, found, listed, job, excluded, wanted) && Keyed(found)
    ensures (forall t :: IsAdded(wanted, t) && Gone(parts, found, listed, t) ==> t in wanted.vanished)
            <==> NoneAtOnceGone(parts, found, listed, job, HaveOf(job, excluded))
  {
    forall t ensures IsAdded(wanted, t) <==> t in found && AnyAdds(parts, HaveOf(job, excluded), t) {
      WantedIs(parts, found, listed, job, excluded, wanted, t);
    }
    forall t ensures t in wanted.vanished <==> t in job && Gone(parts, found, listed, t) {
      GoneIs(parts, found, listed, job, |job|, t);
      assert job[..|job|] == job;
    }
  }

  /** Not so for a server that has one: a table of a job's own database part is added, then added again. */
  lemma UnstableIsAddedAgain(t: Table, wanted: Wanted, again: Wanted)
    requires !Stable(t)
    requires var parts := [Database(t.server, t.database)];
             IsWanted(parts, [t], {}, [], {}, wanted) && IsWanted(parts, [t], {}, [t], {}, again)
    ensures AddedTo([], wanted, [t]) && FoundKey(t) in again.add
  {
    var parts := [Database(t.server, t.database)];
    AllHaveKey(parts, [t], HaveOf([], {}), 1, 0, 0);
    OneJobKey(t);
    assert Adds(parts[0], [t][0], HaveOf([t], {}));
    AllHaveKey(parts, [t], HaveOf([t], {}), 1, 0, 0);
    forall u ensures u in [t] <==> u in [] || exists key :: key in wanted.add && wanted.add[key] == u {
      if exists key :: key in wanted.add && wanted.add[key] == u {
        var key :| key in wanted.add && wanted.add[key] == u;
        assert wanted.add[key] in [t];
      }
      assert wanted.add[FoundKey(t)] in [t];
    }
  }

  lemma OneJobKey(t: Table)
    ensures JobKeys([t], 1) == {JobKey(t)}
  {
    assert JobKeys([t], 0) == {};
  }
}
