# Lakehouse ingestion app: a verified model

This project models the algorithms and protocols at the core of an ingestion app (`app/src`) and proves what they keep.
The app turns a source server's databases into the tables of an ingestion job: it spreads them over groups, names their
targets from templates, writes them in the background from several app instances, and reads what a server has through a
SQL warehouse under a cap. The modules, in reading order:

- **Placement** (`Text`, `Greedy`, `Placement`, `Regroup`, `RegroupProperties`, `Lightest`): the spread of a new job's
  databases (a longest-processing-time scheduler, with Graham's 4/3 bound), its re-spread over another number of groups,
  and the placing of databases that join a job.
- **Names** (`Templates`, `TemplateAgreement`, `TemplateSearch`, `TemplateChoice`, `SettingsEdit`, `EditSettles`,
  `FanInOn`): the two renderers of name templates, the search that reads a template back from the names it made, and when a
  settings edit settles.
- **Preparing** (`PrepareProtocol`, `PrepareWrite`, `Packing`, `PrepareRecord`): the task several instances share, over
  every interleaving; its write pass, with rollback and the split of a refused transaction; the packing of transactions;
  and the bounded record of what waits for someone.
- **Reads** (`ReadProtocol`, `BackgroundReads`, `SharedCache`): claims, leases and the shared cap; the look of the
  background reader; the generation-stamped cache of one process.
- **Choosing** (`Selecting`, `SelectedRows`, `LinePlan`, `LinePlanProperties`, `JobInputs`, `Rediscovery`): what a
  selection takes, what a file of lines writes, and what re-discovery adds.

A loop of the source is a method with a loop, proved against a specification function; what is promised of it is then
proved of that function, or is in its contract. A protocol is a step relation, and its theorems are over every run.

`dafny verify dfyconfig.toml` checks everything.

## Where the code and its promises part

Each of these is a theorem, with the exact condition beside it where it has one.

- `WarehouseReadStore.collect` takes up a statement nobody watches without asking for a place, and a page that asks again
  renews the claims of its statements the same way, lapsed or not. A statement that was being sent when its job was stopped
  and prepared again is saved with a claim of its own. A server's reads and checks can pass its cap by these three and
  nothing else (`ReadProtocol.CapIsPassed`, `CapIsPassedBySending`, `StepKeepsCapExactly`).
- A database being read loses its claim, and is sent by a second holder at once, when it is dropped and ticked again, when its
  job is stopped and prepared again, when a page that watches it too cannot read its statement and clears it, and when that
  page saves a failure and it is read again (`RetickedIsHeldTwice`, `ResumedIsHeldTwice`, `ClearedIsHeldTwice`,
  `ReadAgainIsHeldTwice`; exactly these, `StepKeepsClaimsExactly`).
- A server waiting at some looks only can be asked first by none of them, and by none at all while each look has one worker
  free and the first server has a read for it (`BackgroundReads.PassedOverForGood`).
- Tables named under a second spelling of a database are counted and listed but taken by no unit
  (`SelectedRows.UnitsTakeTheSelection`, `SecondSpellingIsLost`).
- Delete stops the task in one transaction and deletes in another; a Prepare again between them leaves a deleted job that
  is not stopped (`PrepareProtocol.DeletedAndNotStopped`, `HeldBackExactly`).
- A file's lines are gathered by spelling, and what is written is known by database: of a database spelled two ways, a
  spelling not yet committed when another is can be lost for good (`PrepareProtocol.SecondSpellingIsLost`,
  `SecondSpellingExactly`).
- The step that makes a job Ready checks neither the Stop nor the task's owner (`PrepareProtocol.StoppedYetReady`).
- A pass's counts do not leave out what was left out while it ran, and count a file's database once for each spelling: a
  job can wait in Needs you with nothing listed to choose (`PrepareRecord.CountsAreExact`, `LeftOutDuringPass`,
  `RepeatedIsCountedTwice`).
- Read again and Leave out take off the count what they find failed, or listed, and not what was set aside: a database that
  failed again since the last pass, one only closed, or an upload's beyond the list makes the count wrong, and a job can go
  on while another database still waits (`PrepareRecord.ReadAgainRefinesExactly`, `UploadReadsAgainExactly`,
  `LeaveOutRefinesExactly`, `ReadAgainTwiceHidesOne`, `LeaveOutHidesOne`).
- Turning fan-in on without a client_id depends on what it has just changed (`FanInOn.FanInSettlesExactly`,
  `OneServerUnsettles`).
- A tag within braces passes the check of templates, and the two renderers can then differ
  (`TemplateAgreement.PassesYetDiffers`, `RenderersAgreeExactly`).
- `server_key` takes one port off and is applied once or twice (`Rediscovery.SettlesExactly`, `UnstableIsAddedAgain`).
- A write is seen by every cached read only once its forget has finished (`SharedCache.CommittedYetMissed`).

## What is assumed

- A transaction is one step: its locks order it with the others. A store call that takes several databases is
  that many steps. What a SQL statement does is taken from its text in `app/src/queries.py` and from its callers.
- A job's choice does not change while it prepares, and a database's read gives its lines: one that is unreadable or closed
  is one no plan has yet.
- A fresh owner token is never one in use, and clocks agree. A holder in `ReadProtocol` that took its database with a claim
  renews before the claim lapses, which `BackgroundReads` shows of one process; a page that only watches a statement need not.
- Lower case and trimming act on ASCII; names are sequences of characters.
- Sizes and counts are unbounded integers; comparisons the source makes in floating point are made by cross-multiplication.
- The order in which a Python dictionary is walked is used nowhere it could change a result.
- Two units of one selection are read from one state of the source; whole-server keys are distinct ignoring case.
- A plan made again is of the same lines: the job's settings read back as those each line was given.

## Model

| member | source | states |
|---|---|---|
| Text.NumberOfGroupName | app/src/placement.py:103-105 | A group name made from a number gives that number back, whatever the prefix holds |
| Greedy.LoadsAreHeld | app/src/placement.py:59-64 | The running loads the scheduler keeps are, for every group, exactly what its own assignment puts there |
| Greedy.LargeWeightsAreOptimal | app/src/placement.py:51-65 | When the last database placed is above a third of what some assignment keeps to, placing it in the lightest group keeps to it too |
| Greedy.BiggestFirstIsNearOptimal | app/src/placement.py:51-65 | Biggest first into the lightest group is within 4/3 - 1/(3 groups) of every other assignment |
| Greedy.WithinEvenShare | app/src/placement.py:51-65 | From groups each within an even share, the greedy step lets none pass it: groups*load <= total + (groups-1)*largest |
| Placement.MoreTablesMoreGroups | app/src/placement.py:17-21 | The default number of groups is monotone in the tables, negative counts included |
| Placement.GroupsTakeTheTables | app/src/placement.py:17-21 | The default groups hold every table with at most a tenth over the size asked for in each |
| Placement.BiggestFirstIsSorted | app/src/placement.py:61 | The placing order is by tables, most first, then by name |
| Placement.BiggestFirstHasAll | app/src/placement.py:61 | The placing order has every database |
| Placement.Even | app/src/placement.py:51-65 | The loop over rows and then over databases computes the even spread of the per-database totals, over at least one group |
| Placement.PlaceInOrder | app/src/placement.py:59-64 | Each name in order goes to the group with the fewest tables at that time, the lowest index on a tie, from any starting loads |
| Placement.SpreadPlacesAll | app/src/placement.py:51-65 | Every database is placed once, in one of the groups |
| Placement.SpreadLoads | app/src/placement.py:51-65 | Each group ends holding what the greedy step counted there |
| Placement.EvenIsNearOptimal | app/src/placement.py:51-65 | Against every other placement of the same databases over as many groups: 3*m*heaviest <= (4*m-1)*other's heaviest |
| Placement.EvenIsWithinAnEvenShare | app/src/placement.py:51-65 | groups*heaviest <= total + (groups-1)*largest for the spread of a new job |
| Placement.EvenKeepsGroupsToSize | app/src/placement.py:17-21 | With the default number of groups, 10*heaviest <= 11*size + 10*largest |
| Placement.EvenShareOfDefaultGroups | app/src/placement.py:17-21 | Any load within an even share of the default number of groups is within a tenth over the size and one database |
| Placement.PlacementIgnoresOrderAndCase | app/src/placement.py:51-73 | Reordering the rows or changing the case of their names changes no database's group |
| Placement.PlacementIgnoresSplitting | app/src/placement.py:51-73 | Dividing a database's tables over two rows, spelled in any case, changes no database's group |
| Regroup.LoadsAndMembers | app/src/placement.py:118-122 | The loop over the databases computes each group's tables and members |
| Regroup.NewGroupNames | app/src/placement.py:125-130 | The search for unused numbers ends and gives the names specified, one per group to make |
| Regroup.NewNamesAreNew | app/src/placement.py:124-130 | New names are pairwise distinct and no group now has one of them |
| Regroup.GroupsAfterCount | app/src/placement.py:123-131 | Exactly the number of groups asked for remain, each once: those that stay and those made, which have none in common |
| Regroup.KeepInGroup | app/src/placement.py:136-142 | What a staying group keeps of its databases, biggest first, and what it passes to the pool |
| Regroup.InOrderIsSorted | app/src/placement.py:131 | The groups after are in name order, which ties between equal loads follow |
| Regroup.Regroup | app/src/placement.py:108-148 | The whole re-spread, loop by loop, is the specified one; its moves are the databases whose group changed |
| RegroupProperties.RegroupPlacesAll | app/src/placement.py:108-148 | The same databases, each in exactly one of exactly the number of groups asked for |
| RegroupProperties.MadeGroupsAreNew | app/src/placement.py:125-148 | The groups reported new are, each once, those after that no database was in before |
| RegroupProperties.LightestGroupsGo | app/src/placement.py:123 | No group that goes has more tables than one that stays |
| RegroupProperties.BiggestStays | app/src/placement.py:136-142 | A staying group keeps its biggest database |
| RegroupProperties.NoMoveWithoutReason | app/src/placement.py:132-148 | A database whose group stays moves only when keeping it beside the bigger ones kept would pass the even share |
| RegroupProperties.MoreGroupsEmptyNone | app/src/placement.py:108-148 | With at least as many groups as now, no group is left empty |
| RegroupProperties.LoadsAddUp | app/src/placement.py:118-122 | The groups' tables add up to all the tables: none lost, none counted twice |
| RegroupProperties.RegroupIsWithinAnEvenShare | app/src/placement.py:108-148 | count*load <= total + (count-1)*largest for every group after a re-spread too |
| RegroupProperties.RegroupKeepsGroupsToSize | app/src/placement.py:17-21 | Re-spread over the default number of groups, 10*load <= 11*size + 10*largest |
| LightestGroup.Lightest.Place | app/src/placement.py:88-100 | A database joins its server's group with the fewest tables then, stays with it, and its tables count there; nothing for a server the job does not have |
| LightestGroup.PlacedForGood | app/src/placement.py:88-100 | A database once placed keeps its group whatever is placed after |
| LightestGroup.SameDatabaseSameGroup | app/src/placement.py:88-100 | Two requests for one database, spelled in any case, get one group |
| LightestGroup.EveryTableCounts | app/src/placement.py:88-100 | Placing adds the database's tables to its server's groups, once, and changes no other server's |
| Templates.Render | app/src/job_settings.py:81-88 | The loop that replaces one tag after another computes the specified filling; blank gives none |
| Templates.RenderSql | app/src/job_settings_sql.py:36-48 | The single pass over the template's pieces computes the text with each tag's value in place |
| Templates.PrintOfParse | app/src/job_settings_sql.py:42-48 | Splitting a template into pieces loses nothing: printed again it is the template |
| Templates.BothRenderersAgree | app/src/job_settings.py:81-88 | Replacing in turn equals filling in one pass whenever no brace opens outside a tag or in a value used |
| TemplateAgreement.RenderersAgreeExactly | app/src/job_settings.py:81-88 | The two renderers give one name whenever no replacement meets a tag that is not one of the template's own, whatever the values hold; for values with no brace, only then |
| TemplateAgreement.TemplateErrors | app/src/job_settings.py:102-109 | The check of templates finds nothing exactly when every bracketed word is a known tag and a fan-in target has no server or database tag |
| TemplateAgreement.DoubleBracesPass | app/src/job_settings.py:102-109 | A tag inside one more pair of braces passes that check |
| TemplateAgreement.PassesYetDiffers | app/src/job_settings.py:81-109 | {{server}} passes the check, and a server named database then has two names, by any database with no brace |
| Templates.DoubleBracesDiffer | app/src/job_settings.py:81-88 | A tag inside braces, its value spelling another tag's word: in turn fills the tag so made, one pass keeps it |
| Templates.BracedValuesDiffer | app/src/job_settings.py:81-88 | A value that is itself a tag is filled again in turn, and not in one pass |
| TemplateSearch.Search.Walk | app/src/job_settings.py:117-126 | The recursive search adds to its shared set exactly what the specified walk finds, stopping at the limit |
| TemplateSearch.TemplatesOf | app/src/job_settings.py:112-128 | The candidates are those found that fill back to the value, and the value itself |
| TemplateSearch.FoundIsBuilt | app/src/job_settings.py:112-128 | The search finds only what can be built, and all of it while fewer than the limit can be |
| TemplateSearch.BuiltFillsBack | app/src/job_settings.py:112-128 | Every string built renders back to the value, when the value has no brace and no space around it |
| TemplateSearch.FillsBackIsBuilt | app/src/job_settings.py:112-128 | Every proper template whose tags have values in the row and which renders to the value is built |
| TemplateSearch.CandidatesAreAll | app/src/job_settings.py:112-128 | For a proper template, being a candidate and rendering to the value are the same thing, under the limit |
| TemplateChoice.SharedTemplate | app/src/job_settings.py:135-148 | The loop over the first row's candidates, most preferred first, returns the first that every row fits |
| TemplateChoice.ChooseIsBest | app/src/job_settings.py:131-148 | The template chosen fits every row and no candidate that fits is preferred to it; one is chosen whenever one fits |
| TemplateChoice.SharedIsFound | app/src/job_settings.py:135-148 | Whenever a proper template fits every row, inference finds one, and the proper one is not preferred to it |
| TemplateChoice.OneValueIsShared | app/src/job_settings.py:135-148 | Rows that all have one value share a template |
| TemplateChoice.SharedFits | app/src/job_settings.py:135-148 | The template inferred renders to every row's own value |
| SettingsEdit.ReadNow | app/src/job_settings.py:181-201 | Whether the rows share fan-in, and the client_id template read back from those that have one |
| SettingsEdit.Plan | app/src/job_settings.py:255-268 | The rows an edit changes, each with the row it becomes, and no row it leaves as it is |
| SettingsEdit.ExplicitEditSettles | app/src/job_settings.py:230-268 | An edit that names its client_id, turns fan-in off or leaves both alone, planned again after it is written, changes no row |
| EditSettles.EditStays | app/src/job_settings.py:230-268 | Any edit that leaves the client_id to be read back, planned again, changes nothing exactly when the template then gives each row filled the client_id it has |
| EditSettles.ReadBackSettles | app/src/job_settings.py:230-268 | It is settled when the client_ids written read back as a template and every row filled has one |
| EditSettles.InferenceSettles | app/src/job_settings.py:112-148 | It is settled, over any rows with or without client_ids, when the template it fills can be read back from the first row it fills |
| EditSettles.KeptIdsSettle | app/src/job_settings.py:223-268 | A blank client_id given alone, or fan-in kept on, is settled: always when the client_ids read back, else when the default gives each row a key, however long the search |
| EditSettles.NothingFilledSettles | app/src/job_settings.py:230-268 | An edit that fills no row changes none again |
| SettingsEdit.OlderNamesAreUsable | app/src/queries.py:1949-1953 | Under the older naming rule no tag of a target name is empty or holds a brace, so inference sees every tag |
| FanInOn.NoIdsTurnOn | app/src/job_settings.py:223-227 | A job with no client_id that turns fan-in on fills the server-and-database key |
| FanInOn.EveryRowGetsId | app/src/job_settings.py:223-252 | Filling that key gives every row a client_id |
| FanInOn.SettlesWhenReadBack | app/src/job_settings.py:223-268 | Turning fan-in on with that key, whatever client_ids the rows had, is settled if and only if those written read back as a template |
| FanInOn.FanInSettlesExactly | app/src/job_settings.py:112-268 | In the rows' fields: it is settled if and only if no row has a server when the first has none, nor a database when the first has none; underscores at the ends of names matter only where the first row lacks a part |
| FanInOn.NamingBothSettles | app/src/job_settings.py:112-268 | With a server and a database in the first row it is always settled, whatever underscores the names have |
| FanInOn.OneServerUnsettles | app/src/job_settings.py:223-268 | Any rows of one plain name of which one, not the first, has a server: the second planning changes rows |
| FanInOn.DatabaseKeySettles | app/src/job_settings.py:223-268 | An edit that fills the database's name is settled when every row filled has a database and the first one's search is not cut short |
| PrepareProtocol.RunKeepsInv | app/src/main.py:5904-6036 | Over every interleaving of instances, crashes and users the protocol's invariant is kept |
| PrepareProtocol.WrittenOnceAndWhole | app/src/main.py:6084-6206 | In every reachable state each spelling of a database is in at most one commit, and a database's rows are the lines committed for its spellings, no more and no fewer |
| PrepareProtocol.OneSpellingIsWhole | app/src/main.py:6084-6091 | A database the choice spells one way is in at most one commit, and its rows are all of that commit's lines |
| PrepareProtocol.SecondSpellingExactly | app/src/main.py:6185-6198 | Once a database has rows, another spelling's lines can still be written if and only if the job is not Ready and the thread that holds the task has them planned |
| PrepareProtocol.SecondSpellingIsLost | app/src/main.py:6192-6206 | A thread that dies between the commits of two spellings leaves the second's lines never written, over every continuation |
| PrepareProtocol.NothingAfterStop | app/src/main.py:6273-6292 | After Stop commits, no write commits until Prepare again, whoever still holds the task |
| PrepareProtocol.NothingAfterDelete | app/src/main.py:5985-5996 | While the job is deleted no write commits, until it is restored |
| PrepareProtocol.NothingAfterReady | app/src/main.py:5345-5368 | Once the job is Ready no write commits |
| PrepareProtocol.PreparingCanGoOn | app/src/main.py:5904-5923 | From every reachable state that still prepares, any chosen database that was read and is neither written nor left out can still be written, however many holders died |
| PrepareProtocol.HeldBackExactly | app/src/main.py:5985-5996 | A reachable job holds back every write until Prepare again if and only if it is stopped, Ready, or has nothing left: all chosen is written or left out, and its owner has nothing planned and nothing left out since its pass began |
| PrepareProtocol.DeletedAndNotStopped | app/src/main.py:6495-6529 | A Prepare again between a Delete's two transactions leaves a deleted job that writes on once restored |
| PrepareProtocol.StoppedYetReady | app/src/main.py:5345-5368 | A stopped job can still be made Ready if and only if a thread that still runs passed its last check before the Stop |
| PrepareWrite.Writer.WriteChunk | app/src/main.py:4671-4706 | A transaction's lines are added to the rows and counted in the shared state |
| PrepareWrite.Writer.Transaction | app/src/main.py:6239-6254 | However a transaction is answered, the rows and counters afterwards are those of the committed transactions only |
| PrepareWrite.Writer.Write | app/src/main.py:6239-6258 | A transaction, or each of its databases alone when it is refused: each database is committed once or refused alone once |
| PrepareWrite.Writer.WriteAll | app/src/main.py:6239-6270 | When the pass completes, each planned database with rows left is in exactly one committed transaction or one set-aside entry, one with none left in neither, and the counters equal what committed |
| PrepareWrite.SetAsideWasRefusedAlone | app/src/main.py:6250-6258 | A database is set aside if and only if a transaction holding it alone was refused |
| PrepareWrite.CommittedIsWhole | app/src/main.py:4671-4706 | Every line of a committed database is among the rows, whatever was refused or failed around it |
| PrepareWrite.OnlyCommittedIsWritten | app/src/main.py:4671-4706 | Nothing else was added: each row was there before or is a line of a committed database |
| Packing.TransactionsOf | app/src/by_database.py:177-189 | The chunks joined are the input, each is non-empty and within the cap or one database, and none has room for the next database |
| Packing.StaysAhead | app/src/by_database.py:177-189 | After as many transactions the greedy packing has covered at least as much as any other split |
| Packing.FewestTransactions | app/src/by_database.py:177-189 | No order-preserving split under the same rule has fewer transactions |
| PrepareRecord.KeptEntries | app/src/preparing.py:261-270 | Of what a pass found, not left out: every clash, and the first of the others by server and database, up to the limit |
| PrepareRecord.FirstComesFirst | app/src/preparing.py:261-270 | No entry left off the list comes before one on it |
| PrepareRecord.LeaveThemOut | app/src/preparing.py:326-345 | Each database left out comes off the list and the counts once; one left out before, or only closed, changes nothing |
| PrepareRecord.CountsAreExact | app/src/preparing.py:283-289 | The counts a pass stores are the true sizes if and only if nothing it found was left out while it ran and it found no database twice under one kind |
| PrepareRecord.LeftOutDuringPass | app/src/preparing.py:283-289 | Otherwise a job can wait in Needs you with nothing listed and no work to do |
| PrepareRecord.RepeatedIsCountedTwice | app/src/main.py:6192-6203 | A file's database that clashes under two spellings counts twice and is listed once: left out, the job waits in Needs you with nothing listed and no work to do |
| PrepareRecord.FoundRefinesExactly | app/src/preparing.py:283-289 | A pass's findings make the bounded record exact for the sets found, whatever it said before, if and only if nothing it found was left out meanwhile and no database is among them twice |
| PrepareRecord.ReadAgainRefinesExactly | app/src/preparing.py:308-323 | Reading again keeps the record exact if and only if all are read again, or the number of rows reset is that of the databases set aside and named, or is no less than all of them and all are named |
| PrepareRecord.UploadReadsAgainExactly | app/src/main.py:5534-5536 | For an upload, which counts the listed ones, if and only if every database set aside and named is listed |
| PrepareRecord.ReadAgainTwiceHidesOne | app/src/main.py:5529-5532 | A database that failed again and is read again before a pass finds it takes another one's place in the count: the job goes on with that one listed and waiting |
| PrepareRecord.LeaveOutRefinesExactly | app/src/preparing.py:326-345 | Leaving out keeps the record exact, each database moved from set aside to left out, if and only if as many are taken under each kind as the sets have of it, or no fewer than all, and none was only closed |
| PrepareRecord.SetAsideLeavesRight | app/src/main.py:5555-5558 | Entries set aside under their own kinds, as an upload's list gives them, always are |
| PrepareRecord.LeaveOutHidesOne | app/src/main.py:5559-5567 | A database that failed again and is left out before a pass finds it takes another one's place in the count |
| PrepareRecord.ChangeTargetsRefines | app/src/preparing.py:348-364 | Changing the targets takes exactly the clashes off |
| PrepareRecord.ActRefinesExactly | app/src/preparing.py:221-378 | Each action keeps the bounded record exact if and only if it is right in the sense above |
| PrepareRecord.RecordRefines | app/src/preparing.py:221-378 | Over every sequence of right actions: exact counts, every clash listed, at most the limit of others and all belonging, nothing both set aside and left out, Needs you exactly while something waits |
| PrepareRecord.NewRecordRefines | app/src/preparing.py:87-103 | So from the record a new job is given, which stands for empty sets |
| PrepareRecord.NeverGoesBack | app/src/preparing.py:106-126 | Once the write has begun it stays begun, and Ready stays Ready, over every sequence of actions |
| ReadProtocol.StepKeepsClaimsExactly | app/src/main.py:3784-3877 | A step keeps each database claimed by a live holder under a live claim if and only if it does not take one back: ticked again, resumed, read again, or cleared by another who watched it |
| ReadProtocol.NeverHeldTwice | app/src/warehouse_reads.py:181-221 | Over every run of readers and pages that takes none back so, no database is sent by two live holders |
| ReadProtocol.RetickedIsHeldTwice | app/src/queries.py:1824-1833 | A database dropped while it is read and ticked again is claimed by a second holder at once |
| ReadProtocol.ResumedIsHeldTwice | app/src/queries.py:2936-2952 | So is one whose job is stopped and prepared again while it is read |
| ReadProtocol.ClearedIsHeldTwice | app/src/warehouse_reads.py:188-195 | So is one a page also watches, when the page fails to read its statement and clears it |
| ReadProtocol.ReadAgainIsHeldTwice | app/src/queries.py:2913-2922 | So is one a page also watches, when the page saves that it failed and it is read again |
| ReadProtocol.CheckCanEnd | app/src/warehouse_reads.py:188-199 | A check whose statement lost its watcher can be taken up and ended by the next page that asks |
| ReadProtocol.InFlightAfter | app/src/queries.py:1642-1760 | From any state only a claim, a collection, a renewal or a statement saved as sent puts a database in flight, and only its own |
| ReadProtocol.StepKeepsCapExactly | app/src/main.py:3787-3851 | From any state a step keeps a server's checks and reads within its cap if and only if it does not, with no place left, collect a statement, renew a lapsed claim, or save a statement as sent whose claim was taken back |
| ReadProtocol.CapHolds | app/src/main.py:3787-3851 | Over every run from any state in which those find a place, checks and reads in flight never exceed the cap |
| ReadProtocol.CapIsPassed | app/src/queries.py:1700-1717 | A run of ordinary steps that passes the cap, for a read collected and for a check a page asks about again |
| ReadProtocol.CapIsPassedBySending | app/src/queries.py:1753-1760 | And one by a statement that was being sent while its job was stopped and prepared again and its place claimed for another database |
| ReadProtocol.HoldersAreInFlight | app/src/queries.py:1642-1647 | While no claim has been taken back from a live holder, those that claimed a database left to do are no more than the count the cap is held to |
| ReadProtocol.TablesSavedOnce | app/src/main.py:3859-3877 | A row has tables exactly when it ended ok, and those of one statement |
| ReadProtocol.EndedForGood | app/src/main.py:3859-3877 | An ended row stays ended with the tables it was ended with, whatever follows |
| ReadProtocol.SavedByTheAnswerThatEnds | app/src/queries.py:1776-1787 | Tables are saved only by the step that ends the row, and only for its own statement |
| BackgroundReads.Reader.Step | app/src/background_reads.py:114-156 | A look hands out no more reads than workers are free, watches orphans first, claims from servers in turn order, at most one while the warehouse starts and none while paused |
| BackgroundReads.Reader.Looks | app/src/background_reads.py:102-112 | Over any looks, each takes the turn on or asks no server, and the first server it asks is the one whose turn it is |
| BackgroundReads.Reader.LetGo | app/src/background_reads.py:203-205 | A read that ended gives its place back and its claim is no longer renewed |
| BackgroundReads.Reader.ClaimsNeverLapse | app/src/background_reads.py:207-212 | While looks are no more than CLAIM_S - HOLD_S apart no claim held by the process lapses, so its holders renew in time |
| BackgroundReads.EveryServerComesFirst | app/src/background_reads.py:138-142 | While the same servers wait, each is asked first by one of as many looks as there are of them |
| BackgroundReads.PassedOverForGood | app/src/background_reads.py:138-156 | When they change, one can be passed over for good: the last of three that waits at every other look is never asked first, and never at all while a look asks one server, as it does with one worker free and a read for it |
| SharedCache.CallReflectsForgotten | app/src/main.py:445-498 | In every interleaving, a value returned reflects every write whose forget finished before the call began |
| SharedCache.OneComputePerKey | app/src/main.py:452-479 | At most one compute of a key runs at a time when the cache is on |
| SharedCache.SinceIsWhenItBegan | app/src/main.py:452-479 | What a call is measured against is fixed when it begins |
| SharedCache.CommittedYetMissed | app/src/main.py:491-498 | A write committed and not yet forgotten can be missed by a call that began after it |
| Selecting.DatabasePages | app/src/by_database.py:84-94 | Keyset paging ends and gives the whole listing, each database once, in order |
| Selecting.Gather | app/src/by_database.py:130-133 | The tables named are gathered by database as spelled, none lost and none invented, each database's first spelling first |
| Selecting.SelectionUnits | app/src/by_database.py:114-138 | One unit per database taken: whole when the selection takes it whole, else the tables named of it under its first spelling |
| SelectedRows.KeyTellsApart | app/src/by_database.py:141-144 | Two databases with one read key are one database |
| SelectedRows.RowsByUnit | app/src/by_database.py:153-160 | Each unit gets the rows of its key that it takes, in order |
| SelectedRows.ReadAll | app/src/by_database.py:147-160 | Reading batch by batch gives each unit what matching it against the whole source would |
| SelectedRows.TakenByOne | app/src/by_database.py:107-138 | No row is taken by two units |
| SelectedRows.TakenIffSelected | app/src/queries.py:3395-3403 | A unit takes a row if and only if the selection's own filter does and it is not named only under a later spelling of its database |
| SelectedRows.UnitsTakeTheSelection | app/src/by_database.py:84-160 | Paging, units, batches and matching compose to the filter, each row as often as the source has it, if and only if no row is named only under a later spelling |
| SelectedRows.ReadSelection | app/src/main.py:4630-4638 | The whole of it run, page by page, unit by unit and batch by batch: the rows read are the filter's under that condition and no other |
| SelectedRows.SecondSpellingIsLost | app/src/by_database.py:130-138 | A table named under a second spelling of a database, and not under the first, is taken by no unit |
| SelectedRows.OneSpellingNamesNoneLater | app/src/by_database.py:130-138 | With each database spelled one way no row is |
| LinePlan.CountSizes | app/src/new_job.py:76-86 | The tables the file gives each new database, counted by server |
| LinePlan.PlaceLine | app/src/new_job.py:89-97 | A line's database: the job's group for it, else its server's lightest group, else its index in the even spread |
| LinePlan.Plan | app/src/new_job.py:165-252 | Line by line, each line's group and status and the groups its lines go to |
| LinePlanProperties.NeverSplit | app/src/new_job.py:69-97 | Lines of one server and database, its name in any case, share a group, however the group was found |
| LinePlanProperties.JoinsAGroupOfItsServer | app/src/new_job.py:93-94 | A new database on a server the job has goes to a group the job has there |
| LinePlanProperties.WrittenExactly | app/src/new_job.py:235-248 | A line is not invalid if and only if nothing else is wrong, its group is free and no earlier line has its target; a valid one's target is new to the job |
| LinePlanProperties.TargetsAreDistinct | app/src/new_job.py:235-248 | Lines that are not invalid have pairwise distinct targets, and valid ones are new to the job |
| LinePlanProperties.GroupOfListed | app/src/by_database.py:75-81 | The by-database path: the group of a database from its server's listing |
| LinePlanProperties.FileAndListingAgree | app/src/new_job.py:69-97 | The file path and the by-database path put every database of a new job in the same group |
| JobInputs.JobInputs | app/src/new_job.py:261-289 | What the job's rows say: each database's group as its oldest row has it, targets, group names and tables by group |
| JobInputs.KnownIsFirst | app/src/new_job.py:273-282 | A database is known if and only if it has a row, with the group of the oldest |
| JobInputs.PlannedAgainIsInJob | app/src/new_job.py:292-307 | After a plan's lines are written, the same lines planned again find each of them in the job, in the same group |
| JobInputs.InJobStaysInJob | app/src/new_job.py:292-307 | Lines already in the job, of databases it has, stay so in the same group |
| Rediscovery.OnePortComesOff | app/src/rediscovery.py:95-97 | A host with a port has the host as its key |
| Rediscovery.TwoPortsComeOffInTurn | app/src/rediscovery.py:95-97 | A name ending in two ports has a key that is not its own key |
| Rediscovery.Want | app/src/rediscovery.py:179-235 | Part by part and row by row: what is added, the databases named new and the tables gone |
| Rediscovery.ExcludedIsNeverAdded | app/src/rediscovery.py:200-221 | No table the job removed is ever added |
| Rediscovery.Settles | app/src/rediscovery.py:179-235 | Adding what is wanted and asking again adds nothing, names no database and reports the same tables gone, when no server's key loses a second port |
| Rediscovery.SettlesExactly | app/src/rediscovery.py:175-235 | It settles if and only if, of the tables found, each one added for a database part is kept under its key by one added, each database named has one added, and none added is at once gone |
| Rediscovery.UnstableIsAddedAgain | app/src/rediscovery.py:95-102 | A table of a server with a second port, of a database part, is added again every time |

## Left out

- Text.Lower: lower case outside ASCII, and Unicode normalisation, are not modelled.
- PrepareProtocol.NothingAfterDelete: says until Restore, not until Prepare again: a Prepare again between Delete's two transactions makes the stronger form false, and HeldBackExactly says when it holds.
- FanInOn.FanInSettlesExactly: when the first row lacks a server or a database, asks that no underscore at an end of its names, or of another row's part that it lacks, can stand for it; with one a template can fit by coincidence, and SettlesWhenReadBack is the exact condition.
- FanInOn.DatabaseKeySettles: gives a sufficient condition; EditSettles.EditStays is the exact one for any template.
- EditSettles.InferenceSettles: gives a condition on the first row filled; for a template other than the two defaults, that some other template fits every row is not ruled out when it fails.
- SettingsEdit.ReadNow: reads fan-in and the client_id only, what a settings edit uses; the other settings read are shown, not filled from.
- TemplateAgreement.RenderersAgreeExactly: says when the renderers differ for values with no brace only; BracedValuesDiffer is an instance with one.
- Rediscovery.Want: names new databases in lower case where the source keeps the spelling it found, and keeps no error messages.
- LinePlan.Plan: takes each line's target, client_id and own problems as given; the CSV, its load types and the checks of a row are not modelled.
- JobInputs.JobInputs: does not model the settings read back from the job's rows or the refusal of a job whose tables differ in one.
- BackgroundReads.Reader.Step: treats a look as one step, the warehouse's state and the pause after a failed send as inputs, and does not order a server's discoveries by what they have left.
- SelectedRows.ReadAll: matches databases without regard to case; the faster exact match of names a listing returned is not modelled.
- BackgroundReads.PassedOverForGood: that each look has one worker free and a read for the first server it asks is what Reader.Step says of a look, not of the run of looks.
- SelectedRows.ReadSelection: takes the listing in key order, each database once but for case, as its query gives it.
- SharedCache.CallReflectsForgotten: is about one process; another process's cache lives until its entries expire.
- main._regroup_plan: its per-server loop, which leaves a server alone when its number of groups is unchanged, only collects what Regroup gives.
- job_settings_sql: the SQL preview and apply of a settings edit, beyond the filling of names.
- job_settings: identity columns, freshness, Add databases and the checks that refuse an edit.
- preparing.with_set_aside without counts, which recounts from the listed entries only, and the record's labels and minutes.
- The waiting of checks for a place (wanted marks): reads leave places for them, which only makes fewer claims.
- A page's step as a whole (warehouse_reads.advance): its store calls are steps of ReadProtocol, in any order.
- Routes, permissions, connections, schemas, schedules, the run poller and everything the front end shows.
