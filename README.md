# pysqoop import builder, modelled in Dafny

This project models the `Sqoop` class of `pysqoop/pysqoop/SqoopImport.py`. The class builds a
`sqoop import` command line from keyword arguments.

- **The store.** The class keeps an insertion-ordered flag store, `_properties`, a
  `collections.OrderedDict`. It is a class attribute, so every instance shares it.
- **Construction.** The constructor assigns 39 keys unconditionally (lines 20-58). Eight guards
  then set their key to `''` when its argument is truthy (lines 59-74); these eight are called
  presence flags below. Six of them are written only by their guard (presence-only flags);
  `--hive-drop-import-delims` and `--delete-target-dir` are also assigned unconditionally, at
  lines 22 and 32. It assigns `--query` last (line 75).
- **Checks.** The constructor then runs three checks (`_perform_checks`, lines 80-86).
- **Command.** Finally it caches `"sqoop import "` followed by the `key value` pieces of every
  entry whose value is not `None`, in store order, joined by single spaces (lines 77-78).
  `properties()` returns the store and `command()` returns the cached string.

Modules:

- `Results` (`results.dfy`): `Option` and `Result`.
- `Flags` (`flags.dfy`): the 46 keys as a datatype with their command-line spelling.
  - `KeyOnLine`/`BaseOrder` give the key of each of lines 20-58, in textual order.
  - `MarkOrder` gives the eight guarded keys of lines 59-74.
  - `FirstAssigned`/`MarkLine` give the line that writes each key.
  - Keyword arguments are a function `ImportArgs` from key to `Option<string>`, with `None`
    the Python default. `Truthy` is a value other than `None` and `''`.
- `OrderedDicts` (`ordered_dict.dfy`): the ordered dictionary.
  - `Dict` is a value snapshot: a key sequence plus a map.
  - `OrderedDict` is the mutable object shared by reference. Its `Assign` is `d[k] = v`.
- `CommandLine` (`command_line.dfy`): rendering. `Present` selects the non-`None` entries,
  `Piece` is `'{} {}'.format`, `Line` is `' '.join` and `Render` is the cached command.
  `ValuedItems` is the same comprehension written over `items()`; `RenderItems` shows the two agree.
- `Assignments` (`assignments.dfy`): the constructor's assignments as functions on snapshots.
  - `AssignEach` covers lines 20-58, `MarkEach` lines 59-74, and `Construction`/`Populate` all
    of lines 20-75.
  - `Replay` gives the shared store after several constructions.
- `SqoopImport` (`sqoop_import.dfy`): `Check` is `_perform_checks`. The class `Sqoop` has:
  - the in-place construction methods over the shared store;
  - `Properties` and `Command`;
  - `ConstructIsolated`, the corrected constructor (see Findings).
- `UnitCases` (`unit_cases.dfy`): the expected outcomes of the calls in
  `unittests/unitary_tests.py` that this class implements, plus the shared-store finding.

## Model

| member | source | states |
|---|---|---|
| Flags.KeysFrom | pysqoop/pysqoop/SqoopImport.py:20-58 | the keys of lines `n`..58 number `59 - n`, and the `i`-th is the key assigned on line `n + i` |
| Flags.BaseOrderLines | pysqoop/pysqoop/SqoopImport.py:20-58 | the unconditional order lists 39 keys; position `i` holds the key of line `20 + i`, first written on that line |
| Flags.KeyOnLineLines | pysqoop/pysqoop/SqoopImport.py:20-58 | each of lines 20-58 writes a key that no earlier line writes |
| Flags.MarkOrderLines | pysqoop/pysqoop/SqoopImport.py:59-74 | eight guarded keys; the `i`-th is set on line `60 + 2i` |
| Flags.BaseOrderDistinct | pysqoop/pysqoop/SqoopImport.py:20-58 | no key is assigned unconditionally twice |
| Flags.MarkOrderDistinct | pysqoop/pysqoop/SqoopImport.py:59-74 | no presence flag is guarded twice |
| Flags.BaseOrderBounds | pysqoop/pysqoop/SqoopImport.py:20-58 | every unconditional key is first written on one of lines 20-58 |
| Flags.QueryNotListed | pysqoop/pysqoop/SqoopImport.py:20-75 | `--query` is neither among lines 20-58 nor a presence flag |
| Flags.AssignedOn | pysqoop/pysqoop/SqoopImport.py:20-58 | the key written on any of lines 20-58 is an unconditional key |
| Flags.NotPresenceFlag | pysqoop/pysqoop/SqoopImport.py:59-74 | a key no guard sets is not a presence flag |
| Flags.AssignedLater | pysqoop/pysqoop/SqoopImport.py:20-58 | a key first written after line 58 is not unconditional |
| Flags.OrderOverlap | pysqoop/pysqoop/SqoopImport.py:20-74 | a presence flag is also unconditional iff it is `--hive-drop-import-delims` or `--delete-target-dir` |
| Flags.MarksAfterBase | pysqoop/pysqoop/SqoopImport.py:59-74 | every other presence flag is first written by its own guard, after line 58 |
| Flags.OrdersWellFormed | pysqoop/pysqoop/SqoopImport.py:20-75 | both key orders are duplicate-free and neither lists `--query` |
| OrderedDicts.Dict.Set | pysqoop/pysqoop/SqoopImport.py:9 | `d[k] = v` keeps the dictionary well formed |
| OrderedDicts.Dict.SetIf | pysqoop/pysqoop/SqoopImport.py:59-74 | a guarded `d[k] = v` keeps the dictionary well formed |
| OrderedDicts.Dict.Items | pysqoop/pysqoop/SqoopImport.py:78 | `items()` yields one `(key, value)` pair per key, in key order |
| OrderedDicts.AppendNewGrows | pysqoop/pysqoop/SqoopImport.py:9 | a new key is added after the old keys, which stay a prefix; nothing else is added |
| OrderedDicts.AppendIfGrows | pysqoop/pysqoop/SqoopImport.py:59-74 | a guarded assignment adds its key exactly when the guard holds, keeping the old keys as a prefix |
| OrderedDicts.AppendIfAfter | pysqoop/pysqoop/SqoopImport.py:59-74 | a guarded new key goes to the very end, after keys appended since |
| OrderedDicts.UpdateIfFacts | pysqoop/pysqoop/SqoopImport.py:59-74 | a guarded assignment changes its key's value exactly when the guard holds |
| OrderedDicts.Empty | pysqoop/pysqoop/SqoopImport.py:9 | `OrderedDict()` has no keys and no entries |
| OrderedDicts.SetExistingKeepsPosition | pysqoop/pysqoop/SqoopImport.py:9 | reassigning a present key keeps the key order; only that item's value changes, in place |
| OrderedDicts.SetNewAppends | pysqoop/pysqoop/SqoopImport.py:9 | assigning a new key appends exactly one item at the end |
| OrderedDicts.SetThenGet | pysqoop/pysqoop/SqoopImport.py:9 | reading back a key returns the value last assigned; other keys are untouched |
| OrderedDicts.SetKeepsOrder | pysqoop/pysqoop/SqoopImport.py:9 | assignment never removes or moves a key; it grows the order by one iff the key is new |
| OrderedDicts.OrderedDict.constructor | pysqoop/pysqoop/SqoopImport.py:9 | the shared store starts empty and well formed |
| OrderedDicts.OrderedDict.Assign | pysqoop/pysqoop/SqoopImport.py:20-75 | `d[k] = v` in place: the new contents are the old ones with `Set(k, v)` |
| CommandLine.EmitOf | pysqoop/pysqoop/SqoopImport.py:78 | one entry contributes at most one `(key, value)` pair |
| CommandLine.EmitOfCases | pysqoop/pysqoop/SqoopImport.py:78 | an entry contributes a pair iff its key is listed with a value other than `None`, and the pair is that key with that value |
| CommandLine.Present | pysqoop/pysqoop/SqoopImport.py:78 | the comprehension keeps at most as many entries as the store has keys |
| CommandLine.PieceReadBack | pysqoop/pysqoop/SqoopImport.py:78 | `'{} {}'.format(key, val)` is the key's flag, one space, then the value, which can be read back after them |
| CommandLine.Line | pysqoop/pysqoop/SqoopImport.py:78 | `' '.join` of the pieces is empty iff no entry is emitted |
| CommandLine.ValuedItems | pysqoop/pysqoop/SqoopImport.py:78 | `[(key, val) for key, val in items if val is not None]` keeps at most as many pairs as `items()` yields |
| CommandLine.ValuedItemsMember | pysqoop/pysqoop/SqoopImport.py:78 | a `(key, value)` pair is kept iff `items()` yields that key with that value rather than `None` |
| CommandLine.PresentPairs | pysqoop/pysqoop/SqoopImport.py:78 | filtering the store's keys and values gives the same entries as filtering its `items()` |
| CommandLine.RenderItems | pysqoop/pysqoop/SqoopImport.py:77-78 | the cached command is `"sqoop import "` followed by the join of the comprehension over `items()` |
| CommandLine.Render | pysqoop/pysqoop/SqoopImport.py:77-78 | the cached command begins with `"sqoop import "` |
| CommandLine.PresentSingle | pysqoop/pysqoop/SqoopImport.py:78 | a single entry contributes a piece iff its value is not `None` |
| CommandLine.PresentAppend | pysqoop/pysqoop/SqoopImport.py:78 | the pieces of two key runs are the pieces of the first, then of the second |
| CommandLine.PresentAllNone | pysqoop/pysqoop/SqoopImport.py:78 | entries whose value is `None` contribute nothing to the command |
| CommandLine.PresentUpdateOther | pysqoop/pysqoop/SqoopImport.py:78 | changing an unlisted key changes no emitted piece |
| CommandLine.PresentAt | pysqoop/pysqoop/SqoopImport.py:78 | store order is output order: entry `i` is emitted after every earlier entry and before every later one |
| CommandLine.LineAppend | pysqoop/pysqoop/SqoopImport.py:78 | joining two non-empty runs of pieces puts exactly one space between them |
| CommandLine.RenderSetExisting | pysqoop/pysqoop/SqoopImport.py:78 | reassigning a present key changes only its own piece, in its own place |
| CommandLine.PresentSnoc | pysqoop/pysqoop/SqoopImport.py:78 | a newly appended key is emitted last, iff its value is not `None` |
| CommandLine.RenderSetNewNone | pysqoop/pysqoop/SqoopImport.py:77-78 | a new key holding `None` leaves the command unchanged |
| CommandLine.RenderSetNewSome | pysqoop/pysqoop/SqoopImport.py:77-78 | a new key holding a value puts its piece at the end, after one space unless nothing came before |
| CommandLine.PresentMember | pysqoop/pysqoop/SqoopImport.py:78 | a `(key, value)` is emitted iff the key is listed and holds that value rather than `None` |
| CommandLine.DoubleSpace | pysqoop/pysqoop/SqoopImport.py:78 | a `''`-valued piece followed by more pieces renders as the key, then two spaces |
| CommandLine.LineAfter | pysqoop/pysqoop/SqoopImport.py:78 | after a prefix that emits something, the join adds one space; after an empty prefix, none |
| CommandLine.PresentFrom | pysqoop/pysqoop/SqoopImport.py:78 | the pieces from position `i` on are entry `i`'s piece, then the rest |
| CommandLine.PresentFromValue | pysqoop/pysqoop/SqoopImport.py:78 | an entry holding a value is emitted first among the entries from its position on |
| CommandLine.EmptyValueAt | pysqoop/pysqoop/SqoopImport.py:78 | an entry holding `''` is emitted with the empty string, between the earlier and later pieces |
| CommandLine.EmptyValueDoubleSpace | pysqoop/pysqoop/SqoopImport.py:77-78 | a `''` entry followed by an emitted entry renders as its key, two spaces, then the next entry's piece |
| Assignments.AssignEach | pysqoop/pysqoop/SqoopImport.py:20-58 | the store afterwards: old keys a prefix; keys = old plus the assigned ones; each assigned key holds its argument; the rest unchanged; well formed |
| Assignments.MarkEach | pysqoop/pysqoop/SqoopImport.py:59-74 | the same, with only truthy-argument keys added or set, each to `''` |
| Assignments.Construction | pysqoop/pysqoop/SqoopImport.py:20-75 | keys only added or updated, never removed or moved; written keys hold `''` (truthy presence flag) or their argument; others unchanged; well formed |
| Assignments.ConstructionEntry | pysqoop/pysqoop/SqoopImport.py:20-75 | the same statement for a single key |
| Assignments.Fresh | pysqoop/pysqoop/SqoopImport.py:59-74 | exactly the guarded keys with a truthy argument not yet listed; none when no guard holds |
| Assignments.AssignEachAppends | pysqoop/pysqoop/SqoopImport.py:20-58 | assigning not-yet-listed keys appends them in textual order |
| Assignments.MarkEachAppends | pysqoop/pysqoop/SqoopImport.py:59-74 | the guards append exactly the new truthy keys, in guard order |
| Assignments.ConstructionOrder | pysqoop/pysqoop/SqoopImport.py:20-75 | on a store listing none of the unconditional keys and not `--query` (the first construction), key order: old keys, then the unconditional keys, then the new truthy presence flags, then `--query` |
| Assignments.ConstructionKeepsBase | pysqoop/pysqoop/SqoopImport.py:20-75 | on a store listing none of the unconditional keys and not `--query` (the first construction), the `i`-th unconditional key sits right after the old keys, at their count plus `i` |
| Assignments.FreshStoreOrder | pysqoop/pysqoop/SqoopImport.py:20-75 | on an empty store: the 39 keys of lines 20-58, the truthy presence-only flags in guard order, then `--query` |
| Assignments.FreshStorePosition | pysqoop/pysqoop/SqoopImport.py:20-58 | on an empty store the key of line `20 + i` sits at position `i`, whatever the arguments |
| Assignments.HiveDropImportDelimsStaysThird | pysqoop/pysqoop/SqoopImport.py:22-68 | `--hive-drop-import-delims` is third; the overwrite at line 68 does not move it |
| Assignments.HiveDropImportDelimsValue | pysqoop/pysqoop/SqoopImport.py:67-68 | with a truthy argument it holds `''`, else its argument |
| Assignments.ConstructionWithoutMarks | pysqoop/pysqoop/SqoopImport.py:20-75 | with no truthy presence flag, exactly the unconditional keys and `--query` are written, each with its argument |
| Assignments.FreshStoreWithoutMarks | pysqoop/pysqoop/SqoopImport.py:20-75 | on an empty store with no truthy presence flag: the 39 keys plus `--query`, each holding its argument |
| Assignments.FreshUnconditionalEntry | pysqoop/pysqoop/SqoopImport.py:20-58 | an unconditional key not overwritten by a guard holds its argument |
| Assignments.ConstructionUnconditional | pysqoop/pysqoop/SqoopImport.py:20-74 | the same for any store and key orders |
| Assignments.ConstructionPresence | pysqoop/pysqoop/SqoopImport.py:59-74 | on a store not yet listing it, a key only a guard writes is present afterwards iff its argument is truthy, and then holds `''` (on a store that already lists it the key stays listed, as `UnitCases.SharedStoreKeepsHelp` shows) |
| Assignments.FreshQueryEntry | pysqoop/pysqoop/SqoopImport.py:75 | `--query` always holds its argument |
| Assignments.FreshPresenceEntry | pysqoop/pysqoop/SqoopImport.py:59-74 | on an empty store, a presence-only flag is present iff its argument is truthy, and then holds `''` |
| Assignments.Replay | pysqoop/pysqoop/SqoopImport.py:9 | constructions in turn on the shared store never drop or reorder a key, and keep it well formed |
| Assignments.WrittenSoFarSome | pysqoop/pysqoop/SqoopImport.py:9 | "some construction so far wrote `k`" holds iff one of the calls writes `k` |
| Assignments.ReplayWritten | pysqoop/pysqoop/SqoopImport.py:9 | a key is in the shared store iff it was there initially or some construction so far wrote it, so a flag set once stays |
| Assignments.Populate | pysqoop/pysqoop/SqoopImport.py:20-75 | the constructor's assignments are `Construction` with the key orders of lines 20-58 and 59-74; what they leave is stated by `Construction`'s contract and by `FreshStoreOrder`, `ListedStoreOrder`, `PopulateIdempotent` and `SqoopImport.CheckedKeysWritten` |
| Assignments.AssignEachListed | pysqoop/pysqoop/SqoopImport.py:20-58 | reassigning keys the store already lists leaves its key order unchanged |
| Assignments.ConstructionOnListedStore | pysqoop/pysqoop/SqoopImport.py:9-75 | on a store that already lists the unconditional keys and `--query`, the only keys added are the new truthy presence flags, appended in guard order |
| Assignments.ListedStoreOrder | pysqoop/pysqoop/SqoopImport.py:9-75 | the same for the constructor's own key orders: `Populate(d, a).keys == d.keys + Fresh(MarkOrder, d.keys, a)` |
| Assignments.ConstructionLists | pysqoop/pysqoop/SqoopImport.py:20-75 | after any construction the store lists every unconditional key and `--query` |
| Assignments.SecondConstructionOrder | pysqoop/pysqoop/SqoopImport.py:9-75 | a second construction on the shared store appends only its new truthy presence flags, after every key already listed |
| Assignments.RepeatKeys | pysqoop/pysqoop/SqoopImport.py:20-75 | a construction repeated with the same arguments adds no key and moves none |
| Assignments.RepeatValues | pysqoop/pysqoop/SqoopImport.py:20-75 | a construction repeated with the same arguments leaves every value as the first left it |
| Assignments.PopulateIdempotent | pysqoop/pysqoop/SqoopImport.py:9-75 | repeating the constructor's assignments with the same arguments on the store they left changes nothing |
| Assignments.ReplaySameCall | pysqoop/pysqoop/SqoopImport.py:9-75 | the same call made any number of times (at least once) on the shared store leaves it as one call does |
| Assignments.FreshNone | pysqoop/pysqoop/SqoopImport.py:59-74 | no guarded key is added when every guard is false or its key is already listed |
| Assignments.FreshOnly | pysqoop/pysqoop/SqoopImport.py:59-74 | when exactly one guard adds a new key, that key alone is added |
| SqoopImport.Check | pysqoop/pysqoop/SqoopImport.py:80-86 | each of the four outcomes (three errors, success), iff its condition in rule order; `--help` counts by key presence; a falsy `--incremental` is never rejected |
| SqoopImport.Message | pysqoop/pysqoop/SqoopImport.py:6-8 | each error has a non-empty text; the table/query and incremental texts open with a dash (the flag at fault), "all parameters are empty" does not |
| SqoopImport.MessagesDistinct | pysqoop/pysqoop/SqoopImport.py:6-8 | the three errors are raised with three different texts |
| SqoopImport.CheckMissingTableOrQuery | pysqoop/pysqoop/SqoopImport.py:83-84 | some value set, with no truthy table or query and no `--help` key, fails the table/query rule |
| SqoopImport.CheckAcceptsTable | pysqoop/pysqoop/SqoopImport.py:80-86 | a truthy table with a falsy `--incremental` passes every check |
| SqoopImport.CheckedKeysWritten | pysqoop/pysqoop/SqoopImport.py:20-75 | after any construction, `--table`, `--query` and `--incremental` are in the store, so the checks' lookups never fail |
| SqoopImport.TableAndIncrementalUnconditional | pysqoop/pysqoop/SqoopImport.py:29-37 | `--table` and `--incremental` are unconditional keys |
| SqoopImport.CheckedKeysNotPresenceFlags | pysqoop/pysqoop/SqoopImport.py:59-75 | no guard sets `--table`, `--incremental` or `--query` |
| SqoopImport.FreshIncrementalRule | pysqoop/pysqoop/SqoopImport.py:85-86 | with a truthy table, construction fails iff `--incremental` is truthy and not `lastmodified` or `append` |
| SqoopImport.Sqoop.Cache | pysqoop/pysqoop/SqoopImport.py:77-78 | an instance holds the shared store and the command rendered at construction |
| SqoopImport.Sqoop.Properties | pysqoop/pysqoop/SqoopImport.py:88-89 | `properties()` returns the shared store object itself, not a copy |
| SqoopImport.Sqoop.Command | pysqoop/pysqoop/SqoopImport.py:91-92 | `command()` returns the string cached at construction, a constant of the instance |
| SqoopImport.Sqoop.AssignEachInPlace | pysqoop/pysqoop/SqoopImport.py:20-58 | the in-place assignments leave the store as `AssignEach` states |
| SqoopImport.Sqoop.MarkEachInPlace | pysqoop/pysqoop/SqoopImport.py:59-74 | the in-place guards leave the store as `MarkEach` states |
| SqoopImport.Sqoop.AssignArguments | pysqoop/pysqoop/SqoopImport.py:20-75 | the constructor's assignments leave the store as `Populate` of the old store states |
| SqoopImport.Sqoop.Construct | pysqoop/pysqoop/SqoopImport.py:11-78 | store updated in place, also when a check fails; failure iff `Check` reports an error, which it carries; on success, a new instance over the shared store caching `Render` of it |
| SqoopImport.Sqoop.ConstructIsolated | pysqoop/pysqoop/SqoopImport.py:9 | corrected constructor on a fresh store: outcome and cached command depend on this call's arguments only |
| UnitCases.PresentKeysFromQuiet | pysqoop/pysqoop/SqoopImport.py:78 | lines whose keys all hold `None` contribute nothing to the command |
| UnitCases.PresentKeysFromEmits | pysqoop/pysqoop/SqoopImport.py:78 | a line's key holding a value emits it ahead of later lines' keys |
| UnitCases.PresentKeysFromFirstValue | pysqoop/pysqoop/SqoopImport.py:78 | when lines `n`..`m-1` hold `None` and line `m` a value, that value is the first piece emitted from line `n` on |
| UnitCases.MarksNotPassed | pysqoop/pysqoop/SqoopImport.py:59-74 | a call passing no key that a guard of lines 59-74 tests leaves every guard false |
| UnitCases.EmptyCall | unittests/unitary_tests.py:10-14 | `Sqoop()` on a fresh store fails with "all parameters are empty" |
| UnitCases.FreshMissingTableOrQuery | pysqoop/pysqoop/SqoopImport.py:83-84 | on a fresh store, some value set but no truthy table, query or help fails the table/query rule |
| UnitCases.CheckedKeysUnconditional | pysqoop/pysqoop/SqoopImport.py:23-37 | `--fields-terminated-by`, `--table` and `--incremental` are unconditional |
| UnitCases.CheckedKeysNotMarked | pysqoop/pysqoop/SqoopImport.py:59-75 | `--help` is only a presence flag; `--fields-terminated-by` and `--query` are not presence flags |
| UnitCases.FieldsTerminatedByOnly | unittests/unitary_tests.py:16-20 | `Sqoop(fields_terminated_by='"')` fails with the table/query message |
| UnitCases.ParametersOrderFromLine28 | unittests/unitary_tests.py:22-25 | of lines 28-58, only `--table prova` is emitted |
| UnitCases.ParametersOrderFromLine24 | unittests/unitary_tests.py:22-25 | of lines 24-58, `--null-string ''` then `--table prova` |
| UnitCases.ParametersOrderEmitted | unittests/unitary_tests.py:22-25 | the three values are emitted in line order (23, 27, 29), not argument order |
| UnitCases.ParametersOrderKeysUnconditional | pysqoop/pysqoop/SqoopImport.py:23-29 | the three keys of that test are unconditional |
| UnitCases.FreshStorePassed | pysqoop/pysqoop/SqoopImport.py:20-75 | a fresh call passing no key that a guard of lines 59-74 tests lists the 39 keys and `--query`, each holding what was passed or `None` |
| UnitCases.ParametersOrderPassed | unittests/unitary_tests.py:24 | the store holding exactly that call's three values meets the test's store description |
| UnitCases.ParametersOrderStore | unittests/unitary_tests.py:24 | that call on a fresh store yields that store |
| UnitCases.ParametersOrderLineTable | unittests/unitary_tests.py:25 | the piece `--table prova` |
| UnitCases.ParametersOrderLineNullString | unittests/unitary_tests.py:25 | the pieces `--null-string '' --table prova` |
| UnitCases.ParametersOrderLineFirst | unittests/unitary_tests.py:25 | the first piece is `--fields-terminated-by "` |
| UnitCases.ParametersOrderLine | unittests/unitary_tests.py:25 | the first piece, one joining space, then the other two pieces: the expected text after the prefix |
| UnitCases.ParametersOrderPresent | unittests/unitary_tests.py:22-25 | that store emits exactly its three values, in line order, and nothing for `--query` |
| UnitCases.ParametersOrderRendered | unittests/unitary_tests.py:22-25 | that store passes the checks and renders the expected command |
| UnitCases.ParametersOrder | unittests/unitary_tests.py:22-25 | `Sqoop(null_string="''", fields_terminated_by='"', table='prova')` passes and renders `sqoop import --fields-terminated-by " --null-string '' --table prova` |
| UnitCases.ParametersOrderRepeated | unittests/unitary_tests.py:22-25 | the test's loop: any number of those calls on one store, starting empty, leaves the store of one call, so each passes and renders the same command |
| UnitCases.HiveDropImportDelimsThenTerminator | unittests/unitary_tests.py:29-30 | with `hive_drop_import_delims=True`, that key is third holding `''` and `--fields-terminated-by` is fourth with its argument |
| UnitCases.ThirdEntryDoubleSpace | pysqoop/pysqoop/SqoopImport.py:77-78 | such a store renders `--hive-drop-import-delims`, two spaces, then the field terminator's piece |
| UnitCases.RealCaseDoubleSpace | unittests/unitary_tests.py:27-37 | the command of that call contains `--hive-drop-import-delims  --fields-terminated-by ...`, after whatever the first two entries emit |
| UnitCases.TableOnlyPassed | unittests/unitary_tests.py:77 | the store holding only `table='test_table'` meets that call's store description |
| UnitCases.TableOnlyStore | unittests/unitary_tests.py:77 | `Sqoop(table='test_table')` on a fresh store yields that store |
| UnitCases.TableOnlyEmitted | unittests/unitary_tests.py:77-79 | of the unconditional keys only `--table` is emitted |
| UnitCases.TableOnlyCommand | unittests/unitary_tests.py:79 | the prefix and the table's piece give `sqoop import --table test_table` |
| UnitCases.TableOnlyRendered | unittests/unitary_tests.py:77-79 | that store passes the checks and renders `sqoop import --table test_table` |
| UnitCases.TableOnly | unittests/unitary_tests.py:77-79 | `Sqoop(table='test_table')` passes; every `None` entry is left out; command `sqoop import --table test_table` |
| UnitCases.SharedStoreKeepsHelp | pysqoop/pysqoop/SqoopImport.py:9 | on one store, `--help` from an earlier call stays `''` and waives the table/query rule for a later call |
| UnitCases.HelpIsPresenceOnly | pysqoop/pysqoop/SqoopImport.py:59-60 | `--help` is the first guarded key and is not unconditional |
| UnitCases.SharedStoreAcceptsEmptyCall | pysqoop/pysqoop/SqoopImport.py:9 | `Sqoop()` alone fails with "all parameters are empty"; after `Sqoop(help=True)` on the same store it passes, the stale `--help` still stored as `''` and emitted in its command |
| UnitCases.TablePasses | pysqoop/pysqoop/SqoopImport.py:20-75 | `Sqoop(table='t')` passes only `table` |
| UnitCases.QueryHelpPasses | pysqoop/pysqoop/SqoopImport.py:20-75 | `Sqoop(query='q', help=True)` passes only `query` and `help` |
| UnitCases.TableCallNoMarks | pysqoop/pysqoop/SqoopImport.py:59-74 | `Sqoop(table='t')` makes no guard true |
| UnitCases.TableCallKeys | pysqoop/pysqoop/SqoopImport.py:20-75 | `Sqoop(table='t')` on a fresh store lists the unconditional keys, then `--query` |
| UnitCases.QueryHelpFresh | pysqoop/pysqoop/SqoopImport.py:59-74 | of the guarded keys, `Sqoop(query='q', help=True)` adds `--help` alone when the store does not list it |
| UnitCases.QueryHelpCallKeys | pysqoop/pysqoop/SqoopImport.py:9-75 | on a store holding the first call's keys, `Sqoop(query='q', help=True)` appends `--help` after `--query` |
| UnitCases.FreshHelpBeforeQuery | pysqoop/pysqoop/SqoopImport.py:20-75 | on a fresh store the same call lists `--help` before `--query` |
| UnitCases.QueryHelpOverwrites | pysqoop/pysqoop/SqoopImport.py:20-75 | after that call on a store listing only the unconditional keys of lines 20-58 and `--query`, `--query` holds `q`, `--help` holds `''` and every other key holds `None` |
| UnitCases.QueryHelpEmitsNoBase | pysqoop/pysqoop/SqoopImport.py:78 | such a store emits nothing for the unconditional keys |
| UnitCases.QueryHelpPairs | pysqoop/pysqoop/SqoopImport.py:78 | it emits `--query q` and `--help` with `''`, in either key order |
| UnitCases.QueryThenHelpPresent | pysqoop/pysqoop/SqoopImport.py:78 | with `--query` listed before `--help`, the query is emitted first |
| UnitCases.HelpThenQueryPresent | pysqoop/pysqoop/SqoopImport.py:78 | with `--help` listed before `--query`, `--help` is emitted first |
| UnitCases.QueryHelpChecked | pysqoop/pysqoop/SqoopImport.py:80-86 | such a store passes every check |
| UnitCases.QueryThenHelpLine | pysqoop/pysqoop/SqoopImport.py:78 | the join is `--query q --help `, with a trailing space from the `''` |
| UnitCases.HelpThenQueryLine | pysqoop/pysqoop/SqoopImport.py:78 | the join is `--help`, two spaces, then `--query q` |
| UnitCases.QueryThenHelpRendered | pysqoop/pysqoop/SqoopImport.py:77-78 | with `--query` listed first, the command is `sqoop import --query q --help ` |
| UnitCases.HelpThenQueryRendered | pysqoop/pysqoop/SqoopImport.py:77-78 | with `--help` listed first, the command is `sqoop import --help  --query q` |
| UnitCases.QueryHelpOrders | pysqoop/pysqoop/SqoopImport.py:20-75 | both key orders are duplicate-free; `--help` is guarded only; `--query` is in neither; `--table` and `--incremental` are unconditional; `--table` is not guarded |
| UnitCases.SharedStoreQueryBeforeHelp | pysqoop/pysqoop/SqoopImport.py:9 | `Sqoop(table='t')` then `Sqoop(query='q', help=True)` on one store: keys end `--query`, `--help`; the checks pass; command `sqoop import --query q --help ` |
| UnitCases.FreshStoreHelpBeforeQuery | pysqoop/pysqoop/SqoopImport.py:9-78 | the second call alone on a fresh store: keys end `--help`, `--query`; the checks pass; command `sqoop import --help  --query q` |

## Left out

- `perform_import` (`SqoopImport.py:94-100`): it prints the command and runs it in a shell through
  `subprocess.call`. That is I/O and a foreign call.
- `pysqoop/pysqoop/MapredJob.py`, `pysqoop/pysqoop/SqoopJob.py` and `pysqoop/setup.py` are not
  part of this model. They are subprocess wrappers and packaging metadata.
- Not in the class's code, so not modelled:
  - `set_param`/`unset_param`, `export_command` and `java_opts`;
  - the HBase options and their dependency check (`unittests/unitary_tests.py:39-120`, except
    lines 77-79);
  - re-validating and re-rendering on every `command()` call.

  The project documentation describes all of these, and a store owned by each instance. The code
  has a single class-level store and renders once, at construction. This model follows the code.
- Non-string argument values: Python truthiness of `False`, `0` and `2`, and `str.format` of
  non-strings. Every argument is an `Option<string>`, so a caller passing `True` or `2` is
  modelled as passing its string form.
- Keyword arguments outside the constructor's signature, which Python rejects with a `TypeError`,
  and keys added to the dictionary returned by `properties()` by outside code. Keys form the
  closed datatype `Flag`.
- The messages of the three exceptions (lines 6-8) are given by `SqoopImport.Message`. Raising is
  modelled as the `Failure` outcome of `Construct`.
- `_properties` is a class attribute. It is modelled as an `OrderedDict` object passed to
  `Construct`, because Dafny classes have no mutable static fields.
- The unit-case lemmas start from an empty store. What other test methods leave in the shared
  store when the test runner happens to run them earlier in the same process is not modelled,
  because that order is the runner's, not the class's.
- UnitCases.RealCaseDoubleSpace: states the double space after `--hive-drop-import-delims` and the
  entries around it, for every call passing those arguments, not the whole expected string of
  `test_real_case`. The full literal, including its second double space
  (`--delete-target-dir  --connect`), is left out because proving it costs more than the verifier's
  resource limit allows.
- `unittests/unintary_tests.py` is not part of this model.

## Findings

| source | as written | input that shows it | evidently intended | confidence | as-written member | corrected member |
|---|---|---|---|---|---|---|
| pysqoop/pysqoop/SqoopImport.py:9 | `_properties` is a class attribute, so every instance writes into one dictionary that is never reset; presence flags and values from earlier calls persist | `Sqoop(help=True)` followed by `Sqoop()`: the second call passes every check and its command still carries `--help` | each construction starts from an empty store, so `Sqoop()` fails with "all parameters are empty" (`unittests/unitary_tests.py:10-14`) | not executed | UnitCases.SharedStoreAcceptsEmptyCall | SqoopImport.Sqoop.ConstructIsolated |
