/**
 * The calls made by the builder's unit tests, with the outcome each test
 * expects, and the behaviour of the store shared between calls.
 */
module UnitCases {
  import opened Results
  import opened Flags
  import opened OrderedDicts
  import opened CommandLine
  import opened Assignments
  import opened SqoopImport

  /** `a` is a call passing the keyword arguments of `m` as strings; every other argument keeps its default `None`. */
  ghost predicate Passes(a: ImportArgs, m: map<Flag, string>) {
    forall k :: a(k) == if k in m then Some(m[k]) else None
  }

  /** The keys assigned from line `n` on emit what the key of line `n` emits, then what the later lines emit. */
  lemma PresentKeysFromStep(n: int, vals: map<Flag, Option<string>>)
    requires 20 <= n < 59
    ensures Present(KeysFrom(n), vals) == EmitOf(vals, KeyOnLine(n)) + Present(KeysFrom(n + 1), vals)
  {
    assert KeysFrom(n)[0] == KeyOnLine(n) && KeysFrom(n)[1..] == KeysFrom(n + 1);
  }

  /** A key of line `n` that holds no value emits nothing ahead of the keys of the later lines. */
  lemma PresentKeysFromSkip(n: int, vals: map<Flag, Option<string>>)
    requires 20 <= n < 59
    requires KeyOnLine(n) in vals ==> vals[KeyOnLine(n)] == None
    ensures Present(KeysFrom(n), vals) == Present(KeysFrom(n + 1), vals)
  {
    PresentKeysFromStep(n, vals);
    assert EmitOf(vals, KeyOnLine(n)) == [];
  }

  /** Every key first assigned on lines `n` to `m - 1` holds `None`. */
  ghost predicate QuietLines(vals: map<Flag, Option<string>>, n: int, m: int) {
    forall k :: k in vals && n <= FirstAssigned(k) < m ==> vals[k] == None
  }

  /** Lines `n` to `m - 1` assigning no value, the keys from line `n` on emit what those from line `m` on emit. */
  lemma {:induction false} PresentKeysFromQuiet(n: int, m: int, vals: map<Flag, Option<string>>)
    requires 20 <= n <= m <= 59
    requires QuietLines(vals, n, m)
    ensures Present(KeysFrom(n), vals) == Present(KeysFrom(m), vals)
    decreases m - n
  {
    if n < m {
      KeyOnLineLines();
      assert FirstAssigned(KeyOnLine(n)) == n;
      PresentKeysFromSkip(n, vals);
      PresentKeysFromQuiet(n + 1, m, vals);
    }
  }

  /** A key of line `n` holding a value emits that value ahead of the keys of the later lines. */
  lemma PresentKeysFromEmits(n: int, vals: map<Flag, Option<string>>, v: string)
    requires 20 <= n < 59
    requires KeyOnLine(n) in vals && vals[KeyOnLine(n)] == Some(v)
    ensures Present(KeysFrom(n), vals) == [(KeyOnLine(n), v)] + Present(KeysFrom(n + 1), vals)
  {
    PresentKeysFromStep(n, vals);
  }

  /** Lines `n` to `m - 1` assigning no value and line `m` a value: the keys from line `n` on emit that value first. */
  lemma PresentKeysFromFirstValue(n: int, m: int, vals: map<Flag, Option<string>>, v: string, rest: seq<Emitted>)
    requires 20 <= n <= m < 59
    requires QuietLines(vals, n, m)
    requires KeyOnLine(m) in vals && vals[KeyOnLine(m)] == Some(v)
    requires Present(KeysFrom(m + 1), vals) == rest
    ensures Present(KeysFrom(n), vals) == [(KeyOnLine(m), v)] + rest
  {
    PresentKeysFromQuiet(n, m, vals);
    PresentKeysFromEmits(m, vals, v);
  }

  /**
   * No presence flag is passed a value: a call passing no key that a guard
   * of lines 59-74 tests leaves every guard false.
   */
  lemma MarksNotPassed(a: ImportArgs, m: map<Flag, string>)
    requires Passes(a, m)
    requires forall f :: f in m ==> MarkLine(f) == 0
    ensures forall f :: f in MarkOrder ==> !Truthy(a(f))
  {
    MarkOrderLines();
  }

  /** `test_empty_sqoop` (unitary_tests.py:10-14): `Sqoop()` on a fresh store fails with "all parameters are empty". */
  lemma EmptyCall(a: ImportArgs)
    requires Passes(a, map[])
    ensures Table in Populate(Empty(), a).vals && Query in Populate(Empty(), a).vals
    ensures Incremental in Populate(Empty(), a).vals
    ensures Check(Populate(Empty(), a)) == Some(AllParametersEmpty)
  {
    FreshStoreWithoutMarks(a);
    CheckedKeysWritten(Empty(), a);
  }

  /**
   * On a fresh store, a call that sets some unconditional argument other
   * than a truthy presence flag, but passes no truthy table, query or help,
   * fails with the table/query message (key orders as parameters).
   */
  lemma FreshMissingTableOrQuery(base: seq<Flag>, marks: seq<Flag>, a: ImportArgs, k: Flag)
    requires Query !in marks
    requires Table in base && Incremental in base && Help !in base
    requires k in base && a(k) != None && (k !in marks || !Truthy(a(k)))
    requires !Truthy(a(Table)) && !Truthy(a(Query)) && !Truthy(a(Help))
    ensures Table in Construction(Empty(), base, marks, a).vals && Query in Construction(Empty(), base, marks, a).vals
    ensures Incremental in Construction(Empty(), base, marks, a).vals
    ensures Check(Construction(Empty(), base, marks, a)) == Some(MissingTableOrQuery)
  {
    var d: Props := Empty();
    ConstructionEntry(d, base, marks, a, k);
    ConstructionEntry(d, base, marks, a, Table);
    ConstructionEntry(d, base, marks, a, Incremental);
    ConstructionEntry(d, base, marks, a, Query);
    ConstructionEntry(d, base, marks, a, Help);
    CheckMissingTableOrQuery(Construction(d, base, marks, a), k);
  }

  /** `--fields-terminated-by`, `--table` and `--incremental` are among the unconditional assignments (lines 23, 29, 37). */
  lemma CheckedKeysUnconditional()
    ensures FieldsTerminatedBy in BaseOrder && Table in BaseOrder && Incremental in BaseOrder
  {
    assert BaseOrder[3] == FieldsTerminatedBy && BaseOrder[9] == Table && BaseOrder[17] == Incremental;
  }

  /** `--help` is only a presence flag, and `--fields-terminated-by` and `--query` are not presence flags. */
  lemma CheckedKeysNotMarked()
    ensures Help !in BaseOrder && Query !in MarkOrder && FieldsTerminatedBy !in MarkOrder
  {
    AssignedLater(Help);
    NotPresenceFlag(FieldsTerminatedBy);
    QueryNotListed();
  }

  /**
   * `test_properties_not_empty` (unitary_tests.py:16-20): with only
   * `fields_terminated_by` the store is not all `None`, but it has neither
   * a table nor a query nor `--help`, so construction fails with the
   * table/query message.
   */
  lemma FieldsTerminatedByOnly(a: ImportArgs)
    requires Passes(a, map[FieldsTerminatedBy := "\""])
    ensures Table in Populate(Empty(), a).vals && Query in Populate(Empty(), a).vals
    ensures Incremental in Populate(Empty(), a).vals
    ensures Check(Populate(Empty(), a)) == Some(MissingTableOrQuery)
  {
    assert a(FieldsTerminatedBy) == Some("\"") && a(Table) == None && a(Query) == None && a(Help) == None;
    CheckedKeysUnconditional();
    CheckedKeysNotMarked();
    FreshMissingTableOrQuery(BaseOrder, MarkOrder, a, FieldsTerminatedBy);
  }

  /**
   * The store `test_parameters_order` builds: three values, and `None` for
   * every key other than those of lines 23, 27 and 29, by ranges of lines.
   */
  ghost predicate ParametersOrderValues(vals: map<Flag, Option<string>>) {
    && FieldsTerminatedBy in vals && vals[FieldsTerminatedBy] == Some("\"")
    && NullString in vals && vals[NullString] == Some("''")
    && Table in vals && vals[Table] == Some("prova")
    && QuietLines(vals, 20, 23) && QuietLines(vals, 24, 27) && QuietLines(vals, 28, 29) && QuietLines(vals, 30, 59)
    && (Incremental in vals ==> vals[Incremental] == None) && (Query in vals ==> vals[Query] == None)
  }

  /** Of the keys of lines 28-58 only `--table` (line 29) emits. */
  lemma ParametersOrderFromLine28(vals: map<Flag, Option<string>>)
    requires ParametersOrderValues(vals)
    ensures Present(KeysFrom(28), vals) == [(Table, "prova")]
  {
    PresentKeysFromQuiet(28, 29, vals);
    PresentKeysFromEmits(29, vals, "prova");
    PresentKeysFromQuiet(30, 59, vals);
  }

  /** Of the keys of lines 24-58, `--null-string` (line 27) emits, then `--table`. */
  lemma ParametersOrderFromLine24(vals: map<Flag, Option<string>>)
    requires ParametersOrderValues(vals)
    ensures Present(KeysFrom(24), vals) == [(NullString, "''"), (Table, "prova")]
  {
    ParametersOrderFromLine28(vals);
    PresentKeysFromFirstValue(24, 27, vals, "''", [(Table, "prova")]);
  }

  /**
   * The three values are emitted in the order of the lines that assign
   * them (23, 27, 29), not in the order the call passes them.
   */
  lemma ParametersOrderEmitted(vals: map<Flag, Option<string>>)
    requires ParametersOrderValues(vals)
    ensures Present(BaseOrder, vals) == [(FieldsTerminatedBy, "\""), (NullString, "''"), (Table, "prova")]
  {
    ParametersOrderFromLine24(vals);
    PresentKeysFromFirstValue(20, 23, vals, "\"", [(NullString, "''"), (Table, "prova")]);
  }

  /** `--fields-terminated-by`, `--null-string` and `--table` are assigned unconditionally (lines 23, 27, 29). */
  lemma ParametersOrderKeysUnconditional()
    ensures FieldsTerminatedBy in BaseOrder && NullString in BaseOrder && Table in BaseOrder
  {
    assert BaseOrder[3] == FieldsTerminatedBy && BaseOrder[7] == NullString && BaseOrder[9] == Table;
  }

  /**
   * On a fresh store, a call passing no key that a guard tests lists the 39
   * unconditional keys and `--query`, each holding what the call passed for
   * it, or `None`.
   */
  lemma FreshStorePassed(a: ImportArgs, m: map<Flag, string>)
    requires Passes(a, m)
    requires forall f :: f in m ==> MarkLine(f) == 0
    ensures Populate(Empty(), a).keys == BaseOrder + [Query]
    ensures forall k :: k in Populate(Empty(), a).vals <==> k in BaseOrder || k == Query
    ensures forall k :: k in Populate(Empty(), a).vals
                     ==> Populate(Empty(), a).vals[k] == if k in m then Some(m[k]) else None
  {
    MarksNotPassed(a, m);
    FreshStoreWithoutMarks(a);
  }

  /** A store holding what the call of `test_parameters_order` passes, and `None` elsewhere, is that test's store. */
  lemma ParametersOrderPassed(vals: map<Flag, Option<string>>)
    requires FieldsTerminatedBy in vals && NullString in vals && Table in vals
    requires forall k :: k in vals ==> vals[k] == if k in map[NullString := "''", FieldsTerminatedBy := "\"", Table := "prova"]
                                                then Some(map[NullString := "''", FieldsTerminatedBy := "\"", Table := "prova"][k])
                                                else None
    ensures ParametersOrderValues(vals)
  {
  }

  /**
   * The call of `test_parameters_order` on a fresh store lists the 39
   * unconditional keys and `--query`, and holds exactly its three values.
   */
  lemma ParametersOrderStore(a: ImportArgs)
    requires Passes(a, map[NullString := "''", FieldsTerminatedBy := "\"", Table := "prova"])
    ensures Populate(Empty(), a).keys == BaseOrder + [Query]
    ensures ParametersOrderValues(Populate(Empty(), a).vals)
    ensures Query in Populate(Empty(), a).vals && Incremental in Populate(Empty(), a).vals
  {
    FreshStorePassed(a, map[NullString := "''", FieldsTerminatedBy := "\"", Table := "prova"]);
    ParametersOrderKeysUnconditional();
    CheckedKeysUnconditional();
    ParametersOrderPassed(Populate(Empty(), a).vals);
  }

  /** `--table prova`. */
  lemma ParametersOrderLineTable()
    ensures Line([(Table, "prova")]) == "--table prova"
  {
  }

  /** `--null-string '' --table prova`. */
  lemma ParametersOrderLineNullString()
    ensures Line([(NullString, "''"), (Table, "prova")]) == "--null-string '' --table prova"
  {
    ParametersOrderLineTable();
    assert [(NullString, "''"), (Table, "prova")][1..] == [(Table, "prova")];
  }

  /** The first piece: the field terminator's flag, one space, its value `"`. */
  lemma ParametersOrderLineFirst()
    ensures Line([(FieldsTerminatedBy, "\"")]) == Piece((FieldsTerminatedBy, "\""))
    ensures Piece((FieldsTerminatedBy, "\"")) == "--fields-terminated-by \""
  {
  }

  /** The three pieces joined by single spaces: the first piece, a space, then the line of the other two. */
  lemma ParametersOrderLine()
    ensures Line([(FieldsTerminatedBy, "\""), (NullString, "''"), (Table, "prova")])
         == "--fields-terminated-by \"" + " " + "--null-string '' --table prova"
  {
    assert [(FieldsTerminatedBy, "\""), (NullString, "''"), (Table, "prova")][1..] == [(NullString, "''"), (Table, "prova")];
    ParametersOrderLineFirst();
    ParametersOrderLineNullString();
  }

  /** What the store of `test_parameters_order` emits: its three values, `--query` being `None`. */
  lemma ParametersOrderPresent(d: Props)
    requires d.keys == BaseOrder + [Query]
    requires ParametersOrderValues(d.vals)
    ensures Present(d.keys, d.vals) == [(FieldsTerminatedBy, "\""), (NullString, "''"), (Table, "prova")]
  {
    PresentAppend(BaseOrder, [Query], d.vals);
    ParametersOrderEmitted(d.vals);
    PresentSingle([Query], d.vals);
    assert Present([Query], d.vals) == [];
  }

  /** The store of `test_parameters_order` passes the checks and renders its three values in line order. */
  lemma ParametersOrderRendered(d: Props)
    requires d.keys == BaseOrder + [Query]
    requires ParametersOrderValues(d.vals)
    requires Query in d.vals && Incremental in d.vals
    ensures Check(d) == None
    ensures Render(d) == "sqoop import " + ("--fields-terminated-by \"" + " " + "--null-string '' --table prova")
  {
    CheckAcceptsTable(d);
    ParametersOrderPresent(d);
    ParametersOrderLine();
  }

  /**
   * `test_parameters_order` (unitary_tests.py:22-25): the call passes its
   * keyword arguments in the order null string, field terminator, table;
   * the checks pass and the command lists them in the constructor's order,
   * the `''` value rendered as the two quote characters it is.
   */
  lemma ParametersOrder(a: ImportArgs)
    requires Passes(a, map[NullString := "''", FieldsTerminatedBy := "\"", Table := "prova"])
    ensures Table in Populate(Empty(), a).vals && Query in Populate(Empty(), a).vals
    ensures Incremental in Populate(Empty(), a).vals
    ensures Check(Populate(Empty(), a)) == None
    ensures Render(Populate(Empty(), a)) == "sqoop import " + ("--fields-terminated-by \"" + " " + "--null-string '' --table prova")
  {
    ParametersOrderStore(a);
    ParametersOrderRendered(Populate(Empty(), a));
  }

  /**
   * The loop of `test_parameters_order` (unitary_tests.py:23-25): the same
   * call made any number of times on one store, starting empty, leaves the
   * store of a single call, so every iteration passes and renders the same
   * command.
   */
  lemma ParametersOrderRepeated(a: ImportArgs, calls: seq<ImportArgs>)
    requires |calls| >= 1 && forall i :: 0 <= i < |calls| ==> calls[i] == a
    requires Passes(a, map[NullString := "''", FieldsTerminatedBy := "\"", Table := "prova"])
    ensures Replay(Empty(), BaseOrder, MarkOrder, calls) == Populate(Empty(), a)
    ensures Table in Replay(Empty(), BaseOrder, MarkOrder, calls).vals && Query in Replay(Empty(), BaseOrder, MarkOrder, calls).vals
    ensures Incremental in Replay(Empty(), BaseOrder, MarkOrder, calls).vals
    ensures Check(Replay(Empty(), BaseOrder, MarkOrder, calls)) == None
    ensures Render(Replay(Empty(), BaseOrder, MarkOrder, calls))
         == "sqoop import " + ("--fields-terminated-by \"" + " " + "--null-string '' --table prova")
  {
    ReplaySameCall(Empty(), a, calls);
    ParametersOrder(a);
  }

  /**
   * In a fresh store built with a truthy `hive_drop_import_delims` and some
   * field terminator, the third key is `--hive-drop-import-delims` holding
   * `''`, and the fourth is `--fields-terminated-by` holding its argument.
   */
  lemma HiveDropImportDelimsThenTerminator(a: ImportArgs)
    requires Truthy(a(HiveDropImportDelims)) && a(FieldsTerminatedBy).Some?
    ensures 3 < |Populate(Empty(), a).keys|
    ensures Populate(Empty(), a).keys[2] == HiveDropImportDelims && Populate(Empty(), a).keys[3] == FieldsTerminatedBy
    ensures HiveDropImportDelims in Populate(Empty(), a).vals && Populate(Empty(), a).vals[HiveDropImportDelims] == Some("")
    ensures FieldsTerminatedBy in Populate(Empty(), a).vals
    ensures Populate(Empty(), a).vals[FieldsTerminatedBy] == a(FieldsTerminatedBy)
  {
    HiveDropImportDelimsStaysThird(a);
    FreshStorePosition(a, 3);
    assert BaseOrder[3] == FieldsTerminatedBy;
    HiveDropImportDelimsValue(a);
    CheckedKeysUnconditional();
    CheckedKeysNotMarked();
    FreshUnconditionalEntry(a, FieldsTerminatedBy);
  }

  /**
   * A store whose third and fourth keys are `--hive-drop-import-delims`
   * holding `''` and `--fields-terminated-by` holding a value renders the
   * former as its key followed by two spaces, then the latter's piece.
   */
  lemma ThirdEntryDoubleSpace(d: Props, v: string)
    requires 3 < |d.keys| && d.keys[2] == HiveDropImportDelims && d.keys[3] == FieldsTerminatedBy
    requires HiveDropImportDelims in d.vals && d.vals[HiveDropImportDelims] == Some("")
    requires FieldsTerminatedBy in d.vals && d.vals[FieldsTerminatedBy] == Some(v)
    ensures Present(d.keys[3..], d.vals) != []
    ensures Present(d.keys[3..], d.vals)[0] == (FieldsTerminatedBy, v)
    ensures Render(d)
         == "sqoop import "
            + ((if Present(d.keys[..2], d.vals) == [] then "" else Line(Present(d.keys[..2], d.vals)) + " ")
               + ("--hive-drop-import-delims" + "  " + Line(Present(d.keys[3..], d.vals))))
  {
    assert Name(HiveDropImportDelims) == "--hive-drop-import-delims";
    EmptyValueDoubleSpace(d.keys, d.vals, 2, v);
  }

  /**
   * `test_real_case` (unitary_tests.py:27-37): `hive_drop_import_delims=True`
   * is stored as `''`, so its piece is the key and a trailing space, and the
   * joining space after it makes two: the command reads
   * `--hive-drop-import-delims  --fields-terminated-by ...`, whatever the
   * first two entries emit.
   */
  lemma RealCaseDoubleSpace(a: ImportArgs, d: Props)
    requires Truthy(a(HiveDropImportDelims)) && a(FieldsTerminatedBy).Some?
    requires d == Populate(Empty(), a)
    ensures 3 < |d.keys|
    ensures Present(d.keys[3..], d.vals) != []
    ensures Present(d.keys[3..], d.vals)[0] == (FieldsTerminatedBy, a(FieldsTerminatedBy).value)
    ensures Render(d)
         == "sqoop import "
            + ((if Present(d.keys[..2], d.vals) == [] then "" else Line(Present(d.keys[..2], d.vals)) + " ")
               + ("--hive-drop-import-delims" + "  " + Line(Present(d.keys[3..], d.vals))))
  {
    HiveDropImportDelimsThenTerminator(a);
    ThirdEntryDoubleSpace(d, a(FieldsTerminatedBy).value);
  }

  /** The store `Sqoop(table='test_table')` builds: the table, and `None` for every key other than that of line 29, by ranges of lines. */
  ghost predicate TableOnlyValues(vals: map<Flag, Option<string>>) {
    && Table in vals && vals[Table] == Some("test_table")
    && QuietLines(vals, 20, 29) && QuietLines(vals, 30, 59)
    && (Incremental in vals ==> vals[Incremental] == None) && (Query in vals ==> vals[Query] == None)
  }

  /** A store holding only the table that call passes, and `None` elsewhere, is that call's store. */
  lemma TableOnlyPassed(vals: map<Flag, Option<string>>)
    requires Table in vals
    requires forall k :: k in vals ==> vals[k] == if k in map[Table := "test_table"] then Some(map[Table := "test_table"][k]) else None
    ensures TableOnlyValues(vals)
  {
  }

  /** `Sqoop(table='test_table')` on a fresh store lists the 39 unconditional keys and `--query`, and holds only the table. */
  lemma TableOnlyStore(a: ImportArgs)
    requires Passes(a, map[Table := "test_table"])
    ensures Populate(Empty(), a).keys == BaseOrder + [Query]
    ensures TableOnlyValues(Populate(Empty(), a).vals)
    ensures Query in Populate(Empty(), a).vals && Incremental in Populate(Empty(), a).vals
  {
    FreshStorePassed(a, map[Table := "test_table"]);
    CheckedKeysUnconditional();
    TableOnlyPassed(Populate(Empty(), a).vals);
  }

  /** Of the unconditional keys only `--table` (line 29) emits. */
  lemma TableOnlyEmitted(vals: map<Flag, Option<string>>)
    requires TableOnlyValues(vals)
    ensures Present(BaseOrder, vals) == [(Table, "test_table")]
  {
    PresentKeysFromQuiet(20, 29, vals);
    PresentKeysFromEmits(29, vals, "test_table");
    PresentKeysFromQuiet(30, 59, vals);
  }

  /** The command `Sqoop(table='test_table')` caches. */
  lemma TableOnlyCommand()
    ensures "sqoop import " + Line([(Table, "test_table")]) == "sqoop import --table test_table"
  {
  }

  /** The store of `Sqoop(table='test_table')` passes the checks and renders the table alone. */
  lemma TableOnlyRendered(d: Props)
    requires d.keys == BaseOrder + [Query]
    requires TableOnlyValues(d.vals)
    requires Query in d.vals && Incremental in d.vals
    ensures Check(d) == None
    ensures Render(d) == "sqoop import --table test_table"
  {
    CheckAcceptsTable(d);
    PresentAppend(BaseOrder, [Query], d.vals);
    TableOnlyEmitted(d.vals);
    PresentSingle([Query], d.vals);
    assert Present(d.keys, d.vals) == [(Table, "test_table")];
    TableOnlyCommand();
  }

  /**
   * `test_java_opts_functionality` (unitary_tests.py:77-79): a call with
   * only a table passes the checks, and every `None` entry is left out of
   * the command, which is the prefix and the table's piece.
   */
  lemma TableOnly(a: ImportArgs)
    requires Passes(a, map[Table := "test_table"])
    ensures Table in Populate(Empty(), a).vals && Query in Populate(Empty(), a).vals
    ensures Incremental in Populate(Empty(), a).vals
    ensures Check(Populate(Empty(), a)) == None
    ensures Render(Populate(Empty(), a)) == "sqoop import --table test_table"
  {
    TableOnlyStore(a);
    TableOnlyRendered(Populate(Empty(), a));
  }

  /**
   * Two constructions in turn on one store: a presence flag the first call
   * sets is never cleared by the second, so `--help` set by the first call
   * waives the table/query rule for the second, whatever the second passes
   * (key orders as parameters).
   */
  lemma SharedStoreKeepsHelp(base: seq<Flag>, marks: seq<Flag>, a1: ImportArgs, a2: ImportArgs)
    requires Query !in marks && Help in marks && Help !in base
    requires Table in base && Incremental in base
    requires Truthy(a1(Help)) && !Truthy(a2(Incremental))
    ensures Table in Construction(Construction(Empty(), base, marks, a1), base, marks, a2).vals
    ensures Query in Construction(Construction(Empty(), base, marks, a1), base, marks, a2).vals
    ensures Incremental in Construction(Construction(Empty(), base, marks, a1), base, marks, a2).vals
    ensures Help in Construction(Construction(Empty(), base, marks, a1), base, marks, a2).vals
    ensures Construction(Construction(Empty(), base, marks, a1), base, marks, a2).vals[Help] == Some("")
    ensures Check(Construction(Construction(Empty(), base, marks, a1), base, marks, a2)) == None
  {
    var d1 := Construction(Empty(), base, marks, a1);
    var d2 := Construction(d1, base, marks, a2);
    ConstructionEntry(Empty(), base, marks, a1, Help);
    ConstructionEntry(d1, base, marks, a2, Help);
    ConstructionEntry(d1, base, marks, a2, Table);
    ConstructionEntry(d1, base, marks, a2, Query);
    ConstructionEntry(d1, base, marks, a2, Incremental);
    assert d2.vals[Help] != None;
  }

  /** `--help` is the first presence flag (line 60) and is not assigned unconditionally. */
  lemma HelpIsPresenceOnly()
    ensures Help in MarkOrder && Help !in BaseOrder && Query !in MarkOrder
  {
    assert MarkOrder[0] == Help;
    AssignedLater(Help);
    QueryNotListed();
  }

  /**
   * The shared store, shown on two calls: `Sqoop()` alone fails with "all
   * parameters are empty" (`test_empty_sqoop`, unitary_tests.py:10-14), but
   * after `Sqoop(help=True)` on the same store it passes every check, with
   * the stale `--help` entry still in the store and so in its command.
   */
  lemma SharedStoreAcceptsEmptyCall(a1: ImportArgs, a2: ImportArgs)
    requires Passes(a1, map[Help := "True"]) && Passes(a2, map[])
    ensures Table in Populate(Empty(), a2).vals && Query in Populate(Empty(), a2).vals
    ensures Incremental in Populate(Empty(), a2).vals
    ensures Check(Populate(Empty(), a2)) == Some(AllParametersEmpty)
    ensures Table in Populate(Populate(Empty(), a1), a2).vals && Query in Populate(Populate(Empty(), a1), a2).vals
    ensures Incremental in Populate(Populate(Empty(), a1), a2).vals
    ensures Help in Populate(Populate(Empty(), a1), a2).vals
    ensures Populate(Populate(Empty(), a1), a2).vals[Help] == Some("")
    ensures Check(Populate(Populate(Empty(), a1), a2)) == None
    ensures (Help, "") in Present(Populate(Populate(Empty(), a1), a2).keys, Populate(Populate(Empty(), a1), a2).vals)
  {
    EmptyCall(a2);
    assert a1(Help) == Some("True") && a2(Incremental) == None;
    CheckedKeysUnconditional();
    HelpIsPresenceOnly();
    SharedStoreKeepsHelp(BaseOrder, MarkOrder, a1, a2);
    var d := Populate(Populate(Empty(), a1), a2);
    assert d.Valid();
    PresentMember(d.keys, d.vals, Help, "");
  }

  /** The call `Sqoop(query='q', help=True)`, with every other argument `None`. */
  ghost predicate QueryHelpCall(a: ImportArgs) {
    && a(Query) == Some("q") && a(Help) == Some("True")
    && forall k :: k != Query && k != Help ==> a(k) == None
  }

  /** The call `Sqoop(table='t')`, with every other argument `None`. */
  ghost predicate TableCall(a: ImportArgs) {
    a(Table) == Some("t") && forall k :: k != Table ==> a(k) == None
  }

  /** The keyword arguments of `Sqoop(table='t')`, spelled out. */
  lemma TablePasses(a: ImportArgs)
    requires Passes(a, map[Table := "t"])
    ensures TableCall(a)
  {
  }

  /** The keyword arguments of `Sqoop(query='q', help=True)`, spelled out. */
  lemma QueryHelpPasses(a: ImportArgs)
    requires Passes(a, map[Query := "q", Help := "True"])
    ensures QueryHelpCall(a)
  {
  }

  /**
   * The store a call passing `query='q'` and `help=True` leaves: the query,
   * `''` under `--help`, and `None` under every key of lines 20-58.
   */
  ghost predicate QueryHelpValues(vals: map<Flag, Option<string>>) {
    && Query in vals && vals[Query] == Some("q")
    && Help in vals && vals[Help] == Some("")
    && Table in vals && Incremental in vals
    && forall k :: k in vals && k != Query && k != Help ==> vals[k] == None
  }

  /**
   * A call passing `query='q'` and `help=True` on a store that lists no key
   * other than those it assigns unconditionally and `--query` overwrites
   * every old value with its own (key orders as parameters).
   */
  lemma QueryHelpOverwrites(d: Props, base: seq<Flag>, marks: seq<Flag>, a: ImportArgs)
    requires Query !in marks && Help in marks && Help !in base
    requires Table in base && Incremental in base
    requires forall k :: k in d.vals ==> k in base || k == Query
    requires QueryHelpCall(a)
    ensures QueryHelpValues(Construction(d, base, marks, a).vals)
  {
    var r := Construction(d, base, marks, a);
    forall k | k in r.vals && k != Query && k != Help
      ensures r.vals[k] == None
    {
      assert Written(k, base, marks, a);
    }
  }

  /** Such a store emits nothing for keys other than `--query` and `--help`. */
  lemma QueryHelpEmitsNoBase(base: seq<Flag>, vals: map<Flag, Option<string>>)
    requires Query !in base && Help !in base
    requires QueryHelpValues(vals)
    ensures Present(base, vals) == []
  {
    PresentAllNone(base, vals);
  }

  /** Such a store passes every check: the query is truthy and `--incremental` is `None`. */
  lemma QueryHelpChecked(d: Props)
    requires QueryHelpValues(d.vals)
    ensures Check(d) == None
  {
    assert d.vals[Query] != None && d.vals[Incremental] == None;
  }

  /** `--query q --help `: the `''` of `--help` leaves a trailing space. */
  lemma QueryThenHelpLine()
    ensures Line([(Query, "q"), (Help, "")]) == "--query q" + " " + "--help "
  {
    assert Piece((Query, "q")) == "--query q" && Piece((Help, "")) == "--help ";
    assert [(Query, "q"), (Help, "")][1..] == [(Help, "")];
  }

  /** `--help  --query q`: the `''` of `--help` and the joining space make two. */
  lemma HelpThenQueryLine()
    ensures Line([(Help, ""), (Query, "q")]) == "--help" + "  " + "--query q"
  {
    DoubleSpace(Help, [(Query, "q")]);
    assert [(Help, "")] + [(Query, "q")] == [(Help, ""), (Query, "q")];
    assert Line([(Query, "q")]) == "--query q";
  }

  /** Such a store emits `--query` with its value and `--help` with `''`, in either order. */
  lemma QueryHelpPairs(vals: map<Flag, Option<string>>)
    requires QueryHelpValues(vals)
    ensures Present([Query, Help], vals) == [(Query, "q"), (Help, "")]
    ensures Present([Help, Query], vals) == [(Help, ""), (Query, "q")]
  {
    assert [Query, Help][1..] == [Help] && [Help, Query][1..] == [Query];
  }

  /** What such a store emits: `--query` and `--help` in the order of its keys. */
  lemma QueryThenHelpPresent(d: Props, base: seq<Flag>)
    requires Query !in base && Help !in base
    requires d.keys == base + [Query, Help]
    requires QueryHelpValues(d.vals)
    ensures Present(d.keys, d.vals) == [(Query, "q"), (Help, "")]
  {
    PresentAppend(base, [Query, Help], d.vals);
    QueryHelpEmitsNoBase(base, d.vals);
    QueryHelpPairs(d.vals);
  }

  /** The shared store after `Sqoop(table='t')` and `Sqoop(query='q', help=True)` renders the query before `--help`. */
  lemma QueryThenHelpRendered(d: Props, base: seq<Flag>)
    requires Query !in base && Help !in base
    requires d.keys == base + [Query, Help]
    requires QueryHelpValues(d.vals)
    ensures Render(d) == "sqoop import " + ("--query q" + " " + "--help ")
  {
    QueryThenHelpPresent(d, base);
    QueryThenHelpLine();
  }

  /** What such a store emits: `--query` and `--help` in the order of its keys. */
  lemma HelpThenQueryPresent(d: Props, base: seq<Flag>)
    requires Query !in base && Help !in base
    requires d.keys == base + [Help, Query]
    requires QueryHelpValues(d.vals)
    ensures Present(d.keys, d.vals) == [(Help, ""), (Query, "q")]
  {
    PresentAppend(base, [Help, Query], d.vals);
    QueryHelpEmitsNoBase(base, d.vals);
    QueryHelpPairs(d.vals);
  }

  /** A fresh store after `Sqoop(query='q', help=True)` renders `--help`, two spaces, then the query. */
  lemma HelpThenQueryRendered(d: Props, base: seq<Flag>)
    requires Query !in base && Help !in base
    requires d.keys == base + [Help, Query]
    requires QueryHelpValues(d.vals)
    ensures Render(d) == "sqoop import " + ("--help" + "  " + "--query q")
  {
    HelpThenQueryPresent(d, base);
    HelpThenQueryLine();
  }

  /** Of the guarded keys, such a call sets `--help` alone, whatever else the store lists. */
  lemma QueryHelpFresh(marks: seq<Flag>, ks: seq<Flag>, a: ImportArgs)
    requires Query !in marks && Distinct(marks) && Help in marks && Help !in ks
    requires QueryHelpCall(a)
    ensures Fresh(marks, ks, a) == [Help]
  {
    FreshOnly(marks, ks, a, Help);
  }

  /** Such a call sets no guarded key. */
  lemma TableCallNoMarks(marks: seq<Flag>, a: ImportArgs)
    requires Table !in marks && TableCall(a)
    ensures forall m :: m in marks ==> !Truthy(a(m))
  {
  }

  /** `Sqoop(table='t')` on a fresh store (key orders as parameters) lists the unconditional keys, then `--query`. */
  lemma TableCallKeys(base: seq<Flag>, marks: seq<Flag>, a: ImportArgs)
    requires Query !in marks && Distinct(marks) && Table !in marks
    requires Query !in base && Distinct(base)
    requires TableCall(a)
    ensures Construction(Empty(), base, marks, a).keys == base + [Query]
  {
    TableCallNoMarks(marks, a);
    ConstructionWithoutMarks(Empty(), base, marks, a);
    assert [] + base == base;
  }

  /**
   * `Sqoop(query='q', help=True)` on a store listing the unconditional keys
   * and then `--query` (key orders as parameters): `--help` is appended
   * after `--query`.
   */
  lemma QueryHelpCallKeys(d: Props, base: seq<Flag>, marks: seq<Flag>, a: ImportArgs)
    requires Query !in marks && Distinct(marks) && Help in marks
    requires Help !in base && d.keys == base + [Query]
    requires QueryHelpCall(a)
    ensures Construction(d, base, marks, a).keys == base + [Query, Help]
  {
    ConstructionOnListedStore(d, base, marks, a);
    QueryHelpFresh(marks, d.keys, a);
    AppendTwo(base, Query, Help);
  }

  /** The same call on a fresh store (key orders as parameters): `--help` comes before `--query`. */
  lemma FreshHelpBeforeQuery(base: seq<Flag>, marks: seq<Flag>, a: ImportArgs)
    requires Query !in marks && Distinct(marks) && Help in marks
    requires Query !in base && Help !in base && Distinct(base)
    requires QueryHelpCall(a)
    ensures Construction(Empty(), base, marks, a).keys == base + [Help, Query]
  {
    var d: Props := Empty();
    ConstructionOrder(d, base, marks, a);
    QueryHelpFresh(marks, d.keys + base, a);
    AppendTwo(base, Help, Query);
  }

  /** Two keys appended one at a time after `ks`, with or without an empty prefix. */
  lemma AppendTwo(ks: seq<Flag>, x: Flag, y: Flag)
    ensures [] + ks + [x] + [y] == ks + [x, y]
    ensures ks + [x] + [y] == ks + [x, y]
  {
  }

  /** What the two calls below need of the key orders of lines 20-74. */
  lemma QueryHelpOrders()
    ensures Query !in MarkOrder && Distinct(MarkOrder) && Help in MarkOrder && Table !in MarkOrder
    ensures Query !in BaseOrder && Help !in BaseOrder && Distinct(BaseOrder)
    ensures Table in BaseOrder && Incremental in BaseOrder
  {
    OrdersWellFormed();
    HelpIsPresenceOnly();
    CheckedKeysUnconditional();
    NotPresenceFlag(Table);
  }

  /**
   * The order of the shared store: after `Sqoop(table='t')` has listed the
   * 39 unconditional keys and `--query`, `Sqoop(query='q', help=True)`
   * appends `--help` after `--query`, so its command ends with `--help `.
   */
  lemma SharedStoreQueryBeforeHelp(a1: ImportArgs, a2: ImportArgs)
    requires Passes(a1, map[Table := "t"]) && Passes(a2, map[Query := "q", Help := "True"])
    ensures Populate(Populate(Empty(), a1), a2).keys == BaseOrder + [Query, Help]
    ensures Table in Populate(Populate(Empty(), a1), a2).vals && Query in Populate(Populate(Empty(), a1), a2).vals
    ensures Incremental in Populate(Populate(Empty(), a1), a2).vals
    ensures Check(Populate(Populate(Empty(), a1), a2)) == None
    ensures Render(Populate(Populate(Empty(), a1), a2)) == "sqoop import " + ("--query q" + " " + "--help ")
  {
    QueryHelpOrders();
    TablePasses(a1);
    QueryHelpPasses(a2);
    TableCallKeys(BaseOrder, MarkOrder, a1);
    QueryHelpCallKeys(Populate(Empty(), a1), BaseOrder, MarkOrder, a2);
    QueryHelpOverwrites(Populate(Empty(), a1), BaseOrder, MarkOrder, a2);
    QueryHelpChecked(Populate(Populate(Empty(), a1), a2));
    QueryThenHelpRendered(Populate(Populate(Empty(), a1), a2), BaseOrder);
  }

  /**
   * The same call on a fresh store: the guard of line 60 adds `--help`
   * before line 75 first assigns `--query`, so the command reads `--help`,
   * two spaces, then the query.
   */
  lemma FreshStoreHelpBeforeQuery(a: ImportArgs)
    requires Passes(a, map[Query := "q", Help := "True"])
    ensures Populate(Empty(), a).keys == BaseOrder + [Help, Query]
    ensures Table in Populate(Empty(), a).vals && Query in Populate(Empty(), a).vals
    ensures Incremental in Populate(Empty(), a).vals
    ensures Check(Populate(Empty(), a)) == None
    ensures Render(Populate(Empty(), a)) == "sqoop import " + ("--help" + "  " + "--query q")
  {
    QueryHelpOrders();
    QueryHelpPasses(a);
    FreshHelpBeforeQuery(BaseOrder, MarkOrder, a);
    QueryHelpOverwrites(Empty(), BaseOrder, MarkOrder, a);
    QueryHelpChecked(Populate(Empty(), a));
    HelpThenQueryRendered(Populate(Empty(), a), BaseOrder);
  }
}
