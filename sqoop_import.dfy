/**
 * The `Sqoop` import builder: it writes one store entry per keyword
 * argument into a dictionary shared by every instance, checks the store,
 * and caches the rendered `sqoop import` command.
 */
module SqoopImport {
  import opened Results
  import opened Flags
  import opened OrderedDicts
  import opened CommandLine
  import opened Assignments

  /** The three errors construction can raise, in the order they are checked. */
  datatype ImportError = AllParametersEmpty | MissingTableOrQuery | WrongIncremental

  /** The exception text raised for each error; the table/query text and the incremental text open with the flag at fault. */
  function Message(e: ImportError): (r: string)
    ensures r != ""
    ensures r[0] == '-' <==> e != AllParametersEmpty
  {
    match e
    case AllParametersEmpty => "all parameters are empty"
    case MissingTableOrQuery =>
      "--table or --query" + " is required for import. (Or use sqoop import-all-tables.)\nTry --help for usage instructions."
    case WrongIncremental => "--incremental" + " needs either 'append' or 'lastmodified'"
  }

  /** No two errors are raised with the same text. */
  lemma MessagesDistinct(e1: ImportError, e2: ImportError)
    requires e1 != e2
    ensures Message(e1) != Message(e2)
  {
  }

  /** Every value in the store is `None` (vacuously so for an empty store). */
  predicate AllNone(d: Props) {
    forall k :: k in d.vals ==> d.vals[k].None?
  }

  /**
   * `_perform_checks`: the first rule the store breaks, or `None` when it
   * passes. The table/query rule is waived by the mere presence of the
   * `--help` key, whatever its value; a falsy `--incremental` is never
   * rejected.
   */
  function Check(d: Props): (r: Option<ImportError>)
    requires Table in d.vals && Query in d.vals && Incremental in d.vals
    ensures r == Some(AllParametersEmpty) <==> forall k :: k in d.vals ==> d.vals[k] == None
    ensures r == Some(MissingTableOrQuery)
        <==> (exists k :: k in d.vals && d.vals[k] != None)
             && !Truthy(d.vals[Table]) && !Truthy(d.vals[Query]) && Help !in d.vals
    ensures r == Some(WrongIncremental)
        <==> (exists k :: k in d.vals && d.vals[k] != None)
             && (Truthy(d.vals[Table]) || Truthy(d.vals[Query]) || Help in d.vals)
             && Truthy(d.vals[Incremental]) && d.vals[Incremental].value !in {"lastmodified", "append"}
    ensures r == None
        <==> (exists k :: k in d.vals && d.vals[k] != None)
             && (Truthy(d.vals[Table]) || Truthy(d.vals[Query]) || Help in d.vals)
             && (Truthy(d.vals[Incremental]) ==> d.vals[Incremental].value in {"lastmodified", "append"})
  {
    if AllNone(d) then Some(AllParametersEmpty)
    else if !Truthy(d.vals[Table]) && !Truthy(d.vals[Query]) && Help !in d.vals then Some(MissingTableOrQuery)
    else if Truthy(d.vals[Incremental]) && d.vals[Incremental].value != "lastmodified"
            && d.vals[Incremental].value != "append" then Some(WrongIncremental)
    else None
  }

  /** A store with some value, but no truthy table, no truthy query and no `--help` key, fails the table/query rule. */
  lemma CheckMissingTableOrQuery(d: Props, k: Flag)
    requires Table in d.vals && Query in d.vals && Incremental in d.vals
    requires k in d.vals && d.vals[k] != None
    requires !Truthy(d.vals[Table]) && !Truthy(d.vals[Query]) && Help !in d.vals
    ensures Check(d) == Some(MissingTableOrQuery)
  {
  }

  /** A store with a truthy table and a falsy `--incremental` passes every check. */
  lemma CheckAcceptsTable(d: Props)
    requires Table in d.vals && Query in d.vals && Incremental in d.vals
    requires Truthy(d.vals[Table]) && !Truthy(d.vals[Incremental])
    ensures Check(d) == None
  {
    assert d.vals[Table] != None;
  }

  /** After any construction the keys `_perform_checks` reads are in the store. */
  lemma CheckedKeysWritten(d: Props, a: ImportArgs)
    ensures Table in Populate(d, a).vals && Query in Populate(d, a).vals && Incremental in Populate(d, a).vals
  {
    assert BaseOrder[9] == Table && BaseOrder[17] == Incremental;
  }

  /** `--table` and `--incremental` are assigned unconditionally (lines 29, 37). */
  lemma TableAndIncrementalUnconditional()
    ensures Table in BaseOrder && Incremental in BaseOrder
  {
    assert KeyOnLine(29) == Table && KeyOnLine(37) == Incremental;
    AssignedOn(29, Table);
    AssignedOn(37, Incremental);
  }

  /** No guard of lines 59-74 sets the keys the checks read. */
  lemma CheckedKeysNotPresenceFlags()
    ensures Table !in MarkOrder && Incremental !in MarkOrder && Query !in MarkOrder
  {
    NotPresenceFlag(Table);
    NotPresenceFlag(Incremental);
    NotPresenceFlag(Query);
  }

  /**
   * With a truthy table, a fresh construction is rejected exactly when
   * `--incremental` is truthy and neither `lastmodified` nor `append`; a
   * falsy `--incremental` (`None` or `''`) is never rejected.
   */
  lemma FreshIncrementalRule(a: ImportArgs)
    requires Truthy(a(Table))
    ensures Table in Populate(Empty(), a).vals && Query in Populate(Empty(), a).vals
    ensures Incremental in Populate(Empty(), a).vals
    ensures Check(Populate(Empty(), a))
         == if Truthy(a(Incremental)) && a(Incremental).value !in {"lastmodified", "append"} then Some(WrongIncremental)
            else None
  {
    var d: Props := Empty();
    TableAndIncrementalUnconditional();
    CheckedKeysNotPresenceFlags();
    ConstructionEntry(d, BaseOrder, MarkOrder, a, Table);
    ConstructionEntry(d, BaseOrder, MarkOrder, a, Query);
    ConstructionEntry(d, BaseOrder, MarkOrder, a, Incremental);
  }

  /** One builder instance: the store it shares with every other instance and its cached command. */
  class Sqoop {
    /** `_properties`, a class attribute: the same dictionary object for every instance. */
    const properties: OrderedDict<Flag, Option<string>>
    /** `_coomand`, rendered once at construction. */
    const command: string

    constructor Cache(properties: OrderedDict<Flag, Option<string>>, command: string)
      ensures this.properties == properties && this.command == command
    {
      this.properties := properties;
      this.command := command;
    }

    /** `properties()`: the shared dictionary itself, not a copy. */
    function Properties(): (r: OrderedDict<Flag, Option<string>>)
      ensures r == properties
    {
      properties
    }

    /** `command()`: the string cached at construction; later changes to the store do not reach it. */
    function Command(): (r: string)
      ensures r == command
    {
      command
    }

    /** `store[key] = arg` for each key of `flags` in turn, in place. */
    static method AssignEachInPlace(store: OrderedDict<Flag, Option<string>>, flags: seq<Flag>, a: ImportArgs)
      modifies store
      ensures store.Snapshot() == AssignEach(old(store.Snapshot()), flags, a)
    {
      ghost var before := store.Snapshot();
      for i := 0 to |flags|
        invariant store.Snapshot() == AssignEach(before, flags[..i], a)
      {
        assert flags[..i + 1][..i] == flags[..i];
        store.Assign(flags[i], a(flags[i]));
      }
      assert flags[..|flags|] == flags;
    }

    /** `if arg: store[key] = ''` for each key of `flags` in turn, in place. */
    static method MarkEachInPlace(store: OrderedDict<Flag, Option<string>>, flags: seq<Flag>, a: ImportArgs)
      modifies store
      ensures store.Snapshot() == MarkEach(old(store.Snapshot()), flags, a)
    {
      ghost var before := store.Snapshot();
      for i := 0 to |flags|
        invariant store.Snapshot() == MarkEach(before, flags[..i], a)
      {
        assert flags[..i + 1][..i] == flags[..i];
        var f := flags[i];
        if Truthy(a(f)) {
          store.Assign(f, Some(""));
        }
      }
      assert flags[..|flags|] == flags;
    }

    /**
     * The constructor's assignments, made in place on the shared store in
     * their textual order: each unconditional key with its argument, each
     * presence flag with `''` when its argument is truthy, `--query` last.
     */
    static method AssignArguments(store: OrderedDict<Flag, Option<string>>, a: ImportArgs)
      modifies store
      ensures store.Snapshot() == Populate(old(store.Snapshot()), a)
    {
      AssignEachInPlace(store, BaseOrder, a);
      MarkEachInPlace(store, MarkOrder, a);
      store.Assign(Query, a(Query));
    }

    /**
     * `Sqoop(...)`: assigns the keyword arguments into the shared store in
     * place, runs the checks, and on success caches the rendered command.
     * The store keeps the assignments even when a check fails.
     */
    static method Construct(store: OrderedDict<Flag, Option<string>>, a: ImportArgs) returns (r: Result<Sqoop, ImportError>)
      requires store.Valid()
      modifies store
      ensures store.Valid()
      ensures store.Snapshot() == Populate(old(store.Snapshot()), a)
      ensures Table in store.vals && Query in store.vals && Incremental in store.vals
      ensures r.Failure? <==> Check(store.Snapshot()).Some?
      ensures r.Failure? ==> Check(store.Snapshot()) == Some(r.error)
      ensures r.Success? ==> fresh(r.value) && r.value.Properties() == store
                             && r.value.Command() == Render(store.Snapshot())
    {
      AssignArguments(store, a);
      CheckedKeysWritten(old(store.Snapshot()), a);
      var failure := Check(store.Snapshot());
      if failure.Some? {
        return Failure(failure.value);
      }
      var s := new Sqoop.Cache(store, Render(store.Snapshot()));
      r := Success(s);
    }

    /**
     * The evidently intended constructor: each instance gets its own empty
     * store, so the checks and the command depend on this call's arguments
     * only.
     */
    static method ConstructIsolated(a: ImportArgs) returns (r: Result<Sqoop, ImportError>)
      ensures Table in Populate(Empty(), a).vals && Query in Populate(Empty(), a).vals
      ensures Incremental in Populate(Empty(), a).vals
      ensures r.Failure? <==> Check(Populate(Empty(), a)).Some?
      ensures r.Failure? ==> Check(Populate(Empty(), a)) == Some(r.error)
      ensures r.Success? ==> r.value.Properties().Snapshot() == Populate(Empty(), a)
                             && r.value.Command() == Render(Populate(Empty(), a))
    {
      var store := new OrderedDict<Flag, Option<string>>();
      r := Construct(store, a);
    }
  }
}
