/**
 * The import builder's flag vocabulary and its keyword arguments.
 */
module Flags {
  import opened Results

  /** Every key the import builder ever writes into its store. */
  datatype Flag =
    | Fs | Create | HiveDropImportDelims | FieldsTerminatedBy | InputEscapedBy
    | EnclosedBy | EscapedBy | NullString | NullNonString | Table | TargetDir
    | WarehouseDir | DeleteTargetDir | Connect | Username | Password
    | MapColumnJava | Incremental | CheckColumn | LastValue | ConnectionManager
    | ConnectionParamFile | Driver | HadoopHome | HadoopMapredHome
    | MetadataTransactionIsolationLevel | PasswordAlias | PasswordFile
    | RelaxedIsolation | SplitBy | HiveTable | HivePartitionKey
    | HivePartitionValue | SkipDistCache | TemporaryRootdir | Verbose
    | NumMappers | Bindir | HiveDelimsReplacement
    | Help | HiveImport | HiveOverwrite | AsTextfile | Direct | AsParquetfile
    | Query

  /** The command-line spelling of a flag, which is also its key in the store. */
  function Name(f: Flag): (r: string)
  {
    match f
    case Fs => "-fs"
    case Create => "--create"
    case HiveDropImportDelims => "--hive-drop-import-delims"
    case FieldsTerminatedBy => "--fields-terminated-by"
    case InputEscapedBy => "--input-escaped-by"
    case EnclosedBy => "--enclosed-by"
    case EscapedBy => "--escaped-by"
    case NullString => "--null-string"
    case NullNonString => "--null-non-string"
    case Table => "--table"
    case TargetDir => "--target-dir"
    case WarehouseDir => "--warehouse-dir"
    case DeleteTargetDir => "--delete-target-dir"
    case Connect => "--connect"
    case Username => "--username"
    case Password => "--password"
    case MapColumnJava => "--map-column-java"
    case Incremental => "--incremental"
    case CheckColumn => "--check-column"
    case LastValue => "--last-value"
    case ConnectionManager => "--connection-manager"
    case ConnectionParamFile => "--connection-param-file"
    case Driver => "--driver"
    case HadoopHome => "--hadoop-home"
    case HadoopMapredHome => "--hadoop-mapred-home"
    case MetadataTransactionIsolationLevel => "--metadata-transaction-isolation-level"
    case PasswordAlias => "--password-alias"
    case PasswordFile => "--password-file"
    case RelaxedIsolation => "--relaxed-isolation"
    case SplitBy => "--split-by"
    case HiveTable => "--hive-table"
    case HivePartitionKey => "--hive-partition-key"
    case HivePartitionValue => "--hive-partition-value"
    case SkipDistCache => "--skip-dist-cache"
    case TemporaryRootdir => "--temporary-rootdir"
    case Verbose => "--verbose"
    case NumMappers => "--num-mappers"
    case Bindir => "--bindir"
    case HiveDelimsReplacement => "--hive-delims-replacement"
    case Help => "--help"
    case HiveImport => "--hive-import"
    case HiveOverwrite => "--hive-overwrite"
    case AsTextfile => "--as-textfile"
    case Direct => "--direct"
    case AsParquetfile => "--as-parquetfile"
    case Query => "--query"
  }

  /**
   * The keyword arguments, indexed by the flag each one feeds (`parquetfile`
   * feeds `--as-parquetfile`, `map_colmn_java` feeds `--map-column-java`).
   * A Python value is modelled by its `str.format` text; `None` is `None`.
   */
  type ImportArgs = Flag -> Option<string>

  /** Python truthiness of a stored value: `None` and the empty string are false. */
  predicate Truthy(v: Option<string>) {
    v.Some? && v.value != ""
  }

  /** The key the constructor assigns unconditionally on line `n` (lines 20-58). */
  function KeyOnLine(n: int): (r: Flag)
    requires 20 <= n <= 58
  {
    match n
    case 20 => Fs
    case 21 => Create
    case 22 => HiveDropImportDelims
    case 23 => FieldsTerminatedBy
    case 24 => InputEscapedBy
    case 25 => EnclosedBy
    case 26 => EscapedBy
    case 27 => NullString
    case 28 => NullNonString
    case 29 => Table
    case 30 => TargetDir
    case 31 => WarehouseDir
    case 32 => DeleteTargetDir
    case 33 => Connect
    case 34 => Username
    case 35 => Password
    case 36 => MapColumnJava
    case 37 => Incremental
    case 38 => CheckColumn
    case 39 => LastValue
    case 40 => ConnectionManager
    case 41 => ConnectionParamFile
    case 42 => Driver
    case 43 => HadoopHome
    case 44 => HadoopMapredHome
    case 45 => MetadataTransactionIsolationLevel
    case 46 => PasswordAlias
    case 47 => PasswordFile
    case 48 => RelaxedIsolation
    case 49 => SplitBy
    case 50 => HiveTable
    case 51 => HivePartitionKey
    case 52 => HivePartitionValue
    case 53 => SkipDistCache
    case 54 => TemporaryRootdir
    case 55 => Verbose
    case 56 => NumMappers
    case 57 => Bindir
    case _ => HiveDelimsReplacement
  }

  /** The keys assigned unconditionally on lines `n` to 58, in textual order. */
  function KeysFrom(n: int): (r: seq<Flag>)
    requires 20 <= n <= 59
    ensures |r| == 59 - n
    ensures forall i :: 0 <= i < |r| ==> r[i] == KeyOnLine(n + i)
    decreases 59 - n
  {
    if n == 59 then []
    else
      var later := KeysFrom(n + 1);
      assert forall i :: 0 < i <= |later| ==> ([KeyOnLine(n)] + later)[i] == later[i - 1];
      [KeyOnLine(n)] + later
  }

  /** The 39 keys the constructor assigns unconditionally (lines 20-58), in textual order. */
  const BaseOrder: seq<Flag> := KeysFrom(FirstBaseLine)

  /** The first line of the constructor's body. */
  const FirstBaseLine: int := 20

  /**
   * The keys of lines 59-74, in the order their guards are tested: each
   * is set to `''` when its own argument is truthy.
   */
  const MarkOrder: seq<Flag> := [
    Help, HiveImport, HiveOverwrite, AsTextfile, HiveDropImportDelims, DeleteTargetDir, Direct, AsParquetfile]

  /** No key is listed twice. */
  ghost predicate Distinct(fs: seq<Flag>) {
    forall i, j :: 0 <= i < j < |fs| ==> fs[i] != fs[j]
  }

  /** The line of the constructor that first assigns `f` (lines 20-75 of the import builder). */
  function FirstAssigned(f: Flag): nat {
    match f
    case Fs => 20
    case Create => 21
    case HiveDropImportDelims => 22
    case FieldsTerminatedBy => 23
    case InputEscapedBy => 24
    case EnclosedBy => 25
    case EscapedBy => 26
    case NullString => 27
    case NullNonString => 28
    case Table => 29
    case TargetDir => 30
    case WarehouseDir => 31
    case DeleteTargetDir => 32
    case Connect => 33
    case Username => 34
    case Password => 35
    case MapColumnJava => 36
    case Incremental => 37
    case CheckColumn => 38
    case LastValue => 39
    case ConnectionManager => 40
    case ConnectionParamFile => 41
    case Driver => 42
    case HadoopHome => 43
    case HadoopMapredHome => 44
    case MetadataTransactionIsolationLevel => 45
    case PasswordAlias => 46
    case PasswordFile => 47
    case RelaxedIsolation => 48
    case SplitBy => 49
    case HiveTable => 50
    case HivePartitionKey => 51
    case HivePartitionValue => 52
    case SkipDistCache => 53
    case TemporaryRootdir => 54
    case Verbose => 55
    case NumMappers => 56
    case Bindir => 57
    case HiveDelimsReplacement => 58
    case Help => 60
    case HiveImport => 62
    case HiveOverwrite => 64
    case AsTextfile => 66
    case Direct => 72
    case AsParquetfile => 74
    case Query => 75
  }

  /** The line of the constructor on which a presence flag is set to `''`; 0 for the other keys. */
  function MarkLine(f: Flag): nat {
    match f
    case Help => 60
    case HiveImport => 62
    case HiveOverwrite => 64
    case AsTextfile => 66
    case HiveDropImportDelims => 68
    case DeleteTargetDir => 70
    case Direct => 72
    case AsParquetfile => 74
    case _ => 0
  }

  /** `BaseOrder` lists the keys in the order of the lines that assign them, one key per line. */
  lemma BaseOrderLines()
    ensures |BaseOrder| == 39
    ensures forall i :: 0 <= i < |BaseOrder| ==> BaseOrder[i] == KeyOnLine(20 + i) && FirstAssigned(BaseOrder[i]) == 20 + i
  {
    BaseOrderLines20To29();
    BaseOrderLines30To39();
    BaseOrderLines40To49();
    BaseOrderLines50To58();
  }

  /** Each of lines 20-29 assigns a key that no earlier line assigns. */
  lemma BaseOrderLines20To29()
    ensures forall n :: 20 <= n <= 29 ==> FirstAssigned(KeyOnLine(n)) == n
  {
  }

  /** Each of lines 30-39 assigns a key that no earlier line assigns. */
  lemma BaseOrderLines30To39()
    ensures forall n :: 30 <= n <= 39 ==> FirstAssigned(KeyOnLine(n)) == n
  {
  }

  /** Each of lines 40-49 assigns a key that no earlier line assigns. */
  lemma BaseOrderLines40To49()
    ensures forall n :: 40 <= n <= 49 ==> FirstAssigned(KeyOnLine(n)) == n
  {
  }

  /** Each of lines 50-58 assigns a key that no earlier line assigns. */
  lemma BaseOrderLines50To58()
    ensures forall n :: 50 <= n <= 58 ==> FirstAssigned(KeyOnLine(n)) == n
  {
  }

  /** Each of lines 20-58 assigns its own key: the line a key is first assigned on identifies it. */
  lemma KeyOnLineLines()
    ensures forall n :: 20 <= n <= 58 ==> FirstAssigned(KeyOnLine(n)) == n
  {
    BaseOrderLines20To29();
    BaseOrderLines30To39();
    BaseOrderLines40To49();
    BaseOrderLines50To58();
  }

  /** `MarkOrder` lists the presence flags in the order of the lines that set them, two lines apart. */
  lemma MarkOrderLines()
    ensures |MarkOrder| == 8
    ensures forall i :: 0 <= i < |MarkOrder| ==> MarkLine(MarkOrder[i]) == 60 + 2 * i
  {
  }

  /** No key is assigned unconditionally twice: distinct positions have distinct lines. */
  lemma BaseOrderDistinct()
    ensures Distinct(BaseOrder)
  {
    BaseOrderLines();
  }

  /** No presence flag is guarded twice. */
  lemma MarkOrderDistinct()
    ensures Distinct(MarkOrder)
  {
    MarkOrderLines();
  }

  /** Every unconditional key is first assigned on one of lines 20-58. */
  lemma BaseOrderBounds()
    ensures forall k :: k in BaseOrder ==> 20 <= FirstAssigned(k) <= 58
  {
    BaseOrderLines();
  }

  /** `--query` is neither assigned unconditionally before line 75 nor a presence flag. */
  lemma QueryNotListed()
    ensures Query !in BaseOrder && Query !in MarkOrder
  {
    AssignedLater(Query);
    NotPresenceFlag(Query);
  }

  /** The key of each of lines 20-58 is among the unconditional keys. */
  lemma AssignedOn(n: int, k: Flag)
    requires 20 <= n <= 58 && KeyOnLine(n) == k
    ensures k in BaseOrder
  {
    assert BaseOrder[n - 20] == k;
  }

  /** A key that no guard of lines 59-74 sets is not a presence flag. */
  lemma NotPresenceFlag(k: Flag)
    requires MarkLine(k) == 0
    ensures k !in MarkOrder
  {
    MarkOrderLines();
  }

  /** A key first assigned after line 58 is not among the unconditional keys. */
  lemma AssignedLater(k: Flag)
    requires FirstAssigned(k) > 58
    ensures k !in BaseOrder
  {
    BaseOrderBounds();
  }

  /**
   * The only presence flags that are also assigned unconditionally are
   * `--hive-drop-import-delims` and `--delete-target-dir`.
   */
  lemma OrderOverlap()
    ensures forall k :: k in MarkOrder ==> (k in BaseOrder <==> k == HiveDropImportDelims || k == DeleteTargetDir)
  {
    BaseOrderBounds();
    BaseOrderLines();
    assert BaseOrder[2] == HiveDropImportDelims && BaseOrder[12] == DeleteTargetDir;
    forall k | k in MarkOrder
      ensures k in BaseOrder <==> k == HiveDropImportDelims || k == DeleteTargetDir
    {
      MarksAfterBase(k);
    }
  }

  /**
   * Apart from `--hive-drop-import-delims` and `--delete-target-dir`, each
   * presence flag is first assigned after line 58, by its own guard.
   */
  lemma MarksAfterBase(k: Flag)
    requires k in MarkOrder
    ensures k == HiveDropImportDelims || k == DeleteTargetDir || FirstAssigned(k) >= 60
  {
  }

  /** Neither key order repeats a key, and `--query` is in neither. */
  lemma OrdersWellFormed()
    ensures Distinct(BaseOrder) && Distinct(MarkOrder)
    ensures Query !in BaseOrder && Query !in MarkOrder
  {
    BaseOrderDistinct();
    MarkOrderDistinct();
    QueryNotListed();
  }
}
