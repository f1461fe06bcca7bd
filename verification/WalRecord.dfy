/** Logical log records: a transaction's operations as key and value bytes, and back. */
module WalRecord {
  import opened Bytes
  import opened WalBytes
  import opened WalDefs

  datatype FkAction = NoAction | Restrict | Cascade | SetNull | SetDefault

  datatype LoggedOp =
    | Insert(txn: u64, table: u64, rowId: u64, tuple: seq<byte>)
    | InsertBatch(txn: u64, table: u64, firstRowId: u64, tuples: seq<seq<byte>>)
    | Update(txn: u64, table: u64, rowId: u64, tuple: seq<byte>)
    | Delete(txn: u64, table: u64, rowId: u64)
    | CreateTable(txn: u64, table: u64, def: TableDef)
    | DropTable(txn: u64, table: u64)
    | CreateIndex(txn: u64, index: u64, indexDef: IndexDef)
    | DropIndex(txn: u64, index: u64)
    | IndexInsert(txn: u64, index: u64, rowId: u64, key: seq<byte>)
    | IndexDelete(txn: u64, index: u64, rowId: u64, key: seq<byte>)
    | AddUnique(txn: u64, table: u64, index: u64, name: Text, columns: seq<Text>, primary: bool, nullsNotDistinct: bool)
    | AddCheck(txn: u64, table: u64, name: Text, expr: seq<byte>)
    | AddFk(txn: u64, name: Text, table: u64, columns: seq<Text>, parentTable: u64, parentIndex: u64, childIndex: u64,
            onDelete: FkAction, onUpdate: FkAction)
    | DropConstraint(txn: u64, table: u64, name: Text)
    | SetStats(txn: u64, table: u64, stats: TableStats)
    | ClearStats(txn: u64, table: u64)
    | SeqCreate(id: u64, seqDef: SequenceDef)
    | SeqDrop(txn: u64, id: u64)
    | SeqSet(id: u64, value: i64)
    | AlterSchema(txn: u64, table: u64, version: u32, def: TableDef)
    | SchemaCreate(txn: u64, id: u64, name: Text)
    | SchemaDrop(txn: u64, id: u64, name: Text)
    | IndexUnstamp(txn: u64, index: u64, rowId: u64, key: seq<byte>)
    | SeqAlter(id: u64, seqDef: SequenceDef, current: Option<i64>)
    | TableRoot(table: u64, root: u64, nextRowId: u64)
    | IndexRoot(index: u64, root: u64, aliveRoot: u64)
    | IndexImageEntry(txn: u64, index: u64, rowId: u64, key: seq<byte>)
    | FreeAtOpen(pages: seq<u64>)
    | PrepareBegin(txn: u64)
    | Prepare(txn: u64, gid: Text, owner: Text, database: Text, preparedAtMs: u64, locks: seq<PreparedLock>)

  datatype Record = Record(key: seq<byte>, value: seq<byte>)

  const TAG_INSERT_BATCH: byte := 22
  const TAG_PREPARE: byte := 29

  function FkTag(a: FkAction): byte {
    match a case NoAction => 0 case Restrict => 1 case Cascade => 2 case SetNull => 3 case SetDefault => 4
  }

  function FkOf(tag: byte): Option<FkAction> {
    match tag
    case 0 => Some(NoAction) case 1 => Some(Restrict) case 2 => Some(Cascade) case 3 => Some(SetNull)
    case 4 => Some(SetDefault) case _ => None
  }

  // Encoding -------------------------------------------------------------------------------------

  /** A key names the kind of record, its transaction, its object and, for some, a row. */
  function KeyOf(tag: byte, txn: u64, object_: u64, row: Option<u64>): (k: seq<byte>)
    ensures k != [] && k[0] == tag
  {
    [tag] + PushU64(txn, PushU64(object_, if row.Some? then PushU64(row.value, []) else []))
  }

  function BatchValue(tuples: seq<seq<byte>>): seq<byte> { PushList(PushBytes, tuples, []) }

  /** The fields a unique constraint's record had from the start. */
  function UniqueBase(index: u64, primary: bool, name: Text, columns: seq<Text>, rest: seq<byte>): seq<byte> {
    PushU64(index, PushBool(primary, PushStr(name, PushList(PushStr, columns, rest))))
  }

  function ToRecord(op: LoggedOp): Record {
    match op
    case Insert(txn, table, row, tuple) => Record(KeyOf(0, txn, table, Some(row)), tuple)
    case Update(txn, table, row, tuple) => Record(KeyOf(1, txn, table, Some(row)), tuple)
    case Delete(txn, table, row) => Record(KeyOf(2, txn, table, Some(row)), [])
    case CreateTable(txn, table, def) => Record(KeyOf(3, txn, table, None), PushTable(def, []))
    case DropTable(txn, table) => Record(KeyOf(4, txn, table, None), [])
    case CreateIndex(txn, index, def) => Record(KeyOf(5, txn, index, None), PushIndex(def))
    case DropIndex(txn, index) => Record(KeyOf(6, txn, index, None), [])
    case IndexInsert(txn, index, row, key) => Record(KeyOf(7, txn, index, Some(row)), key)
    case IndexDelete(txn, index, row, key) => Record(KeyOf(8, txn, index, Some(row)), key)
    case AddUnique(txn, table, index, name, columns, primary, nulls) =>
      Record(KeyOf(9, txn, table, None), UniqueBase(index, primary, name, columns, PushBool(nulls, [])))
    case AddCheck(txn, table, name, expr) => Record(KeyOf(10, txn, table, None), PushStr(name, PushBytes(expr, [])))
    case AddFk(txn, name, table, columns, parentTable, parentIndex, childIndex, onDelete, onUpdate) =>
      Record(KeyOf(11, txn, table, None),
             PushU64(parentTable, PushU64(parentIndex, PushU64(childIndex,
               [FkTag(onDelete)] + ([FkTag(onUpdate)] + PushStr(name, PushList(PushStr, columns, [])))))))
    case DropConstraint(txn, table, name) => Record(KeyOf(12, txn, table, None), PushStr(name, []))
    case SetStats(txn, table, stats) => Record(KeyOf(13, txn, table, None), PushStats(stats, []))
    case ClearStats(txn, table) => Record(KeyOf(14, txn, table, None), [])
    case SeqCreate(id, def) => Record(KeyOf(15, 0, id, None), PushSequence(def, []))
    case SeqDrop(txn, id) => Record(KeyOf(16, txn, id, None), [])
    case SeqSet(id, v) => Record(KeyOf(17, 0, id, None), PushI64(v, []))
    case AlterSchema(txn, table, version, def) => Record(KeyOf(18, txn, table, None), PushU32(version, PushTable(def, [])))
    case SchemaCreate(txn, id, name) => Record(KeyOf(19, txn, id, None), PushStr(name, []))
    case SchemaDrop(txn, id, name) => Record(KeyOf(20, txn, id, None), PushStr(name, []))
    case IndexUnstamp(txn, index, row, key) => Record(KeyOf(21, txn, index, Some(row)), key)
    case InsertBatch(txn, table, first, tuples) => Record(KeyOf(TAG_INSERT_BATCH, txn, table, Some(first)), BatchValue(tuples))
    case SeqAlter(id, def, current) => Record(KeyOf(23, 0, id, None), PushOption(PushI64, current, PushSequence(def, [])))
    case TableRoot(table, root, next) => Record(KeyOf(24, 0, table, None), PushU64(root, PushU64(next, [])))
    case IndexRoot(index, root, alive) => Record(KeyOf(25, 0, index, None), PushU64(root, PushU64(alive, [])))
    case IndexImageEntry(txn, index, row, key) => Record(KeyOf(26, txn, index, Some(row)), key)
    case FreeAtOpen(pages) => Record(KeyOf(27, 0, 0, None), PushAll(PushU64, pages, []))
    case PrepareBegin(txn) => Record(KeyOf(28, txn, 0, None), [])
    case Prepare(txn, gid, owner, database, at, locks) =>
      Record(KeyOf(TAG_PREPARE, txn, 0, None),
             PushStr(gid, PushStr(owner, PushStr(database, PushU64(at, PushList(PushLock, locks, []))))))
  }

  // Decoding -------------------------------------------------------------------------------------

  /** What a value holds, if it can be read; bytes after it are let pass. */
  function Lenient<T>(p: Parse<T>): Option<T> { match p case Fail => None case Ok(x, _) => Some(x) }

  /** What a value holds, if it can be read and nothing follows. */
  function Exact<T>(p: Parse<T>): Option<T> {
    match p case Fail => None case Ok(x, rest) => if rest == [] then Some(x) else None
  }

  function ReadBatch(v: seq<byte>): Option<seq<seq<byte>>> { Exact(ReadList(ReadBytes, v)) }

  datatype Unique = Unique(index: u64, primary: bool, name: Text, columns: seq<Text>, nullsNotDistinct: bool)

  /** The last flag was added later: a record without it means what it meant before. */
  function ReadUnique(b: seq<byte>): Parse<Unique> {
    var (index, b) :- ReadU64(b);
    var (primary, b) :- ReadBool(b);
    var (name, b) :- ReadStr(b);
    var (columns, b) :- ReadList(ReadStr, b);
    if b == [] then Ok(Unique(index, primary, name, columns, false), b)
    else
      var (nulls, b) :- ReadBool(b);
      Ok(Unique(index, primary, name, columns, nulls), b)
  }

  datatype Check = Check(name: Text, expr: seq<byte>)

  function ReadCheck(b: seq<byte>): Parse<Check> {
    var (name, b) :- ReadStr(b);
    var (expr, b) :- ReadBytes(b);
    Ok(Check(name, expr), b)
  }

  datatype Fk = Fk(parentTable: u64, parentIndex: u64, childIndex: u64, onDelete: FkAction, onUpdate: FkAction, name: Text, columns: seq<Text>)

  function ReadFk(b: seq<byte>): Parse<Fk> {
    var (parentTable, b) :- ReadU64(b);
    var (parentIndex, b) :- ReadU64(b);
    var (childIndex, b) :- ReadU64(b);
    var (onDelete, b) :- ReadTag(FkOf, b);
    var (onUpdate, b) :- ReadTag(FkOf, b);
    var (name, b) :- ReadStr(b);
    var (columns, b) :- ReadList(ReadStr, b);
    Ok(Fk(parentTable, parentIndex, childIndex, onDelete, onUpdate, name, columns), b)
  }

  datatype Pair<A, B> = Pair(a: A, b: B)

  function ReadPair<A, B>(readA: seq<byte> -> Parse<A>, readB: seq<byte> -> Parse<B>, b: seq<byte>): Parse<Pair<A, B>> {
    var (x, b) :- readA(b);
    var (y, b) :- readB(b);
    Ok(Pair(x, y), b)
  }

  function ReadRestart(b: seq<byte>): Parse<Option<i64>> { ReadOption(ReadI64, b) }

  function ReadPages(v: seq<byte>): Option<seq<u64>> {
    if |v| % 8 != 0 then None else Exact(ReadAll(ReadU64, |v| / 8, v))
  }

  datatype Prepared = Prepared(gid: Text, owner: Text, database: Text, at: u64, locks: seq<PreparedLock>)

  function ReadPrepared(b: seq<byte>): Parse<Prepared> {
    var (gid, b) :- ReadStr(b);
    var (owner, b) :- ReadStr(b);
    var (database, b) :- ReadStr(b);
    var (at, b) :- ReadU64(b);
    var (locks, b) :- ReadList(ReadLock, b);
    Ok(Prepared(gid, owner, database, at, locks), b)
  }

  /** A record of a row: its key must name one. */
  function OfRow(row: Parse<u64>, make: u64 -> LoggedOp): Option<LoggedOp> {
    match row case Fail => None case Ok(r, _) => Some(make(r))
  }

  function Map<A, B>(x: Option<A>, f: A -> B): Option<B> { match x case None => None case Some(v) => Some(f(v)) }

  function FromRecord(r: Record): Option<LoggedOp> {
    if r.key == [] then None
    else
      match ReadPair(ReadU64, ReadU64, r.key[1..])
      case Fail => None
      case Ok(Pair(txn, object_), rowBytes) => Decode(r.key[0], txn, object_, ReadU64(rowBytes), r.value)
  }

  function Decode(tag: byte, txn: u64, object_: u64, row: Parse<u64>, v: seq<byte>): Option<LoggedOp> {
    match tag
    case 0 => OfRow(row, (r: u64) => Insert(txn, object_, r, v))
    case 1 => OfRow(row, (r: u64) => Update(txn, object_, r, v))
    case 2 => OfRow(row, (r: u64) => Delete(txn, object_, r))
    case 3 => Map(Lenient(ReadTable(v)), d => CreateTable(txn, object_, d))
    case 4 => Some(DropTable(txn, object_))
    case 5 => Map(ReadIndex(v), d => CreateIndex(txn, object_, d))
    case 6 => Some(DropIndex(txn, object_))
    case 7 => OfRow(row, (r: u64) => IndexInsert(txn, object_, r, v))
    case 8 => OfRow(row, (r: u64) => IndexDelete(txn, object_, r, v))
    case 9 =>
      Map(Lenient(ReadUnique(v)), (u: Unique) => AddUnique(txn, object_, u.index, u.name, u.columns, u.primary, u.nullsNotDistinct))
    case 10 => Map(Lenient(ReadCheck(v)), (c: Check) => AddCheck(txn, object_, c.name, c.expr))
    case 11 =>
      Map(Lenient(ReadFk(v)), (f: Fk) =>
        AddFk(txn, f.name, object_, f.columns, f.parentTable, f.parentIndex, f.childIndex, f.onDelete, f.onUpdate))
    case 12 => Map(Lenient(ReadStr(v)), s => DropConstraint(txn, object_, s))
    case 13 => Map(Lenient(ReadStats(v)), s => SetStats(txn, object_, s))
    case 14 => Some(ClearStats(txn, object_))
    case 15 => Map(Lenient(ReadSequence(v)), d => SeqCreate(object_, d))
    case 16 => Some(SeqDrop(txn, object_))
    case 17 => Map(Lenient(ReadI64(v)), x => SeqSet(object_, x))
    case 18 => Map(Lenient(ReadPair(ReadU32, ReadTable, v)), (p: Pair<u32, TableDef>) => AlterSchema(txn, object_, p.a, p.b))
    case 19 => Map(Lenient(ReadStr(v)), s => SchemaCreate(txn, object_, s))
    case 20 => Map(Lenient(ReadStr(v)), s => SchemaDrop(txn, object_, s))
    case 21 => OfRow(row, (r: u64) => IndexUnstamp(txn, object_, r, v))
    case 22 => if row.Fail? then None else Map(ReadBatch(v), ts => InsertBatch(txn, object_, row.value, ts))
    case 23 =>
      Map(Lenient(ReadPair(ReadRestart, ReadSequence, v)), (p: Pair<Option<i64>, SequenceDef>) => SeqAlter(object_, p.b, p.a))
    case 24 => Map(Lenient(ReadPair(ReadU64, ReadU64, v)), (p: Pair<u64, u64>) => TableRoot(object_, p.a, p.b))
    case 25 => Map(Lenient(ReadPair(ReadU64, ReadU64, v)), (p: Pair<u64, u64>) => IndexRoot(object_, p.a, p.b))
    case 26 => OfRow(row, (r: u64) => IndexImageEntry(txn, object_, r, v))
    case 27 => Map(ReadPages(v), ps => FreeAtOpen(ps))
    case 28 => Some(PrepareBegin(txn))
    case 29 => Map(Exact(ReadPrepared(v)), (p: Prepared) => Prepare(txn, p.gid, p.owner, p.database, p.at, p.locks))
    case _ => None
  }

  // Round trips ----------------------------------------------------------------------------------

  /** Every length fits its field. */
  predicate OpFits(op: LoggedOp) {
    match op
    case InsertBatch(_, _, _, tuples) =>
      |tuples| <= U32_MAX && forall i {:trigger tuples[i]} :: 0 <= i < |tuples| ==> |tuples[i]| <= U32_MAX
    case CreateTable(_, _, def) => TableFits(def)
    case AlterSchema(_, _, _, def) => TableFits(def)
    case CreateIndex(_, _, def) => IndexFits(def)
    case AddUnique(_, _, _, name, columns, _, _) => |name| <= U32_MAX && ShortTexts(columns)
    case AddCheck(_, _, name, expr) => |name| <= U32_MAX && |expr| <= U32_MAX
    case AddFk(_, name, _, columns, _, _, _, _, _) => |name| <= U32_MAX && ShortTexts(columns)
    case DropConstraint(_, _, name) => |name| <= U32_MAX
    case SetStats(_, _, stats) => StatsFit(stats)
    case SeqCreate(_, def) => |def.name| <= U32_MAX
    case SeqAlter(_, def, _) => |def.name| <= U32_MAX
    case SchemaCreate(_, _, name) => |name| <= U32_MAX
    case SchemaDrop(_, _, name) => |name| <= U32_MAX
    case Prepare(_, gid, owner, database, _, locks) =>
      |gid| <= U32_MAX && |owner| <= U32_MAX && |database| <= U32_MAX && |locks| <= U32_MAX
    case _ => true
  }

  lemma KeyRound(tag: byte, txn: u64, object_: u64, row: Option<u64>, v: seq<byte>)
    ensures FromRecord(Record(KeyOf(tag, txn, object_, row), v))
         == Decode(tag, txn, object_, if row.Some? then Ok(row.value, []) else Fail, v)
  {
    hide PushU64, ReadU64, Decode;
    var rowBytes := if row.Some? then PushU64(row.value, []) else [];
    if row.Some? { U64Round(row.value, []); } else { NoInt(); }
    U64Round(object_, rowBytes);
    U64Round(txn, PushU64(object_, rowBytes));
    assert KeyOf(tag, txn, object_, row)[1..] == PushU64(txn, PushU64(object_, rowBytes));
  }

  lemma NoInt()
    ensures ReadU64([]) == Fail
  {
  }

  lemma {:induction false} PagesLength(pages: seq<u64>)
    ensures |PushAll(PushU64, pages, [])| == 8 * |pages|
    decreases |pages|
  {
    hide ToLE;
    if pages != [] { PagesLength(pages[1..]); }
  }

  lemma PagesRound(pages: seq<u64>)
    ensures ReadPages(PushAll(PushU64, pages, [])) == Some(pages)
  {
    hide PushU64, ReadU64, PushAll, ReadAll;
    PagesLength(pages);
    forall i | 0 <= i < |pages| ensures Reads(PushU64, ReadU64, pages[i]) {
      forall r ensures ReadU64(PushU64(pages[i], r)) == Ok(pages[i], r) { U64Round(pages[i], r); }
    }
    AllRound(PushU64, ReadU64, pages, []);
  }

  lemma UniqueRound(u: Unique, rest: seq<byte>)
    requires |u.name| <= U32_MAX && ShortTexts(u.columns)
    ensures ReadUnique(UniqueBase(u.index, u.primary, u.name, u.columns, PushBool(u.nullsNotDistinct, rest))) == Ok(u, rest)
    ensures ReadUnique(UniqueBase(u.index, u.primary, u.name, u.columns, [])) == Ok(u.(nullsNotDistinct := false), [])
  {
    hide PushStr, ReadStr, PushList, ReadList, PushU64, ReadU64;
    BoolRound(u.nullsNotDistinct, rest);
    UniqueFields(u, PushBool(u.nullsNotDistinct, rest));
    UniqueFields(u, []);
  }

  lemma UniqueFields(u: Unique, rest: seq<byte>)
    requires |u.name| <= U32_MAX && ShortTexts(u.columns)
    ensures var e2 := PushList(PushStr, u.columns, rest);
            var e1 := PushStr(u.name, e2);
            && ReadList(ReadStr, e2) == Ok(u.columns, rest) && ReadStr(e1) == Ok(u.name, e2)
            && ReadBool(PushBool(u.primary, e1)) == Ok(u.primary, e1)
            && ReadU64(PushU64(u.index, PushBool(u.primary, e1))) == Ok(u.index, PushBool(u.primary, e1))
  {
    hide PushStr, ReadStr, PushList, ReadList, PushU64, ReadU64, PushBool, ReadBool;
    var e2 := PushList(PushStr, u.columns, rest);
    TextsRound(u.columns, rest);
    StrRound(u.name, e2);
    BoolRound(u.primary, PushStr(u.name, e2));
    U64Round(u.index, PushBool(u.primary, PushStr(u.name, e2)));
  }

  lemma FkRound(f: Fk)
    requires |f.name| <= U32_MAX && ShortTexts(f.columns)
    ensures ReadFk(PushU64(f.parentTable, PushU64(f.parentIndex, PushU64(f.childIndex,
              [FkTag(f.onDelete)] + ([FkTag(f.onUpdate)] + PushStr(f.name, PushList(PushStr, f.columns, []))))))) == Ok(f, [])
  {
    hide PushStr, ReadStr, PushList, ReadList, PushU64, ReadU64;
    var e := PushStr(f.name, PushList(PushStr, f.columns, []));
    var d := [FkTag(f.onDelete)] + ([FkTag(f.onUpdate)] + e);
    TextsRound(f.columns, []);
    StrRound(f.name, PushList(PushStr, f.columns, []));
    assert d[1..] == [FkTag(f.onUpdate)] + e && ([FkTag(f.onUpdate)] + e)[1..] == e;
    U64Round(f.childIndex, d);
    U64Round(f.parentIndex, PushU64(f.childIndex, d));
    U64Round(f.parentTable, PushU64(f.parentIndex, PushU64(f.childIndex, d)));
  }

  lemma PreparedRound(p: Prepared)
    requires |p.gid| <= U32_MAX && |p.owner| <= U32_MAX && |p.database| <= U32_MAX && |p.locks| <= U32_MAX
    ensures ReadPrepared(PushStr(p.gid, PushStr(p.owner, PushStr(p.database, PushU64(p.at, PushList(PushLock, p.locks, [])))))) == Ok(p, [])
  {
    hide PushStr, ReadStr, PushList, ReadList, PushU64, ReadU64;
    var e3 := PushU64(p.at, PushList(PushLock, p.locks, []));
    LocksRound(p.locks, []);
    U64Round(p.at, PushList(PushLock, p.locks, []));
    StrRound(p.database, e3);
    StrRound(p.owner, PushStr(p.database, e3));
    StrRound(p.gid, PushStr(p.owner, PushStr(p.database, e3)));
  }

  /** A batch of rows is read back as it was written. */
  lemma BatchRound(tuples: seq<seq<byte>>)
    requires |tuples| <= U32_MAX && forall i {:trigger tuples[i]} :: 0 <= i < |tuples| ==> |tuples[i]| <= U32_MAX
    ensures ReadBatch(BatchValue(tuples)) == Some(tuples)
  {
    hide PushList, ReadList;
    BytesListRound(tuples, []);
  }

  /** Records of rows, their value taken whole. */
  predicate OfRows(op: LoggedOp) {
    || op.Insert? || op.Update? || op.Delete? || op.IndexInsert? || op.IndexDelete? || op.IndexUnstamp? || op.IndexImageEntry?
  }

  lemma RowsRound(op: LoggedOp)
    requires OfRows(op)
    ensures FromRecord(ToRecord(op)) == Some(op)
  {
    hide FromRecord, KeyOf;
    match op
    case Insert(txn, table, row, tuple) => KeyRound(0, txn, table, Some(row), tuple);
    case Update(txn, table, row, tuple) => KeyRound(1, txn, table, Some(row), tuple);
    case Delete(txn, table, row) => KeyRound(2, txn, table, Some(row), []);
    case IndexInsert(txn, index, row, key) => KeyRound(7, txn, index, Some(row), key);
    case IndexDelete(txn, index, row, key) => KeyRound(8, txn, index, Some(row), key);
    case IndexUnstamp(txn, index, row, key) => KeyRound(21, txn, index, Some(row), key);
    case IndexImageEntry(txn, index, row, key) => KeyRound(26, txn, index, Some(row), key);
  }

  /** Records that are all key. */
  predicate KeyOnly(op: LoggedOp) { op.DropTable? || op.DropIndex? || op.ClearStats? || op.SeqDrop? || op.PrepareBegin? }

  lemma KeyOnlyRound(op: LoggedOp)
    requires KeyOnly(op)
    ensures FromRecord(ToRecord(op)) == Some(op)
  {
    hide FromRecord, KeyOf;
    match op
    case DropTable(txn, table) => KeyRound(4, txn, table, None, []);
    case DropIndex(txn, index) => KeyRound(6, txn, index, None, []);
    case ClearStats(txn, table) => KeyRound(14, txn, table, None, []);
    case SeqDrop(txn, id) => KeyRound(16, txn, id, None, []);
    case PrepareBegin(txn) => KeyRound(28, txn, 0, None, []);
  }

  /** Records that carry definitions. */
  predicate Defines(op: LoggedOp) { op.CreateTable? || op.CreateIndex? || op.SetStats? || op.AlterSchema? }

  lemma DefinesRound(op: LoggedOp)
    requires Defines(op) && OpFits(op)
    ensures FromRecord(ToRecord(op)) == Some(op)
  {
    hide FromRecord, KeyOf, PushU32, ReadU32, PushTable, ReadTable, PushIndex, ReadIndex, PushStats, ReadStats, TableFits, IndexFits, StatsFit;
    var v := ToRecord(op).value;
    match op {
      case CreateTable(txn, table, def) =>
        KeyRound(3, txn, table, None, v);
        TableRound(def, []);
      case CreateIndex(txn, index, def) =>
        KeyRound(5, txn, index, None, v);
        IndexRound(def);
      case SetStats(txn, table, stats) =>
        KeyRound(13, txn, table, None, v);
        StatsRound(stats, []);
      case AlterSchema(txn, table, version, def) =>
        KeyRound(18, txn, table, None, v);
        TableRound(def, []);
        U32Round(version, PushTable(def, []));
    }
  }

  /** Records of constraints. */
  predicate Constrains(op: LoggedOp) { op.AddUnique? || op.AddCheck? || op.AddFk? }

  lemma ConstrainsRound(op: LoggedOp)
    requires Constrains(op) && OpFits(op)
    ensures FromRecord(ToRecord(op)) == Some(op)
  {
    hide FromRecord, KeyOf, PushStr, ReadStr, PushBytes, ReadBytes, ReadUnique, ReadFk, UniqueBase, PushList, ReadList;
    var v := ToRecord(op).value;
    match op {
      case AddUnique(txn, table, index, name, columns, primary, nulls) =>
        KeyRound(9, txn, table, None, v);
        UniqueRound(Unique(index, primary, name, columns, nulls), []);
      case AddCheck(txn, table, name, expr) =>
        KeyRound(10, txn, table, None, v);
        BytesRound(expr, []);
        StrRound(name, PushBytes(expr, []));
      case AddFk(txn, name, table, columns, parentTable, parentIndex, childIndex, onDelete, onUpdate) =>
        KeyRound(11, txn, table, None, v);
        FkRound(Fk(parentTable, parentIndex, childIndex, onDelete, onUpdate, name, columns));
    }
  }

  /** Records that carry one name. */
  predicate Names(op: LoggedOp) { op.DropConstraint? || op.SchemaCreate? || op.SchemaDrop? }

  lemma NamesRound(op: LoggedOp)
    requires Names(op) && OpFits(op)
    ensures FromRecord(ToRecord(op)) == Some(op)
  {
    hide FromRecord, KeyOf, PushStr, ReadStr;
    var v := ToRecord(op).value;
    match op {
      case DropConstraint(txn, table, name) =>
        KeyRound(12, txn, table, None, v);
        StrRound(name, []);
      case SchemaCreate(txn, id, name) =>
        KeyRound(19, txn, id, None, v);
        StrRound(name, []);
      case SchemaDrop(txn, id, name) =>
        KeyRound(20, txn, id, None, v);
        StrRound(name, []);
    }
  }

  /** Records of sequences. */
  predicate OfSequences(op: LoggedOp) { op.SeqCreate? || op.SeqSet? || op.SeqAlter? }

  lemma SequencesRound(op: LoggedOp)
    requires OfSequences(op) && OpFits(op)
    ensures FromRecord(ToRecord(op)) == Some(op)
  {
    hide FromRecord, KeyOf, PushI64, ReadI64, PushSequence, ReadSequence;
    var v := ToRecord(op).value;
    match op {
      case SeqCreate(id, def) =>
        KeyRound(15, 0, id, None, v);
        SequenceRound(def, []);
      case SeqSet(id, x) =>
        KeyRound(17, 0, id, None, v);
        I64Round(x, []);
      case SeqAlter(id, def, current) =>
        KeyRound(23, 0, id, None, v);
        SequenceRound(def, []);
        if current.Some? { I64Round(current.value, PushSequence(def, [])); }
        OptionRound(PushI64, ReadI64, current, PushSequence(def, []));
    }
  }

  /** Records of where trees start. */
  predicate Roots(op: LoggedOp) { op.TableRoot? || op.IndexRoot? }

  lemma RootsRound(op: LoggedOp)
    requires Roots(op) && OpFits(op)
    ensures FromRecord(ToRecord(op)) == Some(op)
  {
    hide FromRecord, KeyOf, PushU64, ReadU64;
    var v := ToRecord(op).value;
    match op {
      case TableRoot(table, root, next) =>
        KeyRound(24, 0, table, None, v);
        U64Round(next, []);
        U64Round(root, PushU64(next, []));
      case IndexRoot(index, root, alive) =>
        KeyRound(25, 0, index, None, v);
        U64Round(alive, []);
        U64Round(root, PushU64(alive, []));
    }
  }

  /** Records whose value is a list. */
  predicate Lists(op: LoggedOp) { op.InsertBatch? || op.FreeAtOpen? || op.Prepare? }

  lemma ListsRound(op: LoggedOp)
    requires Lists(op) && OpFits(op)
    ensures FromRecord(ToRecord(op)) == Some(op)
  {
    hide FromRecord, KeyOf, PushStr, PushU64, ReadPages, ReadPrepared, ReadBatch, BatchValue, PushAll, PushList;
    var v := ToRecord(op).value;
    match op {
      case InsertBatch(txn, table, first, tuples) =>
        KeyRound(TAG_INSERT_BATCH, txn, table, Some(first), v);
        BatchRound(tuples);
      case FreeAtOpen(pages) =>
        KeyRound(27, 0, 0, None, v);
        PagesRound(pages);
      case Prepare(txn, gid, owner, database, at, locks) =>
        KeyRound(TAG_PREPARE, txn, 0, None, v);
        PreparedRound(Prepared(gid, owner, database, at, locks));
    }
  }

  /** Decoding what was encoded gives every operation back. */
  lemma RoundTrip(op: LoggedOp)
    requires OpFits(op)
    ensures FromRecord(ToRecord(op)) == Some(op)
  {
    hide FromRecord, ToRecord, OpFits;
    if OfRows(op) { RowsRound(op); }
    else if KeyOnly(op) { KeyOnlyRound(op); }
    else if Defines(op) { DefinesRound(op); }
    else if Constrains(op) { ConstrainsRound(op); }
    else if Names(op) { NamesRound(op); }
    else if OfSequences(op) { SequencesRound(op); }
    else if Roots(op) { RootsRound(op); }
    else { ListsRound(op); }
  }

  /** So no two operations share a record. */
  lemma RecordsDiffer(a: LoggedOp, b: LoggedOp)
    requires OpFits(a) && OpFits(b) && ToRecord(a) == ToRecord(b)
    ensures a == b
  {
    hide FromRecord, ToRecord, OpFits;
    RoundTrip(a);
    RoundTrip(b);
  }

  /** Records written before a field was added mean what they meant: a unique constraint without its
      last flag keeps nulls distinct, and an index without its later fields has no expressions and
      no predicate. */
  lemma OldRecords(op: LoggedOp)
    requires OpFits(op)
    ensures op.AddUnique? ==>
              FromRecord(ToRecord(op).(value := UniqueBase(op.index, op.primary, op.name, op.columns, [])))
              == Some(op.(nullsNotDistinct := false))
    ensures op.CreateIndex? ==>
              FromRecord(ToRecord(op).(value := PushIndexBase(op.indexDef, [])))
              == Some(op.(indexDef := op.indexDef.(keyExprs := [], predicate_ := None)))
  {
    hide FromRecord, KeyOf, ReadUnique, UniqueBase, ReadIndex, PushIndexBase, IndexFits;
    match op {
      case AddUnique(txn, table, index, name, columns, primary, nulls) =>
        KeyRound(9, txn, table, None, UniqueBase(index, primary, name, columns, []));
        UniqueRound(Unique(index, primary, name, columns, nulls), []);
      case CreateIndex(txn, index, def) =>
        KeyRound(5, txn, index, None, PushIndexBase(def, []));
        IndexRound(def);
      case _ =>
    }
  }

  // Batches --------------------------------------------------------------------------------------

  lemma {:induction false} AppendTuple(a: seq<seq<byte>>, x: seq<byte>)
    ensures PushAll(PushBytes, a + [x], []) == PushAll(PushBytes, a, []) + PushBytes(x, [])
    decreases |a|
  {
    if a == [] {
      assert a + [x] == [x] && [x][1..] == [];
    } else {
      hide PushBytes;
      AppendTuple(a[1..], x);
      assert (a + [x])[0] == a[0] && (a + [x])[1..] == a[1..] + [x];
      BytesThen(a[0], PushAll(PushBytes, a[1..], []), PushBytes(x, []));
    }
  }

  lemma BytesThen(x: seq<byte>, b: seq<byte>, c: seq<byte>)
    ensures PushBytes(x, b + c) == PushBytes(x, b) + c
  {
    var n := ToLE(Length32(|x|), 4);
    assert n + (x + (b + c)) == (n + (x + b)) + c;
  }

  /** The writer's own encoder of a batch, straight from borrowed rows: the record it would get from
      the owned operation, byte for byte. */
  method InsertBatchRecord(txn: u64, table: u64, firstRowId: u64, tuples: seq<seq<byte>>) returns (r: Record)
    ensures r == ToRecord(InsertBatch(txn, table, firstRowId, tuples))
  {
    hide ToLE, PushAll;
    var value := ToLE(Length32(|tuples|), 4);
    ghost var head := value;
    PushNone();
    for i := 0 to |tuples|
      invariant value == head + PushAll(PushBytes, tuples[..i], [])
    {
      AppendTuple(tuples[..i], tuples[i]);
      assert tuples[..i + 1] == tuples[..i] + [tuples[i]];
      value := value + ToLE(Length32(|tuples[i]|), 4);
      value := value + tuples[i];
      assert tuples[i] + [] == tuples[i];
    }
    assert tuples[..|tuples|] == tuples;
    r := Record(KeyOf(TAG_INSERT_BATCH, txn, table, Some(firstRowId)), value);
  }

  lemma PushNone()
    ensures PushAll(PushBytes, [], []) == []
  {
  }

  /** The reader's loop over a batch, its cursor running along the value. */
  method DecodeBatch(v: seq<byte>) returns (r: Option<seq<seq<byte>>>)
    ensures r == ReadBatch(v)
  {
    hide ReadAll, ReadU32, ReadBytes;
    var count := ReadU32(v);
    if count.Fail? { return None; }
    U32Takes(v);
    var at: nat := 4;
    var tuples: seq<seq<byte>> := [];
    var n: nat := count.value;
    assert ReadList(ReadBytes, v) == After(tuples, ReadAll(ReadBytes, n, v[at..])) by {
      NothingYet(ReadAll(ReadBytes, n, v[4..]));
    }
    for i := 0 to n
      invariant |tuples| == i && at <= |v|
      invariant ReadList(ReadBytes, v) == After(tuples, ReadAll(ReadBytes, n - i, v[at..]))
    {
      ReadNext(n - i, v[at..]);
      ghost var before, start := tuples, at;
      var len := ReadU32(v[at..]);
      BytesAt(v, at);
      if len.Fail? { return None; }
      at := at + 4;
      if |v| < at + len.value { return None; }
      tuples := tuples + [v[at..at + len.value]];
      at := at + len.value;
      OneMore(before, v[start + 4..at], ReadAll(ReadBytes, n - i - 1, v[at..]));
    }
    ReadNone(v[at..]);
    assert tuples + [] == tuples;
    r := if at != |v| then None else Some(tuples);
  }

  /** What has been read so far and what the rest of the bytes give. */
  function After(xs: seq<seq<byte>>, p: Parse<seq<seq<byte>>>): Parse<seq<seq<byte>>> {
    match p case Fail => Fail case Ok(ys, rest) => Ok(xs + ys, rest)
  }

  lemma NothingYet(p: Parse<seq<seq<byte>>>)
    ensures After([], p) == p
  {
    if p.Ok? { assert [] + p.value == p.value; }
  }

  lemma OneMore(xs: seq<seq<byte>>, x: seq<byte>, p: Parse<seq<seq<byte>>>)
    ensures After(xs, After([x], p)) == After(xs + [x], p)
  {
    if p.Ok? { assert xs + ([x] + p.value) == (xs + [x]) + p.value; }
  }

  lemma ReadNone(b: seq<byte>)
    ensures ReadAll(ReadBytes, 0, b) == Ok([], b)
  {
  }

  lemma ReadNext(n: nat, b: seq<byte>)
    requires n > 0
    ensures ReadAll(ReadBytes, n, b)
         == match ReadBytes(b) case Fail => Fail case Ok(x, rest) => After([x], ReadAll(ReadBytes, n - 1, rest))
  {
  }

  lemma U32Takes(b: seq<byte>)
    ensures ReadU32(b).Fail? <==> |b| < 4
    ensures ReadU32(b).Ok? ==> ReadU32(b).rest == b[4..]
  {
  }

  lemma BytesAt(v: seq<byte>, at: nat)
    requires at <= |v|
    ensures var n := ReadU32(v[at..]);
            && (n.Fail? <==> |v| < at + 4)
            && ReadBytes(v[at..])
               == if n.Fail? || |v| < at + 4 + n.value then Fail
                  else Ok(v[at + 4..at + 4 + n.value], v[at + 4 + n.value..])
  {
    hide ReadU32;
    U32Takes(v[at..]);
    var n := ReadU32(v[at..]);
    if n.Ok? {
      assert n.rest == v[at + 4..];
      if at + 4 + n.value <= |v| {
        assert n.rest[..n.value] == v[at + 4..at + 4 + n.value] && n.rest[n.value..] == v[at + 4 + n.value..];
      }
    }
  }

  // A batch is as long as it says ----------------------------------------------------------------

  lemma U32Longer(b: seq<byte>, q: seq<byte>)
    requires ReadU32(b).Ok?
    ensures ReadU32(b + q) == Ok(ReadU32(b).value, ReadU32(b).rest + q)
  {
    assert (b + q)[..4] == b[..4] && (b + q)[4..] == b[4..] + q;
  }

  lemma BytesLonger(b: seq<byte>, q: seq<byte>)
    requires ReadBytes(b).Ok?
    ensures ReadBytes(b + q) == Ok(ReadBytes(b).value, ReadBytes(b).rest + q)
  {
    hide ReadU32;
    U32Longer(b, q);
    var n, c := ReadU32(b).value, ReadU32(b).rest;
    assert (c + q)[..n] == c[..n] && (c + q)[n..] == c[n..] + q;
  }

  lemma {:induction false} AllLonger(n: nat, b: seq<byte>, q: seq<byte>)
    requires ReadAll(ReadBytes, n, b).Ok?
    ensures ReadAll(ReadBytes, n, b + q) == Ok(ReadAll(ReadBytes, n, b).value, ReadAll(ReadBytes, n, b).rest + q)
    decreases n
  {
    hide ReadBytes;
    if n > 0 {
      BytesLonger(b, q);
      AllLonger(n - 1, ReadBytes(b).rest, q);
    }
  }

  /** Of two batch values neither is a strict prefix of the other: a value that decodes stops
      decoding when cut short or followed by anything. */
  lemma BatchIsExact(v: seq<byte>, q: seq<byte>)
    requires q != []
    ensures ReadBatch(v).Some? ==> ReadBatch(v + q).None?
    ensures ReadBatch(v + q).Some? ==> ReadBatch(v).None?
  {
    hide ReadAll, ReadU32;
    if ReadBatch(v).Some? {
      U32Longer(v, q);
      AllLonger(ReadU32(v).value, ReadU32(v).rest, q);
    }
  }

  /** In particular the value of any batch. */
  lemma BatchPrefixesFail(tuples: seq<seq<byte>>, n: nat, q: seq<byte>)
    requires |tuples| <= U32_MAX && forall i {:trigger tuples[i]} :: 0 <= i < |tuples| ==> |tuples[i]| <= U32_MAX
    requires n < |BatchValue(tuples)| && q != []
    ensures ReadBatch(BatchValue(tuples)[..n]).None? && ReadBatch(BatchValue(tuples) + q).None?
  {
    hide BatchValue, ReadBatch;
    var v := BatchValue(tuples);
    BatchRound(tuples);
    BatchIsExact(v, q);
    BatchIsExact(v[..n], v[n..]);
    assert v == v[..n] + v[n..];
  }

  // The cheap test -------------------------------------------------------------------------------

  /** The transaction a record prepares, by its key alone. */
  function PrepareMarker(r: Record): Option<u64> {
    if r.key == [] || r.key[0] != TAG_PREPARE then None else Lenient(ReadU64(r.key[1..]))
  }

  /** The test finds exactly the records that prepare a transaction, and names it. */
  lemma MarkerIsExact(op: LoggedOp)
    ensures PrepareMarker(ToRecord(op)) == if op.Prepare? then Some(op.txn) else None
  {
    hide KeyOf, PushU64, ReadU64;
    if op.Prepare? { MarkerRead(op.txn); }
  }

  lemma MarkerRead(txn: u64)
    ensures ReadU64(KeyOf(TAG_PREPARE, txn, 0, None)[1..]) == Ok(txn, PushU64(0, []))
  {
    hide PushU64, ReadU64;
    U64Round(txn, PushU64(0, []));
    assert KeyOf(TAG_PREPARE, txn, 0, None)[1..] == PushU64(txn, PushU64(0, []));
  }
}
