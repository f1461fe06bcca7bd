/** The encoders as the log writer runs them: bytes appended field by field. Each appends exactly what
    the format puts in front of the bytes that follow. */
module WalEncode {
  import opened Bytes
  import opened WalBytes
  import opened WalDefs
  import opened WalRecord

  lemma Moved(out: seq<byte>, part: seq<byte>, rest: seq<byte>)
    ensures (out + part) + rest == out + (part + rest)
  {
  }

  // Fields ---------------------------------------------------------------------------------------

  method AppendByte(before: seq<byte>, x: byte, ghost rest: seq<byte>) returns (out: seq<byte>)
    ensures out + rest == before + ([x] + rest)
  {
    out := before + [x];
    Moved(before, [x], rest);
  }

  method AppendFlag(before: seq<byte>, x: bool, ghost rest: seq<byte>) returns (out: seq<byte>)
    ensures out + rest == before + PushBool(x, rest)
  {
    out := AppendByte(before, if x then 1 else 0, rest);
  }

  method AppendInt(before: seq<byte>, x: nat, w: nat, ghost rest: seq<byte>) returns (out: seq<byte>)
    ensures out + rest == before + PushInt(x, w, rest)
  {
    out := before + ToLE(x, w);
    Moved(before, ToLE(x, w), rest);
  }

  method AppendSigned(before: seq<byte>, x: i64, ghost rest: seq<byte>) returns (out: seq<byte>)
    ensures out + rest == before + PushI64(x, rest)
  {
    out := AppendInt(before, if x >= 0 then x else x + 0x1_0000_0000_0000_0000, 8, rest);
  }

  /** A length, then the bytes. */
  method AppendBytes(before: seq<byte>, x: seq<byte>, ghost rest: seq<byte>) returns (out: seq<byte>)
    ensures out + rest == before + PushBytes(x, rest)
  {
    out := AppendInt(before, if |x| <= 0xFFFF_FFFF then |x| else 0xFFFF_FFFF, 4, x + rest);
    Moved(out, x, rest);
    out := out + x;
  }

  method AppendOption(before: seq<byte>, x: Option<seq<byte>>, ghost rest: seq<byte>) returns (out: seq<byte>)
    ensures out + rest == before + PushOption(PushBytes, x, rest)
  {
    match x
    case None => out := AppendByte(before, 0, rest);
    case Some(v) =>
      out := AppendByte(before, 1, PushBytes(v, rest));
      out := AppendBytes(out, v, rest);
  }

  /** A count, then each of the texts. */
  method AppendStrs(before: seq<byte>, xs: seq<Text>, ghost rest: seq<byte>) returns (out: seq<byte>)
    ensures out + rest == before + PushList(PushStr, xs, rest)
  {
    hide PushStr;
    out := AppendInt(before, if |xs| <= 0xFFFF_FFFF then |xs| else 0xFFFF_FFFF, 4, PushAll(PushStr, xs, rest));
    assert xs[0..] == xs;
    for i := 0 to |xs|
      invariant out + PushAll(PushStr, xs[i..], rest) == before + PushList(PushStr, xs, rest)
    {
      assert xs[i..][0] == xs[i] && xs[i..][1..] == xs[i + 1..];
      ghost var behind := PushAll(PushStr, xs[i + 1..], rest);
      StrIsBytes(xs[i], behind);
      out := AppendBytes(out, xs[i], behind);
    }
    assert xs[|xs|..] == [];
  }

  lemma StrIsBytes(x: Text, rest: seq<byte>)
    ensures PushStr(x, rest) == PushBytes(x, rest)
  {
  }

  // Definitions ----------------------------------------------------------------------------------

  /** The bytes of a column type: a tag and what the type carries. */
  function TypeBytes(t: ColumnType): seq<byte> {
    match t
    case BoolType => [0] case IntType => [1] case SmallInt => [2] case BigInt => [3] case FloatType => [4]
    case RealType => [5] case TextType => [6] case VarChar(n) => [7] + ToLE(n, 4) case CharType(n) => [8] + ToLE(n, 4)
    case BytesType => [9] case Timestamp => [10] case Date => [11] case Time => [12] case TimestampTz => [13]
    case TimeTz => [14] case Uuid => [15] case Numeric(p, s) => [16, p, s] case Json => [17] case Jsonb => [18]
    case Interval => [19] case Array(e) => [20, ElemTag(e)] case Vector(n) => [21] + ToLE(n, 4) case Macaddr => [22]
    case Inet => [23] case Cidr => [24] case Bit(n) => [25] + ToLE(n, 4) case VarBit(None) => [26, 0]
    case VarBit(Some(n)) => [26, 1] + ToLE(n, 4) case Range(k) => [27, RangeTag(k)] case Macaddr8 => [28]
    case Geometry(k) => [29, GeomTag(k)] case Tsvector => [30] case Tsquery => [31] case Xml => [32] case Enum => [33]
  }

  lemma TypePushed(t: ColumnType, rest: seq<byte>)
    ensures PushType(t, rest) == TypeBytes(t) + rest
  {
    hide ToLE;
  }

  method AppendColumn(before: seq<byte>, c: ColumnDef, ghost rest: seq<byte>) returns (out: seq<byte>)
    ensures out + rest == before + PushColumn(c, rest)
  {
    hide PushType, TypeBytes, PushBytes, PushBool;
    StrIsBytes(c.name, PushBool(c.nullable, PushType(c.ty, rest)));
    out := AppendBytes(before, c.name, PushBool(c.nullable, PushType(c.ty, rest)));
    out := AppendFlag(out, c.nullable, PushType(c.ty, rest));
    TypePushed(c.ty, rest);
    Moved(out, TypeBytes(c.ty), rest);
    out := out + TypeBytes(c.ty);
  }

  method AppendTable(before: seq<byte>, d: TableDef, ghost rest: seq<byte>) returns (out: seq<byte>)
    ensures out + rest == before + PushTable(d, rest)
  {
    hide PushColumn, PushBytes, PushStr;
    ghost var columns := PushList(PushColumn, d.columns, rest);
    StrIsBytes(d.name, columns);
    StrIsBytes(d.schema, PushStr(d.name, columns));
    out := AppendBytes(before, d.schema, PushStr(d.name, columns));
    out := AppendBytes(out, d.name, columns);
    ghost var at := out;
    out := AppendInt(out, if |d.columns| <= 0xFFFF_FFFF then |d.columns| else 0xFFFF_FFFF, 4, PushAll(PushColumn, d.columns, rest));
    assert d.columns[0..] == d.columns;
    for i := 0 to |d.columns|
      invariant out + PushAll(PushColumn, d.columns[i..], rest) == at + columns
    {
      assert d.columns[i..][0] == d.columns[i] && d.columns[i..][1..] == d.columns[i + 1..];
      out := AppendColumn(out, d.columns[i], PushAll(PushColumn, d.columns[i + 1..], rest));
    }
    assert d.columns[|d.columns|..] == [];
  }

  method AppendIndex(before: seq<byte>, d: IndexDef) returns (out: seq<byte>)
    ensures out == before + PushIndex(d)
  {
    hide PushBytes, PushStr, PushList, PushU64;
    ghost var more := PushIndexMore(d, []);
    ghost var kind := [KindTag(d.kind)] + PushBool(d.unique, more);
    ghost var include_ := PushList(PushStr, d.include_, kind);
    ghost var columns := PushList(PushStr, d.columns, include_);
    StrIsBytes(d.name, PushU64(d.table, columns));
    out := AppendBytes(before, d.name, PushU64(d.table, columns));
    out := AppendU64(out, d.table, columns);
    out := AppendStrs(out, d.columns, include_);
    out := AppendStrs(out, d.include_, kind);
    out := AppendByte(out, match d.kind case BTree => 0 case Hash => 1 case Brin => 2, PushBool(d.unique, more));
    out := AppendFlag(out, d.unique, more);
    out := AppendStrs(out, d.keyExprs, PushOption(PushStr, d.predicate_, []));
    match d.predicate_ {
      case None => out := AppendByte(out, 0, []);
      case Some(text) =>
        StrIsBytes(text, []);
        out := AppendByte(out, 1, PushStr(text, []));
        out := AppendBytes(out, text, []);
    }
    assert out + [] == out;
  }

  method AppendU64(before: seq<byte>, x: u64, ghost rest: seq<byte>) returns (out: seq<byte>)
    ensures out + rest == before + PushU64(x, rest)
  {
    out := AppendInt(before, x, 8, rest);
  }

  method AppendSequence(before: seq<byte>, d: SequenceDef, ghost rest: seq<byte>) returns (out: seq<byte>)
    ensures out + rest == before + PushSequence(d, rest)
  {
    hide PushBytes, PushStr, PushI64, PushBool;
    ghost var cycle := PushBool(d.cycle, rest);
    ghost var most := PushI64(d.most, cycle);
    ghost var least := PushI64(d.least, most);
    ghost var increment := PushI64(d.increment, least);
    StrIsBytes(d.name, PushI64(d.start, increment));
    out := AppendBytes(before, d.name, PushI64(d.start, increment));
    out := AppendSigned(out, d.start, increment);
    out := AppendSigned(out, d.increment, least);
    out := AppendSigned(out, d.least, most);
    out := AppendSigned(out, d.most, cycle);
    out := AppendFlag(out, d.cycle, rest);
  }

  method AppendColumnStats(before: seq<byte>, c: ColumnStats, ghost rest: seq<byte>) returns (out: seq<byte>)
    ensures out + rest == before + PushColumnStats(c, rest)
  {
    hide PushBytes, PushStr, PushU64, PushOption, PushCommon, PushList;
    ghost var histogram := PushList(PushBytes, c.histogram, rest);
    ghost var common := PushList(PushCommon, c.mostCommon, histogram);
    ghost var most := PushOption(PushBytes, c.max, common);
    ghost var least := PushOption(PushBytes, c.min, most);
    StrIsBytes(c.column, PushU64(c.nulls, PushU64(c.distinct, least)));
    out := AppendBytes(before, c.column, PushU64(c.nulls, PushU64(c.distinct, least)));
    out := AppendU64(out, c.nulls, PushU64(c.distinct, least));
    out := AppendU64(out, c.distinct, least);
    out := AppendOption(out, c.min, most);
    out := AppendOption(out, c.max, common);
    out := AppendCommons(out, c.mostCommon, histogram);
    out := AppendAllBytes(out, c.histogram, rest);
  }

  method AppendCommons(before: seq<byte>, xs: seq<Common>, ghost rest: seq<byte>) returns (out: seq<byte>)
    ensures out + rest == before + PushList(PushCommon, xs, rest)
  {
    hide PushBytes, PushU64;
    out := AppendInt(before, if |xs| <= 0xFFFF_FFFF then |xs| else 0xFFFF_FFFF, 4, PushAll(PushCommon, xs, rest));
    assert xs[0..] == xs;
    for i := 0 to |xs|
      invariant out + PushAll(PushCommon, xs[i..], rest) == before + PushList(PushCommon, xs, rest)
    {
      assert xs[i..][0] == xs[i] && xs[i..][1..] == xs[i + 1..];
      ghost var behind := PushAll(PushCommon, xs[i + 1..], rest);
      out := AppendBytes(out, xs[i].value, PushU64(xs[i].frequency, behind));
      out := AppendU64(out, xs[i].frequency, behind);
    }
    assert xs[|xs|..] == [];
  }

  method AppendAllBytes(before: seq<byte>, xs: seq<seq<byte>>, ghost rest: seq<byte>) returns (out: seq<byte>)
    ensures out + rest == before + PushList(PushBytes, xs, rest)
  {
    hide PushBytes;
    out := AppendInt(before, if |xs| <= 0xFFFF_FFFF then |xs| else 0xFFFF_FFFF, 4, PushAll(PushBytes, xs, rest));
    assert xs[0..] == xs;
    for i := 0 to |xs|
      invariant out + PushAll(PushBytes, xs[i..], rest) == before + PushList(PushBytes, xs, rest)
    {
      assert xs[i..][0] == xs[i] && xs[i..][1..] == xs[i + 1..];
      out := AppendBytes(out, xs[i], PushAll(PushBytes, xs[i + 1..], rest));
    }
    assert xs[|xs|..] == [];
  }

  method AppendStats(before: seq<byte>, s: TableStats, ghost rest: seq<byte>) returns (out: seq<byte>)
    ensures out + rest == before + PushStats(s, rest)
  {
    hide PushU64, PushColumnStats;
    ghost var columns := PushList(PushColumnStats, s.columns, rest);
    out := AppendU64(before, s.rows, PushU64(s.pages, columns));
    out := AppendU64(out, s.pages, columns);
    ghost var at := out;
    out := AppendInt(out, if |s.columns| <= 0xFFFF_FFFF then |s.columns| else 0xFFFF_FFFF, 4, PushAll(PushColumnStats, s.columns, rest));
    assert s.columns[0..] == s.columns;
    assert PushInt(Length32(|s.columns|), 4, PushAll(PushColumnStats, s.columns, rest)) == columns;
    for i := 0 to |s.columns|
      invariant out + PushAll(PushColumnStats, s.columns[i..], rest) == at + columns
    {
      assert s.columns[i..][0] == s.columns[i] && s.columns[i..][1..] == s.columns[i + 1..];
      out := AppendColumnStats(out, s.columns[i], PushAll(PushColumnStats, s.columns[i + 1..], rest));
    }
    assert s.columns[|s.columns|..] == [];
  }

  /** A kind byte, whether it is exclusive, then what the kind names. */
  method AppendLock(before: seq<byte>, k: PreparedLock, ghost rest: seq<byte>) returns (out: seq<byte>)
    ensures out + rest == before + PushLock(k, rest)
  {
    hide PushU64, PushBool;
    match k
    case RowLock(table, page, slot, exclusive) =>
      ghost var tail := PushU16(slot, rest);
      out := AppendByte(before, 0, PushBool(exclusive, PushU64(table, PushU64(page, tail))));
      out := AppendFlag(out, exclusive, PushU64(table, PushU64(page, tail)));
      out := AppendU64(out, table, PushU64(page, tail));
      out := AppendU64(out, page, tail);
      out := AppendInt(out, slot, 2, rest);
    case KeyLock(table, hash, exclusive) =>
      out := AppendByte(before, 1, PushBool(exclusive, PushU64(table, PushU64(hash, rest))));
      out := AppendFlag(out, exclusive, PushU64(table, PushU64(hash, rest)));
      out := AppendU64(out, table, PushU64(hash, rest));
      out := AppendU64(out, hash, rest);
    case TableLock(table, exclusive) =>
      out := AppendByte(before, 2, PushBool(exclusive, PushU64(table, rest)));
      out := AppendFlag(out, exclusive, PushU64(table, rest));
      out := AppendU64(out, table, rest);
  }

  method AppendLocks(before: seq<byte>, xs: seq<PreparedLock>, ghost rest: seq<byte>) returns (out: seq<byte>)
    ensures out + rest == before + PushList(PushLock, xs, rest)
  {
    hide PushLock;
    out := AppendInt(before, if |xs| <= 0xFFFF_FFFF then |xs| else 0xFFFF_FFFF, 4, PushAll(PushLock, xs, rest));
    assert xs[0..] == xs;
    for i := 0 to |xs|
      invariant out + PushAll(PushLock, xs[i..], rest) == before + PushList(PushLock, xs, rest)
    {
      assert xs[i..][0] == xs[i] && xs[i..][1..] == xs[i + 1..];
      out := AppendLock(out, xs[i], PushAll(PushLock, xs[i + 1..], rest));
    }
    assert xs[|xs|..] == [];
  }

  // Records --------------------------------------------------------------------------------------

  /** The kind, the transaction and the object, eight bytes each but the kind, and the row if there is
      one. */
  method PushKey(tag: byte, txn: u64, object_: u64, row: Option<u64>) returns (key: seq<byte>)
    ensures key == KeyOf(tag, txn, object_, row)
  {
    hide ToLE;
    key := [tag] + ToLE(txn, 8) + ToLE(object_, 8);
    if row.Some? { key := key + ToLE(row.value, 8); }
  }

  /** The record of a row, its value taken whole. */
  method EncodeRows(op: LoggedOp) returns (r: Record)
    requires OfRows(op)
    ensures r == ToRecord(op)
  {
    hide KeyOf;
    var key;
    match op
    case Insert(txn, table, row, tuple) => key := PushKey(0, txn, table, Some(row)); r := Record(key, tuple);
    case Update(txn, table, row, tuple) => key := PushKey(1, txn, table, Some(row)); r := Record(key, tuple);
    case Delete(txn, table, row) => key := PushKey(2, txn, table, Some(row)); r := Record(key, []);
    case IndexInsert(txn, index, row, k) => key := PushKey(7, txn, index, Some(row)); r := Record(key, k);
    case IndexDelete(txn, index, row, k) => key := PushKey(8, txn, index, Some(row)); r := Record(key, k);
    case IndexUnstamp(txn, index, row, k) => key := PushKey(21, txn, index, Some(row)); r := Record(key, k);
    case IndexImageEntry(txn, index, row, k) => key := PushKey(26, txn, index, Some(row)); r := Record(key, k);
  }

  method EncodeKeyOnly(op: LoggedOp) returns (r: Record)
    requires KeyOnly(op)
    ensures r == ToRecord(op)
  {
    hide KeyOf;
    var key;
    match op {
      case DropTable(txn, table) => key := PushKey(4, txn, table, None);
      case DropIndex(txn, index) => key := PushKey(6, txn, index, None);
      case ClearStats(txn, table) => key := PushKey(14, txn, table, None);
      case SeqDrop(txn, id) => key := PushKey(16, txn, id, None);
      case PrepareBegin(txn) => key := PushKey(28, txn, 0, None);
    }
    r := Record(key, []);
  }

  method EncodeDefines(op: LoggedOp) returns (r: Record)
    requires Defines(op)
    ensures r == ToRecord(op)
  {
    hide KeyOf, PushTable, PushStats, PushIndex;
    var key, v;
    match op {
      case CreateTable(txn, table, def) =>
        key := PushKey(3, txn, table, None);
        v := AppendTable([], def, []);
      case CreateIndex(txn, index, def) =>
        key := PushKey(5, txn, index, None);
        v := AppendIndex([], def);
      case SetStats(txn, table, stats) =>
        key := PushKey(13, txn, table, None);
        v := AppendStats([], stats, []);
      case AlterSchema(txn, table, version, def) =>
        key := PushKey(18, txn, table, None);
        v := AppendInt([], version, 4, PushTable(def, []));
        v := AppendTable(v, def, []);
    }
    assert v + [] == v;
    r := Record(key, v);
  }

  method EncodeConstrains(op: LoggedOp) returns (r: Record)
    requires Constrains(op)
    ensures r == ToRecord(op)
  {
    hide KeyOf, PushStr, PushBytes, PushU64, PushList;
    var key, v;
    match op {
      case AddUnique(txn, table, index, name, columns, primary, nulls) =>
        key := PushKey(9, txn, table, None);
        ghost var last := PushBool(nulls, []);
        ghost var texts := PushList(PushStr, columns, last);
        v := AppendU64([], index, PushBool(primary, PushStr(name, texts)));
        v := AppendFlag(v, primary, PushStr(name, texts));
        StrIsBytes(name, texts);
        v := AppendBytes(v, name, texts);
        v := AppendStrs(v, columns, last);
        v := AppendFlag(v, nulls, []);
      case AddCheck(txn, table, name, expr) =>
        key := PushKey(10, txn, table, None);
        StrIsBytes(name, PushBytes(expr, []));
        v := AppendBytes([], name, PushBytes(expr, []));
        v := AppendBytes(v, expr, []);
      case AddFk(txn, name, table, columns, parentTable, parentIndex, childIndex, onDelete, onUpdate) =>
        key := PushKey(11, txn, table, None);
        v := EncodeFk(op);
    }
    assert v + [] == v;
    r := Record(key, v);
  }

  method EncodeNames(op: LoggedOp) returns (r: Record)
    requires Names(op)
    ensures r == ToRecord(op)
  {
    hide KeyOf, PushStr, PushBytes;
    var key, v;
    StrIsBytes(op.name, []);
    v := AppendBytes([], op.name, []);
    assert v + [] == v;
    match op {
      case DropConstraint(txn, table, name) => key := PushKey(12, txn, table, None);
      case SchemaCreate(txn, id, name) => key := PushKey(19, txn, id, None);
      case SchemaDrop(txn, id, name) => key := PushKey(20, txn, id, None);
    }
    r := Record(key, v);
  }

  /** The value of a foreign key: the three objects, what to do on delete and on update, the name and
      the columns. */
  method EncodeFk(op: LoggedOp) returns (v: seq<byte>)
    requires op.AddFk?
    ensures v == ToRecord(op).value
  {
    hide KeyOf, PushStr, PushBytes, PushU64, PushList;
    ghost var texts := PushList(PushStr, op.columns, []);
    ghost var name := PushStr(op.name, texts);
    ghost var actions := [FkTag(op.onDelete)] + ([FkTag(op.onUpdate)] + name);
    v := AppendU64([], op.parentTable, PushU64(op.parentIndex, PushU64(op.childIndex, actions)));
    v := AppendU64(v, op.parentIndex, PushU64(op.childIndex, actions));
    v := AppendU64(v, op.childIndex, actions);
    v := AppendByte(v, FkTag(op.onDelete), [FkTag(op.onUpdate)] + name);
    v := AppendByte(v, FkTag(op.onUpdate), name);
    StrIsBytes(op.name, texts);
    v := AppendBytes(v, op.name, texts);
    v := AppendStrs(v, op.columns, []);
    assert v + [] == v;
  }

  method EncodeSequences(op: LoggedOp) returns (r: Record)
    requires OfSequences(op)
    ensures r == ToRecord(op)
  {
    hide KeyOf, PushI64, PushSequence;
    var key, v;
    match op {
      case SeqCreate(id, def) =>
        key := PushKey(15, 0, id, None);
        v := AppendSequence([], def, []);
      case SeqSet(id, x) =>
        key := PushKey(17, 0, id, None);
        v := AppendSigned([], x, []);
      case SeqAlter(id, def, current) =>
        key := PushKey(23, 0, id, None);
        ghost var sequence := PushSequence(def, []);
        if current.Some? {
          v := AppendByte([], 1, PushI64(current.value, sequence));
          v := AppendSigned(v, current.value, sequence);
        } else {
          v := AppendByte([], 0, sequence);
        }
        v := AppendSequence(v, def, []);
    }
    assert v + [] == v;
    r := Record(key, v);
  }

  method EncodeRoots(op: LoggedOp) returns (r: Record)
    requires Roots(op)
    ensures r == ToRecord(op)
  {
    hide KeyOf, PushU64;
    var key, v;
    match op {
      case TableRoot(table, root, next) =>
        key := PushKey(24, 0, table, None);
        v := AppendU64([], root, PushU64(next, []));
        v := AppendU64(v, next, []);
      case IndexRoot(index, root, alive) =>
        key := PushKey(25, 0, index, None);
        v := AppendU64([], root, PushU64(alive, []));
        v := AppendU64(v, alive, []);
    }
    assert v + [] == v;
    r := Record(key, v);
  }

  method EncodeLists(op: LoggedOp) returns (r: Record)
    requires Lists(op)
    ensures r == ToRecord(op)
  {
    hide KeyOf, PushStr, PushU64, PushList, BatchValue;
    var key, v;
    match op {
      case InsertBatch(txn, table, first, tuples) =>
        r := InsertBatchRecord(txn, table, first, tuples);
        return;
      case FreeAtOpen(pages) =>
        key := PushKey(27, 0, 0, None);
        v := AppendPages(pages);
      case Prepare(txn, gid, owner, database, at, locks) =>
        key := PushKey(29, txn, 0, None);
        v := EncodePrepared(op);
    }
    r := Record(key, v);
  }

  method AppendPages(pages: seq<u64>) returns (v: seq<byte>)
    ensures v == PushAll(PushU64, pages, [])
  {
    hide PushU64;
    v := [];
    assert pages[0..] == pages;
    for i := 0 to |pages|
      invariant v + PushAll(PushU64, pages[i..], []) == PushAll(PushU64, pages, [])
    {
      assert pages[i..][0] == pages[i] && pages[i..][1..] == pages[i + 1..];
      v := AppendU64(v, pages[i], PushAll(PushU64, pages[i + 1..], []));
    }
    assert pages[|pages|..] == [];
    assert v + [] == v;
  }

  method EncodePrepared(op: LoggedOp) returns (v: seq<byte>)
    requires op.Prepare?
    ensures v == ToRecord(op).value
  {
    hide KeyOf, PushStr, PushBytes, PushU64, PushList;
    ghost var locks := PushList(PushLock, op.locks, []);
    ghost var at := PushU64(op.preparedAtMs, locks);
    ghost var database := PushStr(op.database, at);
    ghost var owner := PushStr(op.owner, database);
    StrIsBytes(op.gid, owner);
    StrIsBytes(op.owner, database);
    StrIsBytes(op.database, at);
    v := AppendBytes([], op.gid, owner);
    v := AppendBytes(v, op.owner, database);
    v := AppendBytes(v, op.database, at);
    v := AppendU64(v, op.preparedAtMs, locks);
    v := AppendLocks(v, op.locks, []);
    assert v + [] == v;
  }

  /** The log writer's encoder: the record of any operation. */
  method Encode(op: LoggedOp) returns (r: Record)
    ensures r == ToRecord(op)
  {
    hide ToRecord;
    if OfRows(op) { r := EncodeRows(op); }
    else if KeyOnly(op) { r := EncodeKeyOnly(op); }
    else if Defines(op) { r := EncodeDefines(op); }
    else if Constrains(op) { r := EncodeConstrains(op); }
    else if Names(op) { r := EncodeNames(op); }
    else if OfSequences(op) { r := EncodeSequences(op); }
    else if Roots(op) { r := EncodeRoots(op); }
    else { r := EncodeLists(op); }
  }
}
