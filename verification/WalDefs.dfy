/** The catalog definitions, statistics and locks that log records carry. */
module WalDefs {
  import opened Bytes
  import opened WalBytes

  // Column types ---------------------------------------------------------------------------------

  datatype ArrayElem =
    | ElemBool | ElemInt | ElemFloat | ElemNumeric | ElemText | ElemDate | ElemTime | ElemTimestamp | ElemTimestampTz | ElemUuid

  datatype RangeKind = RangeInt | RangeNum | RangeDate | RangeTs | RangeTsTz

  datatype GeomKind = Point | Box | Circle | Lseg | Line | Path | Polygon

  datatype ColumnType =
    | BoolType | IntType | SmallInt | BigInt | FloatType | RealType | TextType | VarChar(n: u32) | CharType(n: u32) | BytesType
    | Timestamp | Date | Time | TimestampTz | TimeTz | Uuid | Numeric(precision: byte, scale: byte) | Json | Jsonb | Interval
    | Array(elem: ArrayElem) | Vector(n: u32) | Macaddr | Inet | Cidr | Bit(n: u32) | VarBit(max: Option<u32>)
    | Range(range: RangeKind) | Macaddr8 | Geometry(geom: GeomKind) | Tsvector | Tsquery | Xml | Enum

  function ElemTag(e: ArrayElem): byte {
    match e
    case ElemBool => 0 case ElemInt => 1 case ElemFloat => 2 case ElemNumeric => 3 case ElemText => 4
    case ElemDate => 5 case ElemTime => 6 case ElemTimestamp => 7 case ElemTimestampTz => 8 case ElemUuid => 9
  }

  function ElemOf(tag: byte): Option<ArrayElem> {
    match tag
    case 0 => Some(ElemBool) case 1 => Some(ElemInt) case 2 => Some(ElemFloat) case 3 => Some(ElemNumeric)
    case 4 => Some(ElemText) case 5 => Some(ElemDate) case 6 => Some(ElemTime) case 7 => Some(ElemTimestamp)
    case 8 => Some(ElemTimestampTz) case 9 => Some(ElemUuid) case _ => None
  }

  function RangeTag(k: RangeKind): byte {
    match k
    case RangeInt => 0 case RangeNum => 1 case RangeDate => 2 case RangeTs => 3 case RangeTsTz => 4
  }

  function RangeOf(tag: byte): Option<RangeKind> {
    match tag
    case 0 => Some(RangeInt) case 1 => Some(RangeNum) case 2 => Some(RangeDate) case 3 => Some(RangeTs)
    case 4 => Some(RangeTsTz) case _ => None
  }

  function GeomTag(k: GeomKind): byte {
    match k
    case Point => 0 case Box => 1 case Circle => 2 case Lseg => 3 case Line => 4 case Path => 5 case Polygon => 6
  }

  function GeomOf(tag: byte): Option<GeomKind> {
    match tag
    case 0 => Some(Point) case 1 => Some(Box) case 2 => Some(Circle) case 3 => Some(Lseg) case 4 => Some(Line)
    case 5 => Some(Path) case 6 => Some(Polygon) case _ => None
  }

  function PushType(t: ColumnType, rest: seq<byte>): seq<byte> {
    match t
    case BoolType => [0] + rest
    case IntType => [1] + rest
    case SmallInt => [2] + rest
    case BigInt => [3] + rest
    case FloatType => [4] + rest
    case RealType => [5] + rest
    case TextType => [6] + rest
    case VarChar(n) => [7] + PushU32(n, rest)
    case CharType(n) => [8] + PushU32(n, rest)
    case BytesType => [9] + rest
    case Timestamp => [10] + rest
    case Date => [11] + rest
    case Time => [12] + rest
    case TimestampTz => [13] + rest
    case TimeTz => [14] + rest
    case Uuid => [15] + rest
    case Numeric(p, s) => [16] + ([p] + ([s] + rest))
    case Json => [17] + rest
    case Jsonb => [18] + rest
    case Interval => [19] + rest
    case Array(e) => [20] + ([ElemTag(e)] + rest)
    case Vector(n) => [21] + PushU32(n, rest)
    case Macaddr => [22] + rest
    case Inet => [23] + rest
    case Cidr => [24] + rest
    case Bit(n) => [25] + PushU32(n, rest)
    case VarBit(m) => [26] + PushOption(PushU32, m, rest)
    case Range(k) => [27] + ([RangeTag(k)] + rest)
    case Macaddr8 => [28] + rest
    case Geometry(k) => [29] + ([GeomTag(k)] + rest)
    case Tsvector => [30] + rest
    case Tsquery => [31] + rest
    case Xml => [32] + rest
    case Enum => [33] + rest
  }

  /** The bound of a bit string: any presence byte but 1 means none. */
  function ReadBound(b: seq<byte>): Parse<Option<u32>> {
    var (present, b) :- ReadByte(b);
    if present == 1 then
      var (n, b) :- ReadU32(b);
      Ok(Some(n), b)
    else Ok(None, b)
  }

  function ReadTag<T>(of: byte -> Option<T>, b: seq<byte>): Parse<T> {
    var (tag, b) :- ReadByte(b);
    match of(tag)
    case None => Fail
    case Some(x) => Ok(x, b)
  }

  function ReadType(b: seq<byte>): Parse<ColumnType> {
    var (tag, b) :- ReadByte(b);
    match tag
    case 0 => Ok(BoolType, b)
    case 1 => Ok(IntType, b)
    case 2 => Ok(SmallInt, b)
    case 3 => Ok(BigInt, b)
    case 4 => Ok(FloatType, b)
    case 5 => Ok(RealType, b)
    case 6 => Ok(TextType, b)
    case 7 => (var (n, b) :- ReadU32(b); Ok(VarChar(n), b))
    case 8 => (var (n, b) :- ReadU32(b); Ok(CharType(n), b))
    case 9 => Ok(BytesType, b)
    case 10 => Ok(Timestamp, b)
    case 11 => Ok(Date, b)
    case 12 => Ok(Time, b)
    case 13 => Ok(TimestampTz, b)
    case 14 => Ok(TimeTz, b)
    case 15 => Ok(Uuid, b)
    case 16 => (var (p, b) :- ReadByte(b); var (s, b) :- ReadByte(b); Ok(Numeric(p, s), b))
    case 17 => Ok(Json, b)
    case 18 => Ok(Jsonb, b)
    case 19 => Ok(Interval, b)
    case 20 => (var (e, b) :- ReadTag(ElemOf, b); Ok(Array(e), b))
    case 21 => (var (n, b) :- ReadU32(b); Ok(Vector(n), b))
    case 22 => Ok(Macaddr, b)
    case 23 => Ok(Inet, b)
    case 24 => Ok(Cidr, b)
    case 25 => (var (n, b) :- ReadU32(b); Ok(Bit(n), b))
    case 26 => (var (m, b) :- ReadBound(b); Ok(VarBit(m), b))
    case 27 => (var (k, b) :- ReadTag(RangeOf, b); Ok(Range(k), b))
    case 28 => Ok(Macaddr8, b)
    case 29 => (var (k, b) :- ReadTag(GeomOf, b); Ok(Geometry(k), b))
    case 30 => Ok(Tsvector, b)
    case 31 => Ok(Tsquery, b)
    case 32 => Ok(Xml, b)
    case 33 => Ok(Enum, b)
    case _ => Fail
  }

  /** Types by the tag they are written with. */
  predicate TagIn(t: ColumnType, lo: nat, hi: nat) { PushType(t, []) != [] && lo <= PushType(t, [])[0] < hi }

  lemma EarlyTypeRound(t: ColumnType, rest: seq<byte>)
    requires TagIn(t, 0, 16)
    ensures ReadType(PushType(t, rest)) == Ok(t, rest)
  {
    hide PushU32, ReadU32;
    match t
    case VarChar(n) => U32Round(n, rest);
    case CharType(n) => U32Round(n, rest);
    case _ =>
  }

  lemma MiddleTypeRound(t: ColumnType, rest: seq<byte>)
    requires TagIn(t, 16, 22)
    ensures ReadType(PushType(t, rest)) == Ok(t, rest)
  {
    hide PushU32, ReadU32;
    match t
    case Vector(n) => U32Round(n, rest);
    case _ =>
  }

  lemma LaterTypeRound(t: ColumnType, rest: seq<byte>)
    requires TagIn(t, 22, 28)
    ensures ReadType(PushType(t, rest)) == Ok(t, rest)
  {
    hide PushU32, ReadU32;
    match t
    case Bit(n) => U32Round(n, rest);
    case VarBit(Some(n)) => U32Round(n, rest);
    case _ =>
  }

  lemma LateTypeRound(t: ColumnType, rest: seq<byte>)
    requires TagIn(t, 28, 34)
    ensures ReadType(PushType(t, rest)) == Ok(t, rest)
  {
    hide PushU32, ReadU32;
  }

  lemma Tagged(t: ColumnType)
    ensures TagIn(t, 0, 34)
  {
  }

  lemma TypeRound(t: ColumnType, rest: seq<byte>)
    ensures ReadType(PushType(t, rest)) == Ok(t, rest)
  {
    hide PushType, ReadType;
    Tagged(t);
    if TagIn(t, 0, 16) { EarlyTypeRound(t, rest); }
    else if TagIn(t, 16, 22) { MiddleTypeRound(t, rest); }
    else if TagIn(t, 22, 28) { LaterTypeRound(t, rest); }
    else { LateTypeRound(t, rest); }
  }

  // Tables ---------------------------------------------------------------------------------------

  datatype ColumnDef = ColumnDef(name: Text, ty: ColumnType, nullable: bool)

  datatype TableDef = TableDef(schema: Text, name: Text, columns: seq<ColumnDef>)

  predicate TableFits(d: TableDef) {
    && |d.schema| <= U32_MAX && |d.name| <= U32_MAX && |d.columns| <= U32_MAX
    && forall i {:trigger d.columns[i]} :: 0 <= i < |d.columns| ==> |d.columns[i].name| <= U32_MAX
  }

  function PushColumn(c: ColumnDef, rest: seq<byte>): seq<byte> {
    PushStr(c.name, PushBool(c.nullable, PushType(c.ty, rest)))
  }

  function ReadColumn(b: seq<byte>): Parse<ColumnDef> {
    var (name, b) :- ReadStr(b);
    var (nullable, b) :- ReadSet(b);
    var (ty, b) :- ReadType(b);
    Ok(ColumnDef(name, ty, nullable), b)
  }

  lemma ColumnRound(c: ColumnDef, rest: seq<byte>)
    requires |c.name| <= U32_MAX
    ensures ReadColumn(PushColumn(c, rest)) == Ok(c, rest)
  {
    hide PushStr, ReadStr, PushBool, ReadSet, PushType, ReadType;
    StrRound(c.name, PushBool(c.nullable, PushType(c.ty, rest)));
    BoolRound(c.nullable, PushType(c.ty, rest));
    TypeRound(c.ty, rest);
  }

  function PushTable(d: TableDef, rest: seq<byte>): seq<byte> {
    PushStr(d.schema, PushStr(d.name, PushList(PushColumn, d.columns, rest)))
  }

  function ReadTable(b: seq<byte>): Parse<TableDef> {
    var (schema, b) :- ReadStr(b);
    var (name, b) :- ReadStr(b);
    var (columns, b) :- ReadList(ReadColumn, b);
    Ok(TableDef(schema, name, columns), b)
  }

  lemma TableRound(d: TableDef, rest: seq<byte>)
    requires TableFits(d)
    ensures ReadTable(PushTable(d, rest)) == Ok(d, rest)
  {
    hide PushStr, ReadStr, PushList, ReadList, PushColumn, ReadColumn;
    forall i | 0 <= i < |d.columns| ensures Reads(PushColumn, ReadColumn, d.columns[i]) {
      forall r ensures ReadColumn(PushColumn(d.columns[i], r)) == Ok(d.columns[i], r) { ColumnRound(d.columns[i], r); }
    }
    ListRound(PushColumn, ReadColumn, d.columns, rest);
    StrRound(d.name, PushList(PushColumn, d.columns, rest));
    StrRound(d.schema, PushStr(d.name, PushList(PushColumn, d.columns, rest)));
  }

  // Indexes --------------------------------------------------------------------------------------

  datatype IndexKind = BTree | Hash | Brin

  datatype IndexDef = IndexDef(
    name: Text,
    table: u64,
    columns: seq<Text>,
    include_: seq<Text>,
    kind: IndexKind,
    unique: bool,
    keyExprs: seq<Text>,
    predicate_: Option<Text>)

  predicate IndexFits(d: IndexDef) {
    && |d.name| <= U32_MAX && ShortTexts(d.columns) && ShortTexts(d.include_) && ShortTexts(d.keyExprs)
    && (d.predicate_.Some? ==> |d.predicate_.value| <= U32_MAX)
  }

  function KindTag(k: IndexKind): byte { match k case BTree => 0 case Hash => 1 case Brin => 2 }

  function KindOf(tag: byte): Option<IndexKind> {
    match tag case 0 => Some(BTree) case 1 => Some(Hash) case 2 => Some(Brin) case _ => None
  }

  /** The fields every index record has. */
  function PushIndexBase(d: IndexDef, rest: seq<byte>): seq<byte> {
    PushStr(d.name, PushU64(d.table, PushList(PushStr, d.columns, PushList(PushStr, d.include_,
      [KindTag(d.kind)] + PushBool(d.unique, rest)))))
  }

  /** The fields added to it later. */
  function PushIndexMore(d: IndexDef, rest: seq<byte>): seq<byte> {
    PushList(PushStr, d.keyExprs, PushOption(PushStr, d.predicate_, rest))
  }

  function PushIndex(d: IndexDef): seq<byte> { PushIndexBase(d, PushIndexMore(d, [])) }

  function ReadIndexBase(b: seq<byte>): Parse<IndexDef> {
    var (name, b) :- ReadStr(b);
    var (table, b) :- ReadU64(b);
    var (columns, b) :- ReadList(ReadStr, b);
    var (more, b) :- ReadList(ReadStr, b);
    var (kind, b) :- ReadTag(KindOf, b);
    var (unique, b) :- ReadBool(b);
    Ok(IndexDef(name, table, columns, more, kind, unique, [], None), b)
  }

  /** A record that ends after the first fields has none of the later ones. */
  function ReadIndex(b: seq<byte>): Option<IndexDef> {
    match ReadIndexBase(b)
    case Fail => None
    case Ok(d, b) =>
      if b == [] then Some(d)
      else
        match ReadList(ReadStr, b)
        case Fail => None
        case Ok(exprs, b) =>
          match ReadOption(ReadStr, b)
          case Fail => None
          case Ok(pred, _) => Some(d.(keyExprs := exprs, predicate_ := pred))
  }

  lemma IndexBaseRound(d: IndexDef, rest: seq<byte>)
    requires IndexFits(d)
    ensures ReadIndexBase(PushIndexBase(d, rest)) == Ok(d.(keyExprs := [], predicate_ := None), rest)
  {
    hide PushStr, ReadStr, PushList, ReadList, PushU64, ReadU64, PushBool, ReadBool;
    var e := [KindTag(d.kind)] + PushBool(d.unique, rest);
    BoolRound(d.unique, rest);
    assert e[1..] == PushBool(d.unique, rest);
    TextsRound(d.include_, e);
    TextsRound(d.columns, PushList(PushStr, d.include_, e));
    U64Round(d.table, PushList(PushStr, d.columns, PushList(PushStr, d.include_, e)));
    StrRound(d.name, PushU64(d.table, PushList(PushStr, d.columns, PushList(PushStr, d.include_, e))));
  }

  lemma IndexMoreRound(d: IndexDef)
    requires IndexFits(d)
    ensures PushIndexMore(d, []) != []
    ensures ReadList(ReadStr, PushIndexMore(d, [])) == Ok(d.keyExprs, PushOption(PushStr, d.predicate_, []))
    ensures ReadOption(ReadStr, PushOption(PushStr, d.predicate_, [])) == Ok(d.predicate_, [])
  {
    hide PushStr, ReadStr;
    TextsRound(d.keyExprs, PushOption(PushStr, d.predicate_, []));
    if d.predicate_.Some? { StrRound(d.predicate_.value, []); }
    OptionRound(PushStr, ReadStr, d.predicate_, []);
  }

  /** An index definition is read back as it was written, and so is one written before the later
      fields were added, with none of them. */
  lemma IndexRound(d: IndexDef)
    requires IndexFits(d)
    ensures ReadIndex(PushIndex(d)) == Some(d)
    ensures ReadIndex(PushIndexBase(d, [])) == Some(d.(keyExprs := [], predicate_ := None))
  {
    hide PushIndexBase, ReadIndexBase, PushIndexMore, ReadList, ReadOption;
    IndexBaseRound(d, PushIndexMore(d, []));
    IndexBaseRound(d, []);
    IndexMoreRound(d);
  }

  // Statistics -----------------------------------------------------------------------------------

  datatype Common = Common(value: seq<byte>, frequency: u64)

  datatype ColumnStats = ColumnStats(
    column: Text,
    nulls: u64,
    distinct: u64,
    min: Option<seq<byte>>,
    max: Option<seq<byte>>,
    mostCommon: seq<Common>,
    histogram: seq<seq<byte>>)

  datatype TableStats = TableStats(rows: u64, pages: u64, columns: seq<ColumnStats>)

  predicate ShortOption(x: Option<seq<byte>>) { x.Some? ==> |x.value| <= U32_MAX }

  predicate ColumnStatsFit(c: ColumnStats) {
    && |c.column| <= U32_MAX && ShortOption(c.min) && ShortOption(c.max)
    && |c.mostCommon| <= U32_MAX && |c.histogram| <= U32_MAX
    && (forall i {:trigger c.mostCommon[i]} :: 0 <= i < |c.mostCommon| ==> |c.mostCommon[i].value| <= U32_MAX)
    && (forall i {:trigger c.histogram[i]} :: 0 <= i < |c.histogram| ==> |c.histogram[i]| <= U32_MAX)
  }

  predicate StatsFit(s: TableStats) {
    |s.columns| <= U32_MAX && forall i {:trigger s.columns[i]} :: 0 <= i < |s.columns| ==> ColumnStatsFit(s.columns[i])
  }

  function PushCommon(c: Common, rest: seq<byte>): seq<byte> { PushBytes(c.value, PushU64(c.frequency, rest)) }

  function ReadCommon(b: seq<byte>): Parse<Common> {
    var (v, b) :- ReadBytes(b);
    var (f, b) :- ReadU64(b);
    Ok(Common(v, f), b)
  }

  function PushColumnStats(c: ColumnStats, rest: seq<byte>): seq<byte> {
    PushStr(c.column, PushU64(c.nulls, PushU64(c.distinct, PushOption(PushBytes, c.min, PushOption(PushBytes, c.max,
      PushList(PushCommon, c.mostCommon, PushList(PushBytes, c.histogram, rest)))))))
  }

  function ReadColumnStats(b: seq<byte>): Parse<ColumnStats> {
    var (column, b) :- ReadStr(b);
    var (nulls, b) :- ReadU64(b);
    var (distinct, b) :- ReadU64(b);
    var (min, b) :- ReadOption(ReadBytes, b);
    var (max, b) :- ReadOption(ReadBytes, b);
    var (mostCommon, b) :- ReadList(ReadCommon, b);
    var (histogram, b) :- ReadList(ReadBytes, b);
    Ok(ColumnStats(column, nulls, distinct, min, max, mostCommon, histogram), b)
  }

  lemma CommonsRound(xs: seq<Common>, rest: seq<byte>)
    requires |xs| <= U32_MAX && forall i {:trigger xs[i]} :: 0 <= i < |xs| ==> |xs[i].value| <= U32_MAX
    ensures ReadList(ReadCommon, PushList(PushCommon, xs, rest)) == Ok(xs, rest)
  {
    hide PushBytes, ReadBytes, PushU64, ReadU64, PushList, ReadList;
    forall i | 0 <= i < |xs| ensures Reads(PushCommon, ReadCommon, xs[i]) {
      forall r ensures ReadCommon(PushCommon(xs[i], r)) == Ok(xs[i], r) {
        BytesRound(xs[i].value, PushU64(xs[i].frequency, r));
        U64Round(xs[i].frequency, r);
      }
    }
    ListRound(PushCommon, ReadCommon, xs, rest);
  }

  lemma BytesListRound(xs: seq<seq<byte>>, rest: seq<byte>)
    requires |xs| <= U32_MAX && forall i {:trigger xs[i]} :: 0 <= i < |xs| ==> |xs[i]| <= U32_MAX
    ensures ReadList(ReadBytes, PushList(PushBytes, xs, rest)) == Ok(xs, rest)
  {
    hide PushBytes, ReadBytes, PushList, ReadList;
    forall i | 0 <= i < |xs| ensures Reads(PushBytes, ReadBytes, xs[i]) {
      forall r ensures ReadBytes(PushBytes(xs[i], r)) == Ok(xs[i], r) { BytesRound(xs[i], r); }
    }
    ListRound(PushBytes, ReadBytes, xs, rest);
  }

  lemma BoundRound(x: Option<seq<byte>>, rest: seq<byte>)
    requires ShortOption(x)
    ensures ReadOption(ReadBytes, PushOption(PushBytes, x, rest)) == Ok(x, rest)
  {
    hide PushBytes, ReadBytes;
    if x.Some? { BytesRound(x.value, rest); }
    OptionRound(PushBytes, ReadBytes, x, rest);
  }

  lemma ColumnStatsRound(c: ColumnStats, rest: seq<byte>)
    requires ColumnStatsFit(c)
    ensures ReadColumnStats(PushColumnStats(c, rest)) == Ok(c, rest)
  {
    hide PushStr, ReadStr, PushU64, ReadU64, PushOption, ReadOption, PushList, ReadList;
    var e6 := PushList(PushBytes, c.histogram, rest);
    var e5 := PushList(PushCommon, c.mostCommon, e6);
    var e4 := PushOption(PushBytes, c.max, e5);
    var e3 := PushOption(PushBytes, c.min, e4);
    var e2 := PushU64(c.distinct, e3);
    var e1 := PushU64(c.nulls, e2);
    BytesListRound(c.histogram, rest);
    CommonsRound(c.mostCommon, e6);
    BoundRound(c.max, e5);
    BoundRound(c.min, e4);
    U64Round(c.distinct, e3);
    U64Round(c.nulls, e2);
    StrRound(c.column, e1);
  }

  function PushStats(s: TableStats, rest: seq<byte>): seq<byte> {
    PushU64(s.rows, PushU64(s.pages, PushList(PushColumnStats, s.columns, rest)))
  }

  function ReadStats(b: seq<byte>): Parse<TableStats> {
    var (rows, b) :- ReadU64(b);
    var (pages, b) :- ReadU64(b);
    var (columns, b) :- ReadList(ReadColumnStats, b);
    Ok(TableStats(rows, pages, columns), b)
  }

  lemma StatsRound(s: TableStats, rest: seq<byte>)
    requires StatsFit(s)
    ensures ReadStats(PushStats(s, rest)) == Ok(s, rest)
  {
    hide PushU64, ReadU64, PushList, ReadList, PushColumnStats, ReadColumnStats, ColumnStatsFit;
    forall i | 0 <= i < |s.columns| ensures Reads(PushColumnStats, ReadColumnStats, s.columns[i]) {
      assert ColumnStatsFit(s.columns[i]);
      forall r ensures ReadColumnStats(PushColumnStats(s.columns[i], r)) == Ok(s.columns[i], r) { ColumnStatsRound(s.columns[i], r); }
    }
    ListRound(PushColumnStats, ReadColumnStats, s.columns, rest);
    U64Round(s.pages, PushList(PushColumnStats, s.columns, rest));
    U64Round(s.rows, PushU64(s.pages, PushList(PushColumnStats, s.columns, rest)));
  }

  // Sequences ------------------------------------------------------------------------------------

  datatype SequenceDef = SequenceDef(name: Text, start: i64, increment: i64, least: i64, most: i64, cycle: bool)

  function PushSequence(d: SequenceDef, rest: seq<byte>): seq<byte> {
    PushStr(d.name, PushI64(d.start, PushI64(d.increment, PushI64(d.least, PushI64(d.most, PushBool(d.cycle, rest))))))
  }

  function ReadSequence(b: seq<byte>): Parse<SequenceDef> {
    var (name, b) :- ReadStr(b);
    var (start, b) :- ReadI64(b);
    var (increment, b) :- ReadI64(b);
    var (least, b) :- ReadI64(b);
    var (most, b) :- ReadI64(b);
    var (cycle, b) :- ReadBool(b);
    Ok(SequenceDef(name, start, increment, least, most, cycle), b)
  }

  lemma SequenceRound(d: SequenceDef, rest: seq<byte>)
    requires |d.name| <= U32_MAX
    ensures ReadSequence(PushSequence(d, rest)) == Ok(d, rest)
  {
    hide PushStr, ReadStr, PushI64, ReadI64, PushBool, ReadBool;
    var e4 := PushBool(d.cycle, rest);
    var e3 := PushI64(d.most, e4);
    var e2 := PushI64(d.least, e3);
    var e1 := PushI64(d.increment, e2);
    BoolRound(d.cycle, rest);
    I64Round(d.most, e4);
    I64Round(d.least, e3);
    I64Round(d.increment, e2);
    I64Round(d.start, e1);
    StrRound(d.name, PushI64(d.start, e1));
  }

  // Locks ----------------------------------------------------------------------------------------

  datatype PreparedLock =
    | RowLock(table: u64, page: u64, slot: u16, exclusive: bool)
    | KeyLock(table: u64, hash: u64, exclusive: bool)
    | TableLock(table: u64, exclusive: bool)

  function PushLock(k: PreparedLock, rest: seq<byte>): seq<byte> {
    match k
    case RowLock(table, page, slot, exclusive) => [0] + PushBool(exclusive, PushU64(table, PushU64(page, PushU16(slot, rest))))
    case KeyLock(table, hash, exclusive) => [1] + PushBool(exclusive, PushU64(table, PushU64(hash, rest)))
    case TableLock(table, exclusive) => [2] + PushBool(exclusive, PushU64(table, rest))
  }

  function ReadLock(b: seq<byte>): Parse<PreparedLock> {
    var (kind, b) :- ReadByte(b);
    var (exclusive, b) :- ReadBool(b);
    var (table, b) :- ReadU64(b);
    match kind
    case 0 =>
      (var (page, b) :- ReadU64(b);
       var (slot, b) :- ReadU16(b);
       Ok(RowLock(table, page, slot, exclusive), b))
    case 1 =>
      (var (hash, b) :- ReadU64(b);
       Ok(KeyLock(table, hash, exclusive), b))
    case 2 => Ok(TableLock(table, exclusive), b)
    case _ => Fail
  }

  lemma LockRound(k: PreparedLock, rest: seq<byte>)
    ensures ReadLock(PushLock(k, rest)) == Ok(k, rest)
  {
    hide PushBool, ReadBool, PushU64, ReadU64, PushU16, ReadU16;
    match k {
      case RowLock(table, page, slot, exclusive) =>
        U16Round(slot, rest);
        U64Round(page, PushU16(slot, rest));
        U64Round(table, PushU64(page, PushU16(slot, rest)));
        BoolRound(exclusive, PushU64(table, PushU64(page, PushU16(slot, rest))));
      case KeyLock(table, hash, exclusive) =>
        U64Round(hash, rest);
        U64Round(table, PushU64(hash, rest));
        BoolRound(exclusive, PushU64(table, PushU64(hash, rest)));
      case TableLock(table, exclusive) =>
        U64Round(table, rest);
        BoolRound(exclusive, PushU64(table, rest));
    }
  }

  lemma LocksRound(xs: seq<PreparedLock>, rest: seq<byte>)
    requires |xs| <= U32_MAX
    ensures ReadList(ReadLock, PushList(PushLock, xs, rest)) == Ok(xs, rest)
  {
    hide PushLock, ReadLock, PushList, ReadList;
    forall i | 0 <= i < |xs| ensures Reads(PushLock, ReadLock, xs[i]) {
      forall r ensures ReadLock(PushLock(xs[i], r)) == Ok(xs[i], r) { LockRound(xs[i], r); }
    }
    ListRound(PushLock, ReadLock, xs, rest);
  }
}
