/** What every step of the versioned row store keeps. */
module MvccInvariant {
  import opened Bytes
  import opened Distinctness
  import opened VersionChain
  import opened SnapshotSpec

  /** The inverse of one applied write. */
  datatype UndoOp =
    | Inserted(row: nat)
    | Updated(row: nat, was: Version, slot: nat)
    | Deleted(row: nat, was: Version)

  /** An arena slot that an undone update cut off from its chain. */
  datatype Orphan = Orphan(slot: nat, txn: nat)

  /** A streaming scan: it reads rows below `end` under `view`. */
  datatype Scan = Scan(txn: nat, view: ReadView, end: nat)

  /** What a purge pass judges by: the views pinned, the transactions active and the next id, all
      at the moment it was taken. */
  datatype Pass = Pass(pinned: set<ReadView>, active: set<nat>, horizon: nat)

  /** An update between parking the old version and installing the new one. */
  datatype Parking = Parking(txn: nat, row: nat, slot: nat)

  /** Who holds an arena slot: the chain of a row (at a distance from its oldest version), the
      queue of orphans, or an update under way. */
  datatype Use = Chain(row: nat, depth: nat) | Queued | Held

  /** The store at one moment. The ghost fields are bookkeeping of the proof: each row's whole
      history newest first, the number of each transaction's commit, the one transaction with
      uncommitted writes on a row, the holder of each slot, the
      commit whose table each scan reads, and the reference machine. */
  datatype State = State(
    rows: map<nat, Version>, arena: Arena, free: seq<nat>, orphans: seq<Orphan>,
    nextTxn: nat, nextRow: nat, nextScan: nat,
    active: set<nat>, undo: map<nat, seq<UndoOp>>, pinned: map<nat, ReadView>,
    scans: map<nat, Scan>, passes: seq<Pass>, parking: Option<Parking>,
    ghost hist: map<nat, seq<Version>>, ghost order: map<nat, nat>, ghost owner: map<nat, nat>,
    ghost use: map<nat, Use>, ghost scanAt: map<nat, nat>, ghost spec: Spec)

  // Histories ------------------------------------------------------------------------------------

  /** A history is stored: each version leads to the next through a slot the row holds. */
  ghost predicate Linked(arena: Arena, use: map<nat, Use>, row: nat, h: seq<Version>)
    decreases |h|
  {
    && h != []
    && var slot := h[0].meta.undo;
    if |h| == 1 then slot == NO_UNDO
    else
      && slot < |arena| && slot != NO_UNDO
      && arena[slot] == Some(h[1])
      && slot in use && use[slot] == Chain(row, |h| - 2)
      && Linked(arena, use, row, h[1..])
  }

  function RowOps(ops: seq<UndoOp>, row: nat): seq<UndoOp> {
    if ops == [] then []
    else
      var last := ops[|ops| - 1];
      RowOps(ops[..|ops| - 1], row) + if last.row == row then [last] else []
  }

  function Live(v: Version): Version { v.(meta := v.meta.(xmax := NO_XMAX)) }

  /** The history is what transaction `t` made of an older one with the writes `vals`, and `ops`
      take it back, last first. */
  ghost predicate Stacked(h: seq<Version>, t: nat, ops: seq<UndoOp>, vals: seq<Option<Tuple>>)
    decreases |ops|
  {
    && |ops| == |vals|
    && (ops != [] ==>
          var n := |ops| - 1;
          match ops[n]
          case Inserted(_) =>
            n == 0 && |h| == 1 && h[0].meta.xmin == t && h[0].meta.xmax == NO_XMAX && vals[n] == Some(h[0].tuple)
          case Updated(_, was, slot) =>
            && |h| >= 2 && h[0].meta.xmin == t && h[0].meta.xmax == NO_XMAX && vals[n] == Some(h[0].tuple)
            && h[0].meta.undo == slot && h[1] == was && was.meta.xmax == NO_XMAX
            && Stacked(h[1..], t, ops[..n], vals[..n])
          case Deleted(_, was) =>
            && h != [] && h[0].meta.xmax == t && vals[n] == None && was.meta.xmax == NO_XMAX
            && Stacked([Live(h[0])] + h[1..], t, ops[..n], vals[..n]))
  }

  /** The history before those writes. */
  ghost function Bottom(h: seq<Version>, ops: seq<UndoOp>): seq<Version>
    decreases |ops|
  {
    if ops == [] || h == [] then h
    else
      var n := |ops| - 1;
      match ops[n]
      case Inserted(_) => []
      case Updated(_, _, _) => Bottom(h[1..], ops[..n])
      case Deleted(_, _) => Bottom([Live(h[0])] + h[1..], ops[..n])
  }

  ghost function LastStamp(v: Version): nat {
    if v.meta.xmax != NO_XMAX then v.meta.xmax else v.meta.xmin
  }

  /** Every stamp is that of a committed transaction, and only the newest version is deleted. */
  ghost predicate Stamped(h: seq<Version>, order: map<nat, nat>) {
    && (forall i {:trigger h[i]} :: 0 <= i < |h| ==> h[i].meta.xmin in order)
    && (forall i {:trigger h[i]} :: 0 < i < |h| ==> h[i].meta.xmax == NO_XMAX)
    && (h != [] && h[0].meta.xmax != NO_XMAX ==>
          h[0].meta.xmax in order && order[h[0].meta.xmin] <= order[h[0].meta.xmax])
  }

  /** The transactions of the first `at` commits. */
  ghost function By(order: map<nat, nat>, at: nat): iset<nat> {
    iset x: nat | x in order && order[x] <= at
  }

  /** A moment whose committed table somebody reads, or the latest one. */
  ghost predicate LiveTime(s: State, at: nat) {
    && at < |s.spec.history|
    && (|| at == |s.spec.history| - 1
        || (exists t {:trigger s.spec.at[t]} :: t in s.spec.at && s.spec.at[t] == at)
        || (exists k {:trigger s.scanAt[k]} :: k in s.scanAt && s.scanAt[k] == at))
  }

  /** The committed history of a row gives the row of every committed table still read. */
  ghost predicate Base(s: State, row: nat, b: seq<Version>) {
    && Stamped(b, s.order)
    && (forall at: nat {:trigger LiveTime(s, at)} :: at < |s.spec.history| && LiveTime(s, at) ==>
          Shown(b, By(s.order, at)) == Get(s.spec.history[at], row))
    && (b != [] ==> row in s.spec.changed && s.spec.changed[row] == s.order[LastStamp(b[0])])
    && (b == [] && row in s.spec.changed ==>
          forall at: nat {:trigger LiveTime(s, at)} :: at < |s.spec.history| && LiveTime(s, at) ==> s.spec.changed[row] <= at)
  }

  // Rows -----------------------------------------------------------------------------------------

  ghost function Hist(s: State, row: nat): seq<Version> {
    if row in s.hist then s.hist[row] else []
  }

  ghost function LeafOf(s: State, row: nat): Version {
    if row in s.rows then s.rows[row] else Version(Fresh(0), [])
  }

  ghost function Older(h: seq<Version>): seq<Version> { if h == [] then [] else h[1..] }

  ghost function LogOf(s: State, t: nat): seq<UndoOp> {
    if t in s.undo then s.undo[t] else []
  }

  ghost function Ops(s: State, row: nat): seq<UndoOp> {
    if row in s.owner && s.owner[row] in s.undo then RowOps(s.undo[s.owner[row]], row) else []
  }

  ghost function Vals(s: State, row: nat): seq<Option<Tuple>> {
    if row in s.owner && s.owner[row] in s.spec.writes then RowWrites(s.spec.writes[s.owner[row]], row) else []
  }

  ghost function Owner(s: State, row: nat): nat {
    if row in s.owner then s.owner[row] else 0
  }

  ghost predicate RowOk(s: State, row: nat) {
    && (row in s.rows <==> row in s.hist)
    && (row in s.hist ==>
          row < s.nextRow && Linked(s.arena, s.use, row, s.hist[row]) && s.hist[row][0] == s.rows[row])
    && (row in s.spec.changed ==> row < s.nextRow)
    && (row in s.owner ==> s.owner[row] in s.active && Ops(s, row) != [])
    && Stacked(Hist(s, row), Owner(s, row), Ops(s, row), Vals(s, row))
    && Base(s, row, Bottom(Hist(s, row), Ops(s, row)))
  }

  /** Whoever writes a row has seen its last committed change. */
  ghost predicate Saw(s: State, row: nat) {
    row in s.owner && row in s.spec.changed ==>
      && (s.owner[row] in s.spec.at ==> s.spec.changed[row] <= s.spec.at[s.owner[row]])
      && (forall k {:trigger s.scans[k]} :: k in s.scans && s.scans[k].txn == s.owner[row] && k in s.scanAt ==>
            s.spec.changed[row] <= s.scanAt[k])
  }

  ghost predicate RowsOk(s: State) {
    && (forall row: nat {:trigger RowOk(s, row)} :: RowOk(s, row))
    && (forall row: nat {:trigger Saw(s, row)} :: Saw(s, row))
  }

  // Transactions and views -----------------------------------------------------------------------

  /** The undo log of a transaction takes back its writes, one for one. */
  ghost predicate LogOk(ops: seq<UndoOp>, ws: seq<Write>) {
    && |ops| == |ws|
    && (forall i {:trigger ops[i]} {:trigger ws[i]} :: 0 <= i < |ops| ==> ops[i].row == ws[i].row)
  }

  ghost predicate TxnOk(s: State, t: nat) {
    && 0 < t < s.nextTxn && t !in s.order
    && t in s.undo && t in s.spec.writes
    && LogOk(s.undo[t], s.spec.writes[t])
    && (forall row: nat {:trigger RowOps(s.undo[t], row)} :: RowOps(s.undo[t], row) != [] ==> row in s.owner && s.owner[row] == t)
  }

  /** The store and the reference machine know the same transactions. */
  ghost predicate Aligned(s: State) {
    && WellFormed(s.spec)
    && s.nextTxn == s.spec.nextTxn && s.nextRow == s.spec.nextRow && s.nextScan == s.spec.nextScan
    && 0 < s.nextTxn <= NO_UNDO
    && s.active == s.undo.Keys == s.spec.writes.Keys
    && s.pinned.Keys == s.spec.at.Keys
  }

  ghost predicate LogsOk(s: State) {
    forall t {:trigger TxnOk(s, t)} :: t in s.active ==> TxnOk(s, t)
  }

  ghost predicate OrderOk(s: State) {
    forall x {:trigger s.order[x]} :: x in s.order ==> 0 < x < s.nextTxn && s.order[x] < |s.spec.history|
  }

  ghost predicate TxnsOk(s: State) { Aligned(s) && LogsOk(s) && OrderOk(s) }

  /** A view sees exactly the transactions of the first `at` commits, and its own. */
  ghost predicate ViewOk(s: State, v: ReadView, own: nat, at: nat) {
    && v.own == own && own in s.active
    && at < |s.spec.history|
    && v.horizon <= s.nextTxn
    && (forall x {:trigger Sees(v, x)} :: x != own ==>
          && (x in s.active ==> !Sees(v, x))
          && (x in s.order ==> (Sees(v, x) <==> s.order[x] <= at)))
  }

  ghost predicate PinnedOk(s: State, t: nat) {
    t in s.pinned ==> t in s.spec.at && ViewOk(s, s.pinned[t], t, s.spec.at[t])
  }

  ghost predicate ScanOk(s: State, k: nat) {
    k in s.scans ==>
      var c := s.scans[k];
      && k < s.nextScan && k in s.scanAt && k in s.spec.cursors
      && c.txn == s.spec.cursors[k].txn && c.txn in s.spec.at
      && ViewOk(s, c.view, c.txn, s.scanAt[k])
      && c.end <= s.nextRow && c.txn in s.spec.writes
      && (forall row: nat {:trigger Get(s.spec.cursors[k].content, row)} ::
            Get(s.spec.cursors[k].content, row) == if row < c.end then Expected(s.spec, c.txn, s.scanAt[k], row) else None)
  }

  ghost predicate ViewsOk(s: State) {
    && (forall t {:trigger PinnedOk(s, t)} :: PinnedOk(s, t))
    && (forall k {:trigger ScanOk(s, k)} :: ScanOk(s, k))
    && s.scans.Keys == s.scanAt.Keys == s.spec.cursors.Keys
  }

  // Purge ----------------------------------------------------------------------------------------

  /** The view a purge pass counts a scan as: its own transaction not yet seen. */
  function Pin(c: Scan): ReadView { c.view.(own := NO_UNDO, active := c.view.active + {c.txn}) }

  /** A pass may act on the stamp `x`: its transaction had ended, and every view saw it. */
  predicate Settled(p: Pass, x: nat) {
    x < p.horizon && x !in p.active && forall v {:trigger Sees(v, x)} :: v in p.pinned ==> Sees(v, x)
  }

  /** Everyone sees `x`, now and from now on. */
  ghost predicate SeenByAll(s: State, x: nat) {
    && x < s.nextTxn && x !in s.active
    && (forall t {:trigger s.pinned[t]} :: t in s.pinned ==> Sees(s.pinned[t], x))
    && (forall k {:trigger s.scans[k]} :: k in s.scans ==> Sees(s.scans[k].view, x))
  }

  ghost predicate PassesOk(s: State) {
    forall i, x: nat {:trigger Settled(s.passes[i], x)} ::
      0 <= i < |s.passes| && Settled(s.passes[i], x) ==> SeenByAll(s, x)
  }

  // Slots ----------------------------------------------------------------------------------------

  ghost predicate HeldBy(s: State, i: nat, u: Use) {
    match u
    case Chain(row, depth) =>
      row in s.hist && depth + 2 <= |s.hist[row]| && s.hist[row][|s.hist[row]| - 2 - depth].meta.undo == i
    case Queued => exists j :: 0 <= j < |s.orphans| && s.orphans[j].slot == i
    case Held => s.parking.Some? && s.parking.value.slot == i
  }

  /** A slot is free, or it holds a version and has exactly one holder. */
  ghost predicate SlotOk(s: State, i: nat) {
    && (i < |s.arena| ==>
          && (s.arena[i].None? <==> i in s.free)
          && (s.arena[i].Some? <==> i in s.use))
    && (i in s.use ==> i < |s.arena| && HeldBy(s, i, s.use[i]))
  }

  ghost predicate OrphansOk(orphans: seq<Orphan>, use: map<nat, Use>) {
    && (forall j {:trigger orphans[j]} :: 0 <= j < |orphans| ==> orphans[j].slot in use && use[orphans[j].slot] == Queued)
    && (forall i, j {:trigger orphans[i], orphans[j]} :: 0 <= i < j < |orphans| ==> orphans[i].slot != orphans[j].slot)
  }

  ghost predicate SlotsOk(s: State) {
    && |s.arena| <= NO_UNDO
    && (forall i {:trigger SlotOk(s, i)} :: SlotOk(s, i))
    && Distinct(s.free)
    && (forall i {:trigger s.free[i]} :: 0 <= i < |s.free| ==> s.free[i] < |s.arena|)
    && OrphansOk(s.orphans, s.use)
  }

  /** An update under way has been admitted, and has parked the row's current version. */
  ghost predicate ParkingOk(s: State) {
    && (s.parking.None? <==> s.spec.latch.None?)
    && (s.parking.Some? ==>
          var p := s.parking.value;
          && s.spec.latch.value == (p.txn, p.row)
          && p.txn in s.spec.at
          && p.slot in s.use && s.use[p.slot] == Held
          && p.slot < |s.arena| && p.row in s.rows && s.arena[p.slot] == Some(s.rows[p.row])
          && MayWrite(s, p.txn, p.row)
          && (forall k {:trigger s.scans[k]} :: k in s.scans ==> s.scans[k].txn != p.txn))
  }

  /** Writing the row now loses nobody's update. */
  ghost predicate MayWrite(s: State, t: nat, row: nat) {
    && row in s.rows && s.rows[row].meta.xmax == NO_XMAX
    && (row in s.owner ==> s.owner[row] == t)
    && (row in s.spec.changed && t in s.spec.at ==> s.spec.changed[row] <= s.spec.at[t])
  }

  ghost predicate Inv(s: State) {
    TxnsOk(s) && ViewsOk(s) && RowsOk(s) && PassesOk(s) && SlotsOk(s) && ParkingOk(s)
  }
}
