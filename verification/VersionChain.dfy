/** Row versions: the stamps in a row's header, read views, and the walk that picks the version a
    view sees. The newest version of a row is its leaf value; older ones are parked in an arena
    and linked newest to oldest. */
module VersionChain {
  import opened Bytes

  type Tuple = seq<byte>

  /** A deletion stamp meaning "not deleted". */
  const NO_XMAX := 0
  /** An undo pointer meaning "no older version", also the largest 64-bit integer. */
  const NO_UNDO: nat := 0xFFFF_FFFF_FFFF_FFFF
  /** Bytes the header takes in front of the tuple. */
  const META := 24

  datatype RowMeta = RowMeta(xmin: nat, xmax: nat, undo: nat)

  datatype Version = Version(meta: RowMeta, tuple: Tuple)

  type Arena = seq<Option<Version>>

  predicate MetaOk(m: RowMeta) {
    m.xmin <= NO_UNDO && m.xmax <= NO_UNDO && m.undo <= NO_UNDO
  }

  function Fresh(txn: nat): RowMeta { RowMeta(txn, NO_XMAX, NO_UNDO) }

  function EncodeRow(m: RowMeta, tuple: Tuple): seq<byte> {
    ToLE(m.xmin, 8) + ToLE(m.xmax, 8) + ToLE(m.undo, 8) + tuple
  }

  function DecodeRow(value: seq<byte>): Option<Version> {
    if |value| < META then None
    else Some(Version(RowMeta(FromLE(value[0..8]), FromLE(value[8..16]), FromLE(value[16..24])), value[META..]))
  }

  lemma DecodeEncode(m: RowMeta, tuple: Tuple)
    requires MetaOk(m)
    ensures DecodeRow(EncodeRow(m, tuple)) == Some(Version(m, tuple))
    ensures var v := EncodeRow(m, tuple);
            && |v| == 24 + |tuple| && v[24..] == tuple
            && FromLE(v[0..8]) == m.xmin && FromLE(v[8..16]) == m.xmax && FromLE(v[16..24]) == m.undo
  {
    Widths();
    FromToLE(m.xmin, 8);
    FromToLE(m.xmax, 8);
    FromToLE(m.undo, 8);
    var v := EncodeRow(m, tuple);
    assert v[0..8] == ToLE(m.xmin, 8) && v[8..16] == ToLE(m.xmax, 8) && v[16..24] == ToLE(m.undo, 8);
    assert v[META..] == tuple;
  }

  /** Every value long enough to carry a header is the encoding of what it decodes to, and
      writing another header over its first bytes changes the stamps and nothing else. */
  lemma EncodeDecode(value: seq<byte>, m: RowMeta)
    ensures DecodeRow(value).None? <==> |value| < META
    ensures DecodeRow(value).Some? ==>
              var v := DecodeRow(value).value;
              && MetaOk(v.meta)
              && EncodeRow(v.meta, v.tuple) == value
              && EncodeRow(m, []) + value[META..] == EncodeRow(m, v.tuple)
  {
    if |value| >= META {
      hide ToLE, FromLE;
      Widths();
      HeaderBytes(value);
      ToFromLE(value[0..8]);
      ToFromLE(value[8..16]);
      ToFromLE(value[16..24]);
    }
  }

  lemma HeaderBytes(value: seq<byte>)
    requires |value| >= META
    ensures value == value[0..8] + value[8..16] + value[16..24] + value[META..]
  {
  }

  /** Which other transactions' writes an observer may see: those begun before `horizon` and ended
      when the view was taken. */
  datatype ReadView = ReadView(own: nat, active: set<nat>, horizon: nat)

  predicate Sees(view: ReadView, txn: nat) {
    txn == view.own || (txn < view.horizon && txn !in view.active)
  }

  ghost function SeenBy(view: ReadView): iset<nat> { iset x: nat | Sees(view, x) }

  /** What an observer who sees exactly the transactions `seen` reads from a history, newest
      version first. */
  ghost function Shown(history: seq<Version>, seen: iset<nat>): Option<Tuple> {
    if history == [] then None
    else if history[0].meta.xmin in seen then
      if history[0].meta.xmax != NO_XMAX && history[0].meta.xmax in seen then None
      else Some(history[0].tuple)
    else Shown(history[1..], seen)
  }

  /** The arena version an undo pointer leads to: none for the end mark, an index past the arena
      or a freed slot. */
  function At(arena: Arena, undo: nat): Option<Version> {
    if undo == NO_UNDO || undo >= |arena| then None else arena[undo]
  }

  /** `older` are the versions the undo pointers lead to from `meta`, as far as they lead. */
  ghost predicate Follows(meta: RowMeta, arena: Arena, older: seq<Version>)
    decreases |older|
  {
    match At(arena, meta.undo)
    case None => older == []
    case Some(v) => older != [] && older[0] == v && Follows(v.meta, arena, older[1..])
  }

  datatype Visible = Head | Parked(tuple: Tuple)

  /** The bytes a lookup answers with once the leaf's own tuple is known. */
  function Resolved(v: Option<Visible>, leaf: Tuple): Option<Tuple> {
    match v
    case None => None
    case Some(Head) => Some(leaf)
    case Some(Parked(t)) => Some(t)
  }

  lemma {:induction false} ShownStep(v: Version, rest: seq<Version>, seen: iset<nat>)
    ensures v.meta.xmin !in seen ==> Shown([v] + rest, seen) == Shown(rest, seen)
  {
    assert ([v] + rest)[1..] == rest;
  }

  /** The walk from a leaf header down the undo pointers. It ends wherever the pointers end, and
      without the leaf's tuple it decides what the whole history shows to the view. */
  method VisibleVersion(leaf: RowMeta, arena: Arena, view: ReadView, ghost older: seq<Version>)
    returns (r: Option<Visible>)
    requires Follows(leaf, arena, older)
    ensures forall tuple {:trigger Version(leaf, tuple)} ::
              Resolved(r, tuple) == Shown([Version(leaf, tuple)] + older, SeenBy(view))
  {
    var meta, atHead, tuple := leaf, true, [];
    ghost var rest := older;
    while true
      invariant Follows(meta, arena, rest)
      invariant forall t {:trigger Version(leaf, t)} ::
                  Shown([Version(leaf, t)] + older, SeenBy(view))
                  == Shown([Version(meta, if atHead then t else tuple)] + rest, SeenBy(view))
      decreases |rest|
    {
      if Sees(view, meta.xmin) {
        var deleted := meta.xmax != NO_XMAX && Sees(view, meta.xmax);
        return if deleted then None else if atHead then Some(Head) else Some(Parked(tuple));
      }
      forall t: Tuple {:trigger Version(leaf, t)} {
        ShownStep(Version(meta, if atHead then t else tuple), rest, SeenBy(view));
      }
      if meta.undo == NO_UNDO { return None; }
      if At(arena, meta.undo).None? { return None; }
      var prev := At(arena, meta.undo).value;
      assert rest == [prev] + rest[1..];
      meta, tuple, atHead := prev.meta, prev.tuple, false;
      rest := rest[1..];
    }
  }

  /** Two observers who agree on every stamp of a history read the same. */
  ghost predicate Agree(history: seq<Version>, a: iset<nat>, b: iset<nat>) {
    forall i {:trigger history[i]} :: 0 <= i < |history| ==>
      && (history[i].meta.xmin in a <==> history[i].meta.xmin in b)
      && (history[i].meta.xmax != NO_XMAX ==> (history[i].meta.xmax in a <==> history[i].meta.xmax in b))
  }

  lemma {:induction false} AgreeShow(history: seq<Version>, a: iset<nat>, b: iset<nat>)
    requires Agree(history, a, b)
    ensures Shown(history, a) == Shown(history, b)
    decreases |history|
  {
    if history != [] {
      AgreeShow(history[1..], a, b);
    }
  }
}
