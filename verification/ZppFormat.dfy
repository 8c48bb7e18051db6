/**
 The typed binary format of the zpp serializer: type descriptors, values, what saving writes and what loading
 reads. Scalars stand for fundamental types and for enumerations, which are saved as their underlying integer.
 */
module ZppFormat {
  import Arithmetic
  import opened Bytes

  // `itemSize` is sizeof(value_type), `sizeWidth` is sizeof(SizeType), and `contiguous` says that the container
  // has data() and random access iterators, so that scalar elements are moved as one block of bytes.
  datatype Ty =
    | Scalar(width: nat, signed: bool)
    | Vec(elem: Ty, itemSize: nat, sizeWidth: nat, contiguous: bool)
    | Assoc(item: Ty, itemSize: nat, sizeWidth: nat, isMap: bool)
    | Array(elem: Ty, count: nat)
    | Tuple(items: seq<Ty>)
    | Opt(elem: Ty)
    | Variant(alts: seq<Ty>)

  // A VList is a container, array, pair or tuple; an associative container lists its entries in iteration order.
  datatype Val =
    | VInt(i: int)
    | VList(vs: seq<Val>)
    | VNone
    | VSome(v: Val)
    | VAlt(index: nat, v: Val)
    | Valueless

  predicate WellFormed(t: Ty)
  {
    match t
    case Scalar(w, _) => w in {1, 2, 4, 8}
    case Vec(e, size, sw, contiguous) =>
      WellFormed(e) && size >= 1 && sw in {1, 2, 4, 8} && (contiguous && e.Scalar? ==> size == e.width)
    case Assoc(e, size, sw, isMap) =>
      WellFormed(e) && size >= 1 && sw in {1, 2, 4, 8} && (isMap ==> e.Tuple? && |e.items| == 2)
    case Array(e, _) => WellFormed(e)
    case Tuple(ts) => forall i | 0 <= i < |ts| :: WellFormed(ts[i])
    case Opt(e) => WellFormed(e)
    case Variant(ts) => 0 < |ts| < 255 && forall i | 0 <= i < |ts| :: WellFormed(ts[i])
  }

  predicate InRange(i: int, width: nat, signed: bool)
  {
    if signed then 0 <= 2 * i + Pow256(width) < 2 * Pow256(width) else 0 <= i < Pow256(width)
  }

  // The key of an entry: the first component of a map entry, the whole entry of a set.
  function Key(entry: Val, isMap: bool): (k: Val)
  {
    if isMap && entry.VList? && |entry.vs| == 2 then entry.vs[0] else entry
  }

  predicate DistinctKeys(vs: seq<Val>, isMap: bool)
  {
    forall i, j | 0 <= i < j < |vs| :: Key(vs[i], isMap) != Key(vs[j], isMap)
  }

  predicate Typed(t: Ty, v: Val)
    decreases t
  {
    match t
    case Scalar(w, s) => v.VInt? && InRange(v.i, w, s)
    case Vec(e, _, _, _) => v.VList? && forall i | 0 <= i < |v.vs| :: Typed(e, v.vs[i])
    case Assoc(e, _, _, isMap) =>
      v.VList? && (forall i | 0 <= i < |v.vs| :: Typed(e, v.vs[i])) && DistinctKeys(v.vs, isMap)
    case Array(e, n) => v.VList? && |v.vs| == n && forall i | 0 <= i < n :: Typed(e, v.vs[i])
    case Tuple(ts) => v.VList? && |v.vs| == |ts| && forall i | 0 <= i < |ts| :: Typed(ts[i], v.vs[i])
    case Opt(e) => v.VNone? || (v.VSome? && Typed(e, v.v))
    case Variant(ts) => v.Valueless? || (v.VAlt? && v.index < |ts| && Typed(ts[v.index], v.v))
  }

  /** Every container's element count is representable in its size field. */
  predicate Fits(t: Ty, v: Val)
    decreases t
  {
    match t
    case Scalar(_, _) => true
    case Vec(e, _, sw, _) => v.VList? ==> |v.vs| < Pow256(sw) && forall i | 0 <= i < |v.vs| :: Fits(e, v.vs[i])
    case Assoc(e, _, sw, _) => v.VList? ==> |v.vs| < Pow256(sw) && forall i | 0 <= i < |v.vs| :: Fits(e, v.vs[i])
    case Array(e, _) => v.VList? ==> forall i | 0 <= i < |v.vs| :: Fits(e, v.vs[i])
    case Tuple(ts) => v.VList? ==> forall i | 0 <= i < |ts| && i < |v.vs| :: Fits(ts[i], v.vs[i])
    case Opt(e) => v.VSome? ==> Fits(e, v.v)
    case Variant(ts) => v.VAlt? && v.index < |ts| ==> Fits(ts[v.index], v.v)
  }

  /** Bytes of element storage in all the dynamic containers of a value. */
  function Storage(t: Ty, v: Val): (bytes: nat)
    requires Typed(t, v)
    decreases t, 0, 0
  {
    match t
    case Scalar(_, _) => 0
    case Vec(e, size, _, _) => |v.vs| * size + StorageAll(e, v.vs)
    case Assoc(e, size, _, _) => |v.vs| * size + StorageAll(e, v.vs)
    case Array(e, _) => StorageAll(e, v.vs)
    case Tuple(ts) => StorageEach(ts, v.vs)
    case Opt(e) => if v.VSome? then Storage(e, v.v) else 0
    case Variant(ts) => if v.VAlt? then Storage(ts[v.index], v.v) else 0
  }

  function StorageAll(t: Ty, vs: seq<Val>): (bytes: nat)
    requires forall i | 0 <= i < |vs| :: Typed(t, vs[i])
    decreases t, 1, |vs|
  {
    if vs == [] then 0 else Storage(t, vs[0]) + StorageAll(t, vs[1..])
  }

  function StorageEach(ts: seq<Ty>, vs: seq<Val>): (bytes: nat)
    requires |ts| == |vs| && forall i | 0 <= i < |ts| :: Typed(ts[i], vs[i])
    decreases ts, 0, 0
  {
    if ts == [] then 0 else Storage(ts[0], vs[0]) + StorageEach(ts[1..], vs[1..])
  }

  // ---------------------------------------------------------------------------------------------------------
  // Saving
  // ---------------------------------------------------------------------------------------------------------

  // The bytes handed to the archive, up to the exception thrown at a valueless variant when ok is false.
  datatype Saved = Saved(bytes: seq<Byte>, ok: bool) {
    function Then(next: Saved): (r: Saved)
    {
      if ok then Saved(bytes + next.bytes, next.ok) else this
    }
  }

  // Two's complement representation of an integer of the given width.
  function Wrap(i: int, width: nat, signed: bool): (n: nat)
    requires InRange(i, width, signed)
    ensures n < Pow256(width)
  {
    if i < 0 then i + Pow256(width) else i
  }

  function Unwrap(n: nat, width: nat, signed: bool): (i: int)
    requires n < Pow256(width)
    ensures InRange(i, width, signed) && Wrap(i, width, signed) == n
  {
    if signed && 2 * n >= Pow256(width) then n - Pow256(width) else n
  }

  // static_cast<SizeType>(size): saving truncates a size that does not fit.
  function Cast(n: nat, width: nat): (r: nat)
    ensures r <= n && r < Pow256(width)
    ensures n < Pow256(width) ==> r == n
  {
    if n < Pow256(width) then n else n % Pow256(width)
  }

  function ScalarImage(t: Ty, v: Val): (bs: seq<Byte>)
    requires t.Scalar? && Typed(t, v)
    ensures |bs| == t.width
  {
    Little(Wrap(v.i, t.width, t.signed), t.width)
  }

  // The memory of a contiguous sequence of scalars, byte by byte.
  function Image(t: Ty, vs: seq<Val>): (bs: seq<Byte>)
    requires t.Scalar? && t.width > 0
    requires forall i | 0 <= i < |vs| :: Typed(t, vs[i])
    ensures |bs| == |vs| * t.width
  {
    seq(|vs| * t.width, k requires 0 <= k < |vs| * t.width =>
      Arithmetic.Row(|vs|, t.width, k);
      ScalarImage(t, vs[k / t.width])[k % t.width])
  }

  function Save(t: Ty, v: Val): (r: Saved)
    requires WellFormed(t) && Typed(t, v)
    decreases t, 0, 0
  {
    match t
    case Scalar(_, _) => Saved(ScalarImage(t, v), true)
    case Vec(e, _, sw, contiguous) =>
      var size := Cast(|v.vs|, sw);
      if contiguous && e.Scalar? then Saved(Little(size, sw) + Image(e, v.vs[..size]), true)
      else Saved(Little(size, sw), true).Then(SaveAll(e, v.vs))
    case Assoc(e, _, sw, _) => Saved(Little(Cast(|v.vs|, sw), sw), true).Then(SaveAll(e, v.vs))
    case Array(e, _) => assert WellFormed(e); if e.Scalar? then Saved(Image(e, v.vs), true) else SaveAll(e, v.vs)
    case Tuple(ts) => SaveEach(ts, v.vs)
    case Opt(e) => if v.VNone? then Saved([0], true) else Saved([1], true).Then(Save(e, v.v))
    case Variant(ts) => if v.Valueless? then Saved([], false) else Saved([v.index], true).Then(Save(ts[v.index], v.v))
  }

  function SaveAll(t: Ty, vs: seq<Val>): (r: Saved)
    requires WellFormed(t) && forall i | 0 <= i < |vs| :: Typed(t, vs[i])
    decreases t, 1, |vs|
  {
    if vs == [] then Saved([], true) else Save(t, vs[0]).Then(SaveAll(t, vs[1..]))
  }

  function SaveEach(ts: seq<Ty>, vs: seq<Val>): (r: Saved)
    requires |ts| == |vs| && forall i | 0 <= i < |ts| :: WellFormed(ts[i]) && Typed(ts[i], vs[i])
    decreases ts, 0, 0
  {
    if ts == [] then Saved([], true) else Save(ts[0], vs[0]).Then(SaveEach(ts[1..], vs[1..]))
  }

  // ---------------------------------------------------------------------------------------------------------
  // Loading
  // ---------------------------------------------------------------------------------------------------------

  datatype Error = OutOfRange | VariantIndexOutOfRange
  datatype Outcome<+T> = Ok(value: T) | Err(error: Error)

  // What an input archive changes: its offset, its allocation budget, what was charged to it, and the element storage
  // created through it.
  datatype Cursor = Cursor(offset: nat, budget: nat, charged: nat, created: nat)

  // A result together with the archive state it leaves, on success and on failure alike.
  datatype Step<+T> = Step(out: Outcome<T>, cursor: Cursor)

  function Remaining(input: seq<Byte>, c: Cursor): (n: nat)
  {
    if c.offset <= |input| then |input| - c.offset else 0
  }

  function Read(input: seq<Byte>, c: Cursor, n: nat): (r: Step<seq<Byte>>)
    ensures r.out.Ok? ==> |r.out.value| == n
  {
    if n > Remaining(input, c) then Step(Err(OutOfRange), c)
    else if n == 0 then Step(Ok([]), c)
    else Step(Ok(input[c.offset..c.offset + n]), c.(offset := c.offset + n))
  }

  // The archive refuses a count whose storage exceeds the budget that is left.
  predicate Affordable(total: nat, count: nat, itemSize: nat)
    ensures Affordable(total, count, itemSize) <==> count * itemSize <= total
  {
    Quotient(total, count, itemSize);
    itemSize == 0 || count <= total / itemSize
  }

  lemma Quotient(total: nat, count: nat, itemSize: nat)
    ensures itemSize == 0 || count <= total / itemSize <==> count * itemSize <= total
  {
    if itemSize != 0 {
      var q := total / itemSize;
      assert q * itemSize <= total < q * itemSize + itemSize;
      if count <= q {
        assert count * itemSize <= q * itemSize;
      } else {
        assert count * itemSize >= (q + 1) * itemSize;
      }
    }
  }

  function Spend(c: Cursor, bytes: nat): (r: Cursor)
    requires bytes <= c.budget
  {
    c.(budget := c.budget - bytes, charged := c.charged + bytes)
  }

  function Create(c: Cursor, bytes: nat): (r: Cursor)
  {
    c.(created := c.created + bytes)
  }

  predicate Present(entries: seq<Val>, entry: Val, isMap: bool)
  {
    exists i | 0 <= i < |entries| :: Key(entries[i], isMap) == Key(entry, isMap)
  }

  // insert() keeps the entry that is already present.
  function Insert(entries: seq<Val>, entry: Val, isMap: bool): (r: seq<Val>)
  {
    if Present(entries, entry, isMap) then entries else entries + [entry]
  }

  function Load(t: Ty, input: seq<Byte>, c: Cursor): (r: Step<Val>)
    requires WellFormed(t)
    decreases t, 0, 0
  {
    match t
    case Scalar(w, s) =>
      var b := Read(input, c, w);
      if b.out.Err? then Step(Err(b.out.error), b.cursor)
      else Step(Ok(VInt(Unwrap(Value(b.out.value), w, s))), b.cursor)
    case Vec(e, size, sw, contiguous) =>
      var b := Read(input, c, sw);
      if b.out.Err? then Step(Err(b.out.error), b.cursor) else
      var n := Value(b.out.value);
      if contiguous && e.Scalar? then LoadBlock(e, size, n, input, b.cursor)
      else if !Affordable(b.cursor.budget, n, size) then Step(Err(OutOfRange), b.cursor)
      else AsList(LoadMany(e, n, input, Create(Spend(b.cursor, n * size), n * size)))
    case Assoc(e, size, sw, isMap) =>
      var b := Read(input, c, sw);
      if b.out.Err? then Step(Err(b.out.error), b.cursor) else
      var n := Value(b.out.value);
      if !Affordable(b.cursor.budget, n, size) then Step(Err(OutOfRange), b.cursor)
      else AsList(LoadEntries(e, size, isMap, n, [], input, Spend(b.cursor, n * size)))
    case Array(e, n) =>
      if e.Scalar? then AsList(LoadImage(e, n, input, c)) else AsList(LoadMany(e, n, input, c))
    case Tuple(ts) => AsList(LoadEach(ts, input, c))
    case Opt(e) =>
      var b := Read(input, c, 1);
      if b.out.Err? then Step(Err(b.out.error), b.cursor)
      else if b.out.value[0] == 0 then Step(Ok(VNone), b.cursor)
      else
        var r := Load(e, input, b.cursor);
        if r.out.Err? then r else Step(Ok(VSome(r.out.value)), r.cursor)
    case Variant(ts) =>
      var b := Read(input, c, 1);
      if b.out.Err? then Step(Err(b.out.error), b.cursor)
      else if b.out.value[0] >= |ts| then Step(Err(VariantIndexOutOfRange), b.cursor)
      else
        var r := Load(ts[b.out.value[0]], input, b.cursor);
        if r.out.Err? then r else Step(Ok(VAlt(b.out.value[0], r.out.value)), r.cursor)
  }

  function AsList(r: Step<seq<Val>>): (l: Step<Val>)
  {
    if r.out.Ok? then Step(Ok(VList(r.out.value)), r.cursor) else Step(Err(r.out.error), r.cursor)
  }

  // A contiguous container of scalars: the payload must be present before its storage is charged and created.
  function LoadBlock(e: Ty, size: nat, n: nat, input: seq<Byte>, c: Cursor): (r: Step<Val>)
    requires WellFormed(e) && e.Scalar? && size == e.width
  {
    if !Affordable(Remaining(input, c), n, size) then Step(Err(OutOfRange), c)
    else if !Affordable(c.budget, n, size) then Step(Err(OutOfRange), c)
    else
      var c := Create(Spend(c, n * size), n * size);
      if n == 0 then Step(Ok(VList([])), c) else AsList(LoadImage(e, n, input, c))
  }

  function LoadImage(e: Ty, n: nat, input: seq<Byte>, c: Cursor): (r: Step<seq<Val>>)
    requires WellFormed(e) && e.Scalar?
  {
    var b := Read(input, c, n * e.width);
    if b.out.Err? then Step(Err(b.out.error), b.cursor) else Step(Ok(Elements(e, n, b.out.value)), b.cursor)
  }

  // The scalars whose memory the block is.
  function Elements(e: Ty, n: nat, block: seq<Byte>): (vs: seq<Val>)
    requires WellFormed(e) && e.Scalar? && |block| == n * e.width
    ensures |vs| == n && forall i | 0 <= i < n :: Typed(e, vs[i])
  {
    if n == 0 then []
    else
      Arithmetic.Next(n - 1, e.width);
      [VInt(Unwrap(Value(block[..e.width]), e.width, e.signed))] + Elements(e, n - 1, block[e.width..])
  }

  function LoadMany(t: Ty, n: nat, input: seq<Byte>, c: Cursor): (r: Step<seq<Val>>)
    requires WellFormed(t)
    decreases t, 1, n
  {
    if n == 0 then Step(Ok([]), c) else
    var head := Load(t, input, c);
    if head.out.Err? then Step(Err(head.out.error), head.cursor) else
    var tail := LoadMany(t, n - 1, input, head.cursor);
    if tail.out.Err? then tail else Step(Ok([head.out.value] + tail.out.value), tail.cursor)
  }

  function LoadEntries(t: Ty, size: nat, isMap: bool, n: nat, got: seq<Val>, input: seq<Byte>, c: Cursor)
    : (r: Step<seq<Val>>)
    requires WellFormed(t)
    decreases t, 1, n
  {
    if n == 0 then Step(Ok(got), c) else
    var head := Load(t, input, c);
    if head.out.Err? then Step(Err(head.out.error), head.cursor) else
    var after := if Present(got, head.out.value, isMap) then head.cursor else Create(head.cursor, size);
    LoadEntries(t, size, isMap, n - 1, Insert(got, head.out.value, isMap), input, after)
  }

  function LoadEach(ts: seq<Ty>, input: seq<Byte>, c: Cursor): (r: Step<seq<Val>>)
    requires forall i | 0 <= i < |ts| :: WellFormed(ts[i])
    decreases ts, 0, 0
  {
    if ts == [] then Step(Ok([]), c) else
    var head := Load(ts[0], input, c);
    if head.out.Err? then Step(Err(head.out.error), head.cursor) else
    var tail := LoadEach(ts[1..], input, head.cursor);
    if tail.out.Err? then tail else Step(Ok([head.out.value] + tail.out.value), tail.cursor)
  }
}
