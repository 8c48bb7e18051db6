/** The bytes that saving writes, type by type, down to the bytes of integers. */
module ZppLayout {
  import Arithmetic
  import opened Bytes
  import opened ZppFormat
  import opened ZppRoundTrip
  import opened ZppLoading

  // ---------------------------------------------------------------------------------------------------------
  // Integers
  // ---------------------------------------------------------------------------------------------------------

  lemma Quotients(n: nat, p: nat)
    requires p > 0
    ensures 256 * p > 0 && n / (256 * p) == (n / 256) / p
  {
    Arithmetic.QuotientOfQuotient(n, 256, p);
  }

  lemma {:induction false} LittleAt(n: nat, width: nat, k: nat)
    requires k < width
    ensures 0 <= n / Pow256(k) && Little(n, width)[k] == n / Pow256(k) % 256
    decreases k
  {
    Arithmetic.QuotientNatural(n, Pow256(k));
    if k > 0 {
      LittleAt(n / 256, width - 1, k - 1);
      Quotients(n, Pow256(k - 1));
    }
  }

  /** Byte k of an integer of width w is digit k of its value modulo 256^w in base 256. */
  lemma ScalarBytes(w: nat, signed: bool, i: int, k: nat)
    requires w in {1, 2, 4, 8} && InRange(i, w, signed) && k < w
    ensures var s := Save(Scalar(w, signed), VInt(i));
            s.ok && |s.bytes| == w && s.bytes[k] == i % Pow256(w) / Pow256(k) % 256
  {
    hide Pow256, Little;
    Modulo(i, w, signed);
    LittleAt(Wrap(i, w, signed), w, k);
  }

  lemma Modulo(i: int, w: nat, signed: bool)
    requires InRange(i, w, signed)
    ensures Wrap(i, w, signed) == i % Pow256(w)
  {
    hide Pow256;
    var p := Pow256(w);
    if i < 0 {
      Arithmetic.OneBelow(i, p);
    } else {
      Arithmetic.RowFirst(p, i);
    }
  }

  // The size field of a container: its element count as an unsigned integer, cut to the width of the field.
  function SizeField(count: nat, width: nat): (s: Saved)
    requires width in {1, 2, 4, 8}
  {
    Arithmetic.Remainder(count, Pow256(width));
    Save(Scalar(width, false), VInt(count % Pow256(width)))
  }

  lemma FieldBytes(count: nat, width: nat)
    requires width in {1, 2, 4, 8}
    ensures SizeField(count, width) == Saved(Little(Cast(count, width), width), true)
  {
    hide Pow256, Little;
    Arithmetic.Remainder(count, Pow256(width));
    if count < Pow256(width) {
      Arithmetic.RowFirst(Pow256(width), count);
    }
  }

  // ---------------------------------------------------------------------------------------------------------
  // Optionals and variants
  // ---------------------------------------------------------------------------------------------------------

  lemma OneByte(n: nat)
    requires n < 256
    ensures Typed(Scalar(1, false), VInt(n)) && Save(Scalar(1, false), VInt(n)) == Saved([n], true)
  {
    assert Pow256(1) == 256;
    assert Little(n, 1) == [n];
  }

  lemma PairSaved(a: Ty, b: Ty, x: Val, y: Val)
    requires WellFormed(a) && WellFormed(b) && Typed(a, x) && Typed(b, y)
    ensures WellFormed(Tuple([a, b])) && Typed(Tuple([a, b]), VList([x, y]))
    ensures Save(Tuple([a, b]), VList([x, y])) == Save(a, x).Then(Save(b, y))
  {
    var ts, vs := [a, b], [x, y];
    assert ts[1..] == [b] && vs[1..] == [y] && [b][1..] == [] && [y][1..] == [];
    assert SaveEach([], []) == Saved([], true);
    assert SaveEach([b], [y]) == Save(b, y).Then(Saved([], true));
    ThenNothing(Save(b, y));
    assert SaveEach(ts, vs) == Save(a, x).Then(SaveEach([b], [y]));
  }

  lemma ThenNothing(s: Saved)
    ensures s.Then(Saved([], true)) == s
  {
    assert s.bytes + [] == s.bytes;
  }

  /** An optional value is the pair of the integer 1 in one byte and the value; an empty optional is the integer 0. */
  lemma OptionalLayout(e: Ty, x: Val)
    requires WellFormed(e) && Typed(e, x)
    ensures var pair := Tuple([Scalar(1, false), e]);
            && WellFormed(Opt(e)) && Typed(Opt(e), VSome(x)) && WellFormed(pair) && Typed(pair, VList([VInt(1), x]))
            && Save(Opt(e), VSome(x)) == Save(pair, VList([VInt(1), x]))
    ensures Typed(Scalar(1, false), VInt(0)) && Save(Opt(e), VNone) == Save(Scalar(1, false), VInt(0))
  {
    hide Little, Pow256, SaveEach;
    OneByte(0);
    OneByte(1);
    PairSaved(Scalar(1, false), e, VInt(1), x);
  }

  /** A variant is the pair of its index in one byte and its alternative. */
  lemma VariantLayout(ts: seq<Ty>, i: nat, x: Val)
    requires WellFormed(Variant(ts)) && i < |ts| && Typed(ts[i], x)
    ensures var pair := Tuple([Scalar(1, false), ts[i]]);
            && Typed(Variant(ts), VAlt(i, x)) && WellFormed(pair) && Typed(pair, VList([VInt(i), x]))
            && Save(Variant(ts), VAlt(i, x)) == Save(pair, VList([VInt(i), x]))
    ensures !Save(Variant(ts), Valueless).ok
  {
    hide Little, Pow256, SaveEach;
    OneByte(i);
    PairSaved(Scalar(1, false), ts[i], VInt(i), x);
  }

  // ---------------------------------------------------------------------------------------------------------
  // Pairs, tuples, arrays and containers
  // ---------------------------------------------------------------------------------------------------------

  /** A tuple or pair is its components one after the other. */
  lemma TupleLayout(ts: seq<Ty>, vs: seq<Val>)
    requires WellFormed(Tuple(ts)) && Typed(Tuple(ts), VList(vs)) && ts != [] && Save(Tuple(ts), VList(vs)).ok
    ensures WellFormed(Tuple(ts[1..])) && Typed(Tuple(ts[1..]), VList(vs[1..]))
    ensures Save(Tuple(ts), VList(vs)).bytes == Save(ts[0], vs[0]).bytes + Save(Tuple(ts[1..]), VList(vs[1..])).bytes
    ensures Save(Tuple([]), VList([])) == Saved([], true)
  {
    SavedEachCons(ts, vs);
  }

  // The values of a list one after the other.
  function Joined(t: Ty, vs: seq<Val>): (bytes: seq<Byte>)
    requires WellFormed(t) && forall i | 0 <= i < |vs| :: Typed(t, vs[i])
  {
    if vs == [] then [] else Save(t, vs[0]).bytes + Joined(t, vs[1..])
  }

  lemma {:induction false} SavedIsJoined(t: Ty, vs: seq<Val>)
    requires WellFormed(t) && (forall i | 0 <= i < |vs| :: Typed(t, vs[i])) && SaveAll(t, vs).ok
    ensures SaveAll(t, vs).bytes == Joined(t, vs)
  {
    hide Save, Typed, WellFormed;
    if vs != [] {
      SavedCons(t, vs);
      SavedIsJoined(t, vs[1..]);
    }
  }

  /** An array is its elements one after the other, whether they are moved one by one or as a block. */
  lemma ArrayLayout(e: Ty, vs: seq<Val>)
    requires WellFormed(e) && Typed(Array(e, |vs|), VList(vs)) && Save(Array(e, |vs|), VList(vs)).ok
    ensures Save(Array(e, |vs|), VList(vs)).bytes == Joined(e, vs)
  {
    hide Image, SaveAll, Joined;
    if e.Scalar? {
      ImageIsSaveAll(e, vs);
    }
    SavedIsJoined(e, vs);
  }

  /**
   A container is its size field and then its elements one after the other; as a block only as many elements as the
   field says are written.
   */
  lemma ContainerLayout(t: Ty, vs: seq<Val>)
    requires t.Vec? && WellFormed(t) && Typed(t, VList(vs)) && Save(t, VList(vs)).ok
    ensures SizeField(|vs|, t.sizeWidth).ok
    ensures t.contiguous && t.elem.Scalar? ==>
              0 <= |vs| % Pow256(t.sizeWidth) <= |vs| &&
              Save(t, VList(vs)).bytes ==
              SizeField(|vs|, t.sizeWidth).bytes + Joined(t.elem, vs[..|vs| % Pow256(t.sizeWidth)])
    ensures !(t.contiguous && t.elem.Scalar?) ==>
              Save(t, VList(vs)).bytes == SizeField(|vs|, t.sizeWidth).bytes + Joined(t.elem, vs)
  {
    hide Image, SaveAll, Joined, Little, Pow256;
    FieldBytes(|vs|, t.sizeWidth);
    CastIs(|vs|, t.sizeWidth);
    if t.contiguous && t.elem.Scalar? {
      var written := vs[..Cast(|vs|, t.sizeWidth)];
      ImageIsSaveAll(t.elem, written);
      SavedIsJoined(t.elem, written);
    } else {
      SavedIsJoined(t.elem, vs);
    }
  }

  lemma CastIs(n: nat, width: nat)
    ensures Cast(n, width) == n % Pow256(width) <= n
  {
    hide Pow256;
    Arithmetic.Remainder(n, Pow256(width));
    if n < Pow256(width) {
      Arithmetic.RowFirst(Pow256(width), n);
    }
  }

  /** An associative container is its size field and then its entries one after the other. */
  lemma AssociativeLayout(t: Ty, vs: seq<Val>)
    requires t.Assoc? && WellFormed(t) && Typed(t, VList(vs)) && Save(t, VList(vs)).ok
    ensures SizeField(|vs|, t.sizeWidth).ok
    ensures Save(t, VList(vs)).bytes == SizeField(|vs|, t.sizeWidth).bytes + Joined(t.item, vs)
  {
    hide SaveAll, Joined, Little, Pow256, DistinctKeys;
    FieldBytes(|vs|, t.sizeWidth);
    SavedIsJoined(t.item, vs);
  }

  // ---------------------------------------------------------------------------------------------------------
  // What loading accepts beyond what saving writes
  // ---------------------------------------------------------------------------------------------------------

  /** For types with one encoding per value, loading succeeds exactly on the encodings of sound values that can be paid. */
  lemma LoadExactly(t: Ty, input: seq<Byte>, c: Cursor, v: Val)
    requires WellFormed(t) && Canonical(t) && c.offset <= |input|
    ensures Load(t, input, c).out == Ok(v) <==>
            Sound(t, v) && At(input, c.offset, Save(t, v).bytes) && Storage(t, v) <= c.budget
  {
    hide Load, Save, Storage, Typed, Fits, WellFormed, Canonical, At;
    if Load(t, input, c).out == Ok(v) {
      LoadedIsSound(t, input, c);
    }
    if Sound(t, v) && At(input, c.offset, Save(t, v).bytes) && Storage(t, v) <= c.budget {
      LoadSaved(t, v, input, c);
    }
  }

  lemma LoadedIsSound(t: Ty, input: seq<Byte>, c: Cursor)
    requires WellFormed(t) && Canonical(t) && c.offset <= |input| && Load(t, input, c).out.Ok?
    ensures var v := Load(t, input, c).out.value;
            Sound(t, v) && At(input, c.offset, Save(t, v).bytes) && Storage(t, v) <= c.budget
  {
    hide Load, Save, Storage, Typed, Fits, WellFormed, Canonical;
    LoadIsPaid(t, input, c);
    SaveLoaded(t, input, c);
    SpentIsStorage(t, input, c);
  }

  /** The flag of an optional is any byte: zero is empty, and every other one announces a value. */
  lemma AnyFlag(t: Ty, input: seq<Byte>, c: Cursor, r: Step<Val>, inner: Step<Val>)
    requires t.Opt? && WellFormed(t) && c.offset < |input|
    requires r == Load(t, input, c) && inner == Load(t.elem, input, c.(offset := c.offset + 1))
    ensures r == if input[c.offset] == 0 then Step(Ok(VNone), c.(offset := c.offset + 1))
                 else if inner.out.Err? then inner
                 else Step(Ok(VSome(inner.out.value)), inner.cursor)
  {
    hide Read, LoadMany, LoadEntries, LoadEach, LoadImage, LoadBlock, Value, Unwrap;
    FlagRead(input, c);
  }

  lemma FlagRead(input: seq<Byte>, c: Cursor)
    requires c.offset < |input|
    ensures Read(input, c, 1) == Step(Ok([input[c.offset]]), c.(offset := c.offset + 1))
  {
    assert input[c.offset..c.offset + 1] == [input[c.offset]];
  }

  /** A variant index without an alternative is refused as such, behind the index. */
  lemma UnknownAlternative(t: Ty, input: seq<Byte>, c: Cursor)
    requires t.Variant? && WellFormed(t) && c.offset < |input| && input[c.offset] >= |t.alts|
    ensures Load(t, input, c) == Step(Err(VariantIndexOutOfRange), c.(offset := c.offset + 1))
  {
    hide Read;
    FlagRead(input, c);
  }

  /** An integer that the input is too short for is out of range and leaves the archive alone. */
  lemma ShortInput(t: Ty, input: seq<Byte>, c: Cursor)
    requires t.Scalar? && WellFormed(t) && c.offset <= |input| < c.offset + t.width
    ensures Load(t, input, c) == Step(Err(OutOfRange), c)
  {
  }

  /** A container whose elements the budget does not cover is out of range, behind its size field and uncharged. */
  lemma BudgetExceeded(t: Ty, count: nat, input: seq<Byte>, c: Cursor)
    requires (t.Vec? || t.Assoc?) && WellFormed(t) && count < Pow256(t.sizeWidth)
    requires At(input, c.offset, Little(count, t.sizeWidth)) && count * t.itemSize > c.budget
    ensures Load(t, input, c) == Step(Err(OutOfRange), c.(offset := c.offset + t.sizeWidth))
  {
    hide Little, Value, LoadMany, LoadEntries, LoadImage, At, Pow256;
    ReadAt(input, c, Little(count, t.sizeWidth));
    ValueOfLittle(count, t.sizeWidth);
  }

  // Entry i of a list is the first with its key.
  predicate FirstOfKey(vs: seq<Val>, i: nat, isMap: bool)
    requires i < |vs|
  {
    forall j | 0 <= j < i :: Key(vs[j], isMap) != Key(vs[i], isMap)
  }

  // The entries that are the first with their key.
  function Firsts(vs: seq<Val>, isMap: bool): (r: seq<Val>)
  {
    if vs == [] then []
    else
      var n := |vs| - 1;
      Firsts(vs[..n], isMap) + if FirstOfKey(vs, n, isMap) then [vs[n]] else []
  }

  lemma {:induction false} FirstsKeys(vs: seq<Val>, entry: Val, isMap: bool)
    ensures Present(Firsts(vs, isMap), entry, isMap) <==> Present(vs, entry, isMap)
  {
    hide Key;
    if vs != [] {
      var n := |vs| - 1;
      var front, last := vs[..n], vs[n];
      FirstsKeys(front, entry, isMap);
      PresentLast(front, last, entry, isMap);
      assert front + [last] == vs;
      if FirstOfKey(vs, n, isMap) {
        PresentLast(Firsts(front, isMap), last, entry, isMap);
      } else {
        var j :| 0 <= j < n && Key(vs[j], isMap) == Key(last, isMap);
        assert front[j] == vs[j];
        assert Firsts(vs, isMap) == Firsts(front, isMap) + [] == Firsts(front, isMap);
      }
    }
  }

  lemma PresentLast(front: seq<Val>, last: Val, entry: Val, isMap: bool)
    ensures Present(front + [last], entry, isMap) <==> Present(front, entry, isMap) || Key(last, isMap) == Key(entry, isMap)
  {
    hide Key;
    if i :| 0 <= i < |front| && Key(front[i], isMap) == Key(entry, isMap) {
      assert (front + [last])[i] == front[i];
    }
    assert (front + [last])[|front|] == last;
  }

  lemma FirstsNext(vs: seq<Val>, entry: Val, isMap: bool)
    ensures Firsts(vs + [entry], isMap) == Insert(Firsts(vs, isMap), entry, isMap)
  {
    hide Key;
    var all := vs + [entry];
    assert all[..|vs|] == vs && all[|vs|] == entry;
    FirstsKeys(vs, entry, isMap);
    assert forall j | 0 <= j < |vs| :: all[j] == vs[j];
    assert FirstOfKey(all, |vs|, isMap) <==> !Present(vs, entry, isMap);
    assert Firsts(vs, isMap) + [] == Firsts(vs, isMap);
  }

  // Loading depends on the offset and the budget alone, not on what was charged or created before.
  predicate Alike(c: Cursor, d: Cursor) { c.offset == d.offset && c.budget == d.budget }

  predicate SameStep<T(==)>(r: Step<T>, q: Step<T>) { r.out == q.out && Alike(r.cursor, q.cursor) }

  lemma {:induction false} SameLoad(t: Ty, input: seq<Byte>, c: Cursor, d: Cursor)
    requires WellFormed(t) && Alike(c, d)
    ensures SameStep(Load(t, input, c), Load(t, input, d))
    decreases t, 3, 0
  {
    match t
    case Scalar(_, _) =>
    case Vec(_, _, _, _) => SameVec(t, input, c, d);
    case Assoc(_, _, _, _) => SameAssoc(t, input, c, d);
    case Array(e, n) =>
      hide LoadMany, LoadImage;
      if e.Scalar? {
        SameImage(e, n, input, c, d);
      } else {
        SameMany(e, n, input, c, d);
      }
    case Tuple(ts) =>
      hide LoadEach;
      SameEach(ts, input, c, d);
    case Opt(_) => SameOpt(t, input, c, d);
    case Variant(_) => SameVariant(t, input, c, d);
  }

  lemma SameOpt(t: Ty, input: seq<Byte>, c: Cursor, d: Cursor)
    requires t.Opt? && WellFormed(t) && Alike(c, d)
    ensures SameStep(Load(t, input, c), Load(t, input, d))
    decreases t.elem, 6, 0
  {
    var b, b' := Read(input, c, 1), Read(input, d, 1);
    if b.out.Ok? {
      SameLoad(t.elem, input, b.cursor, b'.cursor);
    }
  }

  lemma SameVariant(t: Ty, input: seq<Byte>, c: Cursor, d: Cursor)
    requires t.Variant? && WellFormed(t) && Alike(c, d)
    ensures SameStep(Load(t, input, c), Load(t, input, d))
    decreases t.alts, 6, 0
  {
    var b, b' := Read(input, c, 1), Read(input, d, 1);
    if b.out.Ok? && b.out.value[0] < |t.alts| {
      SameLoad(t.alts[b.out.value[0]], input, b.cursor, b'.cursor);
    }
  }

  lemma SameImage(e: Ty, n: nat, input: seq<Byte>, c: Cursor, d: Cursor)
    requires WellFormed(e) && e.Scalar? && Alike(c, d)
    ensures SameStep(LoadImage(e, n, input, c), LoadImage(e, n, input, d))
  {
    hide Elements;
    Arithmetic.Natural(n, e.width);
  }

  lemma SameVec(t: Ty, input: seq<Byte>, c: Cursor, d: Cursor)
    requires t.Vec? && WellFormed(t) && Alike(c, d)
    ensures SameStep(Load(t, input, c), Load(t, input, d))
    decreases t.elem, 6, 0
  {
    hide LoadMany, LoadBlock, Value;
    var b, b' := Read(input, c, t.sizeWidth), Read(input, d, t.sizeWidth);
    if b.out.Ok? {
      var n := Value(b.out.value);
      var bytes := Created(n, t.itemSize);
      if t.contiguous && t.elem.Scalar? {
        SameBlock(t.elem, n, input, b.cursor, b'.cursor);
      } else if bytes <= b.cursor.budget {
        SameMany(t.elem, n, input, Create(Spend(b.cursor, bytes), bytes), Create(Spend(b'.cursor, bytes), bytes));
      }
    }
  }

  lemma SameBlock(e: Ty, n: nat, input: seq<Byte>, c: Cursor, d: Cursor)
    requires WellFormed(e) && e.Scalar? && Alike(c, d)
    ensures SameStep(LoadBlock(e, e.width, n, input, c), LoadBlock(e, e.width, n, input, d))
  {
    hide LoadImage;
    var bytes := Created(n, e.width);
    if bytes <= c.budget {
      SameImage(e, n, input, Create(Spend(c, bytes), bytes), Create(Spend(d, bytes), bytes));
    }
  }

  lemma SameAssoc(t: Ty, input: seq<Byte>, c: Cursor, d: Cursor)
    requires t.Assoc? && WellFormed(t) && Alike(c, d)
    ensures SameStep(Load(t, input, c), Load(t, input, d))
    decreases t.item, 6, 0
  {
    hide LoadEntries, Value;
    var b, b' := Read(input, c, t.sizeWidth), Read(input, d, t.sizeWidth);
    if b.out.Ok? {
      var n := Value(b.out.value);
      var bytes := Created(n, t.itemSize);
      if bytes <= b.cursor.budget {
        SameEntries(t.item, t.itemSize, t.isMap, n, [], input, Spend(b.cursor, bytes), Spend(b'.cursor, bytes));
      }
    }
  }

  lemma {:induction false} SameMany(t: Ty, n: nat, input: seq<Byte>, c: Cursor, d: Cursor)
    requires WellFormed(t) && Alike(c, d)
    ensures SameStep(LoadMany(t, n, input, c), LoadMany(t, n, input, d))
    decreases t, 4, n
  {
    hide Load, WellFormed;
    if n > 0 {
      SameLoad(t, input, c, d);
      if Load(t, input, c).out.Ok? {
        SameMany(t, n - 1, input, Load(t, input, c).cursor, Load(t, input, d).cursor);
      }
    }
  }

  lemma {:induction false} SameEntries(t: Ty, size: nat, isMap: bool, n: nat, got: seq<Val>, input: seq<Byte>, c: Cursor, d: Cursor)
    requires WellFormed(t) && Alike(c, d)
    ensures SameStep(LoadEntries(t, size, isMap, n, got, input, c), LoadEntries(t, size, isMap, n, got, input, d))
    decreases t, 4, n
  {
    hide Load, WellFormed, Present, Insert;
    if n > 0 {
      SameLoad(t, input, c, d);
      var a, b := Load(t, input, c), Load(t, input, d);
      if a.out.Ok? {
        var x, y := a.cursor, b.cursor;
        if !Present(got, a.out.value, isMap) {
          x, y := Create(x, size), Create(y, size);
        }
        SameEntries(t, size, isMap, n - 1, Insert(got, a.out.value, isMap), input, x, y);
      }
    }
  }

  lemma {:induction false} SameEach(ts: seq<Ty>, input: seq<Byte>, c: Cursor, d: Cursor)
    requires (forall i | 0 <= i < |ts| :: WellFormed(ts[i])) && Alike(c, d)
    ensures SameStep(LoadEach(ts, input, c), LoadEach(ts, input, d))
    decreases ts, 0, 0
  {
    hide Load, WellFormed;
    if ts != [] {
      SameLoad(ts[0], input, c, d);
      if Load(ts[0], input, c).out.Ok? {
        SameEach(ts[1..], input, Load(ts[0], input, c).cursor, Load(ts[0], input, d).cursor);
      }
    }
  }

  /** An associative container keeps, of the entries in the input, the first with each key, in order. */
  lemma {:induction false} FirstEntriesKept(t: Ty, size: nat, isMap: bool, n: nat, before: seq<Val>, input: seq<Byte>, c: Cursor, d: Cursor)
    requires WellFormed(t) && Alike(c, d) && LoadMany(t, n, input, c).out.Ok?
    ensures var all := LoadMany(t, n, input, c);
            var r := LoadEntries(t, size, isMap, n, Firsts(before, isMap), input, d);
            r.out == Ok(Firsts(before + all.out.value, isMap)) && r.cursor.offset == all.cursor.offset
    decreases n
  {
    hide Load, WellFormed, Firsts, Insert, Present;
    if n == 0 {
      assert before + [] == before;
    } else {
      var head := Load(t, input, c);
      SameLoad(t, input, c, d);
      EntryLoaded(t, size, isMap, Firsts(before, isMap), n, input, d);
      FirstsNext(before, head.out.value, isMap);
      var rest := LoadMany(t, n - 1, input, head.cursor);
      assert before + ([head.out.value] + rest.out.value) == before + [head.out.value] + rest.out.value;
      var next := Load(t, input, d).cursor;
      var e := if Present(Firsts(before, isMap), head.out.value, isMap) then next else Create(next, size);
      FirstEntriesKept(t, size, isMap, n - 1, before + [head.out.value], input, head.cursor, e);
    }
  }
}
