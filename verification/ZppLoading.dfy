/** What loading guarantees on arbitrary bytes, and the two theorems that tie loading to saving exactly. */
module ZppLoading {
  import Arithmetic
  import opened Bytes
  import opened ZppFormat
  import opened ZppRoundTrip

  // Loading moved the offset forward inside the input, the budget went down by exactly what was charged, and everything
  // created was charged, `credit` bytes of it before.
  ghost predicate Paid<T>(r: Step<T>, input: seq<Byte>, c: Cursor, credit: nat)
  {
    && c.offset <= r.cursor.offset <= |input|
    && c.created <= r.cursor.created
    && r.cursor.budget + r.cursor.charged == c.budget + c.charged && c.charged <= r.cursor.charged
    && r.cursor.created - c.created <= r.cursor.charged - c.charged + credit
  }

  predicate Sound(t: Ty, v: Val)
    requires WellFormed(t)
  {
    Typed(t, v) && Fits(t, v) && Save(t, v).ok
  }

  predicate AllSound(t: Ty, vs: seq<Val>)
    requires WellFormed(t)
  {
    forall i | 0 <= i < |vs| :: Sound(t, vs[i])
  }

  lemma {:induction false} SaveAllOk(t: Ty, vs: seq<Val>)
    requires WellFormed(t) && AllSound(t, vs)
    ensures SaveAll(t, vs).ok
  {
    hide Save, Typed, Fits;
    if vs != [] {
      assert Sound(t, vs[0]);
      assert forall i | 0 <= i < |vs[1..]| :: vs[1..][i] == vs[i + 1];
      SaveAllOk(t, vs[1..]);
    }
  }

  lemma {:induction false} StorageAppend(t: Ty, vs: seq<Val>, v: Val)
    requires WellFormed(t) && AllSound(t, vs) && Sound(t, v)
    ensures AllSound(t, vs + [v])
    ensures StorageAll(t, vs + [v]) == StorageAll(t, vs) + Storage(t, v)
  {
    hide Storage, Save, Typed, Fits;
    if vs == [] {
      assert vs + [v] == [v];
      assert [v][1..] == [];
    } else {
      assert Sound(t, vs[0]);
      assert forall i | 0 <= i < |vs[1..]| :: vs[1..][i] == vs[i + 1];
      StorageAppend(t, vs[1..], v);
      assert (vs + [v])[1..] == vs[1..] + [v];
    }
  }

  lemma ReadPaid(input: seq<Byte>, c: Cursor, n: nat)
    requires c.offset <= |input|
    ensures Paid(Read(input, c, n), input, c, 0) && Read(input, c, n).cursor.created == c.created
  {
  }

  // What loading guarantees, whether it succeeds or fails.
  ghost predicate LoadPaid(t: Ty, input: seq<Byte>, c: Cursor)
    requires WellFormed(t) && c.offset <= |input|
  {
    var r := Load(t, input, c);
    && Paid(r, input, c, 0)
    && (r.out.Ok? ==> Sound(t, r.out.value) && c.created + Storage(t, r.out.value) <= r.cursor.created)
  }

  /** Loading any type from any bytes stays inside the input and is paid for; what it returns is sound. */
  lemma {:induction false} LoadIsPaid(t: Ty, input: seq<Byte>, c: Cursor)
    requires WellFormed(t) && c.offset <= |input|
    ensures LoadPaid(t, input, c)
    decreases t, 3, 0
  {
    hide LoadPaid, WellFormed;
    match t
    case Scalar(_, _) => ScalarIsPaid(t, input, c);
    case Vec(_, _, _, _) => VecIsPaid(t, input, c);
    case Assoc(_, _, _, _) => AssocIsPaid(t, input, c);
    case Array(_, _) => ArrayIsPaid(t, input, c);
    case Tuple(_) => TupleIsPaid(t, input, c);
    case Opt(_) => OptIsPaid(t, input, c);
    case Variant(_) => VariantIsPaid(t, input, c);
  }

  lemma ScalarIsPaid(t: Ty, input: seq<Byte>, c: Cursor)
    requires t.Scalar? && WellFormed(t) && c.offset <= |input|
    ensures LoadPaid(t, input, c)
  {
    hide Value, Unwrap;
    ReadPaid(input, c, t.width);
  }

  lemma TupleIsPaid(t: Ty, input: seq<Byte>, c: Cursor)
    requires t.Tuple? && WellFormed(t) && c.offset <= |input|
    ensures LoadPaid(t, input, c)
    decreases t.items, 5, 0
  {
    hide LoadEach, SaveEach, StorageEach;
    EachIsPaid(t.items, input, c);
  }

  lemma OptIsPaid(t: Ty, input: seq<Byte>, c: Cursor)
    requires t.Opt? && WellFormed(t) && c.offset <= |input|
    ensures LoadPaid(t, input, c)
    decreases t.elem, 5, 0
  {
    ReadPaid(input, c, 1);
    var b := Read(input, c, 1);
    if b.out.Ok? {
      LoadIsPaid(t.elem, input, b.cursor);
    }
  }

  lemma VariantIsPaid(t: Ty, input: seq<Byte>, c: Cursor)
    requires t.Variant? && WellFormed(t) && c.offset <= |input|
    ensures LoadPaid(t, input, c)
    decreases t.alts, 5, 0
  {
    ReadPaid(input, c, 1);
    var b := Read(input, c, 1);
    if b.out.Ok? && b.out.value[0] < |t.alts| {
      LoadIsPaid(t.alts[b.out.value[0]], input, b.cursor);
    }
  }

  lemma ImageIsPaid(e: Ty, n: nat, input: seq<Byte>, c: Cursor)
    requires WellFormed(e) && e.Scalar? && c.offset <= |input|
    ensures var r := LoadImage(e, n, input, c);
            Paid(r, input, c, 0) && r.cursor.created == c.created &&
            (r.out.Ok? ==> |r.out.value| == n && AllSound(e, r.out.value) && StorageAll(e, r.out.value) == 0)
  {
    ReadPaid(input, c, n * e.width);
    var r := LoadImage(e, n, input, c);
    if r.out.Ok? {
      ScalarStorage(e, r.out.value);
    }
  }

  lemma ArrayIsPaid(t: Ty, input: seq<Byte>, c: Cursor)
    requires t.Array? && WellFormed(t) && c.offset <= |input|
    ensures LoadPaid(t, input, c)
    decreases t.elem, 5, 0
  {
    hide LoadMany, LoadImage, SaveAll, StorageAll;
    if t.elem.Scalar? {
      ImageIsPaid(t.elem, t.count, input, c);
    } else {
      ManyIsPaid(t.elem, t.count, input, c);
      var r := LoadMany(t.elem, t.count, input, c);
      if r.out.Ok? {
        SaveAllOk(t.elem, r.out.value);
      }
    }
  }

  lemma VecIsPaid(t: Ty, input: seq<Byte>, c: Cursor)
    requires t.Vec? && WellFormed(t) && c.offset <= |input|
    ensures LoadPaid(t, input, c)
    decreases t.elem, 6, 0
  {
    hide LoadPaid, WellFormed;
    if t.contiguous && t.elem.Scalar? {
      FlatIsPaid(t, input, c);
    } else {
      ItemsIsPaid(t, input, c);
    }
  }

  // A container of scalars moved as one block.
  lemma FlatIsPaid(t: Ty, input: seq<Byte>, c: Cursor)
    requires t.Vec? && WellFormed(t) && t.contiguous && t.elem.Scalar? && c.offset <= |input|
    ensures LoadPaid(t, input, c)
  {
    hide LoadBlock, SaveAll, StorageAll, Image, Value, Little, AllSound;
    var b := Read(input, c, t.sizeWidth);
    ReadPaid(input, c, t.sizeWidth);
    if b.out.Ok? {
      var n := Value(b.out.value);
      BlockIsPaid(t.elem, n, input, b.cursor);
      var r := LoadBlock(t.elem, t.itemSize, n, input, b.cursor);
      if r.out.Ok? {
        AllSoundTyped(t.elem, r.out.value.vs);
        ScalarStorage(t.elem, r.out.value.vs);
      }
    }
  }

  lemma AllSoundTyped(t: Ty, vs: seq<Val>)
    requires WellFormed(t) && AllSound(t, vs)
    ensures forall i | 0 <= i < |vs| :: Typed(t, vs[i]) && Fits(t, vs[i])
  {
    hide Typed, Fits, Save, WellFormed;
    forall i | 0 <= i < |vs| ensures Typed(t, vs[i]) && Fits(t, vs[i]) {
      assert Sound(t, vs[i]);
    }
  }

  lemma BlockIsPaid(e: Ty, n: nat, input: seq<Byte>, c: Cursor)
    requires WellFormed(e) && e.Scalar? && c.offset <= |input|
    ensures var r := LoadBlock(e, e.width, n, input, c);
            && Paid(r, input, c, 0)
            && (r.out.Ok? ==>
                  && r.out.value.VList? && |r.out.value.vs| == n && AllSound(e, r.out.value.vs)
                  && c.created + Created(n, e.width) <= r.cursor.created)
  {
    hide LoadImage, AllSound, StorageAll, WellFormed;
    var bytes := Created(n, e.width);
    if bytes <= c.budget {
      var c1 := Create(Spend(c, bytes), bytes);
      ImageIsPaid(e, n, input, c1);
      if n == 0 {
        NoneSound(e);
      }
    }
  }

  lemma NoneSound(e: Ty)
    requires WellFormed(e)
    ensures AllSound(e, [])
  {
  }

  // A container loaded item by item.
  lemma ItemsIsPaid(t: Ty, input: seq<Byte>, c: Cursor)
    requires t.Vec? && WellFormed(t) && !(t.contiguous && t.elem.Scalar?) && c.offset <= |input|
    ensures LoadPaid(t, input, c)
    decreases t.elem, 5, 0
  {
    hide LoadMany, SaveAll, StorageAll, Value, Little, AllSound, Image;
    var b := Read(input, c, t.sizeWidth);
    ReadPaid(input, c, t.sizeWidth);
    if b.out.Ok? {
      var n := Value(b.out.value);
      var bytes := Created(n, t.itemSize);
      if bytes <= b.cursor.budget {
        var c1 := Create(Spend(b.cursor, bytes), bytes);
        ManyIsPaid(t.elem, n, input, c1);
        var r := LoadMany(t.elem, n, input, c1);
        assert Load(t, input, c) == AsList(r);
        if r.out.Ok? {
          AllSoundTyped(t.elem, r.out.value);
          SaveAllOk(t.elem, r.out.value);
        }
      }
    }
  }

  lemma NoItems(t: Ty)
    ensures StorageAll(t, []) == 0
  {
  }

  lemma AssocIsPaid(t: Ty, input: seq<Byte>, c: Cursor)
    requires t.Assoc? && WellFormed(t) && c.offset <= |input|
    ensures LoadPaid(t, input, c)
    decreases t.item, 5, 0
  {
    hide LoadEntries, SaveAll, StorageAll, Value, Little, AllSound, DistinctKeys;
    var b := Read(input, c, t.sizeWidth);
    ReadPaid(input, c, t.sizeWidth);
    if b.out.Ok? {
      var n := Value(b.out.value);
      var bytes := Created(n, t.itemSize);
      if bytes <= b.cursor.budget {
        var c1 := Spend(b.cursor, bytes);
        NoItems(t.item);
        NoneSound(t.item);
        NoKeys(t.isMap);
        EntriesIsPaid(t.item, t.itemSize, t.isMap, n, [], input, c1);
        var r := LoadEntries(t.item, t.itemSize, t.isMap, n, [], input, c1);
        assert Load(t, input, c) == AsList(r);
        if r.out.Ok? {
          AllSoundTyped(t.item, r.out.value);
          SaveAllOk(t.item, r.out.value);
        }
      }
    }
  }

  lemma NoKeys(isMap: bool)
    ensures DistinctKeys([], isMap)
  {
  }

  lemma {:induction false} ManyIsPaid(t: Ty, n: nat, input: seq<Byte>, c: Cursor)
    requires WellFormed(t) && c.offset <= |input|
    ensures var r := LoadMany(t, n, input, c);
            Paid(r, input, c, 0) &&
            (r.out.Ok? ==> |r.out.value| == n && AllSound(t, r.out.value) &&
                           c.created + StorageAll(t, r.out.value) <= r.cursor.created)
    decreases t, 4, n
  {
    hide Load, Save, Storage, Typed, Fits, WellFormed;
    if n > 0 {
      LoadIsPaid(t, input, c);
      var head := Load(t, input, c);
      if head.out.Ok? {
        ManyIsPaid(t, n - 1, input, head.cursor);
        var tail := LoadMany(t, n - 1, input, head.cursor);
        if tail.out.Ok? {
          assert ([head.out.value] + tail.out.value)[1..] == tail.out.value;
        }
      }
    }
  }

  // What loading the remaining n entries behind `got` guarantees, their storage having been charged.
  ghost predicate EntriesPaid(t: Ty, size: nat, isMap: bool, n: nat, got: seq<Val>, input: seq<Byte>, c: Cursor)
    requires WellFormed(t) && AllSound(t, got)
  {
    var r := LoadEntries(t, size, isMap, n, got, input, c);
    && Paid(r, input, c, Created(n, size))
    && (r.out.Ok? ==>
          && |got| <= |r.out.value| <= |got| + n && AllSound(t, r.out.value) && DistinctKeys(r.out.value, isMap)
          && c.created + Created(|r.out.value|, size) + StorageAll(t, r.out.value) <=
             r.cursor.created + Created(|got|, size) + StorageAll(t, got))
  }

  // An entry whose key is present is dropped, and what it created is paid for.
  lemma DroppedEntry(t: Ty, size: nat, isMap: bool, n: nat, got: seq<Val>, input: seq<Byte>, c: Cursor)
    requires WellFormed(t) && AllSound(t, got) && n > 0 && Load(t, input, c).out.Ok?
    requires Paid(Load(t, input, c), input, c, 0) && Present(got, Load(t, input, c).out.value, isMap)
    requires EntriesPaid(t, size, isMap, n - 1, got, input, Load(t, input, c).cursor)
    ensures EntriesPaid(t, size, isMap, n, got, input, c)
  {
    hide Load, LoadEntries, Present, AllSound, WellFormed, StorageAll, Created, DistinctKeys;
    EntryLoaded(t, size, isMap, got, n, input, c);
    PresentStays(got, Load(t, input, c).out.value, isMap);
    CreatedNext(n - 1, size);
  }

  lemma PresentStays(got: seq<Val>, entry: Val, isMap: bool)
    requires Present(got, entry, isMap)
    ensures Insert(got, entry, isMap) == got
  {
  }

  // An entry with a new key is created.
  lemma CreatedEntry(t: Ty, size: nat, isMap: bool, n: nat, got: seq<Val>, input: seq<Byte>, c: Cursor)
    requires WellFormed(t) && AllSound(t, got) && n > 0 && c.offset <= |input|
    requires Load(t, input, c).out.Ok? && LoadPaid(t, input, c) && !Present(got, Load(t, input, c).out.value, isMap)
    requires AllSound(t, got + [Load(t, input, c).out.value])
    requires EntriesPaid(t, size, isMap, n - 1, got + [Load(t, input, c).out.value], input, Create(Load(t, input, c).cursor, size))
    ensures EntriesPaid(t, size, isMap, n, got, input, c)
  {
    hide Load, LoadEntries, Present, AllSound, WellFormed, StorageAll, Storage, Created, DistinctKeys, Typed, Fits, Save;
    var entry := Load(t, input, c).out.value;
    EntryLoaded(t, size, isMap, got, n, input, c);
    InsertNew(got, entry, isMap);
    StorageAppend(t, got, entry);
    CreatedNext(n - 1, size);
    CreatedNext(|got|, size);
  }

  lemma InsertNew(got: seq<Val>, entry: Val, isMap: bool)
    requires !Present(got, entry, isMap)
    ensures Insert(got, entry, isMap) == got + [entry]
    ensures DistinctKeys(got, isMap) ==> DistinctKeys(got + [entry], isMap)
  {
    hide Key;
  }

  lemma {:induction false} EntriesIsPaid(t: Ty, size: nat, isMap: bool, n: nat, got: seq<Val>, input: seq<Byte>, c: Cursor)
    requires WellFormed(t) && c.offset <= |input| && AllSound(t, got) && DistinctKeys(got, isMap)
    ensures EntriesPaid(t, size, isMap, n, got, input, c)
    decreases t, 4, n
  {
    hide Load, WellFormed, AllSound, DistinctKeys, Present, Storage, Typed, Fits, Save;
    if n > 0 {
      hide LoadEntries, StorageAll, EntriesPaid;
      LoadIsPaid(t, input, c);
      var head := Load(t, input, c);
      if head.out.Err? {
        FailedEntry(t, size, isMap, n, got, input, c);
      } else if Present(got, head.out.value, isMap) {
        EntriesIsPaid(t, size, isMap, n - 1, got, input, head.cursor);
        DroppedEntry(t, size, isMap, n, got, input, c);
      } else {
        StorageAppend(t, got, head.out.value);
        InsertNew(got, head.out.value, isMap);
        EntriesIsPaid(t, size, isMap, n - 1, got + [head.out.value], input, Create(head.cursor, size));
        CreatedEntry(t, size, isMap, n, got, input, c);
      }
    }
  }

  lemma FailedEntry(t: Ty, size: nat, isMap: bool, n: nat, got: seq<Val>, input: seq<Byte>, c: Cursor)
    requires WellFormed(t) && AllSound(t, got) && n > 0 && Load(t, input, c).out.Err?
    requires Paid(Load(t, input, c), input, c, 0)
    ensures EntriesPaid(t, size, isMap, n, got, input, c)
  {
    hide Load, LoadEntries, AllSound, WellFormed, StorageAll;
    EntryLoaded(t, size, isMap, got, n, input, c);
  }

  lemma {:induction false} EachIsPaid(ts: seq<Ty>, input: seq<Byte>, c: Cursor)
    requires (forall i | 0 <= i < |ts| :: WellFormed(ts[i])) && c.offset <= |input|
    ensures var r := LoadEach(ts, input, c);
            Paid(r, input, c, 0) &&
            (r.out.Ok? ==> |r.out.value| == |ts| && (forall i | 0 <= i < |ts| :: Sound(ts[i], r.out.value[i])) &&
                           SaveEach(ts, r.out.value).ok &&
                           c.created + StorageEach(ts, r.out.value) <= r.cursor.created)
    decreases ts, 0, 0
  {
    hide Load, Save, Storage, Typed, Fits, WellFormed;
    if ts != [] {
      LoadIsPaid(ts[0], input, c);
      var head := Load(ts[0], input, c);
      if head.out.Ok? {
        EachIsPaid(ts[1..], input, head.cursor);
        var tail := LoadEach(ts[1..], input, head.cursor);
        if tail.out.Ok? {
          assert ([head.out.value] + tail.out.value)[1..] == tail.out.value;
        }
      }
    }
  }

  // ---------------------------------------------------------------------------------------------------------

  // The archive after `len` bytes were read and `storage` bytes charged and created.
  function After(c: Cursor, len: nat, storage: nat): (r: Cursor)
    requires storage <= c.budget
  {
    Cursor(c.offset + len, c.budget - storage, c.charged + storage, c.created + storage)
  }

  /** Saving followed by loading gives the value back and stops at the suffix, exactly for the values that fit. */
  lemma RoundTrip(t: Ty, v: Val, before: seq<Byte>, after: seq<Byte>, c: Cursor)
    requires WellFormed(t) && Typed(t, v) && Save(t, v).ok
    requires c.offset == |before| && Storage(t, v) <= c.budget
    ensures var bytes := Save(t, v).bytes;
            Fits(t, v) <==> Load(t, before + bytes + after, c) ==
                            Step(Ok(v), After(c, |bytes|, Storage(t, v)))
  {
    hide Load, Save, Storage, Typed, Fits, WellFormed;
    var bytes := Save(t, v).bytes;
    var input := before + bytes + after;
    assert input[|before|..|before| + |bytes|] == bytes;
    if Fits(t, v) {
      LoadSaved(t, v, input, c);
    } else {
      LoadIsPaid(t, input, c);
    }
  }

  /** A value with a container that does not fit its size field is lost: no bytes load as it. */
  lemma OversizedIsLost(t: Ty, v: Val, input: seq<Byte>, c: Cursor)
    requires WellFormed(t) && !Fits(t, v) && c.offset <= |input|
    ensures Load(t, input, c).out != Ok(v)
  {
    LoadIsPaid(t, input, c);
  }

  /** What happens instead: 256 bytes counted by one byte are saved as an empty container. */
  lemma OversizedBecomesEmpty(v: Val, c: Cursor)
    requires v == VList(seq(256, _ => VInt(0))) && c.offset == 0
    ensures var t := Vec(Scalar(1, false), 1, 1, true);
            WellFormed(t) && Typed(t, v) && Save(t, v) == Saved([0], true) &&
            Load(t, Save(t, v).bytes, c).out == Ok(VList([]))
  {
    var t := Vec(Scalar(1, false), 1, 1, true);
    assert WellFormed(t.elem) && Pow256(1) == 256;
    assert Typed(t, v);
    assert Cast(256, 1) == 0;
    assert |Image(t.elem, v.vs[..0])| == 0;
    assert Little(0, 1) == [0];
    assert Value([0]) == 0 by {
      assert [0][1..] == [];
    }
    assert Read([0], c, 1) == Step(Ok([0]), c.(offset := 1));
  }

  lemma Prefixed(a: seq<Byte>, b: seq<Byte>)
    requires a <= b
    ensures [] + a + b[|a|..] == b && [] + b + [] == b
  {
  }

  /** No encoding of a type is a prefix of another one: a prefix is the same value. */
  lemma PrefixFree(t: Ty, v: Val, w: Val)
    requires WellFormed(t) && Sound(t, v) && Sound(t, w)
    requires Save(t, v).bytes <= Save(t, w).bytes
    ensures v == w
  {
    hide Load, Save, Storage, Typed, Fits, WellFormed, After;
    var a, b := Save(t, v).bytes, Save(t, w).bytes;
    var c := Cursor(0, Storage(t, v) + Storage(t, w), 0, 0);
    Prefixed(a, b);
    FirstLoaded(t, v, b[|a|..], c);
    FirstLoaded(t, w, [], c);
  }

  lemma FirstLoaded(t: Ty, v: Val, after: seq<Byte>, c: Cursor)
    requires WellFormed(t) && Sound(t, v) && c.offset == 0 && Storage(t, v) <= c.budget
    ensures Load(t, [] + Save(t, v).bytes + after, c).out == Ok(v)
  {
    hide Load, Save, Storage, Typed, Fits, WellFormed, After;
    RoundTrip(t, v, [], after, c);
  }

  // ---------------------------------------------------------------------------------------------------------

  // Types whose every value has one encoding. An optional accepts any non-zero flag byte, and an associative
  // container drops repeated keys, so those two are not.
  predicate Canonical(t: Ty)
  {
    match t
    case Scalar(_, _) => true
    case Vec(e, _, _, _) => Canonical(e)
    case Assoc(_, _, _, _) => false
    case Array(e, _) => Canonical(e)
    case Tuple(ts) => forall i | 0 <= i < |ts| :: Canonical(ts[i])
    case Opt(_) => false
    case Variant(ts) => forall i | 0 <= i < |ts| :: Canonical(ts[i])
  }

  function Consumed<T>(input: seq<Byte>, c: Cursor, r: Step<T>): (bytes: seq<Byte>)
    requires c.offset <= r.cursor.offset <= |input|
  {
    input[c.offset..r.cursor.offset]
  }

  /** Saving what was loaded writes back exactly the bytes that loading consumed. */
  lemma {:induction false} SaveLoaded(t: Ty, input: seq<Byte>, c: Cursor)
    requires WellFormed(t) && Canonical(t) && c.offset <= |input| && Load(t, input, c).out.Ok?
    ensures Paid(Load(t, input, c), input, c, 0) && Typed(t, Load(t, input, c).out.value)
    ensures Save(t, Load(t, input, c).out.value) == Saved(Consumed(input, c, Load(t, input, c)), true)
    decreases t, 3, 0
  {
    LoadIsPaid(t, input, c);
    match t
    case Scalar(w, _) => LittleOfValue(Read(input, c, w).out.value);
    case Vec(_, _, _, _) => SaveLoadedVec(t, input, c);
    case Array(e, n) =>
      if e.Scalar? {
        SaveLoadedImage(e, n, input, c);
      } else {
        SaveLoadedMany(e, n, input, c);
      }
    case Tuple(ts) => SaveLoadedEach(ts, input, c);
    case Variant(ts) => SaveLoadedVariant(t, input, c);
  }

  lemma ElementsCons(e: Ty, n: nat, block: seq<Byte>)
    requires WellFormed(e) && e.Scalar? && n > 0 && |block| == n * e.width
    ensures e.width <= |block| && |block[e.width..]| == (n - 1) * e.width
    ensures var vs := Elements(e, n, block);
            ScalarImage(e, vs[0]) == block[..e.width] && vs[1..] == Elements(e, n - 1, block[e.width..])
  {
    hide Pow256, Little, Value;
    Arithmetic.Next(n - 1, e.width);
    Arithmetic.Natural(n - 1, e.width);
    LittleOfValue(block[..e.width]);
  }

  lemma {:induction false} ImageOfElements(e: Ty, n: nat, block: seq<Byte>)
    requires WellFormed(e) && e.Scalar? && |block| == n * e.width
    ensures Image(e, Elements(e, n, block)) == block
  {
    hide Image, ScalarImage, Elements, Typed;
    if n > 0 {
      ElementsCons(e, n, block);
      ImageOfElements(e, n - 1, block[e.width..]);
      ImageUnfold(e, Elements(e, n, block));
      assert block[..e.width] + block[e.width..] == block;
    }
  }

  lemma SaveLoadedImage(e: Ty, n: nat, input: seq<Byte>, c: Cursor)
    requires WellFormed(e) && e.Scalar? && c.offset <= |input| && LoadImage(e, n, input, c).out.Ok?
    ensures Paid(LoadImage(e, n, input, c), input, c, 0)
    ensures Image(e, LoadImage(e, n, input, c).out.value) == Consumed(input, c, LoadImage(e, n, input, c))
  {
    ImageIsPaid(e, n, input, c);
    ImageOfElements(e, n, Read(input, c, n * e.width).out.value);
  }

  lemma SaveLoadedBlock(e: Ty, n: nat, input: seq<Byte>, c: Cursor)
    requires WellFormed(e) && e.Scalar? && c.offset <= |input| && LoadBlock(e, e.width, n, input, c).out.Ok?
    ensures var r := LoadBlock(e, e.width, n, input, c);
            r.out.value.VList? && |r.out.value.vs| == n && AllSound(e, r.out.value.vs) &&
            c.offset <= r.cursor.offset <= |input| && Image(e, r.out.value.vs) == Consumed(input, c, r)
  {
    if n == 0 {
      assert Image(e, []) == [];
    } else {
      var c1 := Create(Spend(c, n * e.width), n * e.width);
      ImageIsPaid(e, n, input, c1);
      SaveLoadedImage(e, n, input, c1);
    }
  }

  lemma SaveLoadedVec(t: Ty, input: seq<Byte>, c: Cursor)
    requires t.Vec? && WellFormed(t) && Canonical(t) && c.offset <= |input| && Load(t, input, c).out.Ok?
    requires Paid(Load(t, input, c), input, c, 0) && Typed(t, Load(t, input, c).out.value)
    ensures Save(t, Load(t, input, c).out.value) == Saved(Consumed(input, c, Load(t, input, c)), true)
    decreases t.elem, 6, 0
  {
    hide WellFormed, Canonical, Load, Save, Typed, Paid, Consumed;
    if t.contiguous && t.elem.Scalar? {
      SaveLoadedFlat(t, input, c);
    } else {
      SaveLoadedItems(t, input, c);
    }
  }

  lemma SaveLoadedFlat(t: Ty, input: seq<Byte>, c: Cursor)
    requires t.Vec? && WellFormed(t) && t.contiguous && t.elem.Scalar? && c.offset <= |input| && Load(t, input, c).out.Ok?
    requires Paid(Load(t, input, c), input, c, 0) && Typed(t, Load(t, input, c).out.value)
    ensures Save(t, Load(t, input, c).out.value) == Saved(Consumed(input, c, Load(t, input, c)), true)
  {
    hide LoadBlock, SaveAll, Image, Value, Little, AllSound;
    var b := Read(input, c, t.sizeWidth);
    var n := Value(b.out.value);
    LittleOfValue(b.out.value);
    SaveLoadedBlock(t.elem, n, input, b.cursor);
    var r := LoadBlock(t.elem, t.itemSize, n, input, b.cursor);
    assert Load(t, input, c) == r;
    assert r.out.value.vs[..n] == r.out.value.vs;
    ConsumedSplit(input, c.offset, b.cursor.offset, r.cursor.offset);
  }

  lemma SaveLoadedItems(t: Ty, input: seq<Byte>, c: Cursor)
    requires t.Vec? && WellFormed(t) && Canonical(t) && c.offset <= |input| && !(t.contiguous && t.elem.Scalar?)
    requires Load(t, input, c).out.Ok?
    requires Paid(Load(t, input, c), input, c, 0) && Typed(t, Load(t, input, c).out.value)
    ensures Save(t, Load(t, input, c).out.value) == Saved(Consumed(input, c, Load(t, input, c)), true)
    decreases t.elem, 5, 0
  {
    hide LoadMany, SaveAll, StorageAll, Image;
    var b := Read(input, c, t.sizeWidth);
    var n := Value(b.out.value);
    LittleOfValue(b.out.value);
    assert Affordable(b.cursor.budget, n, t.itemSize);
    Arithmetic.Natural(n, t.itemSize);
    var c1 := Create(Spend(b.cursor, n * t.itemSize), n * t.itemSize);
    var r := LoadMany(t.elem, n, input, c1);
    assert Load(t, input, c) == AsList(r);
    ManyIsPaid(t.elem, n, input, c1);
    SaveLoadedMany(t.elem, n, input, c1);
    ConsumedSplit(input, c.offset, c1.offset, r.cursor.offset);
  }

  lemma ConsumedSplit(input: seq<Byte>, a: nat, b: nat, c: nat)
    requires a <= b <= c <= |input|
    ensures input[a..c] == input[a..b] + input[b..c]
  {
  }

  lemma SaveLoadedVariant(t: Ty, input: seq<Byte>, c: Cursor)
    requires t.Variant? && WellFormed(t) && Canonical(t) && c.offset <= |input| && Load(t, input, c).out.Ok?
    requires Paid(Load(t, input, c), input, c, 0) && Typed(t, Load(t, input, c).out.value)
    ensures Save(t, Load(t, input, c).out.value) == Saved(Consumed(input, c, Load(t, input, c)), true)
    decreases t.alts, 5, 0
  {
    var b := Read(input, c, 1);
    var i := b.out.value[0];
    var r := Load(t.alts[i], input, b.cursor);
    LoadIsPaid(t.alts[i], input, b.cursor);
    SaveLoaded(t.alts[i], input, b.cursor);
    ConsumedSplit(input, c.offset, b.cursor.offset, r.cursor.offset);
    assert b.out.value == [i];
    assert Save(t, VAlt(i, r.out.value)) == Saved([i], true).Then(Save(t.alts[i], r.out.value));
  }

  lemma {:induction false} SaveLoadedMany(t: Ty, n: nat, input: seq<Byte>, c: Cursor)
    requires WellFormed(t) && Canonical(t) && c.offset <= |input| && LoadMany(t, n, input, c).out.Ok?
    ensures Paid(LoadMany(t, n, input, c), input, c, 0) && AllSound(t, LoadMany(t, n, input, c).out.value)
    ensures SaveAll(t, LoadMany(t, n, input, c).out.value) == Saved(Consumed(input, c, LoadMany(t, n, input, c)), true)
    decreases t, 4, n
  {
    hide Load, Save, Storage, Typed, Fits, WellFormed, Canonical, StorageAll;
    ManyIsPaid(t, n, input, c);
    if n > 0 {
      var head := Load(t, input, c);
      LoadIsPaid(t, input, c);
      SaveLoaded(t, input, c);
      SaveLoadedMany(t, n - 1, input, head.cursor);
      var tail := LoadMany(t, n - 1, input, head.cursor);
      ConsumedSplit(input, c.offset, head.cursor.offset, tail.cursor.offset);
      ConsCons(head.out.value, tail.out.value);
    }
  }

  lemma ConsCons(v: Val, vs: seq<Val>)
    ensures ([v] + vs)[1..] == vs && ([v] + vs)[0] == v
  {
  }

  lemma {:induction false} SaveLoadedEach(ts: seq<Ty>, input: seq<Byte>, c: Cursor)
    requires forall i | 0 <= i < |ts| :: WellFormed(ts[i]) && Canonical(ts[i])
    requires c.offset <= |input| && LoadEach(ts, input, c).out.Ok?
    ensures var r := LoadEach(ts, input, c);
            Paid(r, input, c, 0) && |r.out.value| == |ts| && (forall i | 0 <= i < |ts| :: Sound(ts[i], r.out.value[i])) &&
            SaveEach(ts, r.out.value) == Saved(Consumed(input, c, r), true)
    decreases ts, 0, 0
  {
    hide Load, Save, Storage, Typed, Fits, WellFormed, Canonical;
    EachIsPaid(ts, input, c);
    if ts != [] {
      var head := Load(ts[0], input, c);
      LoadIsPaid(ts[0], input, c);
      SaveLoaded(ts[0], input, c);
      SaveLoadedEach(ts[1..], input, head.cursor);
      var tail := LoadEach(ts[1..], input, head.cursor);
      assert ([head.out.value] + tail.out.value)[1..] == tail.out.value;
    }
  }

  /** For such a type the budget spent is exactly the element storage of the value that was loaded. */
  lemma SpentIsStorage(t: Ty, input: seq<Byte>, c: Cursor)
    requires WellFormed(t) && Canonical(t) && c.offset <= |input| && Load(t, input, c).out.Ok?
    ensures var r := Load(t, input, c);
            && Typed(t, r.out.value) && Storage(t, r.out.value) <= c.budget
            && r.cursor.budget == c.budget - Storage(t, r.out.value)
            && r.cursor.created == c.created + Storage(t, r.out.value)
  {
    hide Load, Save, Storage, Typed, Fits, WellFormed, Canonical;
    LoadIsPaid(t, input, c);
    SaveLoaded(t, input, c);
    var r := Load(t, input, c);
    var bytes := Consumed(input, c, r);
    var before, after := input[..c.offset], input[r.cursor.offset..];
    assert before + bytes + after == input;
    RoundTrip(t, r.out.value, before, after, c);
  }
}
