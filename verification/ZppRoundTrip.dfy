/** Loading inverts saving, for every type and value, wherever the bytes lie in the input and whatever follows. */
module ZppRoundTrip {
  import Arithmetic
  import opened Bytes
  import opened ZppFormat

  predicate At(input: seq<Byte>, offset: nat, bytes: seq<Byte>)
  {
    offset + |bytes| <= |input| && input[offset..offset + |bytes|] == bytes
  }

  lemma AtSplit(input: seq<Byte>, offset: nat, a: seq<Byte>, b: seq<Byte>)
    requires At(input, offset, a + b)
    ensures At(input, offset, a) && At(input, offset + |a|, b)
  {
    assert a == (a + b)[..|a|] && b == (a + b)[|a|..];
  }

  // Loading x consumed len bytes and exactly the storage x needs, or the budget did not cover that storage.
  ghost predicate Recovers<T>(r: Step<T>, x: T, c: Cursor, len: nat, spent: nat, created: nat)
  {
    if spent <= c.budget then r == Step(Ok(x), Cursor(c.offset + len, c.budget - spent, c.charged + spent, c.created + created))
    else r.out == Err(OutOfRange)
  }

  lemma {:induction false} ScalarStorage(t: Ty, vs: seq<Val>)
    requires t.Scalar? && forall i | 0 <= i < |vs| :: Typed(t, vs[i])
    ensures StorageAll(t, vs) == 0
  {
    if vs != [] {
      ScalarStorage(t, vs[1..]);
    }
  }

  /** The block form of a container of scalars writes the same bytes as saving its elements one by one. */
  lemma {:induction false} ImageIsSaveAll(t: Ty, vs: seq<Val>)
    requires WellFormed(t) && t.Scalar? && forall i | 0 <= i < |vs| :: Typed(t, vs[i])
    ensures SaveAll(t, vs) == Saved(Image(t, vs), true)
  {
    if vs != [] {
      ImageIsSaveAll(t, vs[1..]);
      ImageUnfold(t, vs);
    }
  }

  lemma ImageAt(t: Ty, vs: seq<Val>, k: nat)
    requires WellFormed(t) && t.Scalar? && k < |vs| * t.width && forall i | 0 <= i < |vs| :: Typed(t, vs[i])
    ensures 0 <= k / t.width < |vs| && Image(t, vs)[k] == ScalarImage(t, vs[k / t.width])[k % t.width]
  {
    hide ScalarImage, Typed;
    Arithmetic.Row(|vs|, t.width, k);
  }

  lemma ImageUnfold(t: Ty, vs: seq<Val>)
    requires WellFormed(t) && t.Scalar? && vs != [] && forall i | 0 <= i < |vs| :: Typed(t, vs[i])
    ensures Image(t, vs) == ScalarImage(t, vs[0]) + Image(t, vs[1..])
  {
    hide Image, ScalarImage, Typed;
    var w := t.width;
    var first, rest := ScalarImage(t, vs[0]), Image(t, vs[1..]);
    Arithmetic.Next(|vs| - 1, w);
    forall k | 0 <= k < |vs| * w
      ensures Image(t, vs)[k] == (first + rest)[k]
    {
      ImageAt(t, vs, k);
      if k >= w {
        Arithmetic.RowBack(w, k);
        ImageAt(t, vs[1..], k - w);
      } else {
        Arithmetic.RowFirst(w, k);
      }
    }
  }

  lemma {:induction false} ElementsOfImage(t: Ty, vs: seq<Val>)
    requires WellFormed(t) && t.Scalar? && forall i | 0 <= i < |vs| :: Typed(t, vs[i])
    ensures Elements(t, |vs|, Image(t, vs)) == vs
  {
    hide Image, ScalarImage, Typed, Value, Unwrap;
    if vs != [] {
      var image, first, rest := Image(t, vs), ScalarImage(t, vs[0]), Image(t, vs[1..]);
      Arithmetic.Next(|vs| - 1, t.width);
      ImageUnfold(t, vs);
      ElementsOfImage(t, vs[1..]);
      ScalarRecovered(t, vs[0]);
      assert image[..t.width] == first && image[t.width..] == rest;
      assert [vs[0]] + vs[1..] == vs;
    }
  }

  lemma ScalarRecovered(t: Ty, v: Val)
    requires t.Scalar? && Typed(t, v)
    ensures VInt(Unwrap(Value(ScalarImage(t, v)), t.width, t.signed)) == v
  {
    ValueOfLittle(Wrap(v.i, t.width, t.signed), t.width);
  }

  lemma ReadAt(input: seq<Byte>, c: Cursor, bytes: seq<Byte>)
    requires At(input, c.offset, bytes)
    ensures Read(input, c, |bytes|) == Step(Ok(bytes), c.(offset := c.offset + |bytes|))
  {
  }

  lemma {:induction false} LoadSaved(t: Ty, v: Val, input: seq<Byte>, c: Cursor)
    requires WellFormed(t) && Typed(t, v) && Fits(t, v) && Save(t, v).ok
    requires At(input, c.offset, Save(t, v).bytes)
    ensures Recovers(Load(t, input, c), v, c, |Save(t, v).bytes|, Storage(t, v), Storage(t, v))
    decreases t, 3, 0
  {
    hide WellFormed, Typed, Fits, Save, Load, Storage, At, Recovers;
    match t
    case Scalar(_, _) => LoadSavedScalar(t, v, input, c);
    case Vec(_, _, _, _) => LoadSavedVec(t, v, input, c);
    case Assoc(_, _, _, _) => LoadSavedAssoc(t, v, input, c);
    case Array(_, _) => LoadSavedArray(t, v, input, c);
    case Tuple(_) => LoadSavedTuple(t, v, input, c);
    case Opt(_) => LoadSavedOpt(t, v, input, c);
    case Variant(_) => LoadSavedVariant(t, v, input, c);
  }

  lemma LoadSavedTuple(t: Ty, v: Val, input: seq<Byte>, c: Cursor)
    requires t.Tuple? && WellFormed(t) && Typed(t, v) && Fits(t, v) && Save(t, v).ok
    requires At(input, c.offset, Save(t, v).bytes)
    ensures Recovers(Load(t, input, c), v, c, |Save(t, v).bytes|, Storage(t, v), Storage(t, v))
    decreases t.items, 5, 0
  {
    hide LoadEach, SaveEach, StorageEach, At;
    LoadSavedEach(t.items, v.vs, input, c);
  }

  lemma LoadSavedScalar(t: Ty, v: Val, input: seq<Byte>, c: Cursor)
    requires t.Scalar? && WellFormed(t) && Typed(t, v)
    requires At(input, c.offset, Save(t, v).bytes)
    ensures Recovers(Load(t, input, c), v, c, |Save(t, v).bytes|, Storage(t, v), Storage(t, v))
  {
    hide Value, Unwrap, ScalarImage;
    ScalarRecovered(t, v);
    ReadAt(input, c, ScalarImage(t, v));
  }

  lemma LoadSavedSize(n: nat, sw: nat, input: seq<Byte>, c: Cursor, rest: seq<Byte>)
    requires n < Pow256(sw) && At(input, c.offset, Little(n, sw) + rest)
    ensures Read(input, c, sw) == Step(Ok(Little(n, sw)), c.(offset := c.offset + sw)) && Value(Little(n, sw)) == n
    ensures At(input, c.offset + sw, rest)
  {
    AtSplit(input, c.offset, Little(n, sw), rest);
    ReadAt(input, c, Little(n, sw));
    ValueOfLittle(n, sw);
  }

  lemma LoadSavedImage(e: Ty, vs: seq<Val>, input: seq<Byte>, c: Cursor)
    requires WellFormed(e) && e.Scalar? && forall i | 0 <= i < |vs| :: Typed(e, vs[i])
    requires At(input, c.offset, Image(e, vs))
    ensures LoadImage(e, |vs|, input, c) == Step(Ok(vs), c.(offset := c.offset + |vs| * e.width))
  {
    ElementsOfImage(e, vs);
    ReadAt(input, c, Image(e, vs));
  }

  lemma LoadSavedVec(t: Ty, v: Val, input: seq<Byte>, c: Cursor)
    requires t.Vec? && WellFormed(t) && Typed(t, v) && Fits(t, v) && Save(t, v).ok
    requires At(input, c.offset, Save(t, v).bytes)
    ensures Recovers(Load(t, input, c), v, c, |Save(t, v).bytes|, Storage(t, v), Storage(t, v))
    decreases t.elem, 6, 0
  {
    hide WellFormed, Typed, Fits, Save, Load, Storage, At, Recovers;
    if t.contiguous && t.elem.Scalar? {
      LoadSavedFlat(t, v, input, c);
    } else {
      LoadSavedItems(t, v, input, c);
    }
  }

  lemma LoadSavedFlat(t: Ty, v: Val, input: seq<Byte>, c: Cursor)
    requires t.Vec? && WellFormed(t) && Typed(t, v) && Fits(t, v) && t.contiguous && t.elem.Scalar?
    requires Save(t, v).ok && At(input, c.offset, Save(t, v).bytes)
    ensures Recovers(Load(t, input, c), v, c, |Save(t, v).bytes|, Storage(t, v), Storage(t, v))
  {
    hide Image, LoadBlock, At, StorageAll, Little, Value, SaveAll;
    assert v.vs[..|v.vs|] == v.vs;
    LoadSavedSize(|v.vs|, t.sizeWidth, input, c, Image(t.elem, v.vs));
    ScalarStorage(t.elem, v.vs);
    LoadSavedBlock(t.elem, v.vs, input, c.(offset := c.offset + t.sizeWidth));
  }

  lemma LoadSavedItems(t: Ty, v: Val, input: seq<Byte>, c: Cursor)
    requires t.Vec? && WellFormed(t) && Typed(t, v) && Fits(t, v) && !(t.contiguous && t.elem.Scalar?)
    requires Save(t, v).ok && At(input, c.offset, Save(t, v).bytes)
    ensures Recovers(Load(t, input, c), v, c, |Save(t, v).bytes|, Storage(t, v), Storage(t, v))
    decreases t.elem, 5, 0
  {
    hide SaveAll, StorageAll, LoadMany, At, Little, Value;
    var n := |v.vs|;
    var bytes := n * t.itemSize;
    Arithmetic.Natural(n, t.itemSize);
    LoadSavedSize(n, t.sizeWidth, input, c, SaveAll(t.elem, v.vs).bytes);
    var c1 := c.(offset := c.offset + t.sizeWidth);
    if bytes <= c.budget {
      var c2 := Create(Spend(c1, bytes), bytes);
      assert Load(t, input, c) == AsList(LoadMany(t.elem, n, input, c2));
      LoadSavedMany(t.elem, v.vs, input, c2);
    }
  }

  lemma LoadSavedBlock(e: Ty, vs: seq<Val>, input: seq<Byte>, c: Cursor)
    requires WellFormed(e) && e.Scalar? && forall i | 0 <= i < |vs| :: Typed(e, vs[i])
    requires At(input, c.offset, Image(e, vs))
    ensures Recovers(LoadBlock(e, e.width, |vs|, input, c), VList(vs), c, |vs| * e.width, |vs| * e.width, |vs| * e.width)
  {
    var bytes := |vs| * e.width;
    if bytes <= c.budget {
      LoadSavedImage(e, vs, input, Create(Spend(c, bytes), bytes));
    }
  }

  lemma LoadSavedAssoc(t: Ty, v: Val, input: seq<Byte>, c: Cursor)
    requires t.Assoc? && WellFormed(t) && Typed(t, v) && Fits(t, v) && Save(t, v).ok
    requires At(input, c.offset, Save(t, v).bytes)
    ensures Recovers(Load(t, input, c), v, c, |Save(t, v).bytes|, Storage(t, v), Storage(t, v))
    decreases t.item, 5, 0
  {
    hide SaveAll, StorageAll, LoadEntries, At, Little, Value, DistinctKeys;
    var n := |v.vs|;
    var bytes := n * t.itemSize;
    Arithmetic.Natural(n, t.itemSize);
    LoadSavedSize(n, t.sizeWidth, input, c, SaveAll(t.item, v.vs).bytes);
    var c1 := c.(offset := c.offset + t.sizeWidth);
    if bytes <= c.budget {
      assert [] + v.vs == v.vs;
      assert Load(t, input, c) == AsList(LoadEntries(t.item, t.itemSize, t.isMap, n, [], input, Spend(c1, bytes)));
      LoadSavedEntries(t.item, t.itemSize, t.isMap, [], v.vs, input, Spend(c1, bytes));
    }
  }

  lemma LoadSavedArray(t: Ty, v: Val, input: seq<Byte>, c: Cursor)
    requires t.Array? && WellFormed(t) && Typed(t, v) && Fits(t, v) && Save(t, v).ok
    requires At(input, c.offset, Save(t, v).bytes)
    ensures Recovers(Load(t, input, c), v, c, |Save(t, v).bytes|, Storage(t, v), Storage(t, v))
    decreases t.elem, 5, 0
  {
    if t.elem.Scalar? {
      LoadSavedImage(t.elem, v.vs, input, c);
      ScalarStorage(t.elem, v.vs);
    } else {
      LoadSavedMany(t.elem, v.vs, input, c);
    }
  }

  lemma LoadSavedOpt(t: Ty, v: Val, input: seq<Byte>, c: Cursor)
    requires t.Opt? && WellFormed(t) && Typed(t, v) && Fits(t, v) && Save(t, v).ok
    requires At(input, c.offset, Save(t, v).bytes)
    ensures Recovers(Load(t, input, c), v, c, |Save(t, v).bytes|, Storage(t, v), Storage(t, v))
    decreases t.elem, 5, 0
  {
    if v.VSome? {
      AtSplit(input, c.offset, [1], Save(t.elem, v.v).bytes);
      ReadAt(input, c, [1]);
      LoadSaved(t.elem, v.v, input, c.(offset := c.offset + 1));
    } else {
      ReadAt(input, c, [0]);
    }
  }

  lemma LoadSavedVariant(t: Ty, v: Val, input: seq<Byte>, c: Cursor)
    requires t.Variant? && WellFormed(t) && Typed(t, v) && Fits(t, v) && Save(t, v).ok
    requires At(input, c.offset, Save(t, v).bytes)
    ensures Recovers(Load(t, input, c), v, c, |Save(t, v).bytes|, Storage(t, v), Storage(t, v))
    decreases t.alts, 5, 0
  {
    AtSplit(input, c.offset, [v.index], Save(t.alts[v.index], v.v).bytes);
    ReadAt(input, c, [v.index]);
    LoadSaved(t.alts[v.index], v.v, input, c.(offset := c.offset + 1));
  }

  // A value recovered and then the values behind it.
  lemma RecoversCons(head: Step<Val>, tail: Step<seq<Val>>, whole: Step<seq<Val>>, x: Val, xs: seq<Val>, c: Cursor,
                     len: nat, spent: nat, lens: nat, spents: nat)
    requires Recovers(head, x, c, len, spent, spent)
    requires head.out.Err? ==> whole == Step(Err(head.out.error), head.cursor)
    requires head.out.Ok? ==> Recovers(tail, xs, head.cursor, lens, spents, spents) &&
                              whole == if tail.out.Err? then tail else Step(Ok([head.out.value] + tail.out.value), tail.cursor)
    ensures Recovers(whole, [x] + xs, c, len + lens, spent + spents, spent + spents)
  {
  }

  // Saving a list is saving its first value and then the others.
  lemma SavedCons(t: Ty, vs: seq<Val>)
    requires WellFormed(t) && vs != [] && (forall i | 0 <= i < |vs| :: Typed(t, vs[i])) && SaveAll(t, vs).ok
    ensures Save(t, vs[0]).ok && SaveAll(t, vs[1..]).ok
    ensures SaveAll(t, vs).bytes == Save(t, vs[0]).bytes + SaveAll(t, vs[1..]).bytes
    ensures StorageAll(t, vs) == Storage(t, vs[0]) + StorageAll(t, vs[1..]) && [vs[0]] + vs[1..] == vs
  {
    hide Save, Storage, Typed, WellFormed;
  }

  // The encodings of fitting values stand at the offset.
  predicate SavedAt(t: Ty, vs: seq<Val>, input: seq<Byte>, c: Cursor)
  {
    && WellFormed(t) && (forall i | 0 <= i < |vs| :: Typed(t, vs[i]) && Fits(t, vs[i]))
    && SaveAll(t, vs).ok && At(input, c.offset, SaveAll(t, vs).bytes)
  }

  ghost predicate RecoversMany(t: Ty, vs: seq<Val>, input: seq<Byte>, c: Cursor)
    requires SavedAt(t, vs, input, c)
  {
    Recovers(LoadMany(t, |vs|, input, c), vs, c, |SaveAll(t, vs).bytes|, StorageAll(t, vs), StorageAll(t, vs))
  }

  // Which is to say that the first encoding does, and the others behind it.
  lemma SavedAtCons(t: Ty, vs: seq<Val>, input: seq<Byte>, c: Cursor, next: Cursor)
    requires SavedAt(t, vs, input, c) && vs != []
    ensures Typed(t, vs[0]) && Fits(t, vs[0]) && Save(t, vs[0]).ok && At(input, c.offset, Save(t, vs[0]).bytes)
    ensures next.offset == c.offset + |Save(t, vs[0]).bytes| ==> SavedAt(t, vs[1..], input, next)
  {
    hide Save, SaveAll, StorageAll, Storage, Typed, Fits, WellFormed, At;
    SavedCons(t, vs);
    AtSplit(input, c.offset, Save(t, vs[0]).bytes, SaveAll(t, vs[1..]).bytes);
  }

  lemma ManyCons(t: Ty, vs: seq<Val>, input: seq<Byte>, c: Cursor)
    requires SavedAt(t, vs, input, c) && vs != [] && Typed(t, vs[0]) && Save(t, vs[0]).ok
    requires var head := Load(t, input, c);
             && Recovers(head, vs[0], c, |Save(t, vs[0]).bytes|, Storage(t, vs[0]), Storage(t, vs[0]))
             && (head.out.Ok? ==> SavedAt(t, vs[1..], input, head.cursor) && RecoversMany(t, vs[1..], input, head.cursor))
    ensures RecoversMany(t, vs, input, c)
  {
    hide Save, Load, Storage, Typed, Fits, WellFormed, At, Recovers, SaveAll, StorageAll;
    SavedCons(t, vs);
    var head := Load(t, input, c);
    RecoversCons(head, LoadMany(t, |vs| - 1, input, head.cursor), LoadMany(t, |vs|, input, c), vs[0], vs[1..], c,
                 |Save(t, vs[0]).bytes|, Storage(t, vs[0]), |SaveAll(t, vs[1..]).bytes|, StorageAll(t, vs[1..]));
  }

  lemma {:induction false} LoadSavedMany(t: Ty, vs: seq<Val>, input: seq<Byte>, c: Cursor)
    requires SavedAt(t, vs, input, c)
    ensures RecoversMany(t, vs, input, c)
    decreases t, 4, |vs|
  {
    hide Save, Load, Storage, Typed, Fits, WellFormed, At;
    if vs != [] {
      hide Recovers, SavedAt, RecoversMany;
      var head := Load(t, input, c);
      SavedAtCons(t, vs, input, c, head.cursor);
      LoadSaved(t, vs[0], input, c);
      if head.out.Ok? {
        CursorMoved(head, vs[0], c, |Save(t, vs[0]).bytes|, Storage(t, vs[0]), Storage(t, vs[0]));
        LoadSavedMany(t, vs[1..], input, head.cursor);
      }
      ManyCons(t, vs, input, c);
    }
  }

  lemma CursorMoved<T>(r: Step<T>, x: T, c: Cursor, len: nat, spent: nat, created: nat)
    requires Recovers(r, x, c, len, spent, created) && r.out.Ok?
    ensures r.out.value == x && spent <= c.budget && r.cursor.offset == c.offset + len
  {
  }

  // The next saved entry has a new key.
  lemma NewKey(got: seq<Val>, vs: seq<Val>, isMap: bool)
    requires vs != [] && DistinctKeys(got + vs, isMap)
    ensures !Present(got, vs[0], isMap) && got + [vs[0]] + vs[1..] == got + vs
    ensures Insert(got, vs[0], isMap) == got + [vs[0]]
  {
    hide Key;
    assert (got + vs)[|got|] == vs[0];
    assert forall i | 0 <= i < |got| :: (got + vs)[i] == got[i];
  }

  // Loading one entry, which is created if its key is new, and then the rest.
  lemma EntryLoaded(t: Ty, size: nat, isMap: bool, got: seq<Val>, n: nat, input: seq<Byte>, c: Cursor)
    requires WellFormed(t) && n > 0
    ensures var head := Load(t, input, c);
            && (head.out.Err? ==> LoadEntries(t, size, isMap, n, got, input, c) == Step(Err(head.out.error), head.cursor))
            && (head.out.Ok? && !Present(got, head.out.value, isMap) ==>
                  LoadEntries(t, size, isMap, n, got, input, c) ==
                  LoadEntries(t, size, isMap, n - 1, Insert(got, head.out.value, isMap), input, Create(head.cursor, size)))
            && (head.out.Ok? && Present(got, head.out.value, isMap) ==>
                  LoadEntries(t, size, isMap, n, got, input, c) ==
                  LoadEntries(t, size, isMap, n - 1, Insert(got, head.out.value, isMap), input, head.cursor))
  {
    hide Load, Present, Insert, WellFormed;
  }

  // An entry recovered and created, and then the entries behind it.
  lemma RecoversEntry(head: Step<Val>, whole: Step<seq<Val>>, x: Val, all: seq<Val>, c: Cursor, size: nat,
                      len: nat, spent: nat, lens: nat, spents: nat, creates: nat)
    requires Recovers(head, x, c, len, spent, spent)
    requires head.out.Err? ==> whole == Step(Err(head.out.error), head.cursor)
    requires head.out.Ok? ==> Recovers(whole, all, Create(head.cursor, size), lens, spents, creates)
    ensures Recovers(whole, all, c, len + lens, spent + spents, size + spent + creates)
  {
  }

  ghost predicate RecoversEntries(t: Ty, size: nat, isMap: bool, got: seq<Val>, vs: seq<Val>, input: seq<Byte>, c: Cursor)
    requires SavedAt(t, vs, input, c)
  {
    Recovers(LoadEntries(t, size, isMap, |vs|, got, input, c), got + vs, c, |SaveAll(t, vs).bytes|,
             StorageAll(t, vs), Created(|vs|, size) + StorageAll(t, vs))
  }

  lemma EntriesCons(t: Ty, size: nat, isMap: bool, got: seq<Val>, vs: seq<Val>, input: seq<Byte>, c: Cursor)
    requires SavedAt(t, vs, input, c) && vs != [] && DistinctKeys(got + vs, isMap) && Typed(t, vs[0]) && Save(t, vs[0]).ok
    requires var head := Load(t, input, c);
             && Recovers(head, vs[0], c, |Save(t, vs[0]).bytes|, Storage(t, vs[0]), Storage(t, vs[0]))
             && (head.out.Ok? ==>
                   && SavedAt(t, vs[1..], input, Create(head.cursor, size))
                   && RecoversEntries(t, size, isMap, got + [vs[0]], vs[1..], input, Create(head.cursor, size)))
    ensures RecoversEntries(t, size, isMap, got, vs, input, c)
  {
    hide Save, Load, Storage, Typed, Fits, WellFormed, At, Recovers, SaveAll, StorageAll, LoadEntries, Present, Insert,
      DistinctKeys, Created;
    SavedCons(t, vs);
    NewKey(got, vs, isMap);
    EntryLoaded(t, size, isMap, got, |vs|, input, c);
    var head := Load(t, input, c);
    if head.out.Ok? {
      CursorMoved(head, vs[0], c, |Save(t, vs[0]).bytes|, Storage(t, vs[0]), Storage(t, vs[0]));
    }
    RecoversEntry(head, LoadEntries(t, size, isMap, |vs|, got, input, c), vs[0], got + vs, c, size,
                  |Save(t, vs[0]).bytes|, Storage(t, vs[0]), |SaveAll(t, vs[1..]).bytes|, StorageAll(t, vs[1..]),
                  Created(|vs| - 1, size) + StorageAll(t, vs[1..]));
    CreatedNext(|vs| - 1, size);
  }

  lemma {:induction false} LoadSavedEntries(t: Ty, size: nat, isMap: bool, got: seq<Val>, vs: seq<Val>,
                                            input: seq<Byte>, c: Cursor)
    requires SavedAt(t, vs, input, c) && DistinctKeys(got + vs, isMap)
    ensures RecoversEntries(t, size, isMap, got, vs, input, c)
    decreases t, 4, |vs|
  {
    hide Save, Load, Storage, Typed, Fits, WellFormed, At, DistinctKeys;
    if vs == [] {
      assert got + vs == got;
    } else {
      hide Recovers, SavedAt, RecoversEntries;
      var head := Load(t, input, c);
      SavedAtCons(t, vs, input, c, Create(head.cursor, size));
      LoadSaved(t, vs[0], input, c);
      NewKey(got, vs, isMap);
      if head.out.Ok? {
        CursorMoved(head, vs[0], c, |Save(t, vs[0]).bytes|, Storage(t, vs[0]), Storage(t, vs[0]));
        LoadSavedEntries(t, size, isMap, got + [vs[0]], vs[1..], input, Create(head.cursor, size));
      }
      EntriesCons(t, size, isMap, got, vs, input, c);
    }
  }

  // The storage of n entries.
  function Created(n: nat, size: nat): (bytes: nat)
    ensures bytes == n * size
  {
    Arithmetic.Natural(n, size);
    n * size
  }

  lemma CreatedNext(n: nat, size: nat)
    ensures Created(n + 1, size) == Created(n, size) + size
  {
    Arithmetic.Next(n, size);
  }

  lemma SavedEachCons(ts: seq<Ty>, vs: seq<Val>)
    requires |ts| == |vs| && ts != [] && (forall i | 0 <= i < |ts| :: WellFormed(ts[i]) && Typed(ts[i], vs[i]))
    requires SaveEach(ts, vs).ok
    ensures Save(ts[0], vs[0]).ok && SaveEach(ts[1..], vs[1..]).ok
    ensures SaveEach(ts, vs).bytes == Save(ts[0], vs[0]).bytes + SaveEach(ts[1..], vs[1..]).bytes
    ensures StorageEach(ts, vs) == Storage(ts[0], vs[0]) + StorageEach(ts[1..], vs[1..]) && [vs[0]] + vs[1..] == vs
  {
    hide Save, Storage, Typed, WellFormed;
  }

  lemma {:induction false} LoadSavedEach(ts: seq<Ty>, vs: seq<Val>, input: seq<Byte>, c: Cursor)
    requires |ts| == |vs|
    requires forall i | 0 <= i < |ts| :: WellFormed(ts[i]) && Typed(ts[i], vs[i]) && Fits(ts[i], vs[i])
    requires SaveEach(ts, vs).ok && At(input, c.offset, SaveEach(ts, vs).bytes)
    ensures Recovers(LoadEach(ts, input, c), vs, c, |SaveEach(ts, vs).bytes|, StorageEach(ts, vs), StorageEach(ts, vs))
    decreases ts, 0, 0
  {
    hide Save, Load, Storage, Typed, Fits, WellFormed, At;
    if ts != [] {
      hide Recovers, SaveEach, StorageEach;
      SavedEachCons(ts, vs);
      AtSplit(input, c.offset, Save(ts[0], vs[0]).bytes, SaveEach(ts[1..], vs[1..]).bytes);
      LoadSaved(ts[0], vs[0], input, c);
      var head := Load(ts[0], input, c);
      var tail := LoadEach(ts[1..], input, head.cursor);
      if head.out.Ok? {
        CursorMoved(head, vs[0], c, |Save(ts[0], vs[0]).bytes|, Storage(ts[0], vs[0]), Storage(ts[0], vs[0]));
        LoadSavedEach(ts[1..], vs[1..], input, head.cursor);
      }
      RecoversCons(head, tail, LoadEach(ts, input, c), vs[0], vs[1..], c, |Save(ts[0], vs[0]).bytes|,
                   Storage(ts[0], vs[0]), |SaveEach(ts[1..], vs[1..]).bytes|, StorageEach(ts[1..], vs[1..]));
    }
  }
}
