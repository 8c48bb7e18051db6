/** The archives of the zpp serializer: the loading and saving code over mutable buffers, refining ZppFormat. */
module ZppArchive {
  import Arithmetic
  import opened Bytes
  import opened ZppFormat

  /** memory_view_input_archive, with the overloads that load each kind of type through it. */
  class InputArchive {
    const input: seq<Byte>
    var offset: nat
    var budget: nat
    ghost var charged: nat
    ghost var created: nat

    ghost function State(): (c: Cursor)
      reads this
    {
      Cursor(offset, budget, charged, created)
    }

    constructor (input: seq<Byte>, budget: nat)
      ensures this.input == input && State() == Cursor(0, budget, 0, 0)
    {
      this.input := input;
      this.offset := 0;
      this.budget := budget;
      this.charged := 0;
      this.created := 0;
    }

    method ConsumeAllocation(count: nat, itemSize: nat) returns (ok: bool)
      modifies this`budget, this`charged
      ensures ok == (count * itemSize <= old(budget))
      ensures State() == if ok then Spend(old(State()), count * itemSize) else old(State())
    {
      Quotient(budget, count, itemSize);
      if itemSize != 0 && count > budget / itemSize {
        return false;
      }
      budget := budget - count * itemSize;
      charged := charged + count * itemSize;
      ok := true;
    }

    method Serialize(size: nat) returns (r: Outcome<seq<Byte>>)
      modifies this`offset
      ensures Step(r, State()) == Read(input, old(State()), size)
    {
      var remaining := if offset <= |input| then |input| - offset else 0;
      if size > remaining {
        return Err(OutOfRange);
      }
      r := Ok(if size == 0 then [] else input[offset..offset + size]);
      offset := offset + size;
    }

    method LoadItem(t: Ty) returns (r: Outcome<Val>)
      requires WellFormed(t)
      modifies this
      ensures Step(r, State()) == Load(t, input, old(State()))
      decreases t, 3, 0
    {
      hide Load, WellFormed;
      match t
      case Scalar(_, _) => r := LoadScalar(t);
      case Vec(_, _, _, _) => r := LoadVec(t);
      case Assoc(_, _, _, _) => r := LoadAssoc(t);
      case Array(_, _) => r := LoadArray(t);
      case Tuple(_) => r := LoadTuple(t);
      case Opt(_) => r := LoadOptional(t);
      case Variant(_) => r := LoadVariant(t);
    }

    method LoadScalar(t: Ty) returns (r: Outcome<Val>)
      requires t.Scalar? && WellFormed(t)
      modifies this
      ensures Step(r, State()) == Load(t, input, old(State()))
    {
      var b := Serialize(t.width);
      r := if b.Err? then Err(b.error) else Ok(VInt(Unwrap(Value(b.value), t.width, t.signed)));
    }

    method LoadArray(t: Ty) returns (r: Outcome<Val>)
      requires t.Array? && WellFormed(t)
      modifies this
      ensures Step(r, State()) == Load(t, input, old(State()))
      decreases t.elem, 5, 0
    {
      hide LoadImage, LoadMany;
      var vs;
      if t.elem.Scalar? {
        vs := LoadScalars(t.elem, t.count);
      } else {
        vs := LoadItems(t.elem, t.count);
      }
      r := if vs.Err? then Err(vs.error) else Ok(VList(vs.value));
    }

    method LoadTuple(t: Ty) returns (r: Outcome<Val>)
      requires t.Tuple? && WellFormed(t)
      modifies this
      ensures Step(r, State()) == Load(t, input, old(State()))
      decreases t.items, 5, 0
    {
      hide LoadEach;
      var vs := LoadFields(t.items);
      r := if vs.Err? then Err(vs.error) else Ok(VList(vs.value));
    }

    method LoadOptional(t: Ty) returns (r: Outcome<Val>)
      requires t.Opt? && WellFormed(t)
      modifies this
      ensures Step(r, State()) == Load(t, input, old(State()))
      decreases t.elem, 5, 0
    {
      var b := Serialize(1);
      if b.Err? {
        return Err(b.error);
      }
      if b.value[0] == 0 {
        return Ok(VNone);
      }
      r := LoadItem(t.elem);
      r := if r.Err? then r else Ok(VSome(r.value));
    }

    method LoadVariant(t: Ty) returns (r: Outcome<Val>)
      requires t.Variant? && WellFormed(t)
      modifies this
      ensures Step(r, State()) == Load(t, input, old(State()))
      decreases t.alts, 5, 0
    {
      var b := Serialize(1);
      if b.Err? {
        return Err(b.error);
      }
      if b.value[0] >= |t.alts| {
        return Err(VariantIndexOutOfRange);
      }
      r := LoadItem(t.alts[b.value[0]]);
      r := if r.Err? then r else Ok(VAlt(b.value[0], r.value));
    }

    method LoadScalars(e: Ty, n: nat) returns (r: Outcome<seq<Val>>)
      requires WellFormed(e) && e.Scalar?
      modifies this
      ensures Step(r, State()) == LoadImage(e, n, input, old(State()))
    {
      var b := Serialize(n * e.width);
      r := if b.Err? then Err(b.error) else Ok(Elements(e, n, b.value));
    }

    method LoadVec(t: Ty) returns (r: Outcome<Val>)
      requires t.Vec? && WellFormed(t)
      modifies this
      ensures Step(r, State()) == Load(t, input, old(State()))
      decreases t.elem, 6, 0
    {
      hide LoadMany, LoadBlock, Value;
      var b := Serialize(t.sizeWidth);
      if b.Err? {
        return Err(b.error);
      }
      var n := Value(b.value);
      if t.contiguous && t.elem.Scalar? {
        r := LoadBlockOf(t.elem, t.itemSize, n);
        return;
      }
      var paid := ConsumeAllocation(n, t.itemSize);
      if !paid {
        return Err(OutOfRange);
      }
      Arithmetic.Natural(n, t.itemSize);
      created := created + n * t.itemSize;
      var vs := LoadItems(t.elem, n);
      r := if vs.Err? then Err(vs.error) else Ok(VList(vs.value));
    }

    // The overload for contiguous containers of scalars, after the size.
    method LoadBlockOf(e: Ty, size: nat, n: nat) returns (r: Outcome<Val>)
      requires WellFormed(e) && e.Scalar? && size == e.width
      modifies this
      ensures Step(r, State()) == LoadBlock(e, size, n, input, old(State()))
    {
      hide LoadImage;
      var remaining := if offset <= |input| then |input| - offset else 0;
      if size != 0 && n > remaining / size {
        return Err(OutOfRange);
      }
      var paid := ConsumeAllocation(n, size);
      if !paid {
        return Err(OutOfRange);
      }
      Arithmetic.Natural(n, size);
      created := created + n * size;
      if n == 0 {
        return Ok(VList([]));
      }
      var vs := LoadScalars(e, n);
      r := if vs.Err? then Err(vs.error) else Ok(VList(vs.value));
    }

    // A loop's result so far, followed by what the rest of the loop yields.
    static ghost function Followed(done: seq<Val>, rest: Step<seq<Val>>): (r: Step<seq<Val>>)
    {
      if rest.out.Ok? then Step(Ok(done + rest.out.value), rest.cursor) else rest
    }

    static lemma FollowedNext(t: Ty, n: nat, input: seq<Byte>, c: Cursor, done: seq<Val>)
      requires WellFormed(t) && n > 0
      ensures var head := Load(t, input, c);
              Followed(done, LoadMany(t, n, input, c)) ==
              if head.out.Err? then Step(Err(head.out.error), head.cursor)
              else Followed(done + [head.out.value], LoadMany(t, n - 1, input, head.cursor))
    {
      hide Load, WellFormed;
      var head := Load(t, input, c);
      if head.out.Ok? {
        var rest := LoadMany(t, n - 1, input, head.cursor);
        if rest.out.Ok? {
          assert done + ([head.out.value] + rest.out.value) == done + [head.out.value] + rest.out.value;
        }
      }
    }

    static lemma FollowedEnds(t: Ty, n: nat, input: seq<Byte>, c: Cursor, done: seq<Val>)
      requires WellFormed(t)
      ensures Followed([], LoadMany(t, n, input, c)) == LoadMany(t, n, input, c)
      ensures Followed(done, LoadMany(t, 0, input, c)) == Step(Ok(done), c)
    {
      hide Load, WellFormed;
      var whole := LoadMany(t, n, input, c);
      assert whole.out.Ok? ==> [] + whole.out.value == whole.out.value;
      assert done + [] == done;
    }

    method LoadItems(t: Ty, n: nat) returns (r: Outcome<seq<Val>>)
      requires WellFormed(t)
      modifies this
      ensures Step(r, State()) == LoadMany(t, n, input, old(State()))
      decreases t, 4, n
    {
      hide Load, WellFormed, LoadMany, Followed;
      var vs: seq<Val> := [];
      FollowedEnds(t, n, input, State(), vs);
      for i := 0 to n
        invariant LoadMany(t, n, input, old(State())) == Followed(vs, LoadMany(t, n - i, input, State()))
      {
        FollowedNext(t, n - i, input, State(), vs);
        var v := LoadItem(t);
        if v.Err? {
          return Err(v.error);
        }
        vs := vs + [v.value];
      }
      FollowedEnds(t, n, input, State(), vs);
      r := Ok(vs);
    }

    method LoadFields(ts: seq<Ty>) returns (r: Outcome<seq<Val>>)
      requires forall i | 0 <= i < |ts| :: WellFormed(ts[i])
      modifies this
      ensures Step(r, State()) == LoadEach(ts, input, old(State()))
      decreases ts, 0, 0
    {
      hide Load, WellFormed;
      if ts == [] {
        return Ok([]);
      }
      var v := LoadItem(ts[0]);
      if v.Err? {
        return Err(v.error);
      }
      r := LoadFields(ts[1..]);
      r := if r.Err? then r else Ok([v.value] + r.value);
    }

    method LoadAssoc(t: Ty) returns (r: Outcome<Val>)
      requires t.Assoc? && WellFormed(t)
      modifies this
      ensures Step(r, State()) == Load(t, input, old(State()))
      decreases t.item, 5, 0
    {
      var b := Serialize(t.sizeWidth);
      if b.Err? {
        return Err(b.error);
      }
      var n := Value(b.value);
      var paid := ConsumeAllocation(n, t.itemSize);
      if !paid {
        return Err(OutOfRange);
      }
      var vs := LoadEntriesLoop(t.item, t.itemSize, t.isMap, n);
      r := if vs.Err? then Err(vs.error) else Ok(VList(vs.value));
    }

    method LoadEntriesLoop(t: Ty, size: nat, isMap: bool, n: nat) returns (r: Outcome<seq<Val>>)
      requires WellFormed(t)
      modifies this
      ensures Step(r, State()) == LoadEntries(t, size, isMap, n, [], input, old(State()))
      decreases t, 4, n
    {
      hide Load, WellFormed;
      var container: seq<Val> := [];
      for i := 0 to n
        invariant LoadEntries(t, size, isMap, n, [], input, old(State())) ==
                  LoadEntries(t, size, isMap, n - i, container, input, State())
      {
        var v := LoadItem(t);
        if v.Err? {
          return Err(v.error);
        }
        if !Present(container, v.value, isMap) {
          created := created + size;
          container := container + [v.value];
        }
      }
      r := Ok(container);
    }
  }

  /** basic_memory_output_archive: output goes to a vector, which grows, or to a view of fixed size. */
  class OutputArchive {
    const growing: bool
    var data: array<Byte>
    var capacity: nat
    var offset: nat

    ghost predicate Valid()
      reads this, data
    {
      capacity == data.Length && offset <= capacity
    }

    ghost function Contents(): (s: seq<Byte>)
      requires Valid()
      reads this, data
    {
      data[..offset]
    }

    constructor (growing: bool, buffer: array<Byte>)
      ensures Valid() && this.growing == growing && data == buffer && offset == 0
    {
      this.growing := growing;
      data := buffer;
      capacity := buffer.Length;
      offset := 0;
    }

    // vector::resize: the common prefix survives, new elements are zero.
    method Resize(size: nat)
      modifies this`data
      ensures fresh(data) && data.Length == size
      ensures forall i | 0 <= i < size :: data[i] == if i < old(data).Length then old(data[i]) else 0
    {
      var was := data;
      data := new Byte[size](i requires 0 <= i < size reads was => if i < was.Length then was[i] else 0);
    }

    method Serialize(bytes: seq<Byte>) returns (ok: bool)
      requires Valid()
      modifies this, data
      ensures Valid() && (growing || data == old(data)) && (data == old(data) || fresh(data))
      ensures ok == (growing || old(offset) + |bytes| <= old(capacity))
      ensures capacity == if growing && old(offset) + |bytes| > old(capacity) then (old(capacity) + |bytes|) * 3 / 2
                          else old(capacity)
      ensures Contents() == if ok then old(Contents()) + bytes else old(Contents())
      ensures data == old(data) ==> data[offset..] == old(data[..])[offset..]
    {
      if offset + |bytes| > capacity {
        if !growing {
          return false;
        }
        capacity := (capacity + |bytes|) * 3 / 2;
        Resize(capacity);
      }
      assert data[..offset] == old(data[..offset]);
      Store(bytes);
      ok := true;
    }

    // The copy of an item to the end of the contents.
    method Store(bytes: seq<Byte>)
      requires Valid() && offset + |bytes| <= capacity
      modifies this`offset, data
      ensures Valid() && offset == old(offset) + |bytes| && Contents() == old(Contents()) + bytes
      ensures data[offset..] == old(data[..])[offset..]
    {
      forall i | 0 <= i < |bytes| {
        data[offset + i] := bytes[i];
      }
      offset := offset + |bytes|;
    }

    // What saving leaves: everything on success, and at least what was there before on failure. A vector fails
    // only at a value that cannot be saved, a view also when the bytes do not fit.
    static ghost predicate Wrote(growing: bool, capacity: nat, before: seq<Byte>, after: seq<Byte>, s: Saved, ok: bool)
    {
      && before <= after
      && (ok ==> s.ok && after == before + s.bytes)
      && (!ok ==> !s.ok || (!growing && |before| + |s.bytes| > capacity))
    }

    static lemma WroteThen(growing: bool, capacity: nat, a: seq<Byte>, b: seq<Byte>, c: seq<Byte>, s: Saved, next: Saved,
                           ok: bool)
      requires s.ok && b == a + s.bytes && Wrote(growing, capacity, b, c, next, ok)
      ensures Wrote(growing, capacity, a, c, s.Then(next), ok)
    {
      assert ok ==> a + s.bytes + next.bytes == a + (s.bytes + next.bytes);
    }

    twostate predicate Framed(new now: array<Byte>)
      reads this
    {
      (growing || (now == old(data) && capacity == old(capacity))) && (now == old(data) || fresh(now))
    }

    method SaveItem(t: Ty, v: Val) returns (ok: bool)
      requires Valid() && WellFormed(t) && Typed(t, v)
      modifies this, data
      ensures Valid() && Framed(data)
      ensures Wrote(growing, capacity, old(Contents()), Contents(), Save(t, v), ok)
      decreases t, 3, 0
    {
      match t
      case Scalar(_, _) => ok := Serialize(ScalarImage(t, v));
      case Vec(_, _, _, _) => ok := SaveSized(t, v);
      case Assoc(_, _, _, _) => ok := SaveSized(t, v);
      case Array(e, _) =>
        if e.Scalar? {
          ok := Serialize(Image(e, v.vs));
        } else {
          ok := SaveItems(e, v.vs);
        }
      case Tuple(ts) => ok := SaveFields(ts, v.vs);
      case Opt(_) => ok := SaveOptional(t, v);
      case Variant(_) => ok := SaveVariant(t, v);
    }

    method SaveOptional(t: Ty, v: Val) returns (ok: bool)
      requires t.Opt? && Valid() && WellFormed(t) && Typed(t, v)
      modifies this, data
      ensures Valid() && Framed(data)
      ensures Wrote(growing, capacity, old(Contents()), Contents(), Save(t, v), ok)
      decreases t.elem, 5, 0
    {
      ok := Serialize([if v.VNone? then 0 else 1]);
      if ok && v.VSome? {
        ghost var flagged := Contents();
        ok := SaveItem(t.elem, v.v);
        WroteThen(growing, capacity, old(Contents()), flagged, Contents(), Saved([1], true), Save(t.elem, v.v), ok);
      }
    }

    method SaveVariant(t: Ty, v: Val) returns (ok: bool)
      requires t.Variant? && Valid() && WellFormed(t) && Typed(t, v)
      modifies this, data
      ensures Valid() && Framed(data)
      ensures Wrote(growing, capacity, old(Contents()), Contents(), Save(t, v), ok)
      decreases t.alts, 5, 0
    {
      if v.Valueless? {
        return false;
      }
      ok := Serialize([v.index]);
      if ok {
        ghost var indexed := Contents();
        ok := SaveItem(t.alts[v.index], v.v);
        WroteThen(growing, capacity, old(Contents()), indexed, Contents(), Saved([v.index], true),
                  Save(t.alts[v.index], v.v), ok);
      }
    }

    method SaveSized(t: Ty, v: Val) returns (ok: bool)
      requires (t.Vec? || t.Assoc?) && Valid() && WellFormed(t) && Typed(t, v)
      modifies this, data
      ensures Valid() && Framed(data)
      ensures Wrote(growing, capacity, old(Contents()), Contents(), Save(t, v), ok)
      decreases if t.Vec? then t.elem else t.item, 5, 0
    {
      hide SaveAll, Image;
      var item := if t.Vec? then t.elem else t.item;
      var block := t.Vec? && t.contiguous && t.elem.Scalar?;
      var size := Cast(|v.vs|, t.sizeWidth);
      var field := Little(size, t.sizeWidth);
      ghost var next := if block then Saved(Image(item, v.vs[..size]), true) else SaveAll(item, v.vs);
      assert Save(t, v) == Saved(field, true).Then(next);
      ok := Serialize(field);
      if !ok {
        return;
      }
      ghost var sized := Contents();
      if !block {
        ok := SaveItems(item, v.vs);
      } else if size != 0 {
        ok := Serialize(Image(item, v.vs[..size]));
      } else {
        assert |Image(item, v.vs[..size])| == 0;
      }
      WroteThen(growing, capacity, old(Contents()), sized, Contents(), Saved(field, true), next, ok);
    }

    // The first i values of the list have been saved as `done`.
    static predicate Saving(t: Ty, vs: seq<Val>, i: nat, done: seq<Byte>)
      requires WellFormed(t) && i <= |vs| && forall j | 0 <= j < |vs| :: Typed(t, vs[j])
    {
      SaveAll(t, vs) == Saved(done, true).Then(SaveAll(t, vs[i..]))
    }

    static lemma SavingStart(t: Ty, vs: seq<Val>)
      requires WellFormed(t) && forall j | 0 <= j < |vs| :: Typed(t, vs[j])
      ensures Saving(t, vs, 0, [])
    {
      hide SaveAll, Typed, WellFormed;
      assert vs[0..] == vs;
    }

    static lemma SavingNext(t: Ty, vs: seq<Val>, i: nat, done: seq<Byte>)
      requires WellFormed(t) && i < |vs| && (forall j | 0 <= j < |vs| :: Typed(t, vs[j])) && Saving(t, vs, i, done)
      ensures Save(t, vs[i]).ok ==> Saving(t, vs, i + 1, done + Save(t, vs[i]).bytes)
      ensures SaveAll(t, vs) == Saved(done, true).Then(Save(t, vs[i]).Then(SaveAll(t, vs[i + 1..])))
    {
      hide Save, Typed, WellFormed;
      assert vs[i..][0] == vs[i] && vs[i..][1..] == vs[i + 1..];
      Regroup(done, Save(t, vs[i]).bytes, SaveAll(t, vs[i + 1..]).bytes);
    }

    static lemma Regroup(a: seq<Byte>, b: seq<Byte>, c: seq<Byte>)
      ensures a + (b + c) == a + b + c
    {
    }

    static lemma SavingEnd(t: Ty, vs: seq<Val>, done: seq<Byte>)
      requires WellFormed(t) && (forall j | 0 <= j < |vs| :: Typed(t, vs[j])) && Saving(t, vs, |vs|, done)
      ensures SaveAll(t, vs) == Saved(done, true)
    {
      hide Save, Typed, WellFormed;
      assert vs[|vs|..] == [];
    }

    // A value could not be saved, and so the list could not.
    static lemma WroteFailed(growing: bool, capacity: nat, before: seq<Byte>, done: seq<Byte>, after: seq<Byte>,
                             s: Saved, rest: Saved, all: Saved)
      requires Wrote(growing, capacity, before + done, after, s, false) && all == Saved(done, true).Then(s.Then(rest))
      ensures Wrote(growing, capacity, before, after, all, false)
    {
      assert before <= before + done <= after;
    }

    method SaveItems(t: Ty, vs: seq<Val>) returns (ok: bool)
      requires Valid() && WellFormed(t) && forall i | 0 <= i < |vs| :: Typed(t, vs[i])
      modifies this, data
      ensures Valid() && Framed(data)
      ensures Wrote(growing, capacity, old(Contents()), Contents(), SaveAll(t, vs), ok)
      decreases t, 4, |vs|
    {
      hide Save, Typed, WellFormed, SaveAll, Saving;
      ghost var done: seq<Byte> := [];
      SavingStart(t, vs);
      for i := 0 to |vs|
        invariant Valid() && Framed(data)
        invariant Contents() == old(Contents()) + done
        invariant Saving(t, vs, i, done)
      {
        SavingNext(t, vs, i, done);
        ok := SaveItem(t, vs[i]);
        if !ok {
          WroteFailed(growing, capacity, old(Contents()), done, Contents(), Save(t, vs[i]), SaveAll(t, vs[i + 1..]),
                      SaveAll(t, vs));
          return;
        }
        Regroup(old(Contents()), done, Save(t, vs[i]).bytes);
        done := done + Save(t, vs[i]).bytes;
      }
      SavingEnd(t, vs, done);
      ok := true;
    }

    method SaveFields(ts: seq<Ty>, vs: seq<Val>) returns (ok: bool)
      requires Valid() && |ts| == |vs| && forall i | 0 <= i < |ts| :: WellFormed(ts[i]) && Typed(ts[i], vs[i])
      modifies this, data
      ensures Valid() && Framed(data)
      ensures Wrote(growing, capacity, old(Contents()), Contents(), SaveEach(ts, vs), ok)
      decreases ts, 0, 0
    {
      hide Save, Typed, WellFormed;
      if ts == [] {
        return true;
      }
      ok := SaveItem(ts[0], vs[0]);
      if ok {
        ghost var first := Contents();
        ok := SaveFields(ts[1..], vs[1..]);
        WroteThen(growing, capacity, old(Contents()), first, Contents(), Save(ts[0], vs[0]), SaveEach(ts[1..], vs[1..]), ok);
      }
    }

    /** memory_view_output_archive: a call saves all its items, or leaves the offset where it was. */
    method SaveToView(ts: seq<Ty>, vs: seq<Val>) returns (ok: bool)
      requires Valid() && !growing
      requires |ts| == |vs| && forall i | 0 <= i < |ts| :: WellFormed(ts[i]) && Typed(ts[i], vs[i])
      modifies this, data
      ensures Valid() && data == old(data)
      ensures ok <==> SaveEach(ts, vs).ok && old(offset) + |SaveEach(ts, vs).bytes| <= data.Length
      ensures Contents() == if ok then old(Contents()) + SaveEach(ts, vs).bytes else old(Contents())
    {
      var start := offset;
      ok := SaveFields(ts, vs);
      if !ok {
        offset := start;
      }
    }

    /** memory_output_archive: a successful call leaves the vector's old contents followed by the encodings. */
    method SaveToVector(ts: seq<Ty>, vs: seq<Val>) returns (ok: bool)
      requires growing
      requires |ts| == |vs| && forall i | 0 <= i < |ts| :: WellFormed(ts[i]) && Typed(ts[i], vs[i])
      modifies this, data
      ensures ok <==> SaveEach(ts, vs).ok
      ensures ok ==> data[..] == old(data[..]) + SaveEach(ts, vs).bytes
      ensures !ok ==> offset == old(data).Length && old(data[..]) <= data[..]
    {
      capacity := data.Length;
      offset := capacity;
      var start := offset;
      assert data[..] == data[..offset];
      ok := SaveFields(ts, vs);
      if ok {
        ghost var written := data[..offset];
        Resize(offset);
        assert data[..] == written;
      } else {
        offset := start;
      }
    }
  }
}
