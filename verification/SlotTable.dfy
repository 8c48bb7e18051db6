/** The slot vector and its bitmap inside the shared compiler-TLS section, and the two routines that change them. */
module SlotTable {
  import opened Options

  const SLOT_COUNT: nat := 1024
  const WORD_COUNT: nat := 32

  // The identity of a driver image, standing for the address of its TLS buffer.
  type Image = nat

  // A bitmap word is the set of positions of its one bits, so that or is union and and-not is difference.
  type Word = set<nat>

  datatype Table = Table(bitmap: seq<Word>, slots: seq<Option<Image>>)

  function Empty(): (t: Table)
  {
    Table(seq(WORD_COUNT, _ => {}), seq(SLOT_COUNT, _ => None))
  }

  // The word is 0xFFFFFFFF.
  predicate AllOnes(w: Word)
  {
    forall b | 0 <= b < 32 :: b in w
  }

  predicate Used(bitmap: seq<Word>, i: nat)
    requires |bitmap| == WORD_COUNT && i < SLOT_COUNT
  {
    i % 32 in bitmap[i / 32]
  }

  /** The bitmap agrees with the slots. */
  predicate Consistent(t: Table)
  {
    && |t.bitmap| == WORD_COUNT && |t.slots| == SLOT_COUNT
    && forall i | 0 <= i < SLOT_COUNT :: Used(t.bitmap, i) <==> t.slots[i].Some?
  }

  // The lowest free slot from k on.
  function FreeFrom(t: Table, k: nat): (r: Option<nat>)
    requires Consistent(t) && k <= SLOT_COUNT
    ensures r.None? <==> forall i | k <= i < SLOT_COUNT :: t.slots[i].Some?
    ensures r.Some? ==> k <= r.value < SLOT_COUNT && t.slots[r.value].None?
    ensures r.Some? ==> forall i | k <= i < r.value :: t.slots[i].Some?
    decreases SLOT_COUNT - k
  {
    if k == SLOT_COUNT then None else if t.slots[k].None? then Some(k) else FreeFrom(t, k + 1)
  }

  function Take(t: Table, i: nat, image: Image): (r: Table)
    requires Consistent(t) && i < SLOT_COUNT
  {
    Table(t.bitmap[i / 32 := t.bitmap[i / 32] + {i % 32}], t.slots[i := Some(image)])
  }

  function Drop(t: Table, i: nat): (r: Table)
    requires Consistent(t) && i < SLOT_COUNT
  {
    Table(t.bitmap[i / 32 := t.bitmap[i / 32] - {i % 32}], t.slots[i := None])
  }

  /** Taking a slot sets its bit and no other; dropping it clears its bit and no other. */
  lemma TakeDrop(t: Table, i: nat, image: Image)
    requires Consistent(t) && i < SLOT_COUNT
    ensures Consistent(Take(t, i, image)) && Take(t, i, image).slots == t.slots[i := Some(image)]
    ensures Consistent(Drop(t, i)) && Drop(t, i).slots == t.slots[i := None]
  {
    forall k | 0 <= k < SLOT_COUNT
      ensures Used(Take(t, i, image).bitmap, k) <==> k == i || Used(t.bitmap, k)
      ensures Used(Drop(t, i).bitmap, k) <==> k != i && Used(t.bitmap, k)
    {
    }
  }

  /** Releasing the slot that was just taken restores bitmap and slots. */
  lemma TakeThenDrop(t: Table, i: nat, image: Image)
    requires Consistent(t) && i < SLOT_COUNT && t.slots[i].None?
    ensures Consistent(Take(t, i, image)) && Drop(Take(t, i, image), i) == t
  {
    TakeDrop(t, i, image);
    assert !Used(t.bitmap, i);
    assert t.bitmap[i / 32] + {i % 32} - {i % 32} == t.bitmap[i / 32];
  }

  lemma Sizes(t: Table)
    requires Consistent(t)
    ensures |t.bitmap| == WORD_COUNT && |t.slots| == SLOT_COUNT
  {
  }

  lemma EmptyConsistent()
    ensures Consistent(Empty())
  {
  }

  /** The section memory that holds the table, as the routines under its spin lock change it. */
  class Section {
    const bitmap: array<Word>
    const slots: array<Option<Image>>

    ghost function Contents(): (t: Table)
      reads bitmap, slots
    {
      Table(bitmap[..], slots[..])
    }

    constructor ()
      ensures fresh(bitmap) && fresh(slots) && Contents() == Empty()
    {
      bitmap := new Word[WORD_COUNT](_ => {});
      slots := new Option<Image>[SLOT_COUNT](_ => None);
    }

    method AllocateSlot(image: Image) returns (index: Option<nat>)
      requires Consistent(Contents())
      modifies bitmap, slots
      ensures index == FreeFrom(old(Contents()), 0)
      ensures Contents() == if index.Some? then Take(old(Contents()), index.value, image) else old(Contents())
      ensures Consistent(Contents())
    {
      hide Used, FreeFrom;
      ghost var t := Contents();
      for word := 0 to WORD_COUNT
        invariant Contents() == t
        invariant forall i | 0 <= i < 32 * word :: t.slots[i].Some?
      {
        index := AllocateInWord(word, image);
        if index.Some? {
          return;
        }
      }
      index := None;
    }

    // The bits of one bitmap word, lowest first.
    method AllocateInWord(word: nat, image: Image) returns (index: Option<nat>)
      requires Consistent(Contents()) && word < WORD_COUNT
      modifies bitmap, slots
      ensures Consistent(Contents())
      ensures index.Some? ==> 32 * word <= index.value < 32 * word + 32 && old(Contents()).slots[index.value].None?
      ensures Contents() == if index.Some? then Take(old(Contents()), index.value, image) else old(Contents())
      ensures forall i | 32 * word <= i < (if index.Some? then index.value else 32 * word + 32) ::
                old(Contents()).slots[i].Some?
    {
      ghost var t := Contents();
      var bits := bitmap[word];
      if AllOnes(bits) {
        FullWord(t, word);
        return None;
      }
      for bit := 0 to 32
        invariant Contents() == t
        invariant forall i | 32 * word <= i < 32 * word + bit :: t.slots[i].Some?
      {
        var slot := word * 32 + bit;
        assert slot / 32 == word && slot % 32 == bit;
        assert Used(t.bitmap, slot) <==> bit in bits;
        if bit !in bits {
          TakeDrop(t, slot, image);
          bitmap[word] := bits + {bit};
          slots[slot] := Some(image);
          return Some(slot);
        }
      }
      index := None;
    }

    static lemma FullWord(t: Table, word: nat)
      requires Consistent(t) && word < WORD_COUNT && AllOnes(t.bitmap[word])
      ensures forall i | 32 * word <= i < 32 * word + 32 :: t.slots[i].Some?
    {
      forall i | 32 * word <= i < 32 * word + 32
        ensures t.slots[i].Some?
      {
        assert i / 32 == word;
        assert Used(t.bitmap, i);
      }
    }

    // Releases a slot only while it still holds the image's own buffer.
    method ReleaseSlot(index: nat, image: Image)
      requires Consistent(Contents())
      modifies bitmap, slots
      ensures Consistent(Contents())
      ensures Contents() ==
              if index < SLOT_COUNT && old(Contents()).slots[index] == Some(image) then Drop(old(Contents()), index)
              else old(Contents())
    {
      if index < SLOT_COUNT && slots[index] == Some(image) {
        TakeDrop(Contents(), index, image);
        slots[index] := None;
        bitmap[index / 32] := bitmap[index / 32] - {index % 32};
      }
    }
  }
}
