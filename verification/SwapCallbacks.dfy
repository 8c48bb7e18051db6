/** The callbacks of the swap-buffers minifilter on the buffers they change in place. */
module SwapCallbacks {
  import opened Options
  import opened SwapFilter

  // xor_bytes.
  method XorBytes(buffer: array<bv8>, length: nat)
    requires length <= buffer.Length
    modifies buffer
    ensures buffer[..] == XorPrefix(old(buffer[..]), length)
  {
    hide XorByte;
    var index := 0;
    while index != length
      invariant index <= length
      invariant forall k | 0 <= k < index :: buffer[k] == XorByte(old(buffer[k]))
      invariant forall k | index <= k < buffer.Length :: buffer[k] == old(buffer[k])
    {
      buffer[index] := XorByte(buffer[index]);
      index := index + 1;
    }
  }

  // Copies the first `n` bytes of `from` to the front of `to`.
  method CopyFront(from: array<bv8>, to: array<bv8>, n: nat)
    requires n <= from.Length && n <= to.Length && from != to
    modifies to
    ensures to[..] == Patch(old(to[..]), from[..n])
  {
    var index := 0;
    while index != n
      invariant index <= n
      invariant forall k | 0 <= k < index :: to[k] == from[k]
      invariant forall k | index <= k < to.Length :: to[k] == old(to[k])
    {
      to[index] := from[index];
      index := index + 1;
    }
  }

  class Operation {
    const kind: Kind
    const offset: nat
    // The caller's buffer, and the replacement pages once they have been swapped in.
    const user: array<bv8>
    var pages: array?<bv8>
    var live: bool
    var phase: Phase
    var ok: bool
    var information: nat
    ghost var completions: nat
    ghost var drained: bool
    ghost var expected: seq<Option<bv8>>
    ghost var delivered: nat

    ghost predicate Valid()
      reads this
    {
      pages != null ==> pages != user && pages.Length == user.Length
    }

    ghost function View(): (io: Io)
      reads this, user, pages
    {
      Io(kind, offset, user[..], phase, if pages == null then None else Some(Swap(pages[..], live, completions)),
         ok, information, drained, expected, delivered)
    }

    constructor (kind: Kind, offset: nat, user: array<bv8>)
      ensures Valid() && FreshIo(View())
      ensures this.kind == kind && this.offset == offset && this.user == user
    {
      this.kind, this.offset, this.user := kind, offset, user;
      pages, live, phase, ok, information := null, false, Arrived, true, 0;
      completions, drained, expected, delivered := 0, false, [], 0;
    }

    // swapped_io_buffers::complete.
    method Complete()
      requires Valid()
      modifies this`live, this`completions
      ensures Valid() && View() == old(View()).(swap := CompleteSwap(old(View()).swap))
    {
      if pages != null && live {
        live := false;
        completions := completions + 1;
      }
    }

    // Sets an error status with no information and ends the operation.
    method FailWith()
      requires Valid()
      modifies this`ok, this`information, this`phase
      ensures Valid() && View() == Fail(old(View()))
    {
      ok, information, phase := false, 0, Finished;
    }

    // try_swap_io_buffers: new pages, holding the caller's bytes.
    method SwapIn()
      requires Valid()
      modifies this`pages, this`live, this`completions
      ensures Valid() && pages != null && fresh(pages)
      ensures View() == old(View()).(swap := Some(Swap(user[..], true, 0)))
    {
      var replacement := new bv8[user.Length](i requires 0 <= i < user.Length reads user => user[i]);
      pages := replacement;
      live := true;
      completions := 0;
      assert pages[..] == user[..];
    }

    method PrepareWrite(shielded: bool, c: PreChoices)
      requires Valid() && kind.Write?
      modifies this
      ensures Valid() && View() == PrepareStep(old(View()), shielded, c)
    {
      var selection := Select(shielded, c.namedAgain);
      if selection.Unprotected? {
        phase := Below(false);
        return;
      }
      if selection.Unknown? || !c.swapped {
        FailWith();
        return;
      }
      SwapIn();
      if !c.view {
        Complete();
        FailWith();
        return;
      }
      XorBytes(pages, pages.Length);
      if !c.applied || !c.released {
        Complete();
        FailWith();
        return;
      }
      phase := Below(true);
    }

    method PrepareRead(shielded: bool, c: PreChoices)
      requires Valid() && kind.Read?
      modifies this
      ensures Valid() && View() == PrepareStep(old(View()), shielded, c)
    {
      var selection := Select(shielded, c.namedAgain);
      if selection.Unprotected? {
        phase := Below(false);
        return;
      }
      if selection.Unknown? || !c.swapped {
        FailWith();
        return;
      }
      SwapIn();
      if !c.view || !c.applied || !c.released {
        Complete();
        FailWith();
        return;
      }
      phase := Below(true);
    }

    // queue_xor_pre.
    method QueuePre(shielded: bool, c: PreChoices)
      requires Valid()
      modifies this
      ensures Valid() && View() == PreStep(old(View()), shielded, c)
    {
      hide PrepareStep;
      if user.Length == 0 {
        assert View().user == [];
        phase := Below(false);
        return;
      }
      var selection := Select(shielded, c.named);
      if c.fastIo {
        phase := if selection.Unprotected? then Below(false) else Disallowed;
        return;
      }
      if selection.Unprotected? {
        phase := Below(false);
        return;
      }
      if c.passive {
        if kind.Write? { PrepareWrite(shielded, c); } else { PrepareRead(shielded, c); }
        return;
      }
      if !c.queued {
        FailWith();
        return;
      }
      phase := PrePending;
    }

    // finish_swap; false when there was no completion context to adopt.
    method FinishSwapped() returns (adopted: bool)
      requires Valid()
      modifies this`live, this`completions, this`phase
      ensures Valid() && View() == FinishSwap(old(View())) && adopted == (pages != null)
    {
      Complete();
      phase := Finished;
      adopted := pages != null;
    }

    // finish_xor_read_at_passive.
    method FinishRead(c: PostChoices)
      requires Valid()
      modifies this, user, pages
      ensures Valid() && View() == FinishReadStep(old(View()), c)
    {
      if pages == null {
        FailWith();
        return;
      }
      if !ok {
        var _ := FinishSwapped();
        return;
      }
      var valid := Min(pages.Length, information);
      if !c.view || !c.prepared {
        Complete();
        FailWith();
        return;
      }
      XorBytes(pages, valid);
      var copied := Min(c.copied, valid);
      CopyFront(pages, user, copied);
      delivered := copied;
      var _ := FinishSwapped();
      if c.copied < valid {
        FailWith();
      }
    }

    method WritePost(c: PostChoices)
      requires Valid() && kind.Write?
      modifies this
      ensures Valid() && View() == PostStep(old(View()), c)
    {
      var adopted := FinishSwapped();
      if !c.draining && !adopted {
        FailWith();
      }
    }

    method ReadPost(c: PostChoices)
      requires Valid() && kind.Read?
      modifies this, user, pages
      ensures Valid() && View() == PostStep(old(View()), c)
    {
      hide FinishReadStep;
      if c.draining || !ok {
        drained := c.draining;
        var _ := FinishSwapped();
        return;
      }
      if c.passive {
        FinishRead(c);
        return;
      }
      if c.queued {
        phase := PostPending;
        return;
      }
      var _ := FinishSwapped();
      FailWith();
    }
  }
}
