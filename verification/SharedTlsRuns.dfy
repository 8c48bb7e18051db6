/** What the shared compiler-TLS protocol achieves: images load and unload, and tear down only for a reason. */
module SharedTlsRuns {
  import opened Options
  import opened SlotTable
  import opened SharedTls
  import opened SharedTlsProof

  // ---------------------------------------------------------------------------------------------------------
  // Why an image is torn down
  // ---------------------------------------------------------------------------------------------------------

  predicate Full(w: World)
    requires Consistent(w.section.table)
  {
    forall i | 0 <= i < 1024 :: Used(w.section.table.bitmap, i)
  }

  /**
   A step sends its image into teardown exactly when the image is malformed, the broadcast could not be started, the
   image is unloaded, or a slot was wanted and all 1024 were taken.
   */
  lemma TornDownFor(start: World, acts: seq<Act>, w: World, a: Act)
    requires Initial(start) && Reaches(start, acts, w) && Enabled(w, a)
    ensures Consistent(w.section.table) && a.d in Do(w, a).drivers
    ensures Do(w, a).drivers[a.d].pc == In(Releasing) <==>
            a.BadImage? || (a.StartBroadcast? && !a.ok) || a.BeginTeardown? || (a.AllocateSlot? && Full(w))
  {
    hide Inv, Reaches, Consistent, Used;
    InitialHolds(start);
    RunKeeps(start, acts, w);
    TableConsistent(w);
    Moves(w, a);
    if a.AllocateSlot? {
      AllocationFailsOnlyWhenFull(w, a.d);
    } else {
      NotTornDown(w, a);
    }
  }

  lemma TableConsistent(w: World)
    requires Inv(w)
    ensures Consistent(w.section.table)
  {
  }

  lemma NotTornDown(w: World, a: Act)
    requires Enabled(w, a) && !a.AllocateSlot?
    ensures a.d in Do(w, a).drivers
    ensures Do(w, a).drivers[a.d].pc == In(Releasing) <==>
            a.BadImage? || (a.StartBroadcast? && !a.ok) || a.BeginTeardown?
  {
    hide Consistent, At, CloseAndLeave, PublishStep, AllocateStep, ReleaseStep, DetachStep, EnterMapStep,
      OpenSectionStep, MapViewStep, LockViewStep, EnterUnmapStep;
  }

  // ---------------------------------------------------------------------------------------------------------
  // Runs made of runs
  // ---------------------------------------------------------------------------------------------------------

  lemma {:induction false} ReachesBoth(w: World, a: seq<Act>, w1: World, b: seq<Act>, w2: World)
    requires Reaches(w, a, w1) && Reaches(w1, b, w2)
    ensures Reaches(w, a + b, w2)
    decreases |a|
  {
    hide Do, Enabled;
    if a == [] {
      assert a + b == b;
    } else {
      ReachesBoth(Do(w, a[0]), a[1..], w1, b, w2);
      assert (a + b)[0] == a[0] && (a + b)[1..] == a[1..] + b;
    }
  }

  lemma ReachesOne(w: World, a: Act)
    requires Enabled(w, a)
    ensures Reaches(w, [a], Do(w, a))
  {
    hide Do, Enabled;
    assert [a][1..] == [];
    assert Reaches(Do(w, a), [], Do(w, a));
  }

  // The step `a` of image `d` can be taken in `w`, leads to `w'`, keeps the invariant and leaves other images alone.
  ghost predicate Takes(w: World, a: Act, w': World, pc: Pc)
  {
    && Enabled(w, a) && w' == Do(w, a) && Inv(w') && a.d in w'.drivers && w'.drivers[a.d].pc == pc
    && w'.drivers == w.drivers[a.d := w'.drivers[a.d]] && |w'.processors| == |w.processors|
  }

  lemma Taken(w: World, a: Act, pc: Pc) returns (w': World)
    requires Inv(w) && Enabled(w, a) && a.d in Do(w, a).drivers && Do(w, a).drivers[a.d].pc == pc
    ensures Takes(w, a, w', pc)
  {
    hide MappingInv, SlotInv, ReachInv, Do, Enabled;
    StepKeeps(w, a);
    OnlyOneMoves(w, a);
    w' := Do(w, a);
  }

  // ---------------------------------------------------------------------------------------------------------
  // Loading
  // ---------------------------------------------------------------------------------------------------------

  // The lowest free slot.
  ghost function Free(w: World): (i: Option<nat>)
    requires Inv(w)
  {
    FreeFrom(w.section.table, 0)
  }

  lemma NoneHeld(w: World)
    requires Inv(w) && AttachedImages(w) == {}
    ensures Free(w) == Some(0)
  {
    hide MappingInv, ReachInv, AttachedImages;
    if w.section.table.slots[0].Some? {
      HolderAttached(w, 0);
    }
  }

  lemma HolderAttached(w: World, i: nat)
    requires Inv(w) && i < 1024 && w.section.table.slots[i].Some?
    ensures AttachedImages(w) != {}
  {
    hide MappingInv, ReachInv, Used;
    assert SlotOk(w, i);
    var d := w.section.table.slots[i].value;
    assert IndexOk(w, d);
    assert d in AttachedImages(w);
  }

  lemma EmptyFree()
    ensures Consistent(Empty()) && FreeFrom(Empty(), 0) == Some(0)
  {
    EmptyConsistent();
  }

  lemma Entered(w: World, d: Image) returns (w': World)
    requires Inv(w) && w.gate.None? && d in w.drivers && w.drivers[d].pc.Unloaded?
    ensures Takes(w, EnterMap(d), w', Opening) && Free(w') == Free(w)
  {
    hide Inv;
    w' := Taken(w, EnterMap(d), Opening);
  }

  lemma SectionOpened(w: World, d: Image) returns (w': World)
    requires Inv(w) && d in w.drivers && w.drivers[d].pc.Opening?
    ensures Takes(w, OpenSection(d, true), w', Opened) && Free(w') == Free(w)
  {
    hide Inv, FreeFrom, Empty;
    w' := Taken(w, OpenSection(d, true), Opened);
    if w.handles == {} {
      assert AttachedImages(w) == {} by { UnattachedAll(w); }
      NoneHeld(w);
      EmptyFree();
    }
  }

  lemma UnattachedAll(w: World)
    requires Inv(w) && w.handles == {}
    ensures AttachedImages(w) == {}
  {
    NobodyAttached(w);
  }

  lemma ViewMapped(w: World, d: Image) returns (w': World)
    requires Inv(w) && d in w.drivers && w.drivers[d].pc.Opened?
    ensures Takes(w, MapView(d, true), w', Mapped) && Free(w') == Free(w)
  {
    hide Inv;
    w' := Taken(w, MapView(d, true), Mapped);
  }

  lemma ViewLocked(w: World, d: Image) returns (w': World)
    requires Inv(w) && d in w.drivers && w.drivers[d].pc.Mapped?
    ensures Takes(w, LockView(d, true), w', Locked) && Free(w') == Free(w)
  {
    hide Inv;
    w' := Taken(w, LockView(d, true), Locked);
  }

  lemma Published(w: World, d: Image) returns (w': World)
    requires Inv(w) && d in w.drivers && w.drivers[d].pc.Locked?
    ensures Takes(w, Publish(d), w', In(Mapping)) && Free(w') == Free(w)
  {
    hide Inv, FreeFrom, Empty;
    PublishWorks(w, d);
    w' := Taken(w, Publish(d), In(Mapping));
    if w.section.initState == 0 {
      NoneHeld(w);
      EmptyFree();
    }
  }

  lemma PublishWorks(w: World, d: Image)
    requires Inv(w) && d in w.drivers && w.drivers[d].pc.Locked?
    ensures PublishStep(w, d).drivers[d].pc == In(Mapping)
    ensures PublishStep(w, d).section.table == if w.section.initState == 0 then Empty() else w.section.table
    ensures w.section.initState == 0 ==> AttachedImages(w) == {}
  {
    hide SlotInv, ReachInv, AttachedImages, ViewOk, MdlOk, Empty;
    assert DriverOk(w, d);
    PublishSucceeds(w, d);
  }

  lemma SlotTaken(w: World, d: Image) returns (w': World)
    requires Inv(w) && d in w.drivers && w.drivers[d].pc == In(Mapping) && Free(w).Some?
    ensures Takes(w, AllocateSlot(d), w', In(Slotted)) && w'.drivers[d].index == Free(w)
  {
    hide Inv, FreeFrom, Take;
    TableConsistent(w);
    w' := Taken(w, AllocateSlot(d), In(Slotted));
  }

  lemma BroadcastStarted(w: World, d: Image) returns (w': World)
    requires Inv(w) && d in w.drivers && w.drivers[d].pc == In(Slotted)
    ensures Takes(w, StartBroadcast(d, true), w', In(Broadcasting({}))) && w'.drivers[d].index == w.drivers[d].index
  {
    hide Inv;
    w' := Taken(w, StartBroadcast(d, true), In(Broadcasting({})));
  }

  // The pointer is set on processors k and above, and the broadcast ends.
  function SetFrom(d: Image, k: nat, count: nat): (acts: seq<Act>)
    requires k <= count
    decreases count - k
  {
    if k == count then [FinishBroadcast(d)] else [SetProcessor(d, k)] + SetFrom(d, k + 1, count)
  }

  predicate Reached(done: set<nat>, k: nat) { forall p | 0 <= p < k :: p in done }

  lemma {:induction false} Broadcast(w: World, d: Image, k: nat) returns (w': World)
    requires Inv(w) && d in w.drivers && w.drivers[d].pc.In? && w.drivers[d].pc.phase.Broadcasting?
    requires k <= |w.processors| && Reached(w.drivers[d].pc.phase.done, k)
    ensures Reaches(w, SetFrom(d, k, |w.processors|), w') && Inv(w')
    ensures w'.drivers == w.drivers[d := w.drivers[d].(pc := In(Loaded))] && |w'.processors| == |w.processors|
    decreases |w.processors| - k
  {
    hide Inv, Reaches;
    if k == |w.processors| {
      w' := Taken(w, FinishBroadcast(d), In(Loaded));
      ReachesOne(w, FinishBroadcast(d));
    } else {
      var a := SetProcessor(d, k);
      var w1 := Taken(w, a, In(Broadcasting(w.drivers[d].pc.phase.done + {k})));
      w' := Broadcast(w1, d, k + 1);
      ReachesOne(w, a);
      ReachesBoth(w, [a], w1, SetFrom(d, k + 1, |w.processors|), w');
    }
  }

  // The steps by which an image joins, up to its slot.
  function Joining(d: Image): (acts: seq<Act>)
  {
    [EnterMap(d), OpenSection(d, true), MapView(d, true), LockView(d, true), Publish(d), AllocateSlot(d)]
  }

  function LoadRun(d: Image, processors: nat): (acts: seq<Act>)
  {
    Joining(d) + ([StartBroadcast(d, true)] + SetFrom(d, 0, processors))
  }

  lemma {:induction false} RunOf(w: World, acts: seq<Act>, ws: seq<World>)
    requires |ws| == |acts| + 1 && ws[0] == w
    requires forall i | 0 <= i < |acts| :: Enabled(ws[i], acts[i]) && ws[i + 1] == Do(ws[i], acts[i])
    ensures Reaches(w, acts, ws[|acts|])
    decreases |acts|
  {
    hide Do, Enabled;
    if acts != [] {
      RunOf(ws[1], acts[1..], ws[1..]);
    }
  }

  lemma Joined(w: World, d: Image) returns (w': World)
    requires Inv(w) && w.gate.None? && d in w.drivers && w.drivers[d].pc.Unloaded? && Free(w).Some?
    ensures Reaches(w, Joining(d), w') && Inv(w') && d in w'.drivers
    ensures w'.drivers[d].pc == In(Slotted) && w'.drivers[d].index == Free(w)
    ensures w'.drivers == w.drivers[d := w'.drivers[d]] && |w'.processors| == |w.processors|
  {
    hide Inv, Do, Enabled, Free, Reaches;
    var w1 := Entered(w, d);
    var w2 := SectionOpened(w1, d);
    var w3 := ViewMapped(w2, d);
    var w4 := ViewLocked(w3, d);
    var w5 := Published(w4, d);
    w' := SlotTaken(w5, d);
    var ws := [w, w1, w2, w3, w4, w5, w'];
    RunOf(w, Joining(d), ws);
  }

  // The broadcast of an image that has its slot.
  lemma Announced(w: World, d: Image) returns (w': World)
    requires Inv(w) && d in w.drivers && w.drivers[d].pc == In(Slotted)
    ensures Reaches(w, [StartBroadcast(d, true)] + SetFrom(d, 0, |w.processors|), w') && Inv(w')
    ensures d in w'.drivers && w'.drivers == w.drivers[d := w'.drivers[d]] && |w'.processors| == |w.processors|
    ensures w'.drivers[d].pc == In(Loaded) && w'.drivers[d].index == w.drivers[d].index
  {
    hide Reaches, Inv, Do, Enabled;
    var w1 := BroadcastStarted(w, d);
    w' := Broadcast(w1, d, 0);
    ReachesOne(w, StartBroadcast(d, true));
    ReachesBoth(w, [StartBroadcast(d, true)], w1, SetFrom(d, 0, |w.processors|), w');
  }

  lemma Loads(w: World, d: Image) returns (w': World)
    requires Inv(w) && w.gate.None? && d in w.drivers && w.drivers[d].pc.Unloaded? && Free(w).Some?
    ensures Reaches(w, LoadRun(d, |w.processors|), w') && Inv(w')
    ensures d in w'.drivers && w'.drivers == w.drivers[d := w'.drivers[d]] && |w'.processors| == |w.processors|
    ensures w'.drivers[d].pc == In(Loaded) && w'.drivers[d].index == Free(w)
  {
    hide Reaches, Inv, Joining, SetFrom;
    var w1 := Joined(w, d);
    w' := Announced(w1, d);
    ReachesBoth(w, Joining(d), w1, [StartBroadcast(d, true)] + SetFrom(d, 0, |w.processors|), w');
  }

  /**
   With the gate free and a slot left, every unloaded image can load: the run is enabled step by step, the image ends
   loaded with the lowest slot that was free, that slot holds it, and every processor points at the canonical vector.
   */
  lemma LoadSucceeds(start: World, acts: seq<Act>, w: World, d: Image) returns (w': World)
    requires Initial(start) && Reaches(start, acts, w)
    requires w.gate.None? && d in w.drivers && w.drivers[d].pc.Unloaded?
    requires Consistent(w.section.table) && !Full(w)
    ensures Reaches(w, LoadRun(d, |w.processors|), w') && d in w'.drivers && w'.drivers[d].pc == In(Loaded)
    ensures w'.drivers == w.drivers[d := w'.drivers[d]] && Consistent(w'.section.table)
    ensures exists i :: && 0 <= i < 1024 && w'.drivers[d].index == Some(i) && w'.section.table.slots[i] == Some(d)
                        && !Used(w.section.table.bitmap, i)
                        && (forall j | 0 <= j < i :: Used(w.section.table.bitmap, j))
    ensures |w'.processors| == |w.processors|
    ensures forall p | 0 <= p < |w'.processors| :: w'.processors[p] == w'.section.canonSlots
  {
    hide Reaches, Inv, Used, LoadRun, Initial;
    InitialHolds(start);
    RunKeeps(start, acts, w);
    LowestFree(w);
    w' := Loads(w, d);
    LoadedFacts(w', d);
  }

  lemma LowestFree(w: World)
    requires Inv(w) && Consistent(w.section.table) && !Full(w)
    ensures Free(w).Some? && Free(w).value < 1024 && !Used(w.section.table.bitmap, Free(w).value)
    ensures forall j | 0 <= j < Free(w).value :: Used(w.section.table.bitmap, j)
  {
    hide MappingInv, ReachInv, SlotInv, Used;
  }

  lemma LoadedFacts(w: World, d: Image)
    requires Inv(w) && d in w.drivers && w.drivers[d].pc == In(Loaded) && w.drivers[d].index.Some?
    ensures Consistent(w.section.table) && w.drivers[d].index.value < 1024
    ensures w.section.table.slots[w.drivers[d].index.value] == Some(d)
    ensures forall p | 0 <= p < |w.processors| :: w.processors[p] == w.section.canonSlots
  {
    hide MappingInv;
    assert IndexOk(w, d) && ReachOk(w, d);
  }

  // ---------------------------------------------------------------------------------------------------------
  // Unloading
  // ---------------------------------------------------------------------------------------------------------

  function UnloadRun(d: Image): (acts: seq<Act>)
  {
    [BeginTeardown(d), ReleaseSlot(d), EnterUnmap(d), Detach(d), Close(d)]
  }

  lemma SlotReleased(w: World, d: Image) returns (w': World)
    requires Inv(w) && d in w.drivers && w.drivers[d].pc == In(Releasing)
    ensures Takes(w, ReleaseSlot(d), w', In(Detaching)) && Consistent(w.section.table) && Consistent(w'.section.table)
    ensures w'.drivers[d].index.None? && w'.gate == w.gate
    ensures SlotFreed(w, d, w')
  {
    hide MappingInv, ReachInv, Used;
    assert IndexOk(w, d);
    TableConsistent(w);
    w' := Taken(w, ReleaseSlot(d), In(Detaching));
  }

  lemma TeardownBegun(w: World, d: Image) returns (w': World)
    requires Inv(w) && d in w.drivers && w.drivers[d].pc == In(Loaded)
    ensures Takes(w, BeginTeardown(d), w', In(Releasing)) && w'.gate == w.gate && w'.section == w.section
    ensures w'.drivers[d].index == w.drivers[d].index
  {
    hide Inv;
    w' := Taken(w, BeginTeardown(d), In(Releasing));
  }

  lemma UnmapEntered(w: World, d: Image) returns (w': World)
    requires Inv(w) && w.gate.None? && d in w.drivers && w.drivers[d].pc == In(Detaching)
    ensures Takes(w, EnterUnmap(d), w', In(Unmapping)) && w'.section == w.section && w'.handles == w.handles
  {
    hide Inv;
    w' := Taken(w, EnterUnmap(d), In(Unmapping));
  }

  lemma DetachTaken(w: World, d: Image) returns (w': World)
    requires Inv(w) && d in w.drivers && w.drivers[d].pc == In(Unmapping)
    ensures Takes(w, Detach(d), w', Closing) && w'.section.table == w.section.table && w'.handles == w.handles
  {
    hide Inv, DetachStep;
    Detached(w, d);
    w' := Taken(w, Detach(d), Closing);
  }

  lemma Closed(w: World, d: Image) returns (w': World)
    requires Inv(w) && d in w.drivers && w.drivers[d].pc.Closing?
    ensures Takes(w, Close(d), w', Unloaded) && w'.section == w.section && w'.gate.None? && w'.handles == w.handles - {d}
  {
    hide Inv;
    w' := Taken(w, Close(d), Unloaded);
  }

  // The second half: an image whose slot is released leaves.
  lemma Leaves(w: World, d: Image) returns (w': World)
    requires Inv(w) && w.gate.None? && d in w.drivers && w.drivers[d].pc == In(Detaching)
    ensures Reaches(w, [EnterUnmap(d), Detach(d), Close(d)], w') && Inv(w') && d in w'.drivers
    ensures w'.drivers[d].pc.Unloaded? && w'.gate.None? && w'.section.table == w.section.table && d !in w'.handles
    ensures w'.drivers == w.drivers[d := w'.drivers[d]]
  {
    hide Reaches, Inv, Do, Enabled;
    var w1 := UnmapEntered(w, d);
    var w2 := DetachTaken(w1, d);
    w' := Closed(w2, d);
    RunOf(w, [EnterUnmap(d), Detach(d), Close(d)], [w, w1, w2, w']);
  }

  lemma Releases(w: World, d: Image) returns (w': World)
    requires Inv(w) && d in w.drivers && w.drivers[d].pc == In(Loaded)
    ensures Reaches(w, [BeginTeardown(d), ReleaseSlot(d)], w') && Inv(w') && d in w'.drivers
    ensures w'.drivers[d].pc == In(Detaching) && w'.gate == w.gate && w'.drivers == w.drivers[d := w'.drivers[d]]
    ensures Consistent(w.section.table) && Consistent(w'.section.table) && SlotFreed(w, d, w')
  {
    hide Reaches, Inv, Do, Enabled, Consistent;
    var w1 := TeardownBegun(w, d);
    w' := SlotReleased(w1, d);
    RunOf(w, [BeginTeardown(d), ReleaseSlot(d)], [w, w1, w']);
  }

  // The slot the image had is free and no other slot has changed.
  predicate SlotFreed(w: World, d: Image, w': World)
    requires d in w.drivers
  {
    w'.section.table.slots ==
    if w.drivers[d].index.Some? && w.drivers[d].index.value < |w.section.table.slots|
    then w.section.table.slots[w.drivers[d].index.value := None] else w.section.table.slots
  }

  /**
   With the gate free every loaded image can unload: its slot, if it had one, is free again and no other slot changed,
   its handle is closed, the gate is free, and no other image was moved.
   */
  lemma UnloadSucceeds(start: World, acts: seq<Act>, w: World, d: Image) returns (w': World)
    requires Initial(start) && Reaches(start, acts, w) && w.gate.None? && d in w.drivers && w.drivers[d].pc == In(Loaded)
    ensures Reaches(w, UnloadRun(d), w') && d in w'.drivers && w'.drivers[d].pc.Unloaded? && w'.gate.None?
    ensures d !in w'.handles && w'.drivers == w.drivers[d := w'.drivers[d]] && SlotFreed(w, d, w')
  {
    hide Reaches, Inv, Consistent, Initial;
    InitialHolds(start);
    RunKeeps(start, acts, w);
    var w1 := Releases(w, d);
    w' := Leaves(w1, d);
    ReachesBoth(w, [BeginTeardown(d), ReleaseSlot(d)], w1, [EnterUnmap(d), Detach(d), Close(d)], w');
    assert UnloadRun(d) == [BeginTeardown(d), ReleaseSlot(d)] + [EnterUnmap(d), Detach(d), Close(d)];
  }
}
