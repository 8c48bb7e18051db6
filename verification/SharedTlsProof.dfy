/** Every step of the shared compiler-TLS protocol keeps its invariant; what follows for every run. */
module SharedTlsProof {
  import opened Options
  import opened SlotTable
  import opened SharedTls

  // Changing one image changes the set of attached images by at most that image.
  lemma AttachedUpdate(w: World, w': World, d: Image)
    requires d in w.drivers && d in w'.drivers && w'.drivers == w.drivers[d := w'.drivers[d]]
    ensures var a, a' := AttachedImages(w), AttachedImages(w');
            if w'.drivers[d].pc.In? then a' == a + {d} && |a'| == |a| + (if d in a then 0 else 1)
            else a' == a - {d} && |a'| == |a| - (if d in a then 1 else 0)
  {
    AttachedSet(w, w', d);
  }

  lemma AttachedSet(w: World, w': World, d: Image)
    requires d in w.drivers && d in w'.drivers && w'.drivers == w.drivers[d := w'.drivers[d]]
    ensures AttachedImages(w') == if w'.drivers[d].pc.In? then AttachedImages(w) + {d} else AttachedImages(w) - {d}
    ensures d in AttachedImages(w) <==> w.drivers[d].pc.In?
  {
  }

  // ---------------------------------------------------------------------------------------------------------
  // Gate, handles, views and MDLs
  // ---------------------------------------------------------------------------------------------------------

  // An image other than d is still all right if the step left it alone and kept its mappings alive.
  predicate Untouched(w: World, w': World, d: Image)
    requires d in w.drivers
  {
    OnlyMoved(w, w', d) && forall e | e in w.drivers && e != d :: KeepsMappings(w, w', e)
  }

  // The step moved d and changed the gate and the handles for d alone.
  predicate OnlyMoved(w: World, w': World, d: Image)
    requires d in w.drivers
  {
    && d in w'.drivers && w'.drivers == w.drivers[d := w'.drivers[d]]
    && (forall e | e in w.drivers && e != d :: (w'.gate == Some(e) <==> w.gate == Some(e)))
    && w'.handles - {d} == w.handles - {d} && w.handles - {d} <= w'.handles
  }

  predicate KeepsMappings(w: World, w': World, e: Image)
    requires e in w.drivers
  {
    var dr := w.drivers[e];
    && (HasView(dr.pc) || HasMdl(dr.pc) || dr.pc.In? ==>
          w'.section.(refCount := 0, table := Empty()) == w.section.(refCount := 0, table := Empty()))
    && (HasView(dr.pc) ==> dr.view in w'.views && w'.views[dr.view] == e)
    && (HasMdl(dr.pc) ==> dr.mdl in w'.mdls && w'.mdls[dr.mdl] == e)
    && (dr.pc.In? ==> w'.section.canonView in w'.views && w'.section.canonMdl in w'.mdls)
  }

  lemma DriversKept(w: World, w': World, d: Image)
    requires d in w.drivers && Untouched(w, w', d) && DriverOk(w', d)
    requires forall e | e in w.drivers :: DriverOk(w, e)
    ensures forall e | e in w'.drivers :: DriverOk(w', e)
  {
    forall e | e in w'.drivers
      ensures DriverOk(w', e)
    {
      if e != d {
        assert DriverOk(w, e) && KeepsMappings(w, w', e);
        assert e in w'.handles <==> e in w.handles by {
          assert e in w'.handles - {d} <==> e in w.handles - {d};
        }
      }
    }
  }

  // A step that moves one image without changing what it holds, other than the gate.
  predicate Control(w: World, w': World, d: Image)
    requires d in w.drivers
  {
    && d in w'.drivers && w'.drivers == w.drivers[d := w'.drivers[d]]
    && w'.handles == w.handles && w'.views == w.views && w'.mdls == w.mdls && w'.next == w.next && w'.fault == w.fault
    && w'.section == w.section.(table := w'.section.table)
    && (w'.gate == w.gate || (w.gate.None? && w'.gate == Some(d)) || (w.gate == Some(d) && w'.gate.None?))
    && var dr, dr' := w.drivers[d], w'.drivers[d];
    && dr'.view == dr.view && dr'.mdl == dr.mdl && dr'.slots == dr.slots
    && (HoldsGate(dr'.pc) <==> w'.gate == Some(d))
    && dr'.pc.In? == dr.pc.In? && HasHandle(dr'.pc) == HasHandle(dr.pc)
    && HasView(dr'.pc) == HasView(dr.pc) && HasMdl(dr'.pc) == HasMdl(dr.pc)
    && Entering(dr'.pc) == Entering(dr.pc)
  }

  lemma ControlMapping(w: World, w': World, d: Image)
    requires d in w.drivers && MappingInv(w) && Control(w, w', d)
    ensures MappingInv(w')
  {
    hide HoldsGate, HasHandle, HasView, HasMdl, AttachedImages;
    assert AttachedImages(w') == AttachedImages(w) by {
      AttachedUpdate(w, w', d);
      SameAttached(w, w', d);
    }
    EnteringHolds(w.drivers[d].pc);
    assert DriverOk(w, d);
    forall e | e in w.drivers && e != d
      ensures KeepsMappings(w, w', e)
    {
      assert DriverOk(w, e);
    }
    DriversKept(w, w', d);
    forall v | v in w'.views ensures ViewOk(w', v) { assert ViewOk(w, v); }
    forall m | m in w'.mdls ensures MdlOk(w', m) { assert MdlOk(w, m); }
  }

  lemma SameAttached(w: World, w': World, d: Image)
    requires d in w.drivers && Control(w, w', d)
    ensures AttachedImages(w') == AttachedImages(w)
  {
  }

  lemma EnteringHolds(pc: Pc)
    ensures Entering(pc) ==> HoldsGate(pc)
    ensures HasHandle(pc) && !HoldsGate(pc) ==> pc.In?
    ensures HasView(pc) && !HoldsGate(pc) ==> pc.In?
    ensures pc.In? ==> HasHandle(pc) && HasView(pc) && HasMdl(pc) && !Entering(pc)
    ensures HasMdl(pc) ==> HasView(pc)
  {
  }

  // The steps that change handles, views or MDLs, one lemma for the image that moves and one for everything else.

  lemma OpenedSelf(w: World, d: Image)
    requires d in w.drivers && MappingInv(w) && w.drivers[d].pc.Opening?
    ensures DriverOk(OpenSectionStep(w, d, true), d)
  {
    hide ViewOk, MdlOk, AttachedImages;
    assert DriverOk(w, d);
  }

  lemma OpenedOther(w: World, d: Image, e: Image)
    requires d in w.drivers && MappingInv(w) && w.drivers[d].pc.Opening? && e in w.drivers && e != d
    ensures KeepsMappings(w, OpenSectionStep(w, d, true), e)
  {
    hide AttachedImages;
    assert DriverOk(w, d) && DriverOk(w, e);
    EnteringHolds(w.drivers[e].pc);
  }

  lemma OpenedDrivers(w: World, d: Image)
    requires d in w.drivers && MappingInv(w) && w.drivers[d].pc.Opening?
    ensures var w' := OpenSectionStep(w, d, true); forall e | e in w'.drivers :: DriverOk(w', e)
  {
    hide HoldsGate, HasHandle, HasView, HasMdl, AttachedImages, KeepsMappings, ViewOk, MdlOk, DriverOk, CanonAlive;
    var w' := OpenSectionStep(w, d, true);
    OpenedSelf(w, d);
    forall e | e in w.drivers && e != d
      ensures KeepsMappings(w, w', e)
    {
      OpenedOther(w, d, e);
    }
    OpenedFrame(w, d);
    DriversKept(w, w', d);
  }

  lemma OpenedFrame(w: World, d: Image)
    requires d in w.drivers && MappingInv(w) && w.drivers[d].pc.Opening?
    ensures OnlyMoved(w, OpenSectionStep(w, d, true), d)
  {
    hide ViewOk, MdlOk, AttachedImages, CanonAlive;
    assert DriverOk(w, d);
  }

  lemma OpenedSection(w: World, d: Image)
    requires d in w.drivers && MappingInv(w) && w.drivers[d].pc.Opening?
    ensures SectionOk(OpenSectionStep(w, d, true))
  {
    var w' := OpenSectionStep(w, d, true);
    AttachedUpdate(w, w', d);
    assert DriverOk(w, d);
    if w.handles == {} {
      forall e | e in w.drivers ensures e !in AttachedImages(w) { assert DriverOk(w, e); }
      assert AttachedImages(w) == {};
    } else {
      var h :| h in w.handles;
      assert DriverOk(w, h);
      assert h in AttachedImages(w);
    }
  }

  lemma NobodyAttached(w: World)
    requires MappingInv(w) && w.handles == {}
    ensures AttachedImages(w) == {}
  {
    hide ViewOk, MdlOk;
    forall e | e in w.drivers ensures e !in AttachedImages(w) { assert DriverOk(w, e); }
  }

  lemma OpenedViews(w: World, d: Image)
    requires d in w.drivers && MappingInv(w) && w.drivers[d].pc.Opening?
    ensures var w' := OpenSectionStep(w, d, true);
            (forall v | v in w'.views :: ViewOk(w', v)) && (forall m | m in w'.mdls :: MdlOk(w', m))
  {
    hide HoldsGate, HasHandle, AttachedImages, SectionOk, DriverOk;
    var w' := OpenSectionStep(w, d, true);
    AttachedSet(w, w', d);
    if w.handles == {} {
      NobodyAttached(w);
    }
    forall v | v in w'.views ensures ViewOk(w', v) { assert v in w.views ==> ViewOk(w, v); }
    forall m | m in w'.mdls ensures MdlOk(w', m) { assert m in w.mdls ==> MdlOk(w, m); }
  }

  lemma MappedSelf(w: World, d: Image)
    requires d in w.drivers && MappingInv(w) && w.drivers[d].pc.Opened?
    ensures DriverOk(MapViewStep(w, d, true), d)
  {
    hide ViewOk, MdlOk, AttachedImages;
    assert DriverOk(w, d);
    assert w.next in w.views ==> ViewOk(w, w.next);
  }

  lemma MappedOther(w: World, d: Image, e: Image)
    requires d in w.drivers && MappingInv(w) && w.drivers[d].pc.Opened? && e in w.drivers && e != d
    ensures KeepsMappings(w, MapViewStep(w, d, true), e)
  {
    hide AttachedImages;
    assert DriverOk(w, d) && DriverOk(w, e);
    assert w.next in w.views ==> ViewOk(w, w.next);
  }

  lemma MappedDrivers(w: World, d: Image)
    requires d in w.drivers && MappingInv(w) && w.drivers[d].pc.Opened?
    ensures var w' := MapViewStep(w, d, true); forall e | e in w'.drivers :: DriverOk(w', e)
  {
    hide HoldsGate, HasHandle, HasView, HasMdl, AttachedImages, KeepsMappings, ViewOk, MdlOk, DriverOk, CanonAlive;
    var w' := MapViewStep(w, d, true);
    MappedSelf(w, d);
    forall e | e in w.drivers && e != d
      ensures KeepsMappings(w, w', e)
    {
      MappedOther(w, d, e);
    }
    MappedFrame(w, d);
    DriversKept(w, w', d);
  }

  lemma MappedFrame(w: World, d: Image)
    requires d in w.drivers && MappingInv(w) && w.drivers[d].pc.Opened?
    ensures OnlyMoved(w, MapViewStep(w, d, true), d)
  {
    hide ViewOk, MdlOk, AttachedImages, CanonAlive;
    assert DriverOk(w, d);
  }

  lemma MappedSection(w: World, d: Image)
    requires d in w.drivers && MappingInv(w) && w.drivers[d].pc.Opened?
    ensures SectionOk(MapViewStep(w, d, true))
  {
    var w' := MapViewStep(w, d, true);
    AttachedUpdate(w, w', d);
    assert DriverOk(w, d);
  }

  lemma MappedViews(w: World, d: Image)
    requires d in w.drivers && MappingInv(w) && w.drivers[d].pc.Opened?
    ensures var w' := MapViewStep(w, d, true);
            (forall v | v in w'.views :: ViewOk(w', v)) && (forall m | m in w'.mdls :: MdlOk(w', m))
  {
    hide HoldsGate, HasHandle, AttachedImages;
    var w' := MapViewStep(w, d, true);
    AttachedSet(w, w', d);
    assert DriverOk(w, d);
    forall v | v in w'.views ensures ViewOk(w', v) { assert v in w.views ==> ViewOk(w, v); }
    forall m | m in w'.mdls ensures MdlOk(w', m) { assert m in w.mdls ==> MdlOk(w, m); }
  }

  lemma LockedSelf(w: World, d: Image)
    requires d in w.drivers && MappingInv(w) && w.drivers[d].pc.Mapped?
    ensures DriverOk(LockViewStep(w, d, true), d)
  {
    hide ViewOk, MdlOk, AttachedImages;
    assert DriverOk(w, d);
  }

  lemma LockedOther(w: World, d: Image, e: Image)
    requires d in w.drivers && MappingInv(w) && w.drivers[d].pc.Mapped? && e in w.drivers && e != d
    ensures KeepsMappings(w, LockViewStep(w, d, true), e)
  {
    hide AttachedImages;
    assert DriverOk(w, d) && DriverOk(w, e);
    assert w.next in w.mdls ==> MdlOk(w, w.next);
  }

  lemma LockedDrivers(w: World, d: Image)
    requires d in w.drivers && MappingInv(w) && w.drivers[d].pc.Mapped?
    ensures var w' := LockViewStep(w, d, true); forall e | e in w'.drivers :: DriverOk(w', e)
  {
    hide HoldsGate, HasHandle, HasView, HasMdl, AttachedImages, KeepsMappings, ViewOk, MdlOk, DriverOk, CanonAlive;
    var w' := LockViewStep(w, d, true);
    LockedSelf(w, d);
    forall e | e in w.drivers && e != d
      ensures KeepsMappings(w, w', e)
    {
      LockedOther(w, d, e);
    }
    LockedFrame(w, d);
    DriversKept(w, w', d);
  }

  lemma LockedFrame(w: World, d: Image)
    requires d in w.drivers && MappingInv(w) && w.drivers[d].pc.Mapped?
    ensures OnlyMoved(w, LockViewStep(w, d, true), d)
  {
    hide ViewOk, MdlOk, AttachedImages, CanonAlive;
    assert DriverOk(w, d);
  }

  lemma LockedSection(w: World, d: Image)
    requires d in w.drivers && MappingInv(w) && w.drivers[d].pc.Mapped?
    ensures SectionOk(LockViewStep(w, d, true))
  {
    var w' := LockViewStep(w, d, true);
    AttachedUpdate(w, w', d);
    assert DriverOk(w, d);
  }

  lemma LockedViews(w: World, d: Image)
    requires d in w.drivers && MappingInv(w) && w.drivers[d].pc.Mapped?
    ensures var w' := LockViewStep(w, d, true);
            (forall v | v in w'.views :: ViewOk(w', v)) && (forall m | m in w'.mdls :: MdlOk(w', m))
  {
    hide HoldsGate, HasHandle, AttachedImages, SectionOk;
    var w' := LockViewStep(w, d, true);
    AttachedSet(w, w', d);
    assert DriverOk(w, d);
    forall v | v in w'.views ensures ViewOk(w', v) { assert v in w.views ==> ViewOk(w, v); }
    forall m | m in w'.mdls ensures MdlOk(w', m) { assert m in w.mdls ==> MdlOk(w, m); }
  }

  // Leaving with a handle and no view, and giving up with only a view.

  lemma LeftDrivers(w: World, d: Image)
    requires d in w.drivers && MappingInv(w) && (w.drivers[d].pc.Opened? || w.drivers[d].pc.Closing?)
    ensures var w' := CloseAndLeave(w, d); forall e | e in w'.drivers :: DriverOk(w', e)
  {
    var w' := CloseAndLeave(w, d);
    assert DriverOk(w, d);
    assert DriverOk(w', d);
    hide HoldsGate, HasHandle, AttachedImages;
    forall e | e in w.drivers && e != d
      ensures KeepsMappings(w, w', e)
    {
      assert DriverOk(w, e);
    }
    DriversKept(w, w', d);
  }

  lemma LeftSection(w: World, d: Image)
    requires d in w.drivers && MappingInv(w) && (w.drivers[d].pc.Opened? || w.drivers[d].pc.Closing?)
    ensures SectionOk(CloseAndLeave(w, d))
  {
    var w' := CloseAndLeave(w, d);
    AttachedUpdate(w, w', d);
    assert DriverOk(w, d);
  }

  lemma LeftViews(w: World, d: Image)
    requires d in w.drivers && MappingInv(w) && (w.drivers[d].pc.Opened? || w.drivers[d].pc.Closing?)
    ensures var w' := CloseAndLeave(w, d);
            (forall v | v in w'.views :: ViewOk(w', v)) && (forall m | m in w'.mdls :: MdlOk(w', m))
  {
    hide HoldsGate, HasHandle, AttachedImages, SectionOk;
    var w' := CloseAndLeave(w, d);
    AttachedSet(w, w', d);
    assert DriverOk(w, d);
    forall v | v in w'.views ensures ViewOk(w', v) { assert v in w.views ==> ViewOk(w, v); }
    forall m | m in w'.mdls ensures MdlOk(w', m) { assert m in w.mdls ==> MdlOk(w, m); }
  }

  lemma GivenUpSelf(w: World, d: Image)
    requires d in w.drivers && MappingInv(w) && w.drivers[d].pc.Mapped?
    ensures DriverOk(CloseAndLeave(UnmapView(w, w.drivers[d].view), d), d)
  {
    hide ViewOk, MdlOk, AttachedImages;
    assert DriverOk(w, d);
  }

  lemma GivenUpOther(w: World, d: Image, e: Image)
    requires d in w.drivers && MappingInv(w) && w.drivers[d].pc.Mapped? && e in w.drivers && e != d
    ensures KeepsMappings(w, CloseAndLeave(UnmapView(w, w.drivers[d].view), d), e)
  {
    hide AttachedImages;
    assert DriverOk(w, d) && DriverOk(w, e);
  }

  lemma GivenUpDrivers(w: World, d: Image)
    requires d in w.drivers && MappingInv(w) && w.drivers[d].pc.Mapped?
    ensures var w' := CloseAndLeave(UnmapView(w, w.drivers[d].view), d); forall e | e in w'.drivers :: DriverOk(w', e)
  {
    hide HoldsGate, HasHandle, HasView, HasMdl, AttachedImages, KeepsMappings, ViewOk, MdlOk, DriverOk, CanonAlive;
    var w' := CloseAndLeave(UnmapView(w, w.drivers[d].view), d);
    GivenUpSelf(w, d);
    forall e | e in w.drivers && e != d
      ensures KeepsMappings(w, w', e)
    {
      GivenUpOther(w, d, e);
    }
    GivenUpFrame(w, d);
    DriversKept(w, w', d);
  }

  lemma GivenUpFrame(w: World, d: Image)
    requires d in w.drivers && MappingInv(w) && w.drivers[d].pc.Mapped?
    ensures OnlyMoved(w, CloseAndLeave(UnmapView(w, w.drivers[d].view), d), d)
  {
    hide ViewOk, MdlOk, AttachedImages, CanonAlive;
    assert DriverOk(w, d);
  }

  lemma GivenUpSection(w: World, d: Image)
    requires d in w.drivers && MappingInv(w) && w.drivers[d].pc.Mapped?
    ensures SectionOk(CloseAndLeave(UnmapView(w, w.drivers[d].view), d))
  {
    var w' := CloseAndLeave(UnmapView(w, w.drivers[d].view), d);
    AttachedUpdate(w, w', d);
    assert DriverOk(w, d);
  }

  lemma GivenUpViews(w: World, d: Image)
    requires d in w.drivers && MappingInv(w) && w.drivers[d].pc.Mapped?
    ensures var w' := CloseAndLeave(UnmapView(w, w.drivers[d].view), d);
            (forall v | v in w'.views :: ViewOk(w', v)) && (forall m | m in w'.mdls :: MdlOk(w', m))
  {
    hide HoldsGate, HasHandle, AttachedImages, SectionOk;
    var w' := CloseAndLeave(UnmapView(w, w.drivers[d].view), d);
    AttachedSet(w, w', d);
    assert DriverOk(w, d);
    forall v | v in w'.views ensures ViewOk(w', v) { assert v in w.views ==> ViewOk(w, v); }
    forall m | m in w'.mdls ensures MdlOk(w', m) { assert m in w.mdls ==> MdlOk(w, m); }
  }

  // The section an image finds is one it initializes or one that attached images keep initialized: the revision
  // check never fails.
  lemma PublishSucceeds(w: World, d: Image)
    requires d in w.drivers && MappingInv(w) && w.drivers[d].pc.Locked?
    ensures var s := Initialized(w.section, w.drivers[d]);
            s.initState == 2 && s.canonView != 0 && s.canonMdl != 0 && s.canonSlots != 0
  {
    assert DriverOk(w, d);
    if w.section.initState == 0 {
      assert ViewOk(w, w.drivers[d].view) && MdlOk(w, w.drivers[d].mdl);
    } else {
      var e :| e in AttachedImages(w);
      assert DriverOk(w, e);
      assert ViewOk(w, w.section.canonView) && MdlOk(w, w.section.canonMdl);
    }
  }

  lemma PublishedSelf(w: World, d: Image)
    requires d in w.drivers && MappingInv(w) && w.drivers[d].pc.Locked?
    ensures DriverOk(PublishStep(w, d), d)
  {
    hide ViewOk, MdlOk;
    assert DriverOk(w, d);
    PublishSucceeds(w, d);
    if w.section.initState != 0 {
      var e :| e in AttachedImages(w);
      assert DriverOk(w, e);
    }
  }

  lemma PublishedOther(w: World, d: Image, e: Image)
    requires d in w.drivers && MappingInv(w) && w.drivers[d].pc.Locked? && e in w.drivers && e != d
    ensures KeepsMappings(w, PublishStep(w, d), e)
  {
    hide AttachedImages;
    assert DriverOk(w, d) && DriverOk(w, e);
    PublishSucceeds(w, d);
  }

  lemma PublishedDrivers(w: World, d: Image)
    requires d in w.drivers && MappingInv(w) && w.drivers[d].pc.Locked?
    ensures var w' := PublishStep(w, d); forall e | e in w'.drivers :: DriverOk(w', e)
  {
    hide HoldsGate, HasHandle, HasView, HasMdl, AttachedImages, KeepsMappings, ViewOk, MdlOk, DriverOk, CanonAlive;
    var w' := PublishStep(w, d);
    PublishedSelf(w, d);
    forall e | e in w.drivers && e != d
      ensures KeepsMappings(w, w', e)
    {
      PublishedOther(w, d, e);
    }
    PublishedFrame(w, d);
    DriversKept(w, w', d);
  }

  lemma PublishedFrame(w: World, d: Image)
    requires d in w.drivers && MappingInv(w) && w.drivers[d].pc.Locked?
    ensures OnlyMoved(w, PublishStep(w, d), d)
  {
    hide ViewOk, MdlOk, AttachedImages, CanonAlive;
    assert DriverOk(w, d);
    PublishSucceeds(w, d);
  }

  lemma PublishedSection(w: World, d: Image)
    requires d in w.drivers && MappingInv(w) && w.drivers[d].pc.Locked?
    ensures SectionOk(PublishStep(w, d))
  {
    var w' := PublishStep(w, d);
    AttachedUpdate(w, w', d);
    assert DriverOk(w, d);
    PublishSucceeds(w, d);
  }

  lemma PublishedViews(w: World, d: Image)
    requires d in w.drivers && MappingInv(w) && w.drivers[d].pc.Locked?
    ensures var w' := PublishStep(w, d);
            (forall v | v in w'.views :: ViewOk(w', v)) && (forall m | m in w'.mdls :: MdlOk(w', m))
  {
    hide HoldsGate, HasHandle, AttachedImages;
    var w' := PublishStep(w, d);
    AttachedSet(w, w', d);
    assert DriverOk(w, d);
    PublishSucceeds(w, d);
    EnteringHolds(w.drivers[d].pc);
    forall v | v in w'.views ensures ViewOk(w', v) { assert v in w.views ==> ViewOk(w, v); }
    forall m | m in w'.mdls ensures MdlOk(w', m) { assert m in w.mdls ==> MdlOk(w, m); }
  }

  lemma LastOne(w: World, d: Image)
    requires d in w.drivers && MappingInv(w) && w.drivers[d].pc == In(Unmapping)
    ensures d in AttachedImages(w)
    ensures w.section.refCount - 1 == 0 <==> AttachedImages(w) == {d}
  {
    assert DriverOk(w, d);
    assert d in AttachedImages(w);
    var rest := AttachedImages(w) - {d};
    assert |AttachedImages(w)| == |rest| + 1;
    assert AttachedImages(w) == {d} <==> rest == {};
  }

  lemma DetachedSelf(w: World, d: Image)
    requires d in w.drivers && MappingInv(w) && w.drivers[d].pc == In(Unmapping)
    ensures DriverOk(DetachStep(w, d), d)
  {
    hide ViewOk, MdlOk, AttachedImages;
    assert DriverOk(w, d);
  }

  lemma DetachedFrame(w: World, d: Image)
    requires d in w.drivers && MappingInv(w) && w.drivers[d].pc == In(Unmapping)
    ensures OnlyMoved(w, DetachStep(w, d), d)
  {
    hide MappingInv, DetachStep;
    Detached(w, d);
  }

  lemma DetachedDrivers(w: World, d: Image)
    requires d in w.drivers && MappingInv(w) && w.drivers[d].pc == In(Unmapping)
    ensures var w' := DetachStep(w, d); forall e | e in w'.drivers :: DriverOk(w', e)
  {
    hide HoldsGate, HasHandle, HasView, HasMdl, AttachedImages, KeepsMappings, ViewOk, MdlOk, DriverOk, CanonAlive, DetachStep;
    var w' := DetachStep(w, d);
    DetachedSelf(w, d);
    forall e | e in w.drivers && e != d
      ensures KeepsMappings(w, w', e)
    {
      DetachedOther(w, d, e);
    }
    DetachedFrame(w, d);
    DriversKept(w, w', d);
  }

  // Detaching releases nothing that another image still uses.
  lemma DetachedOther(w: World, d: Image, e: Image)
    requires d in w.drivers && MappingInv(w) && w.drivers[d].pc == In(Unmapping) && e in w.drivers && e != d
    ensures KeepsMappings(w, DetachStep(w, d), e)
  {
    hide AttachedImages, ViewOk, MdlOk, HoldsGate, HasHandle, DetachStep;
    assert DriverOk(w, d) && DriverOk(w, e);
    Detached(w, d);
    LastOne(w, d);
    if w.drivers[e].pc.In? {
      NotAlone(w, d, e);
    }
  }

  lemma NotAlone(w: World, d: Image, e: Image)
    requires e in w.drivers && e != d && w.drivers[e].pc.In?
    ensures AttachedImages(w) != {d}
  {
    assert e in AttachedImages(w);
  }

  // What detaching releases: the image's own view and MDL unless they are canonical, and the canonical ones at the end.
  lemma Detached(w: World, d: Image)
    requires d in w.drivers
    ensures var dr, s, w' := w.drivers[d], w.section, DetachStep(w, d);
            && w'.section == s.(refCount := s.refCount - 1) && w'.gate == w.gate && w'.handles == w.handles
            && w'.next == w.next
            && (var own := if dr.mdl == s.canonMdl then w.views else w.views - {dr.view};
                w'.views == if s.refCount - 1 == 0 then own - {s.canonView} else own)
            && (var own := if dr.mdl == s.canonMdl then w.mdls else w.mdls - {dr.mdl};
                w'.mdls == if s.refCount - 1 == 0 then own - {s.canonMdl} else own)
  {
    hide ReleaseOwn, ReleaseCanonical;
  }

  lemma DetachedFault(w: World, d: Image)
    requires d in w.drivers && MappingInv(w) && w.drivers[d].pc == In(Unmapping)
    ensures !DetachStep(w, d).fault
  {
    hide AttachedImages, ViewOk, MdlOk, HoldsGate, HasHandle;
    assert DriverOk(w, d);
  }

  lemma DetachedSection(w: World, d: Image)
    requires d in w.drivers && MappingInv(w) && w.drivers[d].pc == In(Unmapping)
    ensures SectionOk(DetachStep(w, d))
  {
    hide DetachStep, ViewOk, MdlOk, AttachedImages;
    var w' := DetachStep(w, d);
    Detached(w, d);
    DetachedFault(w, d);
    AttachedUpdate(w, w', d);
    AttachedIn(w, d);
    assert DriverOk(w, d);
  }

  lemma AttachedIn(w: World, d: Image)
    requires d in w.drivers
    ensures d in AttachedImages(w) <==> w.drivers[d].pc.In?
  {
  }

  lemma DetachedViews(w: World, d: Image)
    requires d in w.drivers && MappingInv(w) && w.drivers[d].pc == In(Unmapping)
    ensures var w' := DetachStep(w, d);
            (forall v | v in w'.views :: ViewOk(w', v)) && (forall m | m in w'.mdls :: MdlOk(w', m))
  {
    var w' := DetachStep(w, d);
    forall v | v in w'.views ensures ViewOk(w', v) { DetachedView(w, d, v); }
    forall m | m in w'.mdls ensures MdlOk(w', m) { DetachedMdl(w, d, m); }
  }

  lemma DetachedView(w: World, d: Image, v: nat)
    requires d in w.drivers && MappingInv(w) && w.drivers[d].pc == In(Unmapping) && v in DetachStep(w, d).views
    ensures ViewOk(DetachStep(w, d), v)
  {
    hide HoldsGate, HasHandle, AttachedImages, SectionOk, DetachStep, MdlOk;
    Detached(w, d);
    AttachedSet(w, DetachStep(w, d), d);
    assert DriverOk(w, d);
    LastOne(w, d);
    assert ViewOk(w, v);
  }

  lemma DetachedMdl(w: World, d: Image, m: nat)
    requires d in w.drivers && MappingInv(w) && w.drivers[d].pc == In(Unmapping) && m in DetachStep(w, d).mdls
    ensures MdlOk(DetachStep(w, d), m)
  {
    hide HoldsGate, HasHandle, AttachedImages, SectionOk, DetachStep, ViewOk;
    Detached(w, d);
    AttachedSet(w, DetachStep(w, d), d);
    assert DriverOk(w, d);
    LastOne(w, d);
    assert MdlOk(w, m);
  }

  lemma MappingKept(w: World, a: Act)
    requires MappingInv(w) && Enabled(w, a)
    ensures MappingInv(Do(w, a))
  {
    hide MappingInv, HoldsGate, HasHandle, HasView, HasMdl, AttachedImages, Consistent, DriverOk, SectionOk;
    var d := a.d;
    if Plain(a) {
      ControlStep(w, a);
      ControlMapping(w, Do(w, a), d);
    } else {
      match a {
        case OpenSection(_, _) =>
          OpenedDrivers(w, d);
          OpenedSection(w, d);
          OpenedViews(w, d);
        case MapView(_, ok) =>
          if ok {
            MappedDrivers(w, d);
            MappedSection(w, d);
            MappedViews(w, d);
          } else {
            LeftDrivers(w, d);
            LeftSection(w, d);
            LeftViews(w, d);
          }
        case LockView(_, ok) =>
          if ok {
            LockedDrivers(w, d);
            LockedSection(w, d);
            LockedViews(w, d);
          } else {
            GivenUpDrivers(w, d);
            GivenUpSection(w, d);
            GivenUpViews(w, d);
          }
        case Publish(_) =>
          PublishedDrivers(w, d);
          PublishedSection(w, d);
          PublishedViews(w, d);
        case Detach(_) =>
          DetachedDrivers(w, d);
          DetachedSection(w, d);
          DetachedViews(w, d);
        case Close(_) =>
          LeftDrivers(w, d);
          LeftSection(w, d);
          LeftViews(w, d);
      }
      Assemble(Do(w, a));
    }
  }

  lemma Assemble(w: World)
    requires SectionOk(w) && (forall d | d in w.drivers :: DriverOk(w, d))
    requires (forall v | v in w.views :: ViewOk(w, v)) && (forall m | m in w.mdls :: MdlOk(w, m))
    ensures MappingInv(w)
  {
  }

  predicate Plain(a: Act)
  {
    match a
    case OpenSection(_, ok) => !ok
    case MapView(_, _) => false
    case LockView(_, _) => false
    case Publish(_) => false
    case Detach(_) => false
    case Close(_) => false
    case _ => true
  }

  lemma ControlStep(w: World, a: Act)
    requires MappingInv(w) && Enabled(w, a) && Plain(a)
    ensures Control(w, Do(w, a), a.d)
  {
    hide MappingInv, Consistent, Control;
    GateOf(w, a.d);
    if a.EnterMap? || a.EnterUnmap? || a.OpenSection? {
      ControlGate(w, a);
    } else if a.AllocateSlot? || a.ReleaseSlot? {
      ControlSlot(w, a);
    } else {
      ControlPhase(w, a);
    }
  }

  lemma ControlGate(w: World, a: Act)
    requires Enabled(w, a) && Plain(a) && (HoldsGate(w.drivers[a.d].pc) <==> w.gate == Some(a.d))
    requires a.EnterMap? || a.EnterUnmap? || a.OpenSection?
    ensures Control(w, Do(w, a), a.d)
  {
  }

  lemma ControlSlot(w: World, a: Act)
    requires Enabled(w, a) && (HoldsGate(w.drivers[a.d].pc) <==> w.gate == Some(a.d))
    requires a.AllocateSlot? || a.ReleaseSlot?
    ensures Control(w, Do(w, a), a.d)
  {
    hide Consistent, FreeFrom, Take, Drop;
  }

  lemma ControlPhase(w: World, a: Act)
    requires Enabled(w, a) && Plain(a) && (HoldsGate(w.drivers[a.d].pc) <==> w.gate == Some(a.d))
    requires !a.EnterMap? && !a.EnterUnmap? && !a.OpenSection? && !a.AllocateSlot? && !a.ReleaseSlot?
    ensures Control(w, Do(w, a), a.d)
  {
    hide Consistent;
  }

  lemma GateOf(w: World, d: Image)
    requires MappingInv(w) && d in w.drivers
    ensures HoldsGate(w.drivers[d].pc) <==> w.gate == Some(d)
  {
    assert DriverOk(w, d);
  }

  // ---------------------------------------------------------------------------------------------------------
  // Slots
  // ---------------------------------------------------------------------------------------------------------

  lemma SlotKept(w: World, a: Act)
    requires MappingInv(w) && SlotInv(w) && Enabled(w, a)
    ensures SlotInv(Do(w, a))
  {
    hide Consistent, FreeFrom, Take, Drop, Empty, MappingInv;
    if a.AllocateSlot? {
      AllocateKept(w, a.d);
    } else if a.ReleaseSlot? {
      ReleaseKept(w, a.d);
    } else if a.OpenSection? && a.ok && w.handles == {} {
      FreshSlots(w, a);
    } else if a.Publish? && w.section.initState == 0 {
      FreshSlots(w, a);
    } else {
      SameSlots(w, a);
    }
  }

  lemma AllocateKept(w: World, d: Image)
    requires SlotInv(w) && d in w.drivers && w.drivers[d].pc == In(Mapping)
    ensures SlotInv(AllocateStep(w, d))
  {
    hide FreeFrom, Consistent, Take;
    var w' := AllocateStep(w, d);
    var free := FreeFrom(w.section.table, 0);
    Sizes(w.section.table);
    assert IndexOk(w, d);
    if free.Some? {
      TakeDrop(w.section.table, free.value, d);
    }
    forall i | 0 <= i < SLOT_COUNT ensures SlotOk(w', i) { assert SlotOk(w, i); }
    forall e | e in w'.drivers ensures IndexOk(w', e) { assert IndexOk(w, e); }
  }

  lemma ReleaseKept(w: World, d: Image)
    requires SlotInv(w) && d in w.drivers && w.drivers[d].pc == In(Releasing)
    ensures SlotInv(ReleaseStep(w, d))
  {
    var w' := ReleaseStep(w, d);
    assert IndexOk(w, d);
    if w.drivers[d].index.Some? {
      TakeDrop(w.section.table, w.drivers[d].index.value, d);
    }
    hide Used;
    forall i | 0 <= i < SLOT_COUNT ensures SlotOk(w', i) { assert SlotOk(w, i); }
    forall e | e in w'.drivers
      ensures IndexOk(w', e)
    {
      assert IndexOk(w, e);
    }
  }

  // A new section has an empty table, and then no image has a slot.
  lemma FreshSlots(w: World, a: Act)
    requires MappingInv(w) && SlotInv(w) && Enabled(w, a)
    requires (a.OpenSection? && a.ok && w.handles == {}) || (a.Publish? && w.section.initState == 0)
    ensures SlotInv(Do(w, a))
  {
    var w' := Do(w, a);
    assert DriverOk(w, a.d);
    EmptyConsistent();
    if a.Publish? {
      PublishSucceeds(w, a.d);
    }
    assert w'.section.table == Empty();
    forall i | 0 <= i < SLOT_COUNT ensures SlotOk(w', i) {}
    hide Consistent, Used, Empty;
    forall e | e in w'.drivers
      ensures IndexOk(w', e)
    {
      assert IndexOk(w, e) && DriverOk(w, e);
      assert w.drivers[e].pc.In? ==> e in AttachedImages(w);
    }
  }

  lemma SameSlots(w: World, a: Act)
    requires MappingInv(w) && SlotInv(w) && Enabled(w, a) && !a.AllocateSlot? && !a.ReleaseSlot?
    requires !(a.OpenSection? && a.ok && w.handles == {}) && !(a.Publish? && w.section.initState == 0)
    ensures SlotInv(Do(w, a))
  {
    hide Consistent, MappingInv, Do, Enabled;
    var w' := Do(w, a);
    Moves(w, a);
    Sizes(w.section.table);
    assert IndexOk(w, a.d);
    Unslotted(w, a);
    forall i | 0 <= i < SLOT_COUNT ensures SlotOk(w', i) { assert SlotOk(w, i); }
    forall e | e in w'.drivers ensures IndexOk(w', e) { assert IndexOk(w, e); }
  }

  // Steps that leave the table alone keep the index of the image that moves, and an image with an index stays in a
  // phase that may have one.
  lemma Unslotted(w: World, a: Act)
    requires MappingInv(w) && Enabled(w, a) && !a.AllocateSlot? && !a.ReleaseSlot?
    requires !(a.OpenSection? && a.ok && w.handles == {}) && !(a.Publish? && w.section.initState == 0)
    requires w.drivers[a.d].index.Some? ==> w.drivers[a.d].pc.In? && HasSlot(w.drivers[a.d].pc.phase)
    ensures Do(w, a).section.table == w.section.table && a.d in Do(w, a).drivers
    ensures Do(w, a).drivers[a.d].index == w.drivers[a.d].index
    ensures Do(w, a).drivers[a.d].index.Some? ==>
              Do(w, a).drivers[a.d].pc.In? && HasSlot(Do(w, a).drivers[a.d].pc.phase)
  {
    hide MappingInv, Consistent;
    if a.Publish? {
      PublishSucceeds(w, a.d);
    } else if w.drivers[a.d].pc.In? {
      UnslottedIn(w, a);
    } else {
      UnslottedOut(w, a);
    }
  }

  // The same for an image that is attached, and for one that is not and so has no index.
  lemma UnslottedIn(w: World, a: Act)
    requires Enabled(w, a) && !a.AllocateSlot? && !a.ReleaseSlot? && w.drivers[a.d].pc.In?
    requires w.drivers[a.d].index.Some? ==> HasSlot(w.drivers[a.d].pc.phase)
    ensures Do(w, a).section.table == w.section.table && a.d in Do(w, a).drivers
    ensures Do(w, a).drivers[a.d].index == w.drivers[a.d].index
    ensures Do(w, a).drivers[a.d].index.Some? ==>
              Do(w, a).drivers[a.d].pc.In? && HasSlot(Do(w, a).drivers[a.d].pc.phase)
  {
    hide Consistent, ReleaseOwn, ReleaseCanonical;
  }

  lemma UnslottedOut(w: World, a: Act)
    requires Enabled(w, a) && !a.Publish? && !w.drivers[a.d].pc.In? && w.drivers[a.d].index.None?
    requires !(a.OpenSection? && a.ok && w.handles == {})
    ensures Do(w, a).section.table == w.section.table && a.d in Do(w, a).drivers
    ensures Do(w, a).drivers[a.d].index.None?
  {
    hide Consistent;
  }

  // ---------------------------------------------------------------------------------------------------------
  // Processors
  // ---------------------------------------------------------------------------------------------------------

  lemma ReachKept(w: World, a: Act)
    requires MappingInv(w) && ReachInv(w) && Enabled(w, a)
    ensures ReachInv(Do(w, a))
  {
    hide MappingInv, Do, Enabled;
    var w' := Do(w, a);
    OnlyOneMoves(w, a);
    forall e | e in w'.drivers
      ensures ReachOk(w', e)
    {
      assert ReachOk(w, e);
      if e == a.d {
        ReachSelf(w, a);
      } else if w.drivers[e].pc.In? {
        CanonStays(w, a, e);
      }
    }
  }

  lemma OnlyOneMoves(w: World, a: Act)
    requires MappingInv(w) && Enabled(w, a)
    ensures a.d in w.drivers && a.d in Do(w, a).drivers
    ensures Do(w, a).drivers == w.drivers[a.d := Do(w, a).drivers[a.d]]
    ensures |Do(w, a).processors| == |w.processors|
    ensures forall p | 0 <= p < |w.processors| ::
              Do(w, a).processors[p] == w.processors[p] || Do(w, a).processors[p] == w.section.canonSlots
  {
    hide MappingInv, Do;
    Moves(w, a);
    if a.SetProcessor? {
      SlotsPointer(w, a.d);
    }
  }

  lemma Moves(w: World, a: Act)
    requires Enabled(w, a)
    ensures a.d in w.drivers && a.d in Do(w, a).drivers
    ensures Do(w, a).drivers == w.drivers[a.d := Do(w, a).drivers[a.d]]
    ensures Do(w, a).processors ==
            if a.SetProcessor? then w.processors[a.p := w.drivers[a.d].slots] else w.processors
  {
    hide Consistent, At, CloseAndLeave, PublishStep, AllocateStep, ReleaseStep, DetachStep, EnterMapStep,
      OpenSectionStep, MapViewStep, LockViewStep, EnterUnmapStep, SetProcessorStep;
  }

  lemma ReachSelf(w: World, a: Act)
    requires MappingInv(w) && Enabled(w, a) && ReachOk(w, a.d)
    ensures a.d in Do(w, a).drivers && ReachOk(Do(w, a), a.d)
  {
    hide MappingInv, Consistent;
    if a.SetProcessor? || a.FinishBroadcast? {
      SlotsPointer(w, a.d);
    } else {
      hide Do, Enabled;
      NotReaching(w, a);
      Moves(w, a);
    }
  }

  // No other step enters a phase that promises anything about the processors.
  lemma NotReaching(w: World, a: Act)
    requires Enabled(w, a) && !a.SetProcessor? && !a.FinishBroadcast?
    ensures a.d in Do(w, a).drivers
    ensures var pc := Do(w, a).drivers[a.d].pc; pc != In(Loaded) && (pc.In? && pc.phase.Broadcasting? ==> pc.phase.done == {})
  {
    hide Consistent, At, CloseAndLeave, PublishStep, AllocateStep, ReleaseStep, DetachStep, EnterMapStep,
      OpenSectionStep, MapViewStep, LockViewStep, EnterUnmapStep, SetProcessorStep;
  }

  lemma SlotsPointer(w: World, d: Image)
    requires MappingInv(w) && d in w.drivers && w.drivers[d].pc.In?
    ensures w.drivers[d].slots == w.section.canonSlots
  {
    assert DriverOk(w, d);
  }

  // While an image is attached no step changes which slot vector is canonical.
  lemma CanonStays(w: World, a: Act, e: Image)
    requires MappingInv(w) && Enabled(w, a) && e in w.drivers && w.drivers[e].pc.In?
    ensures Do(w, a).section.canonSlots == w.section.canonSlots
  {
    hide Consistent, HoldsGate, HasView, HasMdl, ViewOk, MdlOk, FreeFrom;
    assert DriverOk(w, e);
  }

  // ---------------------------------------------------------------------------------------------------------
  // Runs
  // ---------------------------------------------------------------------------------------------------------

  lemma StepKeeps(w: World, a: Act)
    requires Inv(w) && Enabled(w, a)
    ensures Inv(Do(w, a))
  {
    hide MappingInv, SlotInv, ReachInv, Do, Enabled;
    MappingKept(w, a);
    SlotKept(w, a);
    ReachKept(w, a);
  }

  lemma InitialHolds(w: World)
    requires Initial(w)
    ensures Inv(w)
  {
    EmptyConsistent();
    assert AttachedImages(w) == {};
  }

  // The world after a sequence of steps, each of them enabled when it happens.
  ghost predicate Reaches(w: World, acts: seq<Act>, w': World)
    decreases |acts|
  {
    if acts == [] then w' == w else Enabled(w, acts[0]) && Reaches(Do(w, acts[0]), acts[1..], w')
  }

  /** The invariant holds in every state of every run, in any interleaving of loads and unloads. */
  lemma {:induction false} RunKeeps(w: World, acts: seq<Act>, w': World)
    requires Inv(w) && Reaches(w, acts, w')
    ensures Inv(w')
    decreases |acts|
  {
    hide Inv, Do, Enabled;
    if acts != [] {
      StepKeeps(w, acts[0]);
      RunKeeps(Do(w, acts[0]), acts[1..], w');
    }
  }

  /**
   A loaded image finds its own buffer at its index, through the pointer installed on every processor, in a mapping
   that is alive; no other image has that index, and its bit is set.
   */
  lemma OwnSlotEverywhere(start: World, acts: seq<Act>, w: World, d: Image)
    requires Initial(start) && Reaches(start, acts, w)
    requires d in w.drivers && w.drivers[d].pc == In(Loaded) && w.drivers[d].index.Some?
    ensures Consistent(w.section.table)
    ensures var i := w.drivers[d].index.value;
            && i < SLOT_COUNT && w.section.table.slots[i] == Some(d) && Used(w.section.table.bitmap, i)
            && (forall p | 0 <= p < |w.processors| ::
                  w.processors[p] == w.section.canonSlots && w.processors[p] in w.mdls)
            && (forall e | e in w.drivers && e != d :: w.drivers[e].index != Some(i))
  {
    InitialHolds(start);
    RunKeeps(start, acts, w);
    hide Used;
    assert DriverOk(w, d) && IndexOk(w, d) && ReachOk(w, d);
    forall e | e in w.drivers && e != d
      ensures w.drivers[e].index != w.drivers[d].index
    {
      assert IndexOk(w, e);
    }
  }

  /** A bit is set exactly when its slot is held, and then by exactly one image: the one that has it as its index. */
  lemma SlotsHeldOnce(start: World, acts: seq<Act>, w: World, i: nat)
    requires Initial(start) && Reaches(start, acts, w) && i < SLOT_COUNT
    ensures Consistent(w.section.table)
    ensures Used(w.section.table.bitmap, i) <==> exists d :: d in w.drivers && w.drivers[d].index == Some(i)
    ensures forall d | d in w.drivers && w.drivers[d].index == Some(i) :: w.section.table.slots[i] == Some(d)
    ensures forall d, e | d in w.drivers && e in w.drivers && w.drivers[d].index == Some(i) == w.drivers[e].index :: d == e
  {
    hide Used;
    InitialHolds(start);
    RunKeeps(start, acts, w);
    assert SlotOk(w, i);
    if Used(w.section.table.bitmap, i) {
      assert w.drivers[w.section.table.slots[i].value].index == Some(i);
    } else {
      forall d | d in w.drivers ensures w.drivers[d].index != Some(i) { assert IndexOk(w, d); }
    }
    forall d | d in w.drivers && w.drivers[d].index == Some(i) ensures w.section.table.slots[i] == Some(d) {
      assert IndexOk(w, d);
    }
  }

  /** Allocation sends an image into teardown exactly when all 1024 bits are set. */
  lemma AllocationFailsOnlyWhenFull(w: World, d: Image)
    requires Inv(w) && Enabled(w, AllocateSlot(d))
    ensures Do(w, AllocateSlot(d)).drivers[d].pc == In(Releasing) <==>
            forall i | 0 <= i < SLOT_COUNT :: Used(w.section.table.bitmap, i)
  {
  }

  /** With the gate free, the reference count, the open handles and the attached images are the same number. */
  lemma ReferenceCounted(start: World, acts: seq<Act>, w: World)
    requires Initial(start) && Reaches(start, acts, w) && w.gate.None?
    ensures w.handles == AttachedImages(w)
    ensures w.handles != {} ==> w.section.refCount == |w.handles|
  {
    InitialHolds(start);
    RunKeeps(start, acts, w);
    forall d | d in w.drivers ensures d in w.handles <==> w.drivers[d].pc.In? { assert DriverOk(w, d); }
  }

  /** While anyone is attached the canonical mapping is alive, whoever created it. */
  lemma CanonicalOutlivesCreator(start: World, acts: seq<Act>, w: World)
    requires Initial(start) && Reaches(start, acts, w) && AttachedImages(w) != {}
    ensures w.section.canonView in w.views && w.section.canonMdl in w.mdls && w.section.refCount > 0
  {
    InitialHolds(start);
    RunKeeps(start, acts, w);
    var d :| d in AttachedImages(w);
    assert DriverOk(w, d);
    assert {d} <= AttachedImages(w);
  }

  /** Nothing is released twice, and when every image has unloaded nothing is left. */
  lemma ReleasedExactlyOnce(start: World, acts: seq<Act>, w: World)
    requires Initial(start) && Reaches(start, acts, w)
    ensures !w.fault
    ensures (forall d | d in w.drivers :: w.drivers[d].pc.Unloaded?) ==> w.views == map[] && w.mdls == map[] && w.handles == {}
  {
    InitialHolds(start);
    RunKeeps(start, acts, w);
    if w.views != map[] || w.mdls != map[] || w.handles != {} {
      HeldBySomeone(w);
    }
  }

  lemma HeldBySomeone(w: World)
    requires MappingInv(w) && (w.views != map[] || w.mdls != map[] || w.handles != {})
    ensures exists d :: d in w.drivers && !w.drivers[d].pc.Unloaded?
  {
    hide ViewOk, MdlOk, AttachedImages;
    if w.handles != {} {
      var d :| d in w.handles;
      assert DriverOk(w, d);
    } else {
      hide DriverOk;
      if w.views != map[] {
        var v :| v in w.views;
        ViewHeld(w, v);
      } else {
        var m :| m in w.mdls;
        MdlHeld(w, m);
      }
    }
  }

  lemma ViewHeld(w: World, v: nat)
    requires v in w.views && ViewOk(w, v)
    ensures exists d :: d in w.drivers && !w.drivers[d].pc.Unloaded?
  {
    var d := if AttachedImages(w) != {} then AnAttached(w) else w.views[v];
    assert !w.drivers[d].pc.Unloaded?;
  }

  lemma MdlHeld(w: World, m: nat)
    requires m in w.mdls && MdlOk(w, m)
    ensures exists d :: d in w.drivers && !w.drivers[d].pc.Unloaded?
  {
    var d := if AttachedImages(w) != {} then AnAttached(w) else w.mdls[m];
    assert !w.drivers[d].pc.Unloaded?;
  }

  ghost function AnAttached(w: World): (d: Image)
    requires AttachedImages(w) != {}
    ensures d in w.drivers && w.drivers[d].pc.In?
  {
    var d :| d in AttachedImages(w); d
  }

  /** An image that is about to publish finds the section uninitialized exactly when no image is attached. */
  lemma FirstAttacherInitializes(start: World, acts: seq<Act>, w: World, d: Image)
    requires Initial(start) && Reaches(start, acts, w) && d in w.drivers && w.drivers[d].pc.Locked?
    ensures w.section.initState == 0 <==> AttachedImages(w) == {}
    ensures PublishStep(w, d).drivers[d].pc == In(Mapping)
  {
    InitialHolds(start);
    RunKeeps(start, acts, w);
    assert DriverOk(w, d);
    PublishSucceeds(w, d);
  }
}
