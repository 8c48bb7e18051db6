/**
 The shared compiler-TLS runtime as a protocol between driver images. Every image maps one named section, the first
 of a generation makes its own mapping the canonical one, and images attach, take slots, publish the slot vector to
 the processors and detach in any order. A step is what one image does between two points where others can observe
 it; every kernel service may fail where the code handles a failure.
 */
module SharedTls {
  import opened Options
  import opened SlotTable

  // Where an image is in its load or unload.
  datatype Pc =
    | Unloaded
    | Opening           // holds the gate
    | Opened            // and a section handle
    | Mapped            // and a view
    | Locked            // and the MDL that maps the view into system space
    | In(phase: Phase)  // attached: published its globals and counted itself
    | Closing           // detached, still holds the gate and the handle

  datatype Phase =
    | Mapping           // before slot allocation
    | Slotted
    | Broadcasting(done: set<nat>)
    | Loaded
    | Releasing         // tearing down, from any point after attaching
    | Detaching         // slot released, waiting for the gate
    | Unmapping         // holds the gate

  // An image's globals. Views and MDLs are numbered from 1, zero is NULL; a slot vector is named by the MDL whose
  // mapping contains it.
  datatype Driver = Driver(pc: Pc, view: nat, mdl: nat, slots: nat, index: Option<nat>)

  // The contents of the section. A new section reads as zero.
  datatype Shared = Shared(initState: nat, refCount: int, canonView: nat, canonMdl: nat, canonSlots: nat, table: Table)

  function Zero(): (s: Shared)
  {
    Shared(0, 0, 0, 0, 0, Empty())
  }

  // `views` and `mdls` hold the live ones with the image that created them; `fault` records a release of one that is
  // not live. The named section exists while some image has a handle.
  datatype World = World(
    gate: Option<Image>, handles: set<Image>, section: Shared, views: map<nat, Image>, mdls: map<nat, Image>,
    next: nat, processors: seq<nat>, drivers: map<Image, Driver>, fault: bool)

  predicate HoldsGate(pc: Pc)
  {
    match pc
    case Unloaded => false
    case In(phase) => phase.Unmapping?
    case _ => true
  }

  predicate HasHandle(pc: Pc)
  {
    !pc.Unloaded? && !pc.Opening?
  }

  predicate HasView(pc: Pc)
  {
    pc.Mapped? || pc.Locked? || pc.In?
  }

  predicate HasMdl(pc: Pc)
  {
    pc.Locked? || pc.In?
  }

  function AttachedImages(w: World): (s: set<Image>)
  {
    set d | d in w.drivers && w.drivers[d].pc.In?
  }

  // ---------------------------------------------------------------------------------------------------------
  // Steps
  // ---------------------------------------------------------------------------------------------------------

  datatype Act =
    | EnterMap(d: Image)
    | OpenSection(d: Image, ok: bool)
    | MapView(d: Image, ok: bool)
    | LockView(d: Image, ok: bool)
    | Publish(d: Image)
    | AllocateSlot(d: Image)
    | NoTlsDirectory(d: Image)
    | BadImage(d: Image)
    | StartBroadcast(d: Image, ok: bool)
    | SetProcessor(d: Image, p: nat)
    | FinishBroadcast(d: Image)
    | BeginTeardown(d: Image)
    | ReleaseSlot(d: Image)
    | EnterUnmap(d: Image)
    | Detach(d: Image)
    | Close(d: Image)

  predicate Everywhere(done: set<nat>, count: nat)
  {
    forall p | 0 <= p < count :: p in done
  }

  predicate Enabled(w: World, a: Act)
  {
    && a.d in w.drivers
    && var pc := w.drivers[a.d].pc;
    match a
    case EnterMap(_) => pc.Unloaded? && w.gate.None?
    case OpenSection(_, _) => pc.Opening?
    case MapView(_, _) => pc.Opened?
    case LockView(_, _) => pc.Mapped?
    case Publish(_) => pc.Locked?
    case AllocateSlot(_) => pc == In(Mapping) && Consistent(w.section.table)
    case NoTlsDirectory(_) => pc == In(Mapping)
    case BadImage(_) => pc == In(Mapping)
    case StartBroadcast(_, _) => pc == In(Slotted)
    case SetProcessor(_, p) => pc.In? && pc.phase.Broadcasting? && p < |w.processors|
    case FinishBroadcast(_) => pc.In? && pc.phase.Broadcasting? && Everywhere(pc.phase.done, |w.processors|)
    case BeginTeardown(_) => pc == In(Loaded)
    case ReleaseSlot(_) => pc == In(Releasing) && Consistent(w.section.table)
    case EnterUnmap(_) => pc == In(Detaching) && w.gate.None?
    case Detach(_) => pc == In(Unmapping)
    case Close(_) => pc.Closing?
  }

  function At(w: World, d: Image, pc: Pc): (r: World)
    requires d in w.drivers
    ensures d in r.drivers && r.drivers == w.drivers[d := r.drivers[d]] && r.processors == w.processors
    ensures r.drivers[d].pc == pc && r == w.(drivers := r.drivers)
  {
    w.(drivers := w.drivers[d := w.drivers[d].(pc := pc)])
  }

  // MmUnmapViewInSystemSpace and CrtSysUnlockSharedCompilerTlsView.
  function UnmapView(w: World, v: nat): (r: World)
  {
    w.(views := w.views - {v}, fault := w.fault || v !in w.views)
  }

  function UnlockMdl(w: World, m: nat): (r: World)
  {
    w.(mdls := w.mdls - {m}, fault := w.fault || m !in w.mdls)
  }

  // ZwClose on the section handle, ZwSetEvent and ZwClose on the gate.
  function CloseAndLeave(w: World, d: Image): (r: World)
    requires d in w.drivers
    ensures d in r.drivers && r.drivers == w.drivers[d := r.drivers[d]] && r.processors == w.processors
    ensures r.drivers[d].pc == Unloaded
  {
    At(w.(handles := w.handles - {d}, gate := None, fault := w.fault || d !in w.handles), d, Unloaded)
  }

  // The first image to see initState zero makes its mapping canonical.
  function Initialized(s: Shared, dr: Driver): (r: Shared)
  {
    if s.initState == 0 then Shared(2, 0, dr.view, dr.mdl, dr.mdl, Empty()) else s
  }

  function PublishStep(w: World, d: Image): (r: World)
    requires d in w.drivers
    ensures d in r.drivers && r.drivers == w.drivers[d := r.drivers[d]] && r.processors == w.processors
    ensures r.drivers[d].pc == Unloaded || r.drivers[d].pc == In(Mapping)
  {
    var dr := w.drivers[d];
    var s := Initialized(w.section, dr);
    if s.initState != 2 || s.canonView == 0 || s.canonMdl == 0 || s.canonSlots == 0 then
      CloseAndLeave(UnmapView(UnlockMdl(w.(section := s), dr.mdl), dr.view), d)
    else
      w.(section := s.(refCount := s.refCount + 1), gate := None,
         drivers := w.drivers[d := Driver(In(Mapping), dr.view, dr.mdl, s.canonSlots, None)])
  }

  function AllocateStep(w: World, d: Image): (r: World)
    requires d in w.drivers && Consistent(w.section.table)
    ensures d in r.drivers && r.drivers == w.drivers[d := r.drivers[d]] && r.processors == w.processors
    ensures r.drivers[d].pc == In(Releasing) || r.drivers[d].pc == In(Slotted)
  {
    var free := FreeFrom(w.section.table, 0);
    if free.None? then At(w, d, In(Releasing))
    else
      w.(section := w.section.(table := Take(w.section.table, free.value, d)),
         drivers := w.drivers[d := w.drivers[d].(pc := In(Slotted), index := free)])
  }

  function ReleaseStep(w: World, d: Image): (r: World)
    requires d in w.drivers && Consistent(w.section.table)
    ensures d in r.drivers && r.drivers == w.drivers[d := r.drivers[d]] && r.processors == w.processors
    ensures r.drivers[d].pc == In(Detaching)
  {
    var dr := w.drivers[d];
    var t := w.section.table;
    var mine := dr.index.Some? && dr.index.value < SLOT_COUNT && t.slots[dr.index.value] == Some(d);
    w.(section := if mine then w.section.(table := Drop(t, dr.index.value)) else w.section,
       drivers := w.drivers[d := dr.(pc := In(Detaching), index := None)])
  }

  // An image that does not own the canonical mapping releases its own.
  function ReleaseOwn(w: World, dr: Driver): (r: World)
    ensures r == w.(views := r.views, mdls := r.mdls, fault := r.fault)
    ensures r.views == if dr.mdl == w.section.canonMdl then w.views else w.views - {dr.view}
    ensures r.mdls == if dr.mdl == w.section.canonMdl then w.mdls else w.mdls - {dr.mdl}
  {
    if dr.mdl == w.section.canonMdl then w else UnmapView(UnlockMdl(w, dr.mdl), dr.view)
  }

  // The last image releases the canonical mapping, whoever created it.
  function ReleaseCanonical(w: World): (r: World)
    ensures r == w.(views := r.views, mdls := r.mdls, fault := r.fault)
    ensures r.views == if w.section.refCount == 0 then w.views - {w.section.canonView} else w.views
    ensures r.mdls == if w.section.refCount == 0 then w.mdls - {w.section.canonMdl} else w.mdls
  {
    if w.section.refCount == 0 then UnmapView(UnlockMdl(w, w.section.canonMdl), w.section.canonView) else w
  }

  function DetachStep(w: World, d: Image): (r: World)
    requires d in w.drivers
    ensures d in r.drivers && r.drivers == w.drivers[d := r.drivers[d]] && r.processors == w.processors
    ensures r.drivers[d].pc == Closing
  {
    var counted := w.(section := w.section.(refCount := w.section.refCount - 1));
    var r := ReleaseCanonical(ReleaseOwn(counted, w.drivers[d]));
    r.(drivers := r.drivers[d := Driver(Closing, 0, 0, 0, None)])
  }

  function EnterMapStep(w: World, d: Image): (r: World)
    requires d in w.drivers
    ensures d in r.drivers && r.drivers == w.drivers[d := r.drivers[d]] && r.processors == w.processors
    ensures r.drivers[d].pc == Opening
  {
    At(w.(gate := Some(d)), d, Opening)
  }

  function OpenSectionStep(w: World, d: Image, ok: bool): (r: World)
    requires d in w.drivers
    ensures d in r.drivers && r.drivers == w.drivers[d := r.drivers[d]] && r.processors == w.processors
    ensures r.drivers[d].pc == if ok then Opened else Unloaded
  {
    if !ok then At(w.(gate := None), d, Unloaded)
    else At(w.(handles := w.handles + {d}, section := if w.handles == {} then Zero() else w.section), d, Opened)
  }

  function MapViewStep(w: World, d: Image, ok: bool): (r: World)
    requires d in w.drivers
    ensures d in r.drivers && r.drivers == w.drivers[d := r.drivers[d]] && r.processors == w.processors
    ensures r.drivers[d].pc == if ok then Mapped else Unloaded
  {
    if !ok then CloseAndLeave(w, d)
    else
      w.(views := w.views[w.next := d], next := w.next + 1,
         drivers := w.drivers[d := w.drivers[d].(pc := Mapped, view := w.next)])
  }

  function LockViewStep(w: World, d: Image, ok: bool): (r: World)
    requires d in w.drivers
    ensures d in r.drivers && r.drivers == w.drivers[d := r.drivers[d]] && r.processors == w.processors
    ensures r.drivers[d].pc == if ok then Locked else Unloaded
  {
    if !ok then CloseAndLeave(UnmapView(w, w.drivers[d].view), d)
    else
      w.(mdls := w.mdls[w.next := d], next := w.next + 1,
         drivers := w.drivers[d := w.drivers[d].(pc := Locked, mdl := w.next)])
  }

  function SetProcessorStep(w: World, d: Image, p: nat): (r: World)
    requires d in w.drivers && w.drivers[d].pc.In? && w.drivers[d].pc.phase.Broadcasting? && p < |w.processors|
    ensures d in r.drivers && r.drivers == w.drivers[d := r.drivers[d]]
    ensures r.processors == w.processors[p := w.drivers[d].slots]
  {
    At(w.(processors := w.processors[p := w.drivers[d].slots]), d,
       In(Broadcasting(w.drivers[d].pc.phase.done + {p})))
  }

  function EnterUnmapStep(w: World, d: Image): (r: World)
    requires d in w.drivers
    ensures d in r.drivers && r.drivers == w.drivers[d := r.drivers[d]] && r.processors == w.processors
    ensures r.drivers[d].pc == In(Unmapping)
  {
    At(w.(gate := Some(d)), d, In(Unmapping))
  }

  function Do(w: World, a: Act): (r: World)
    requires Enabled(w, a)
  {
    match a
    case EnterMap(d) => EnterMapStep(w, d)
    case OpenSection(d, ok) => OpenSectionStep(w, d, ok)
    case MapView(d, ok) => MapViewStep(w, d, ok)
    case LockView(d, ok) => LockViewStep(w, d, ok)
    case Publish(d) => PublishStep(w, d)
    case AllocateSlot(d) => AllocateStep(w, d)
    case NoTlsDirectory(d) => At(w, d, In(Slotted))
    case BadImage(d) => At(w, d, In(Releasing))
    case StartBroadcast(d, ok) => At(w, d, In(if ok then Broadcasting({}) else Releasing))
    case SetProcessor(d, p) => SetProcessorStep(w, d, p)
    case FinishBroadcast(d) => At(w, d, In(Loaded))
    case BeginTeardown(d) => At(w, d, In(Releasing))
    case ReleaseSlot(d) => ReleaseStep(w, d)
    case EnterUnmap(d) => EnterUnmapStep(w, d)
    case Detach(d) => DetachStep(w, d)
    case Close(d) => CloseAndLeave(w, d)
  }

  predicate Initial(w: World)
  {
    && w.gate.None? && w.handles == {} && w.views == map[] && w.mdls == map[] && w.next == 1 && !w.fault
    && w.section == Zero()
    && forall d | d in w.drivers :: w.drivers[d] == Driver(Unloaded, 0, 0, 0, None)
  }

  // ---------------------------------------------------------------------------------------------------------
  // Invariant
  // ---------------------------------------------------------------------------------------------------------

  // What holds of one image: it has the gate, the handle, the view and the MDL its position says, and while it is
  // attached the canonical mapping is alive and is the one its slot pointer names.
  predicate DriverOk(w: World, d: Image)
    requires d in w.drivers
  {
    var dr := w.drivers[d];
    && (HoldsGate(dr.pc) <==> w.gate == Some(d))
    && (HasHandle(dr.pc) <==> d in w.handles)
    && (HasView(dr.pc) ==> dr.view in w.views && w.views[dr.view] == d)
    && (HasMdl(dr.pc) ==> dr.mdl in w.mdls && w.mdls[dr.mdl] == d)
    && (dr.pc.In? ==>
          && CanonAlive(w) && dr.slots == w.section.canonSlots
          && (dr.mdl == w.section.canonMdl <==> dr.view == w.section.canonView))
    && (HasView(dr.pc) && !dr.pc.In? ==> dr.view != w.section.canonView)
    && (HasMdl(dr.pc) && !dr.pc.In? ==> dr.mdl != w.section.canonMdl)
  }

  predicate CanonAlive(w: World)
  {
    && w.section.initState == 2
    && w.section.canonView in w.views && w.section.canonMdl in w.mdls && w.section.canonSlots == w.section.canonMdl
  }

  // A live view or MDL belongs to an image that has it, or is the canonical one while anyone is attached.
  predicate ViewOk(w: World, v: nat)
    requires v in w.views
  {
    && 0 < v < w.next
    && ((w.views[v] in w.drivers && HasView(w.drivers[w.views[v]].pc) && w.drivers[w.views[v]].view == v) ||
        (AttachedImages(w) != {} && v == w.section.canonView))
  }

  predicate MdlOk(w: World, m: nat)
    requires m in w.mdls
  {
    && 0 < m < w.next
    && ((w.mdls[m] in w.drivers && HasMdl(w.drivers[w.mdls[m]].pc) && w.drivers[w.mdls[m]].mdl == m) ||
        (AttachedImages(w) != {} && m == w.section.canonMdl))
  }

  predicate SectionOk(w: World)
  {
    && w.section.canonView < w.next && w.section.canonMdl < w.next && !w.fault
    && (w.gate.Some? ==> w.gate.value in w.drivers)
    && w.handles <= w.drivers.Keys
    && (w.handles != {} ==> w.section.refCount == |AttachedImages(w)|)
    && (w.gate.Some? && Entering(w.drivers[w.gate.value].pc) ==> (w.section.initState == 0 <==> AttachedImages(w) == {}))
  }

  predicate Entering(pc: Pc)
  {
    pc.Opened? || pc.Mapped? || pc.Locked?
  }

  predicate MappingInv(w: World)
  {
    && SectionOk(w)
    && (forall d | d in w.drivers :: DriverOk(w, d))
    && (forall v | v in w.views :: ViewOk(w, v))
    && (forall m | m in w.mdls :: MdlOk(w, m))
  }

  // A slot is held by the one attached image whose index it is.
  predicate SlotOk(w: World, i: nat)
    requires Consistent(w.section.table) && i < SLOT_COUNT
  {
    w.section.table.slots[i].Some? ==>
      var d := w.section.table.slots[i].value;
      d in w.drivers && w.drivers[d].index == Some(i)
  }

  predicate HasSlot(phase: Phase)
  {
    phase.Slotted? || phase.Broadcasting? || phase.Loaded? || phase.Releasing?
  }

  predicate IndexOk(w: World, d: Image)
    requires Consistent(w.section.table) && d in w.drivers
  {
    w.drivers[d].index.Some? ==>
      && w.drivers[d].pc.In? && HasSlot(w.drivers[d].pc.phase)
      && w.drivers[d].index.value < SLOT_COUNT
      && w.section.table.slots[w.drivers[d].index.value] == Some(d)
  }

  predicate SlotInv(w: World)
  {
    && Consistent(w.section.table)
    && (forall i | 0 <= i < SLOT_COUNT :: SlotOk(w, i))
    && (forall d | d in w.drivers :: IndexOk(w, d))
  }

  // The processors an image has reached point at the canonical slot vector.
  predicate ReachOk(w: World, d: Image)
    requires d in w.drivers
  {
    && (w.drivers[d].pc.In? && w.drivers[d].pc.phase.Broadcasting? ==>
          forall p | p in w.drivers[d].pc.phase.done && p < |w.processors| :: w.processors[p] == w.section.canonSlots)
    && (w.drivers[d].pc == In(Loaded) ==> forall p | 0 <= p < |w.processors| :: w.processors[p] == w.section.canonSlots)
  }

  predicate ReachInv(w: World)
  {
    forall d | d in w.drivers :: ReachOk(w, d)
  }

  predicate Inv(w: World)
  {
    MappingInv(w) && SlotInv(w) && ReachInv(w)
  }
}
