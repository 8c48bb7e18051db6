/**
 Bringing the driver runtime up and down: every step of initialization may fail, and each failure point has its own
 roll-back. A ledger records what was set up and what was undone.
 */
module RuntimeLifecycle {
  import opened Options

  const TLS_BUFFER_SIZE: nat := 1024 * 1024

  // The TLS directory of the image, as far as it is checked.
  datatype Directory = Directory(complete: bool, rawStart: nat, rawEnd: nat, zeroFill: nat, hasIndex: bool)

  // What the services called during initialization answer.
  datatype Outcomes = Outcomes(
    mapped: bool, directory: Option<Directory>, slotFree: bool, dpcs: bool, ldk: bool, fls: bool, libcntpr: bool,
    onexit: bool, crt: bool, paths: bool, environment: bool, initializers: bool, cleanup: bool)

  datatype Stage = Never | Live | Undone

  /**
   Where each resource is. `fault` is set by setting up what was set up before, by undoing what is not live or is still
   needed by something live, and by _cexit before the C initializers succeeded, a second time, or without the CRT.
   */
  datatype Ledger = Ledger(
    tls: Stage, slot: Stage, ldk: Stage, libcntpr: Stage, lookasides: Stage, crt: Stage, typeInfo: Stage, cleanup: Stage,
    initialized: bool, exits: nat, fault: bool)

  const BLANK := Ledger(Never, Never, Never, Never, Never, Never, Never, Never, false, 0, false)

  datatype Resource = Tls | Slot | Ldk | Libcntpr | Lookasides | Crt | TypeInfo | Cleanup

  function StageOf(l: Ledger, r: Resource): (s: Stage)
  {
    match r
    case Tls => l.tls
    case Slot => l.slot
    case Ldk => l.ldk
    case Libcntpr => l.libcntpr
    case Lookasides => l.lookasides
    case Crt => l.crt
    case TypeInfo => l.typeInfo
    case Cleanup => l.cleanup
  }

  function Put(l: Ledger, r: Resource, s: Stage): (l': Ledger)
  {
    match r
    case Tls => l.(tls := s)
    case Slot => l.(slot := s)
    case Ldk => l.(ldk := s)
    case Libcntpr => l.(libcntpr := s)
    case Lookasides => l.(lookasides := s)
    case Crt => l.(crt := s)
    case TypeInfo => l.(typeInfo := s)
    case Cleanup => l.(cleanup := s)
  }

  // Something live still depends on `r`.
  predicate Needed(l: Ledger, r: Resource)
  {
    match r
    case Tls => l.slot.Live?
    case Crt => l.typeInfo.Live? || l.cleanup.Live?
    case Ldk => l.crt.Live? || l.cleanup.Live?
    case Lookasides => l.crt.Live? || l.cleanup.Live?
    case _ => false
  }

  function Up(l: Ledger, r: Resource): (l': Ledger)
  {
    Put(l, r, Live).(fault := l.fault || !StageOf(l, r).Never?)
  }

  function Down(l: Ledger, r: Resource): (l': Ledger)
  {
    Put(l, r, Undone).(fault := l.fault || !StageOf(l, r).Live? || Needed(l, r))
  }

  function Exit(l: Ledger): (l': Ledger)
  {
    l.(exits := l.exits + 1, fault := l.fault || !l.initialized || l.exits > 0 || !l.crt.Live? || l.cleanup.Live?)
  }

  // ---------------------------------------------------------------------------------------------------------
  // How far an initialization gets
  // ---------------------------------------------------------------------------------------------------------

  predicate DirectoryOk(d: Directory)
  {
    && d.complete && d.rawStart <= d.rawEnd && d.rawEnd - d.rawStart + d.zeroFill <= 1048576 && d.hasIndex
  }

  // The image has no TLS data, or well-formed TLS data for which a slot was free.
  predicate ImageOk(o: Outcomes) { o.directory.None? || (DirectoryOk(o.directory.value) && o.slotFree) }

  predicate ReachesLookasides(o: Outcomes, lib: bool)
  {
    o.mapped && ImageOk(o) && o.dpcs && o.ldk && o.fls && (lib ==> o.libcntpr)
  }

  predicate ReachesCrt(o: Outcomes, lib: bool) { ReachesLookasides(o, lib) && o.onexit && o.crt }

  // The C initializer table ran successfully.
  predicate ReachesInitializers(o: Outcomes, lib: bool)
  {
    ReachesCrt(o, lib) && o.paths && o.environment && o.initializers
  }

  predicate Succeeds(o: Outcomes, lib: bool) { ReachesInitializers(o, lib) && o.cleanup }

  // Resource `r` is set up before the first step that fails.
  predicate Reached(o: Outcomes, lib: bool, r: Resource)
  {
    match r
    case Tls => o.mapped
    case Slot => o.mapped && o.directory.Some? && ImageOk(o)
    case Ldk => o.mapped && ImageOk(o) && o.dpcs && o.ldk
    case Libcntpr => lib && ReachesLookasides(o, lib)
    case Lookasides => ReachesLookasides(o, lib)
    case Crt => ReachesCrt(o, lib)
    case TypeInfo => ReachesCrt(o, lib)
    case Cleanup => Succeeds(o, lib)
  }

  /** Every resource that was reached is at stage `s`, and nothing else was ever set up. */
  predicate AllAt(l: Ledger, o: Outcomes, lib: bool, s: Stage)
  {
    !l.fault && forall r: Resource :: StageOf(l, r) == if Reached(o, lib, r) then s else Never
  }

  function Mark(b: bool): (s: Stage) { if b then Live else Never }

  // ---------------------------------------------------------------------------------------------------------
  // The runtime of one driver image
  // ---------------------------------------------------------------------------------------------------------

  function Ended(s: Stage): (s': Stage) { if s.Live? then Undone else s }

  function AllEnded(l: Ledger): (l': Ledger)
    ensures forall r: Resource :: StageOf(l', r) == Ended(StageOf(l, r))
  {
    l.(tls := Ended(l.tls), slot := Ended(l.slot), ldk := Ended(l.ldk), libcntpr := Ended(l.libcntpr),
       lookasides := Ended(l.lookasides), crt := Ended(l.crt), typeInfo := Ended(l.typeInfo), cleanup := Ended(l.cleanup))
  }

  class Runtime {
    const useLibcntpr: bool
    var tlsRuntime: bool
    var tlsIndex: bool
    var exitHandlersAvailable: bool
    var typeInfoInitialized: bool
    var cleanupDomain: bool
    ghost var ledger: Ledger

    // The image's globals say what is live where the code consults them.
    ghost predicate Sound()
      reads this
    {
      && !ledger.fault
      && (tlsRuntime <==> ledger.tls.Live?) && (tlsIndex <==> ledger.slot.Live?) && (tlsIndex ==> tlsRuntime)
      && (typeInfoInitialized <==> ledger.typeInfo.Live?) && (cleanupDomain <==> ledger.cleanup.Live?)
      && (exitHandlersAvailable ==> ledger.initialized && ledger.exits == 0)
    }

    ghost predicate Fresh()
      reads this
    {
      !tlsRuntime && !tlsIndex && !exitHandlersAvailable && !typeInfoInitialized && !cleanupDomain && ledger == BLANK
    }

    constructor (useLibcntpr: bool)
      ensures Fresh() && this.useLibcntpr == useLibcntpr
    {
      this.useLibcntpr := useLibcntpr;
      tlsRuntime, tlsIndex, exitHandlersAvailable, typeInfoInitialized, cleanupDomain := false, false, false, false, false;
      ledger := BLANK;
    }

    // CrtSysUninitializeCompilerTlsImage: undoes what is live of the TLS image, and a second call changes nothing.
    method TearDownTls()
      requires Sound()
      modifies this`tlsRuntime, this`tlsIndex, this`ledger
      ensures Sound() && !tlsRuntime && !tlsIndex
      ensures ledger == old(ledger).(tls := if old(ledger).tls.Live? then Undone else old(ledger).tls,
                                     slot := if old(ledger).slot.Live? then Undone else old(ledger).slot)
      ensures !old(tlsRuntime) ==> ledger == old(ledger)
    {
      if tlsRuntime && tlsIndex {
        ledger := Down(ledger, Slot);
        tlsIndex := false;
      }
      if tlsRuntime {
        ledger := Down(ledger, Tls);
        tlsRuntime := false;
      }
    }

    // CrtSysInitializeCompilerTlsImage.
    method InitializeTlsImage(o: Outcomes) returns (ok: bool)
      requires Fresh()
      modifies this`tlsRuntime, this`tlsIndex, this`ledger
      ensures Sound() && ok == (o.mapped && ImageOk(o))
      ensures ledger == BLANK.(tls := if ok then Live else if o.mapped then Undone else Never,
                               slot := Mark(ok && o.directory.Some?))
    {
      if !o.mapped {
        return false;
      }
      ledger := Up(ledger, Tls);
      tlsRuntime := true;
      if o.directory.None? {
        return true;
      }
      var d := o.directory.value;
      if !d.complete || d.rawEnd < d.rawStart {
        TearDownTls();
        return false;
      }
      var rawSize := d.rawEnd - d.rawStart;
      if rawSize > TLS_BUFFER_SIZE || d.zeroFill > TLS_BUFFER_SIZE - rawSize || !d.hasIndex {
        TearDownTls();
        return false;
      }
      if !o.slotFree {
        TearDownTls();
        return false;
      }
      ledger := Up(ledger, Slot);
      tlsIndex := true;
      return true;
    }

    // CrtSysInitializeTebThreadLocalStoragePointer up to the broadcast.
    method InitializeTls(o: Outcomes) returns (ok: bool)
      requires Fresh()
      modifies this`tlsRuntime, this`tlsIndex, this`ledger
      ensures Sound() && ok == (o.mapped && ImageOk(o) && o.dpcs)
      ensures ok ==> ledger == BLANK.(tls := Live, slot := Mark(o.directory.Some?))
      ensures !ok ==> AllAt(ledger, o, useLibcntpr, Undone) && ledger.exits == 0
    {
      ok := InitializeTlsImage(o);
      if !ok {
        TearDownTls();
        return;
      }
      if !o.dpcs {
        TearDownTls();
        return false;
      }
    }

    // The first half of CrtSysUninitializeRuntime: the cleanup domain, the exit tables, type info and the CRT.
    method StopCrt()
      requires Sound() && ledger.crt.Live?
      modifies this
      ensures Sound() && !exitHandlersAvailable && !typeInfoInitialized && !cleanupDomain
      ensures tlsRuntime == old(tlsRuntime) && tlsIndex == old(tlsIndex)
      ensures ledger == old(ledger).(cleanup := Ended(old(ledger).cleanup), typeInfo := Ended(old(ledger).typeInfo), crt := Undone,
                                     exits := old(ledger).exits + if old(exitHandlersAvailable) then 1 else 0)
    {
      if cleanupDomain {
        ledger := Down(ledger, Cleanup);
        cleanupDomain := false;
      }
      if exitHandlersAvailable {
        // Cleared first, so that the exit tables cannot run twice.
        exitHandlersAvailable := false;
        ledger := Exit(ledger);
      }
      if typeInfoInitialized {
        ledger := Down(ledger, TypeInfo);
        typeInfoInitialized := false;
      }
      ledger := Down(ledger, Crt);
    }

    // The roll-back of everything below the CRT.
    method StopServices()
      requires Sound() && ledger.ldk.Live? && ledger.lookasides.Live? && (useLibcntpr <==> ledger.libcntpr.Live?)
      requires !ledger.crt.Live? && !ledger.cleanup.Live?
      modifies this`tlsRuntime, this`tlsIndex, this`ledger
      ensures Sound() && !tlsRuntime && !tlsIndex
      ensures ledger == old(ledger).(tls := Ended(old(ledger).tls), slot := Ended(old(ledger).slot), ldk := Undone,
                                     libcntpr := Ended(old(ledger).libcntpr), lookasides := Undone)
    {
      if useLibcntpr {
        ledger := Down(ledger, Libcntpr);
      }
      ledger := Down(ledger, Lookasides);
      TearDownTls();
      ledger := Down(ledger, Ldk);
    }

    // CrtSysUninitializeRuntime.
    method Uninitialize()
      requires Sound() && ledger.ldk.Live? && ledger.lookasides.Live? && ledger.crt.Live?
      requires useLibcntpr <==> ledger.libcntpr.Live?
      modifies this
      ensures Sound() && !tlsRuntime && !exitHandlersAvailable && !typeInfoInitialized && !cleanupDomain
      ensures ledger == AllEnded(old(ledger)).(exits := old(ledger).exits + if old(exitHandlersAvailable) then 1 else 0)
    {
      StopCrt();
      StopServices();
    }

    // The steps of initialization after the C runtime is up.
    method StartRuntime(o: Outcomes) returns (ok: bool)
      requires Sound() && !exitHandlersAvailable && ReachesCrt(o, useLibcntpr)
      requires ledger == BLANK.(tls := Live, slot := Mark(o.directory.Some?), ldk := Live, libcntpr := Mark(useLibcntpr),
                                lookasides := Live, crt := Live)
      modifies this
      ensures Sound() && ok == Succeeds(o, useLibcntpr)
      ensures AllAt(ledger, o, useLibcntpr, if ok then Live else Undone)
      ensures ledger.exits == (if !ok && ReachesInitializers(o, useLibcntpr) then 1 else 0)
      ensures ok ==> exitHandlersAvailable
    {
      ledger := Up(ledger, TypeInfo);
      typeInfoInitialized := true;
      if !o.paths || !o.environment {
        Uninitialize();
        return false;
      }
      if !o.initializers {
        Uninitialize();
        return false;
      }
      ledger := ledger.(initialized := true);
      exitHandlersAvailable := true;
      if !o.cleanup {
        Uninitialize();
        return false;
      }
      ledger := Up(ledger, Cleanup);
      cleanupDomain := true;
      return true;
    }

    // The roll-back when the onexit tables or the CRT fail, which deletes the lookaside lists first.
    method RollBackServices()
      requires Sound() && ledger.ldk.Live? && ledger.lookasides.Live? && (useLibcntpr <==> ledger.libcntpr.Live?)
      requires !ledger.crt.Live? && !ledger.cleanup.Live?
      modifies this`tlsRuntime, this`tlsIndex, this`ledger
      ensures Sound() && !tlsRuntime && !tlsIndex
      ensures ledger == old(ledger).(tls := Ended(old(ledger).tls), slot := Ended(old(ledger).slot), ldk := Undone,
                                     libcntpr := Ended(old(ledger).libcntpr), lookasides := Undone)
    {
      ledger := Down(ledger, Lookasides);
      if useLibcntpr {
        ledger := Down(ledger, Libcntpr);
      }
      TearDownTls();
      ledger := Down(ledger, Ldk);
    }

    // The lookaside lists, the onexit tables and the CRT.
    method StartCrt(o: Outcomes) returns (ok: bool)
      requires Sound() && ReachesLookasides(o, useLibcntpr) && !exitHandlersAvailable
      requires ledger == BLANK.(tls := Live, slot := Mark(o.directory.Some?), ldk := Live, libcntpr := Mark(useLibcntpr))
      modifies this`tlsRuntime, this`tlsIndex, this`ledger
      ensures Sound() && ok == (o.onexit && o.crt)
      ensures ok ==> ledger == old(ledger).(lookasides := Live, crt := Live)
      ensures !ok ==> AllAt(ledger, o, useLibcntpr, Undone) && ledger.exits == 0
    {
      ledger := Up(ledger, Lookasides);
      if !o.onexit || !o.crt {
        RollBackServices();
        return false;
      }
      ledger := Up(ledger, Crt);
      return true;
    }

    // The steps of initialization between TLS and the CRT.
    method StartServices(o: Outcomes) returns (ok: bool)
      requires Sound() && o.mapped && ImageOk(o) && o.dpcs && !exitHandlersAvailable
      requires ledger == BLANK.(tls := Live, slot := Mark(o.directory.Some?))
      modifies this`tlsRuntime, this`tlsIndex, this`ledger
      ensures Sound() && ok == ReachesCrt(o, useLibcntpr)
      ensures ok ==> ledger == BLANK.(tls := Live, slot := Mark(o.directory.Some?), ldk := Live, libcntpr := Mark(useLibcntpr),
                                      lookasides := Live, crt := Live)
      ensures !ok ==> AllAt(ledger, o, useLibcntpr, Undone) && ledger.exits == 0
    {
      if !o.ldk {
        TearDownTls();
        return false;
      }
      ledger := Up(ledger, Ldk);
      if !o.fls || (useLibcntpr && !o.libcntpr) {
        TearDownTls();
        ledger := Down(ledger, Ldk);
        return false;
      }
      if useLibcntpr {
        ledger := Up(ledger, Libcntpr);
      }
      ok := StartCrt(o);
    }

    /** CrtSysInitializeRuntime: all that was set up stays set up, or all of it is undone. */
    method Initialize(o: Outcomes) returns (ok: bool)
      requires Fresh()
      modifies this
      ensures Sound() && ok == Succeeds(o, useLibcntpr)
      ensures AllAt(ledger, o, useLibcntpr, if ok then Live else Undone)
      ensures ledger.exits == (if !ok && ReachesInitializers(o, useLibcntpr) then 1 else 0)
      ensures ok ==> exitHandlersAvailable
    {
      hide AllAt;
      ok := InitializeTls(o);
      if ok {
        ok := StartServices(o);
        if ok {
          ok := StartRuntime(o);
        }
      }
    }
  }

  /**
   A driver is loaded and, if that succeeds, unloaded: whatever step fails, everything set up has been undone exactly
   once and nothing else was, and _cexit ran once if the C initializers had succeeded and not otherwise.
   */
  method LoadAndUnload(o: Outcomes, useLibcntpr: bool) returns (r: Runtime)
    ensures r.useLibcntpr == useLibcntpr && AllAt(r.ledger, o, useLibcntpr, Undone)
    ensures r.ledger.exits == if ReachesInitializers(o, useLibcntpr) then 1 else 0
  {
    r := new Runtime(useLibcntpr);
    var ok := r.Initialize(o);
    if ok {
      assert StageOf(r.ledger, Tls).Live? && StageOf(r.ledger, Ldk).Live? && StageOf(r.ledger, Lookasides).Live?;
      assert StageOf(r.ledger, Crt).Live? && (useLibcntpr <==> StageOf(r.ledger, Libcntpr).Live?);
      r.Uninitialize();
    }
  }
}
