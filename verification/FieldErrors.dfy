// The error tracking of the EtherCAT driver: modules that stopped answering, variables in error
// and the driver's state, updated by each poll.
module FieldErrors {
  import opened CommonTypes
  import P = ProcessImage

  const SLAVE_SYNC_TRYS := 2

  // The states of a slave the poll tells apart: synchronisation lost (safe operational, with or
  // without the error flag), operational, and all others.
  datatype SlaveState = Operational | SafeOp | SafeOpError | Elsewhere

  // What the frame of one poll brought back.
  datatype Frame = Complete | Short(states: nat -> SlaveState)

  predicate Syncing(st: SlaveState) { st.SafeOp? || st.SafeOpError? }

  // ------------------------------------------------------------ modules

  predicate Modules(errors: set<nat>, n: nat) {
    forall i | i in errors :: 1 <= i <= n
  }

  // A slave not operational is marked at once, unless it is only out of synchronisation and has
  // been tried less than twice.
  predicate Marks(st: SlaveState, trys: nat) {
    st.Elsewhere? || (Syncing(st) && trys >= SLAVE_SYNC_TRYS)
  }

  predicate FailedNext(failed: bool, trys: nat, st: SlaveState) {
    !st.Operational? && (failed || Marks(st, trys))
  }

  // The counter of tries is eight bits wide.
  function TrysNext(trys: nat, st: SlaveState): nat {
    if st.Operational? then 0 else if Syncing(st) then (trys + 1) % 256 else trys
  }

  function NextErrors(errors: set<nat>, trys: seq<nat>, n: nat, f: Frame): set<nat>
    requires |trys| == n + 1
  {
    if f.Complete? then {} else set i | 1 <= i <= n && FailedNext(i in errors, trys[i], f.states(i))
  }

  function NextTrys(errors: set<nat>, trys: seq<nat>, n: nat, f: Frame): (r: seq<nat>)
    requires |trys| == n + 1
    ensures |r| == n + 1
  {
    seq(n + 1, (i: nat) requires i <= n => TrysOf(errors, trys, f, i))
  }

  function TrysOf(errors: set<nat>, trys: seq<nat>, f: Frame, i: nat): nat
    requires i < |trys|
  {
    if f.Complete? then (if i in errors then 0 else trys[i])
    else if i == 0 then trys[0]
    else TrysNext(trys[i], f.states(i))
  }

  predicate IsModule(i: nat, n: nat) { 1 <= i <= n }

  function AllModules(n: nat): (all: set<nat>)
    ensures |all| == n && forall i :: i in all <==> IsModule(i, n)
  {
    if n == 0 then {} else AllModules(n - 1) + {n}
  }

  // The driver compares sizes: the error set has as many elements as there are modules exactly
  // when every module is in it.
  lemma EveryModuleFailedIff(errors: set<nat>, n: nat)
    requires Modules(errors, n)
    ensures |errors| == n <==> forall i | IsModule(i, n) :: i in errors
  {
    var all := AllModules(n);
    assert errors <= all;
    assert |all - errors| == |all| - |errors|;
    if |errors| == n {
      assert all - errors == {};
    }
    assert (forall i | IsModule(i, n) :: i in errors) ==> all <= errors;
  }

  // ---- how long a slave may be out of synchronisation

  function ErrorsAfter(errors: set<nat>, trys: seq<nat>, n: nat, fs: seq<Frame>): set<nat>
    requires |trys| == n + 1
    decreases |fs|
  {
    if fs == [] then errors
    else ErrorsAfter(NextErrors(errors, trys, n, fs[0]), NextTrys(errors, trys, n, fs[0]), n, fs[1..])
  }

  lemma OneShort(errors: set<nat>, trys: seq<nat>, n: nat, f: Frame, i: nat)
    requires |trys| == n + 1 && 1 <= i <= n && f.Short?
    ensures i in NextErrors(errors, trys, n, f) <==> FailedNext(i in errors, trys[i], f.states(i))
    ensures NextTrys(errors, trys, n, f)[i] == TrysNext(trys[i], f.states(i))
  {}

  // From a reset counter a slave that stays out of synchronisation is in error exactly from the
  // third poll on, although the counter wraps around later.
  lemma {:induction false} SyncLostIff(errors: set<nat>, trys: seq<nat>, n: nat, fs: seq<Frame>, i: nat)
    requires |trys| == n + 1 && 1 <= i <= n && i !in errors && trys[i] <= SLAVE_SYNC_TRYS
    requires forall f | f in fs :: f.Short? && Syncing(f.states(i))
    ensures i in ErrorsAfter(errors, trys, n, fs) <==> |fs| + trys[i] > SLAVE_SYNC_TRYS
    decreases |fs|
  {
    hide NextErrors, NextTrys;
    if fs != [] {
      assert fs[0] in fs;
      var errors', trys' := NextErrors(errors, trys, n, fs[0]), NextTrys(errors, trys, n, fs[0]);
      OneShort(errors, trys, n, fs[0], i);
      if trys[i] == SLAVE_SYNC_TRYS {
        StaysMarked(errors', trys', n, fs[1..], i);
      } else {
        SyncLostIff(errors', trys', n, fs[1..], i);
      }
    }
  }

  // A module in error stays so until a frame shows it operational or comes back complete.
  lemma {:induction false} StaysMarked(errors: set<nat>, trys: seq<nat>, n: nat, fs: seq<Frame>, i: nat)
    requires |trys| == n + 1 && 1 <= i <= n && i in errors
    requires forall f | f in fs :: f.Short? && !f.states(i).Operational?
    ensures i in ErrorsAfter(errors, trys, n, fs)
    decreases |fs|
  {
    hide NextErrors, NextTrys;
    if fs != [] {
      assert fs[0] in fs;
      OneShort(errors, trys, n, fs[0], i);
      StaysMarked(NextErrors(errors, trys, n, fs[0]), NextTrys(errors, trys, n, fs[0]), n, fs[1..], i);
    }
  }

  // A complete frame resets only the counters of modules in error: tries spent before it count on.
  lemma TriesSurviveACompleteFrame(errors: set<nat>, trys: seq<nat>, n: nat, st: nat -> SlaveState, i: nat)
    requires |trys| == n + 1 && 1 <= i <= n && i !in errors && trys[i] == SLAVE_SYNC_TRYS && Syncing(st(i))
    ensures i in ErrorsAfter(errors, trys, n, [Complete, Short(st)])
  {
    var e1, t1 := NextErrors(errors, trys, n, Complete), NextTrys(errors, trys, n, Complete);
    assert [Complete, Short(st)][1..] == [Short(st)] && [Short(st)][1..] == [];
    assert i in NextErrors(e1, t1, n, Short(st));
    assert ErrorsAfter(e1, t1, n, [Short(st)]) == NextErrors(e1, t1, n, Short(st));
  }

  // ------------------------------------------------------------ variables

  datatype StatusWord = StatusWord(addr: IOAddr, underBit: nat, overBit: nat)

  predicate StatusWordOk(w: StatusWord) {
    && 0 < w.addr.numBits <= 32 && w.addr.numBits % 8 == 0 && w.addr.numBits != 24
    && w.underBit <= w.addr.numBits - 1 && w.overBit <= w.addr.numBits - 1
  }

  // Digital and pulse devices only follow their module; an analog one has a status word.
  datatype Kind = Digital | Pulse | Analog(status: StatusWord)

  predicate Masked(word: bv32, k: bv5) { word & (1 << k) != 0 }

  predicate Shifted(word: bv32, k: bv5) { (word >> k) & 1 == 1 }

  // A number as the amount of a shift.
  function Place(k: nat): bv5
    requires k < 32
  {
    k as bv5
  }

  predicate StatusBit(word: bv32, width: nat, bit: nat)
    requires bit < width <= 32
  {
    Masked(word, Place(width - bit - 1))
  }

  // What the status word says; a word that cannot be read says the communication failed.
  function StatusQuality(w: StatusWord, word: Option<bv32>): QuState
    requires StatusWordOk(w)
  {
    if word.None? then ComError
    else if StatusBit(word.value, w.addr.numBits, w.underBit) then UnderRange
    else if StatusBit(word.value, w.addr.numBits, w.overBit) then OverRange
    else OK
  }

  // The bits are counted from the most significant of the word's width; under-range is told first.
  lemma StatusBits(w: StatusWord, word: bv32)
    requires StatusWordOk(w)
    ensures var n: nat := w.addr.numBits;
      StatusQuality(w, Some(word)) == if IsOn(word, n - 1 - w.underBit) then UnderRange
                                      else if IsOn(word, n - 1 - w.overBit) then OverRange else OK
    ensures StatusQuality(w, None) == ComError
  {
    hide StatusBit, IsOn;
    BitOfStatus(word, w.addr.numBits, w.underBit);
    BitOfStatus(word, w.addr.numBits, w.overBit);
  }

  lemma BitOfStatus(word: bv32, width: nat, bit: nat)
    requires bit < width <= 32
    ensures StatusBit(word, width, bit) <==> IsOn(word, width - 1 - bit)
  {
    hide Place, Masked, Shifted;
    OneBit(word, Place(width - bit - 1));
  }

  // Whether bit k of a word, counted from the least significant, is on.
  predicate IsOn(word: bv32, k: nat)
    requires k < 32
  {
    Shifted(word, Place(k))
  }

  lemma OneBit(word: bv32, k: bv5)
    ensures Masked(word, k) <==> Shifted(word, k)
  {
    if k < 8 { FirstByte(word, k); } else if k < 16 { SecondByte(word, k); }
    else if k < 24 { ThirdByte(word, k); } else { FourthByte(word, k); }
  }

  lemma FirstByte(word: bv32, k: bv5)
    requires k < 8
    ensures Masked(word, k) <==> Shifted(word, k)
  {
    if k == 0 {} else if k == 1 {} else if k == 2 {} else if k == 3 {}
    else if k == 4 {} else if k == 5 {} else if k == 6 {} else {}
  }

  lemma SecondByte(word: bv32, k: bv5)
    requires 8 <= k < 16
    ensures Masked(word, k) <==> Shifted(word, k)
  {
    if k == 8 {} else if k == 9 {} else if k == 10 {} else if k == 11 {}
    else if k == 12 {} else if k == 13 {} else if k == 14 {} else {}
  }

  lemma ThirdByte(word: bv32, k: bv5)
    requires 16 <= k < 24
    ensures Masked(word, k) <==> Shifted(word, k)
  {
    if k == 16 {} else if k == 17 {} else if k == 18 {} else if k == 19 {}
    else if k == 20 {} else if k == 21 {} else if k == 22 {} else {}
  }

  lemma FourthByte(word: bv32, k: bv5)
    requires 24 <= k
    ensures Masked(word, k) <==> Shifted(word, k)
  {
    if k == 24 {} else if k == 25 {} else if k == 26 {} else if k == 27 {}
    else if k == 28 {} else if k == 29 {} else if k == 30 {} else {}
  }

  ghost function WordRead(io: P.EthercatDrv, a: IOAddr): Option<bv32>
    requires io.PlacedIn(a)
    reads set i | 0 <= i < |io.inputs| :: io.inputs[i]
  {
    if !P.Accepted(io.slaveCount, a) then None
    else if P.Whole(a) then Some(P.ReadValue(io.little, io.inputs[a.mod - 1][..], a))
    else Some(0)
  }

  // A status word that is read at all lies in the inputs of its module.
  ghost predicate KindPlaced(io: P.EthercatDrv, k: Kind) {
    k.Analog? && StatusWordOk(k.status) ==> io.PlacedIn(k.status.addr)
  }

  // The quality of a variable after a poll.
  ghost function Quality(io: P.EthercatDrv, errors: set<nat>, k: Kind, a: IOAddr): QuState
    requires KindPlaced(io, k)
    reads set i | 0 <= i < |io.inputs| :: io.inputs[i]
  {
    if a.mod in errors then ComError
    else if k.Analog? then
      (if StatusWordOk(k.status) then StatusQuality(k.status, WordRead(io, k.status.addr)) else ComError)
    else OK
  }

  // The quality of a variable whose module answers is that of its status word; a device without one
  // is good. A failed module takes its variables with it, whatever they are.
  lemma QualityIs(io: P.EthercatDrv, errors: set<nat>, k: Kind, a: IOAddr)
    requires KindPlaced(io, k)
    ensures a.mod in errors ==> Quality(io, errors, k, a) == ComError
    ensures a.mod !in errors && !k.Analog? ==> Quality(io, errors, k, a) == OK
    ensures a.mod !in errors && k.Analog? && StatusWordOk(k.status) ==>
      var at := k.status.addr;
      Quality(io, errors, k, a) ==
        StatusQuality(k.status, if 1 <= at.mod <= io.slaveCount && at.channel % 8 == 0
                                then Some(P.ReadValue(io.little, io.inputs[at.mod - 1][..], at)) else None)
  {
    hide StatusQuality, P.ReadValue;
  }

  class EtherDevice {
    const kind: Kind
    var inError: bool
    var lastQState: QuState

    constructor (kind: Kind)
      ensures this.kind == kind && !inError && lastQState == OK
    {
      this.kind, inError, lastQState := kind, false, OK;
    }

    // The device and the driver's map agree.
    ghost predicate Tracks(varErrors: map<IOAddr, QuState>, a: IOAddr)
      reads this
    {
      && inError == (a in varErrors)
      && lastQState == (if a in varErrors then varErrors[a] else OK)
      && (a in varErrors ==> varErrors[a] != OK && (!kind.Analog? ==> varErrors[a] == ComError))
    }

    method GetVarQState(io: P.EthercatDrv, w: StatusWord) returns (q: QuState)
      requires StatusWordOk(w) ==> io.PlacedIn(w.addr)
      ensures q == if StatusWordOk(w) then StatusQuality(w, WordRead(io, w.addr)) else ComError
    {
      hide StatusBit, P.ReadValue;
      if !StatusWordOk(w) { return ComError; }
      var ok, word := io.ReadDevice(w.addr);
      if !ok { return ComError; }
      if StatusBit(word, w.addr.numBits, w.underBit) { return UnderRange; }
      if StatusBit(word, w.addr.numBits, w.overBit) { return OverRange; }
      return OK;
    }

    method UpdateDevice(drv: EthercatDrv, a: IOAddr)
      requires Tracks(drv.varErrors, a) && KindPlaced(drv.io, kind)
      modifies this, drv`varErrors
      ensures drv.varErrors ==
        var q := Quality(drv.io, drv.moduleErrors, kind, a);
        if q == OK then old(drv.varErrors) - {a} else old(drv.varErrors)[a := q]
      ensures Tracks(drv.varErrors, a)
    {
      hide StatusQuality, WordRead;
      if kind.Analog? { UpdateAnalog(drv, a); } else { UpdatePlain(drv, a); }
    }

    method UpdateAnalog(drv: EthercatDrv, a: IOAddr)
      requires kind.Analog? && Tracks(drv.varErrors, a) && KindPlaced(drv.io, kind)
      modifies this, drv`varErrors
      ensures drv.varErrors ==
        var q := Quality(drv.io, drv.moduleErrors, kind, a);
        if q == OK then old(drv.varErrors) - {a} else old(drv.varErrors)[a := q]
      ensures Tracks(drv.varErrors, a)
      ensures a.mod in drv.moduleErrors || !StatusWordOk(kind.status) ==>
        drv.varErrors == old(drv.varErrors)[a := ComError]
    {
      hide StatusQuality, WordRead;
      var now := ComError;
      if a.mod !in drv.moduleErrors { now := GetVarQState(drv.io, kind.status); }
      if now != OK {
        if inError {
          if lastQState != now { drv.NewVarError(a, now); }
        } else {
          drv.NewVarError(a, now);
        }
        inError := true;
        lastQState := now;
      } else if inError {
        inError := false;
        lastQState := OK;
        drv.ClearVarError(a);
      }
    }

    method UpdatePlain(drv: EthercatDrv, a: IOAddr)
      requires !kind.Analog? && Tracks(drv.varErrors, a)
      modifies this, drv`varErrors
      ensures drv.varErrors
        == if a.mod in drv.moduleErrors then old(drv.varErrors)[a := ComError] else old(drv.varErrors) - {a}
      ensures Tracks(drv.varErrors, a)
    {
      if a.mod in drv.moduleErrors {
        if !inError { drv.NewVarError(a, ComError); }
        inError := true;
        lastQState := ComError;
        return;
      } else if inError {
        inError := false;
        lastQState := OK;
        drv.ClearVarError(a);
      }
    }
  }

  class EthercatDrv {
    const io: P.EthercatDrv
    const devices: map<IOAddr, EtherDevice>
    var state: DrvState
    var moduleErrors: set<nat>
    var comTrys: seq<nat>
    var varErrors: map<IOAddr, QuState>
    ghost var callbacks: nat

    ghost predicate Valid()
      reads this, devices.Values
    {
      && |comTrys| == io.slaveCount + 1 && Modules(moduleErrors, io.slaveCount)
      && (forall a, b | a in devices && b in devices && a != b :: devices[a] != devices[b])
      && (forall a | a in devices :: KindPlaced(io, devices[a].kind))
      && (forall a | a in devices :: devices[a].Tracks(varErrors, a))
      && varErrors.Keys <= devices.Keys
    }

    // A session begins without errors.
    constructor (io: P.EthercatDrv, devices: map<IOAddr, EtherDevice>)
      requires forall a, b | a in devices && b in devices && a != b :: devices[a] != devices[b]
      requires forall a | a in devices :: KindPlaced(io, devices[a].kind) && devices[a].Tracks(map[], a)
      ensures Valid() && state == Stopped && moduleErrors == {} && varErrors == map[]
      ensures this.io == io && this.devices == devices && comTrys == seq(io.slaveCount + 1, _ => 0)
    {
      this.io, this.devices, state, moduleErrors, varErrors := io, devices, Stopped, {}, map[];
      comTrys := seq(io.slaveCount + 1, _ => 0);
      callbacks := 0;
    }

    method NewVarError(a: IOAddr, q: QuState)
      modifies this`varErrors
      ensures varErrors == old(varErrors)[a := q]
    {
      varErrors := varErrors[a := q];
    }

    method ClearVarError(a: IOAddr)
      modifies this`varErrors
      ensures varErrors == old(varErrors) - {a}
    {
      varErrors := varErrors - {a};
    }

    // A short frame: every slave's state is read and acted upon.
    method CheckStates(states: nat -> SlaveState)
      requires |comTrys| == io.slaveCount + 1 && Modules(moduleErrors, io.slaveCount)
      modifies this`moduleErrors, this`comTrys
      ensures moduleErrors == NextErrors(old(moduleErrors), old(comTrys), io.slaveCount, Short(states))
      ensures comTrys == NextTrys(old(moduleErrors), old(comTrys), io.slaveCount, Short(states))
    {
      var n := io.slaveCount;
      for i := 1 to n + 1
        invariant |comTrys| == n + 1
        invariant comTrys[0] == old(comTrys)[0]
        invariant forall j | 1 <= j <= n ::
                    comTrys[j] == if j < i then TrysNext(old(comTrys)[j], states(j)) else old(comTrys)[j]
        invariant forall j | 1 <= j < i ::
                    j in moduleErrors <==> FailedNext(j in old(moduleErrors), old(comTrys)[j], states(j))
        invariant forall j: nat | j < 1 || j >= i :: j in moduleErrors <==> j in old(moduleErrors)
      {
        if !states(i).Operational? {
          var slaveError := true;
          if Syncing(states(i)) {
            slaveError := comTrys[i] >= SLAVE_SYNC_TRYS;
            comTrys := comTrys[i := (comTrys[i] + 1) % 256];
          }
          if slaveError { moduleErrors := moduleErrors + {i}; }
        } else {
          moduleErrors := moduleErrors - {i};
          comTrys := comTrys[i := 0];
        }
      }
    }

    // A complete frame: the modules in error are forgotten with their counters.
    method ForgetErrors()
      requires |comTrys| == io.slaveCount + 1 && Modules(moduleErrors, io.slaveCount)
      modifies this`moduleErrors, this`comTrys
      ensures moduleErrors == {}
      ensures comTrys == NextTrys(old(moduleErrors), old(comTrys), io.slaveCount, Complete)
    {
      var n := io.slaveCount;
      var rest := moduleErrors;
      while rest != {}
        invariant |comTrys| == n + 1 && rest <= moduleErrors == old(moduleErrors)
        invariant forall j | 0 <= j <= n :: comTrys[j] == if j in moduleErrors - rest then 0 else old(comTrys)[j]
        decreases |rest|
      {
        var i :| i in rest;
        comTrys := comTrys[i := 0];
        rest := rest - {i};
      }
      moduleErrors := {};
    }

    method CheckSlavesWKC(f: Frame)
      requires |comTrys| == io.slaveCount + 1 && Modules(moduleErrors, io.slaveCount)
      modifies this`moduleErrors, this`comTrys
      ensures moduleErrors == NextErrors(old(moduleErrors), old(comTrys), io.slaveCount, f)
      ensures comTrys == NextTrys(old(moduleErrors), old(comTrys), io.slaveCount, f)
      ensures Modules(moduleErrors, io.slaveCount)
      ensures f.Complete? ==> moduleErrors == {}
      ensures f.Short? ==> forall i | 1 <= i <= io.slaveCount ::
                i in moduleErrors <==> match f.states(i)
                                       case Operational => false
                                       case Elsewhere => true
                                       case _ => i in old(moduleErrors) || old(comTrys)[i] >= 2
      ensures f.Complete? ==> forall i | 1 <= i <= io.slaveCount ::
                comTrys[i] == if i in old(moduleErrors) then 0 else old(comTrys)[i]
      ensures f.Short? ==> forall i | 1 <= i <= io.slaveCount ::
                comTrys[i] == match f.states(i)
                              case Operational => 0
                              case Elsewhere => old(comTrys)[i]
                              case _ => (old(comTrys)[i] + 1) % 256
    {
      if f.Short? { CheckStates(f.states); } else { ForgetErrors(); }
    }

    // The variables in error after a poll, each with its quality.
    ghost function InError(): map<IOAddr, QuState>
      requires forall a | a in devices :: KindPlaced(io, devices[a].kind)
      reads this`moduleErrors, set i | 0 <= i < |io.inputs| :: io.inputs[i]
    {
      map a | a in devices && Quality(io, moduleErrors, devices[a].kind, a) != OK ::
        Quality(io, moduleErrors, devices[a].kind, a)
    }

    method UpdateNext(a: IOAddr)
      requires Valid() && a in devices
      modifies this`varErrors, devices[a]
      ensures Valid()
      ensures varErrors ==
        var q := Quality(io, moduleErrors, devices[a].kind, a);
        if q == OK then old(varErrors) - {a} else old(varErrors)[a := q]
    {
      hide Quality, Modules, KindPlaced;
      devices[a].UpdateDevice(this, a);
      forall b | b in devices && b != a ensures devices[b].Tracks(varErrors, b) {
        assert old(devices[b].Tracks(varErrors, b));
      }
    }

    method UpdateDevices()
      requires Valid()
      modifies this`varErrors, devices.Values
      ensures Valid() && varErrors == InError()
    {
      hide Quality, Modules, KindPlaced, EtherDevice.Tracks;
      var rest := devices.Keys;
      while rest != {}
        invariant rest <= devices.Keys
        invariant Valid()
        invariant forall a | a in devices && a !in rest ::
          && (a in varErrors <==> Quality(io, moduleErrors, devices[a].kind, a) != OK)
          && (a in varErrors ==> varErrors[a] == Quality(io, moduleErrors, devices[a].kind, a))
        decreases |rest|
      {
        var a :| a in rest;
        rest := rest - {a};
        UpdateNext(a);
      }
    }

    // One poll. Its outcome depends on the errors alone, whatever the state was: communication
    // lost when every module has failed, otherwise variables in error when any module or variable
    // is. The error call-back runs exactly when the state becomes one of the two.
    method Poll(f: Frame)
      requires Valid() && state != Stopped && state != UnInit
      modifies this, devices.Values
      ensures Valid()
      ensures moduleErrors == NextErrors(old(moduleErrors), old(comTrys), io.slaveCount, f)
      ensures comTrys == NextTrys(old(moduleErrors), old(comTrys), io.slaveCount, f)
      ensures state == COMError <==> forall i | IsModule(i, io.slaveCount) :: i in moduleErrors
      ensures state == VarError <==> state != COMError && (moduleErrors != {} || varErrors != map[])
      ensures state == COMError || state == VarError || state == Running
      ensures varErrors == if state == COMError then old(varErrors) else InError()
      ensures callbacks == old(callbacks) + if state != old(state) && state != Running then 1 else 0
      ensures f.Short? && (forall i | 1 <= i <= io.slaveCount :: f.states(i).Elsewhere?) ==> state == COMError
      ensures f.Short? && (exists i :: 1 <= i <= io.slaveCount && f.states(i).Elsewhere?) ==>
                state == COMError || state == VarError
      ensures f.Complete? && io.slaveCount >= 1 ==> state != COMError
    {
      hide Quality, NextErrors, NextTrys, InError, KindPlaced;
      CheckSlavesWKC(f);
      EveryModuleFailedIff(moduleErrors, io.slaveCount);
      assert f.Complete? && io.slaveCount >= 1 ==> IsModule(1, io.slaveCount) && 1 !in moduleErrors;
      if |moduleErrors| == io.slaveCount {
        if state != COMError {
          state := COMError;
          callbacks := callbacks + 1;
        }
        return;
      }
      UpdateDevices();
      if moduleErrors != {} || varErrors != map[] {
        if state != VarError {
          state := VarError;
          callbacks := callbacks + 1;
        }
      } else {
        state := Running;
      }
    }

    method Start() returns (ok: bool)
      requires Valid()
      modifies this`state
      ensures Valid() && ok == (old(state) != UnInit) && state == if old(state) == Stopped then Running else old(state)
    {
      if state == UnInit { return false; }
      if state == Stopped { state := Running; }
      return true;
    }

    method Stop() returns (ok: bool)
      requires Valid()
      modifies this`state
      ensures Valid() && ok == (old(state) != UnInit) && state == if old(state) == UnInit then UnInit else Stopped
    {
      if state == UnInit { return false; }
      state := Stopped;
      return true;
    }
  }
}
