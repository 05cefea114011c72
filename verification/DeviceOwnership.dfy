/**
 Which claim owns a device.

 The claim controller (one worker) and the reporting agent of each device's node read device
 objects and later write merge patches: a patch carries only the fields that differ from
 what was read and applies to whatever the object has become.  Every read and every patch
 is a step of its own, so all interleavings are runs of `Next`.  Claims are identified by
 UID, serial numbers are case-folded, and only the claim controller removes its finalizer.
 */
module DeviceOwnership {
  import opened Options
  import opened Runs

  datatype DeviceState = Unset | Available | Claimed | Unavailable

  /** `ready` is the hardware condition, absent until the first report. */
  datatype Device = Device(serial: string, state: DeviceState, ready: Option<bool>, owner: Option<nat>)

  datatype Claim = Claim(serial: string, finalizer: bool, deleting: bool, active: bool, matched: string)

  datatype Report = Initialize | Refresh | Vanished

  /** What the reporter of a device has read and not yet written back. */
  datatype ReporterPc = Silent | Created | Read(report: Report, base: Device)

  datatype ControllerPc =
    | Idle
    | AddFinalizer(uid: nat, claim: Claim)
    | ListDevices(uid: nat)
    | Bind(uid: nat, device: string, base: Device, stale: map<string, Device>)
    | ReleaseStale(uid: nat, device: string, stale: map<string, Device>)
    | GetMatched(uid: nat, matched: string)
    | ReleaseMatched(uid: nat, matched: string, base: Device)
    | ListOwned(uid: nat, matched: string)
    | ReleaseOwned(uid: nat, owned: map<string, Device>)
    | Strip(uid: nat)

  datatype State = State(
    devices: map<string, Device>,
    claims: map<nat, Claim>,
    used: set<nat>,
    controller: ControllerPc,
    reporters: map<string, ReporterPc>)

  datatype Step =
    | CreateClaim(newUid: nat, serial: string)
    | DeleteClaim(oldUid: nat)
    | CreateDevice(name: string, newSerial: string)
    | ReadDevice(name: string, report: Report)
    | PatchReport(name: string)
    | ReporterCrash(name: string)
    | StartReconcile(claimUid: nat)
    | Advance
    | ReleaseOne(name: string)
    | ControllerCrash

  // ---------------------------------------------------------------- decisions and patches

  /** deviceIsPresent */
  predicate Present(d: Device) {
    d.state != Unavailable && d.ready != Some(false)
  }

  predicate Owns(uid: nat, d: Device) {
    d.owner == Some(uid)
  }

  /** A patch that sets the state only where it differs from what was read. */
  function PatchState(current: Device, base: Device, state: DeviceState): Device {
    if base.state != state then current.(state := state) else current
  }

  function ReportedState(report: Report, base: Device): DeviceState {
    match report
    case Initialize => Available
    case Refresh =>
      if base.state != Unavailable then base.state
      else if base.owner.None? then Available else Claimed
    case Vanished => Unavailable
  }

  /** The reporter's status patch. */
  function ReportPatch(current: Device, report: Report, base: Device): Device {
    var ready := Some(report != Vanished);
    var patched := PatchState(current, base, ReportedState(report, base));
    if base.ready != ready then patched.(ready := ready) else patched
  }

  /** The controller's binding patch. */
  function BindPatch(current: Device, base: Device, uid: nat): Device {
    PatchState(current, base, Claimed).(owner := if base.owner != Some(uid) then Some(uid) else current.owner)
  }

  /** releaseDevice */
  function ReleasePatch(current: Device, base: Device, uid: nat): Device {
    if !Owns(uid, base) then current
    else PatchState(current, base, if Present(base) then Available else Unavailable).(owner := None)
  }

  /** The only present device with the serial number. */
  ghost predicate OnlyPresent(devices: map<string, Device>, serial: string, n: string) {
    && n in devices && devices[n].serial == serial && Present(devices[n])
    && forall m :: m in devices && m != n ==> devices[m].serial != serial || !Present(devices[m])
  }

  /** Binding is refused for a foreign owner, and for a device that is Claimed without one. */
  predicate MayBind(uid: nat, c: Claim, n: string, d: Device) {
    var legacyMatch := d.owner.None? && c.active && c.matched == n;
    && !(d.owner.Some? && !Owns(uid, d))
    && !(d.state == Claimed && !Owns(uid, d) && !legacyMatch)
  }

  function OwnedDevices(devices: map<string, Device>, uid: nat): map<string, Device> {
    map n | n in devices && Owns(uid, devices[n]) :: devices[n]
  }

  function StaleDevices(devices: map<string, Device>, uid: nat, serial: string, chosen: string): map<string, Device> {
    map n | n in devices && n != chosen && devices[n].serial == serial && Owns(uid, devices[n]) :: devices[n]
  }

  // ---------------------------------------------------------------- steps

  ghost predicate UserNext(s: State, s': State, step: Step) {
    match step
    case CreateClaim(u, serial) =>
      && u !in s.used
      && s' == s.(claims := s.claims[u := Claim(serial, false, false, false, "")], used := s.used + {u})
    case DeleteClaim(u) =>
      && u in s.claims
      && s' == s.(claims := if s.claims[u].finalizer then s.claims[u := s.claims[u].(deleting := true)] else s.claims - {u})
    case _ => false
  }

  ghost predicate ReporterNext(s: State, s': State, step: Step) {
    match step
    case CreateDevice(n, serial) =>
      && n !in s.devices
      && s' == s.(devices := s.devices[n := Device(serial, Unset, None, None)], reporters := s.reporters[n := Created])
    case ReadDevice(n, report) =>
      && n in s.devices && n in s.reporters && !s.reporters[n].Read?
      && (report == Initialize <==> s.reporters[n].Created?)
      && s' == s.(reporters := s.reporters[n := Read(report, s.devices[n])])
    case PatchReport(n) =>
      && n in s.devices && n in s.reporters && s.reporters[n].Read?
      && s' == s.(devices := s.devices[n := ReportPatch(s.devices[n], s.reporters[n].report, s.reporters[n].base)],
                  reporters := s.reporters[n := Silent])
    case ReporterCrash(n) =>
      n in s.reporters && s' == s.(reporters := s.reporters[n := Silent])
    case _ => false
  }

  ghost predicate Starts(s: State, s': State, u: nat) {
    && s.controller.Idle? && u in s.claims
    && s' == s.(controller :=
         if s.claims[u].deleting then (if s.claims[u].finalizer then GetMatched(u, s.claims[u].matched) else Idle)
         else if !s.claims[u].finalizer then AddFinalizer(u, s.claims[u])
         else ListDevices(u))
  }

  /** A device the claim may bind was the only present one with its serial number. */
  ghost predicate Eligible(s: State, u: nat, n: string) {
    u in s.claims && OnlyPresent(s.devices, s.claims[u].serial, n) && MayBind(u, s.claims[u], n, s.devices[n])
  }

  /** reconcileClaimBinding up to and including its choice. */
  ghost predicate Lists(s: State, s': State, u: nat) {
    && u in s.claims
    && (|| (exists n ::
              && Eligible(s, u, n)
              && s' == s.(controller := Bind(u, n, s.devices[n], StaleDevices(s.devices, u, s.claims[u].serial, n))))
        || ((forall n :: !Eligible(s, u, n)) && s' == s.(controller := Idle, claims := s.claims[u := s.claims[u].(active := false)])))
  }

  ghost predicate Binds(s: State, s': State) {
    match s.controller
    case AddFinalizer(u, c) =>
      // An update with the resource version that was read.
      if u in s.claims && s.claims[u] == c
      then s' == s.(controller := ListDevices(u), claims := s.claims[u := c.(finalizer := true)])
      else s' == s.(controller := Idle)
    case ListDevices(u) => Lists(s, s', u)
    case Bind(u, n, base, stale) =>
      && n in s.devices
      && s' == s.(controller := ReleaseStale(u, n, stale), devices := s.devices[n := BindPatch(s.devices[n], base, u)])
    case ReleaseStale(u, n, stale) =>
      && stale == map[] && u in s.claims
      && s' == s.(controller := Idle, claims := s.claims[u := s.claims[u].(active := true, matched := n)])
    case _ => false
  }

  /** finalizeClaim once no partition refers to the claim. */
  ghost predicate Finalizes(s: State, s': State) {
    match s.controller
    case GetMatched(u, m) =>
      s' == s.(controller := if m in s.devices then ReleaseMatched(u, m, s.devices[m]) else ListOwned(u, m))
    case ReleaseMatched(u, m, base) =>
      && m in s.devices
      && s' == s.(controller := ListOwned(u, m), devices := s.devices[m := ReleasePatch(s.devices[m], base, u)])
    case ListOwned(u, m) => s' == s.(controller := ReleaseOwned(u, OwnedDevices(s.devices, u) - {m}))
    case ReleaseOwned(u, owned) => owned == map[] && s' == s.(controller := Strip(u))
    case Strip(u) => s' == s.(controller := Idle, claims := s.claims - {u})
    case _ => false
  }

  ghost predicate ReleasesOne(s: State, s': State, n: string) {
    && n in s.devices
    && match s.controller
       case ReleaseStale(u, d, stale) =>
         && n in stale
         && s' == s.(controller := ReleaseStale(u, d, stale - {n}), devices := s.devices[n := ReleasePatch(s.devices[n], stale[n], u)])
       case ReleaseOwned(u, owned) =>
         && n in owned
         && s' == s.(controller := ReleaseOwned(u, owned - {n}), devices := s.devices[n := ReleasePatch(s.devices[n], owned[n], u)])
       case _ => false
  }

  ghost predicate ControllerNext(s: State, s': State, step: Step) {
    match step
    case StartReconcile(u) => Starts(s, s', u)
    case Advance => Binds(s, s') || Finalizes(s, s')
    case ReleaseOne(n) => ReleasesOne(s, s', n)
    case ControllerCrash => s' == s.(controller := Idle)
    case _ => false
  }

  ghost predicate Next(s: State, s': State, step: Step) {
    UserNext(s, s', step) || ReporterNext(s, s', step) || ControllerNext(s, s', step)
  }

  ghost predicate Init(s: State) {
    s == State(map[], map[], {}, Idle, map[])
  }

  ghost predicate Steps(s: State, s': State) {
    exists step :: Next(s, s', step)
  }

  ghost predicate IsRun(run: seq<State>) {
    |run| > 0 && Init(run[0]) && forall i :: 0 <= i < |run| - 1 ==> Steps(run[i], run[i + 1])
  }

  // ---------------------------------------------------------------- ownership invariant

  predicate Live(s: State, u: nat) {
    u in s.claims && s.claims[u].finalizer
  }

  predicate Leaving(s: State, u: nat) {
    Live(s, u) && s.claims[u].deleting
  }

  /** Whoever owns a device still exists and still holds the finalizer. */
  ghost predicate OwnersLive(s: State) {
    forall n :: n in s.devices && s.devices[n].owner.Some? ==> Live(s, s.devices[n].owner.value)
  }

  ghost predicate ClaimsInv(s: State) {
    forall u :: u in s.claims ==> u in s.used && (s.claims[u].deleting ==> s.claims[u].finalizer)
  }

  /** The devices still to be released were read as, and still are, owned by the claim. */
  ghost predicate Pending(s: State, u: nat, todo: map<string, Device>) {
    forall n :: n in todo ==> n in s.devices && Owns(u, s.devices[n]) && Owns(u, todo[n])
  }

  ghost predicate ControllerInv(s: State) {
    match s.controller
    case AddFinalizer(u, c) => !c.deleting
    case ListDevices(u) => Live(s, u)
    case Bind(u, n, base, stale) =>
      && Live(s, u) && Pending(s, u, stale) && n !in stale
      && n in s.devices && s.devices[n].owner == base.owner && (base.owner.None? || Owns(u, base))
    case ReleaseStale(u, n, stale) =>
      Live(s, u) && Pending(s, u, stale) && n !in stale && n in s.devices && Owns(u, s.devices[n])
    case GetMatched(u, m) => Leaving(s, u)
    case ReleaseMatched(u, m, base) => Leaving(s, u) && m in s.devices && s.devices[m].owner == base.owner
    case ListOwned(u, m) => Leaving(s, u) && (m in s.devices ==> !Owns(u, s.devices[m]))
    case ReleaseOwned(u, owned) =>
      Leaving(s, u) && Pending(s, u, owned) && forall n :: n in s.devices && Owns(u, s.devices[n]) ==> n in owned
    case Strip(u) => Leaving(s, u) && forall n :: n in s.devices ==> !Owns(u, s.devices[n])
    case _ => true
  }

  ghost predicate Inv(s: State) {
    OwnersLive(s) && ClaimsInv(s) && ControllerInv(s)
  }

  lemma UserPreservesInv(s: State, s': State, step: Step)
    requires Inv(s) && UserNext(s, s', step)
    ensures Inv(s')
  {
  }

  /** Nothing but device fields other than the owner, and devices without one, differs. */
  ghost predicate SameOwners(s: State, s': State) {
    && s'.claims == s.claims && s'.used == s.used && s'.controller == s.controller
    && (forall n :: n in s.devices ==> n in s'.devices && s'.devices[n].owner == s.devices[n].owner)
    && (forall n :: n in s'.devices && n !in s.devices ==> s'.devices[n].owner.None?)
  }

  lemma ReporterKeepsOwners(s: State, s': State, step: Step)
    requires ReporterNext(s, s', step)
    ensures SameOwners(s, s')
  {
  }

  lemma SameOwnersKeepInv(s: State, s': State)
    requires Inv(s) && SameOwners(s, s')
    ensures Inv(s')
  {
  }

  lemma BindingPreservesInv(s: State, s': State)
    requires Inv(s) && Binds(s, s')
    ensures Inv(s')
  {
  }

  lemma FinalizingPreservesInv(s: State, s': State)
    requires Inv(s) && Finalizes(s, s')
    ensures Inv(s')
  {
  }

  lemma ReleasePreservesInv(s: State, s': State, n: string)
    requires Inv(s) && ReleasesOne(s, s', n)
    ensures Inv(s')
  {
  }

  lemma StepPreservesInv(s: State, s': State, step: Step)
    requires Inv(s) && Next(s, s', step)
    ensures Inv(s')
  {
    if UserNext(s, s', step) {
      UserPreservesInv(s, s', step);
    } else if ReporterNext(s, s', step) {
      ReporterKeepsOwners(s, s', step);
      SameOwnersKeepInv(s, s');
    } else if step.ReleaseOne? {
      ReleasePreservesInv(s, s', step.name);
    } else if Binds(s, s') {
      BindingPreservesInv(s, s');
    } else if Finalizes(s, s') {
      FinalizingPreservesInv(s, s');
    }
  }

  lemma {:induction false} RunKeepsInv(run: seq<State>, i: nat)
    requires IsRun(run) && i < |run|
    ensures Inv(run[i])
  {
    if i > 0 {
      RunKeepsInv(run, i - 1);
      assert Steps(run[i - 1], run[(i - 1) + 1]);
      var step :| Next(run[i - 1], run[i], step);
      StepPreservesInv(run[i - 1], run[i], step);
    }
  }

  // ---------------------------------------------------------------- ownership theorems

  /** An owner never changes hands directly. */
  ghost predicate OwnerKept(d: Device, d': Device) {
    d.owner == d'.owner || d.owner.None? || d'.owner.None?
  }

  lemma StepMovesOwner(s: State, s': State, step: Step, n: string)
    requires Inv(s) && Next(s, s', step) && n in s.devices
    ensures n in s'.devices && OwnerKept(s.devices[n], s'.devices[n])
    ensures s.devices[n].owner != s'.devices[n].owner && s'.devices[n].owner.Some? ==>
      s.controller.Bind? && s.controller.uid == s'.devices[n].owner.value
    ensures s.devices[n].owner != s'.devices[n].owner && s'.devices[n].owner.None? ==>
      !s.controller.Idle? && s.controller.uid == s.devices[n].owner.value
  {
    if UserNext(s, s', step) {
    } else if ReporterNext(s, s', step) {
    } else {
      assert ControllerNext(s, s', step);
    }
  }

  lemma OwnerMovesAt(run: seq<State>, i: nat, n: string)
    requires IsRun(run) && i + 1 < |run| && n in run[i].devices
    ensures n in run[i + 1].devices && OwnerKept(run[i].devices[n], run[i + 1].devices[n])
  {
    RunKeepsInv(run, i);
    assert Steps(run[i], run[i + 1]);
    var step :| Next(run[i], run[i + 1], step);
    StepMovesOwner(run[i], run[i + 1], step, n);
  }

  /** In every interleaving an owned device belongs to a claim that exists and holds its finalizer. */
  lemma NoDanglingOwner(run: seq<State>, i: nat, n: string)
    requires IsRun(run) && i < |run| && n in run[i].devices && run[i].devices[n].owner.Some?
    ensures Live(run[i], run[i].devices[n].owner.value)
  {
    RunKeepsInv(run, i);
  }

  ghost predicate OwnedAt(run: seq<State>, i: nat, n: string, u: nat) {
    i < |run| && n in run[i].devices && Owns(u, run[i].devices[n])
  }

  ghost predicate FreeAt(run: seq<State>, i: nat, n: string) {
    i < |run| && n in run[i].devices && run[i].devices[n].owner.None?
  }

  lemma OwnerStaysOrFrees(run: seq<State>, i: nat, n: string, u: nat)
    requires IsRun(run) && i + 1 < |run| && OwnedAt(run, i, n, u)
    ensures OwnedAt(run, i + 1, n, u) || FreeAt(run, i + 1, n)
  {
    OwnerMovesAt(run, i, n);
  }

  /** Between two owners the device was released. */
  lemma {:induction false} ReleasedBetweenOwners(run: seq<State>, i: nat, j: nat, n: string, u: nat, v: nat) returns (k: nat)
    requires IsRun(run) && i <= j && OwnedAt(run, i, n, u) && OwnedAt(run, j, n, v) && u != v
    ensures i < k < j && FreeAt(run, k, n)
    decreases j - i
  {
    OwnerStaysOrFrees(run, i, n, u);
    if FreeAt(run, i + 1, n) {
      k := i + 1;
    } else {
      k := ReleasedBetweenOwners(run, i + 1, j, n, u, v);
    }
  }

  // ---------------------------------------------------------------- the matched device

  /** An active claim owns the device its status names. */
  predicate MatchKept(s: State, u: nat)
    requires u in s.claims
  {
    s.claims[u].active ==> s.claims[u].matched in s.devices && Owns(u, s.devices[s.claims[u].matched])
  }

  /** A claim that is being bound has not yet said so in its status. */
  predicate Moving(s: State, u: nat) {
    s.controller.ReleaseStale? && s.controller.uid == u
  }

  ghost predicate Matched(s: State) {
    && (forall u :: u in s.claims && !s.claims[u].deleting ==> MatchKept(s, u) || Moving(s, u))
    && ((s.controller.ListDevices? || s.controller.Bind?) && s.controller.uid in s.claims ==> MatchKept(s, s.controller.uid))
  }

  /** Where the controller may stop: a claim that is moving still names the device it moves to, or
      one that has not been released yet. */
  predicate CleanStop(s: State, step: Step) {
    step.ControllerCrash? && s.controller.ReleaseStale? && s.controller.uid in s.claims ==>
      s.claims[s.controller.uid].deleting || !s.claims[s.controller.uid].active
      || s.claims[s.controller.uid].matched == s.controller.device || s.claims[s.controller.uid].matched in s.controller.stale
  }

  /** Active claims, and the controller, deal with devices of the claim's serial number only. */
  ghost predicate SerialsAgree(s: State) {
    && (forall u :: u in s.claims && s.claims[u].active ==>
          s.claims[u].matched in s.devices && s.devices[s.claims[u].matched].serial == s.claims[u].serial)
    && ((s.controller.Bind? || s.controller.ReleaseStale?) && s.controller.uid in s.claims ==>
          s.controller.device in s.devices && s.devices[s.controller.device].serial == s.claims[s.controller.uid].serial)
  }

  /** While a claim is being bound, what it owns besides the chosen device is still to be released. */
  ghost predicate StaleComplete(s: State) {
    (s.controller.Bind? || s.controller.ReleaseStale?) && s.controller.uid in s.claims ==>
      forall m ::
        m in s.devices && m != s.controller.device && Owns(s.controller.uid, s.devices[m]) && s.devices[m].serial == s.claims[s.controller.uid].serial
        ==> m in s.controller.stale
  }

  ghost predicate Positions(s: State) {
    SerialsAgree(s) && StaleComplete(s)
  }

  lemma WorldKeepsPositions(s: State, s': State, step: Step)
    requires Inv(s) && Positions(s) && (UserNext(s, s', step) || ReporterNext(s, s', step))
    ensures Positions(s')
  {
  }

  lemma ListingKeepsPositions(s: State, s': State, u: nat)
    requires Inv(s) && Positions(s) && Lists(s, s', u)
    ensures Positions(s')
  {
  }

  lemma BindingKeepsPositions(s: State, s': State)
    requires Inv(s) && Positions(s) && Binds(s, s')
    ensures Positions(s')
  {
    if s.controller.ListDevices? {
      ListingKeepsPositions(s, s', s.controller.uid);
    }
  }

  lemma FinalizingKeepsPositions(s: State, s': State)
    requires Inv(s) && Positions(s) && Finalizes(s, s')
    ensures Positions(s')
  {
  }

  lemma ReleaseKeepsPositions(s: State, s': State, n: string)
    requires Inv(s) && Positions(s) && ReleasesOne(s, s', n)
    ensures Positions(s')
  {
  }

  lemma StepKeepsPositions(s: State, s': State, step: Step)
    requires Inv(s) && Positions(s) && Next(s, s', step)
    ensures Positions(s')
  {
    if UserNext(s, s', step) || ReporterNext(s, s', step) {
      WorldKeepsPositions(s, s', step);
    } else if step.ReleaseOne? {
      ReleaseKeepsPositions(s, s', step.name);
    } else if step.Advance? {
      if Binds(s, s') {
        BindingKeepsPositions(s, s');
      } else {
        FinalizingKeepsPositions(s, s');
      }
    }
  }

  lemma {:induction false} RunKeepsPositions(run: seq<State>, steps: seq<Step>, i: nat)
    requires IsTrace(run, steps) && i < |run|
    ensures Inv(run[i]) && Positions(run[i])
  {
    TraceIsRun(run, steps);
    RunKeepsInv(run, i);
    if i > 0 {
      RunKeepsPositions(run, steps, i - 1);
      assert Next(run[i - 1], run[(i - 1) + 1], steps[i - 1]);
      StepKeepsPositions(run[i - 1], run[i], steps[i - 1]);
    }
  }

  /** In the middle of a move the matched device is kept exactly when it is the chosen one or is
      still to be released. */
  lemma MovingKeepsMatchIff(s: State)
    requires Inv(s) && Positions(s) && s.controller.ReleaseStale?
    ensures s.controller.uid in s.claims
    ensures var c := s.claims[s.controller.uid];
            c.active ==> (MatchKept(s, s.controller.uid) <==> c.matched == s.controller.device || c.matched in s.controller.stale)
  {
  }

  lemma WorldKeepsMatched(s: State, s': State, step: Step)
    requires Inv(s) && Matched(s) && (UserNext(s, s', step) || ReporterNext(s, s', step))
    ensures Matched(s')
  {
  }

  lemma BindingKeepsMatched(s: State, s': State)
    requires Inv(s) && Matched(s) && Binds(s, s')
    ensures Matched(s')
  {
  }

  lemma FinalizingKeepsMatched(s: State, s': State)
    requires Inv(s) && Matched(s) && Finalizes(s, s')
    ensures Matched(s')
  {
  }

  lemma ReleaseKeepsMatched(s: State, s': State, n: string)
    requires Inv(s) && Matched(s) && ReleasesOne(s, s', n)
    ensures Matched(s')
  {
  }

  /** A step loses a matched device exactly when it stops the controller in the middle of a move. */
  lemma StepKeepsMatchedIff(s: State, s': State, step: Step)
    requires Inv(s) && Positions(s) && Matched(s) && Next(s, s', step)
    ensures Matched(s') <==> CleanStop(s, step)
  {
    if s.controller.ReleaseStale? {
      MovingKeepsMatchIff(s);
    }
    if UserNext(s, s', step) || ReporterNext(s, s', step) {
      WorldKeepsMatched(s, s', step);
    } else if step.ReleaseOne? {
      ReleaseKeepsMatched(s, s', step.name);
    } else if step.Advance? {
      if Binds(s, s') {
        BindingKeepsMatched(s, s');
      } else {
        FinalizingKeepsMatched(s, s');
      }
    }
  }

  lemma {:induction false} RunKeepsMatched(run: seq<State>, steps: seq<Step>, i: nat)
    requires IsTrace(run, steps) && i < |run|
    requires forall j :: 0 <= j < |steps| ==> CleanStop(run[j], steps[j])
    ensures Matched(run[i])
  {
    if i > 0 {
      RunKeepsMatched(run, steps, i - 1);
      RunKeepsPositions(run, steps, i - 1);
      assert Next(run[i - 1], run[(i - 1) + 1], steps[i - 1]);
      StepKeepsMatchedIff(run[i - 1], run[i], steps[i - 1]);
    }
  }

  /** So the branch for records without an owner reference never decides a binding. */
  lemma LegacyMatchNeverFires(run: seq<State>, steps: seq<Step>, i: nat, n: string)
    requires IsTrace(run, steps) && i < |run|
    requires forall j :: 0 <= j < |steps| ==> CleanStop(run[j], steps[j])
    requires run[i].controller.ListDevices? && n in run[i].devices
    ensures run[i].controller.uid in run[i].claims
    ensures !(run[i].devices[n].owner.None? && run[i].claims[run[i].controller.uid].active && run[i].claims[run[i].controller.uid].matched == n)
  {
    TraceIsRun(run, steps);
    RunKeepsInv(run, i);
    RunKeepsMatched(run, steps, i);
  }

  // ---------------------------------------------------------------- state and owner

  /** The state agrees with the owner. */
  predicate Coherent(d: Device) {
    (d.state == Available ==> d.owner.None?) && (d.state == Claimed ==> d.owner.Some?)
  }

  /** The reporter's patch fits the owner the device has when it arrives. */
  predicate TimelyReport(d: Device, report: Report, base: Device) {
    match report
    case Initialize => base.state != Available ==> d.owner.None?
    case Refresh => base.state == Unavailable ==> (base.owner.None? <==> d.owner.None?)
    case Vanished => true
  }

  lemma ReportCoherentIff(d: Device, report: Report, base: Device)
    requires Coherent(d)
    ensures Coherent(ReportPatch(d, report, base)) <==> TimelyReport(d, report, base)
  {
  }

  lemma BindStaysCoherent(d: Device, base: Device, u: nat)
    requires Coherent(d) && Coherent(base) && d.owner == base.owner && (base.owner.None? || Owns(u, base))
    ensures Coherent(BindPatch(d, base, u)) && Owns(u, BindPatch(d, base, u))
  {
  }

  /** A release of a device read as gone leaves the state alone, whatever it has become. */
  predicate TimelyRelease(d: Device, base: Device) {
    base.state == Unavailable ==> d.state != Claimed
  }

  lemma ReleaseCoherentIff(d: Device, base: Device, u: nat)
    requires Coherent(d) && Coherent(base) && d.owner == base.owner && Owns(u, base)
    ensures Coherent(ReleasePatch(d, base, u)) <==> TimelyRelease(d, base)
  {
  }

  /** The patch of this step, if it is one, arrives in time. */
  predicate Timely(s: State, step: Step) {
    match step
    case PatchReport(n) =>
      n in s.devices && n in s.reporters && s.reporters[n].Read? ==>
        TimelyReport(s.devices[n], s.reporters[n].report, s.reporters[n].base)
    case ReleaseOne(n) =>
      && (n in s.devices && s.controller.ReleaseStale? && n in s.controller.stale ==> TimelyRelease(s.devices[n], s.controller.stale[n]))
      && (n in s.devices && s.controller.ReleaseOwned? && n in s.controller.owned ==> TimelyRelease(s.devices[n], s.controller.owned[n]))
    case Advance =>
      s.controller.ReleaseMatched? && s.controller.matched in s.devices && Owns(s.controller.uid, s.controller.base) ==>
        TimelyRelease(s.devices[s.controller.matched], s.controller.base)
    case _ => true
  }

  ghost predicate AllCoherent(devices: map<string, Device>) {
    forall n :: n in devices ==> Coherent(devices[n])
  }

  /** The devices as they are, and as the controller has read them, are coherent. */
  ghost predicate Tidy(s: State) {
    && AllCoherent(s.devices)
    && match s.controller
       case Bind(u, n, base, stale) => Coherent(base) && AllCoherent(stale)
       case ReleaseStale(u, n, stale) => AllCoherent(stale)
       case ReleaseMatched(u, m, base) => Coherent(base)
       case ReleaseOwned(u, owned) => AllCoherent(owned)
       case _ => true
  }

  lemma OneChangeCoherentIff(devices: map<string, Device>, n: string, d: Device)
    requires AllCoherent(devices)
    ensures AllCoherent(devices[n := d]) <==> Coherent(d)
  {
    assert devices[n := d][n] == d;
  }

  lemma ReporterTidyIff(s: State, s': State, step: Step)
    requires Inv(s) && Tidy(s) && ReporterNext(s, s', step)
    ensures Tidy(s') <==> Timely(s, step)
  {
    match step
    case CreateDevice(n, serial) => OneChangeCoherentIff(s.devices, n, s'.devices[n]);
    case PatchReport(n) =>
      ReportCoherentIff(s.devices[n], s.reporters[n].report, s.reporters[n].base);
      OneChangeCoherentIff(s.devices, n, s'.devices[n]);
    case _ =>
  }

  lemma ReleaseTidyIff(s: State, s': State, n: string)
    requires Inv(s) && Tidy(s) && ReleasesOne(s, s', n)
    ensures Tidy(s') <==> Timely(s, ReleaseOne(n))
  {
    var todo := if s.controller.ReleaseStale? then s.controller.stale else s.controller.owned;
    ReleaseCoherentIff(s.devices[n], todo[n], s.controller.uid);
    OneChangeCoherentIff(s.devices, n, s'.devices[n]);
  }

  lemma BindingTidy(s: State, s': State)
    requires Inv(s) && Tidy(s) && Binds(s, s')
    ensures Tidy(s') && Timely(s, Advance)
  {
    match s.controller
    case Bind(u, n, base, stale) =>
      BindStaysCoherent(s.devices[n], base, u);
      OneChangeCoherentIff(s.devices, n, s'.devices[n]);
    case _ =>
  }

  lemma FinalizingTidyIff(s: State, s': State)
    requires Inv(s) && Tidy(s) && Finalizes(s, s')
    ensures Tidy(s') <==> Timely(s, Advance)
  {
    match s.controller
    case ReleaseMatched(u, m, base) =>
      OneChangeCoherentIff(s.devices, m, s'.devices[m]);
      if Owns(u, base) {
        ReleaseCoherentIff(s.devices[m], base, u);
      }
    case _ =>
  }

  /** From coherent devices a step keeps them coherent exactly when its patch is timely. */
  lemma StepTidyIff(s: State, s': State, step: Step)
    requires Inv(s) && Tidy(s) && Next(s, s', step)
    ensures Tidy(s') <==> Timely(s, step)
  {
    if ReporterNext(s, s', step) {
      ReporterTidyIff(s, s', step);
    } else if step.ReleaseOne? {
      ReleaseTidyIff(s, s', step.name);
    } else if step.Advance? {
      if Binds(s, s') {
        BindingTidy(s, s');
      } else {
        FinalizingTidyIff(s, s');
      }
    }
  }

  /** What the controller reads from coherent devices is coherent. */
  lemma CoherentReads(s: State, s': State, step: Step)
    requires Tidy(s) && Next(s, s', step) && AllCoherent(s'.devices)
    ensures Tidy(s')
  {
    if UserNext(s, s', step) {
    } else if ReporterNext(s, s', step) {
    } else if step.Advance? {
      assert Binds(s, s') || Finalizes(s, s');
    }
  }

  ghost predicate IsTrace(run: seq<State>, steps: seq<Step>) {
    && |run| == |steps| + 1 && Init(run[0])
    && forall i :: 0 <= i < |steps| ==> Next(run[i], run[i + 1], steps[i])
  }

  lemma TraceIsRun(run: seq<State>, steps: seq<Step>)
    requires IsTrace(run, steps)
    ensures IsRun(run)
  {
    forall i | 0 <= i < |run| - 1
      ensures Steps(run[i], run[i + 1])
    {
      assert Next(run[i], run[i + 1], steps[i]);
    }
  }

  ghost predicate CoherentUpTo(run: seq<State>, i: nat) {
    forall j :: 0 <= j <= i && j < |run| ==> AllCoherent(run[j].devices)
  }

  ghost predicate TimelyUpTo(run: seq<State>, steps: seq<Step>, i: nat)
    requires |run| == |steps| + 1
  {
    forall j :: 0 <= j < i && j < |steps| ==> Timely(run[j], steps[j])
  }

  lemma OneMoreIff(run: seq<State>, steps: seq<Step>, i: nat)
    requires IsTrace(run, steps) && i < |steps| && Tidy(run[i])
    ensures AllCoherent(run[i + 1].devices) <==> Timely(run[i], steps[i])
    ensures AllCoherent(run[i + 1].devices) ==> Tidy(run[i + 1])
  {
    TraceIsRun(run, steps);
    RunKeepsInv(run, i);
    StepTidyIff(run[i], run[i + 1], steps[i]);
    if AllCoherent(run[i + 1].devices) {
      CoherentReads(run[i], run[i + 1], steps[i]);
    }
  }

  lemma {:induction false} CoherentUpToIff(run: seq<State>, steps: seq<Step>, i: nat)
    requires IsTrace(run, steps) && i < |run|
    ensures CoherentUpTo(run, i) <==> TimelyUpTo(run, steps, i)
    ensures CoherentUpTo(run, i) ==> Tidy(run[i])
  {
    if i > 0 {
      CoherentUpToIff(run, steps, i - 1);
      if CoherentUpTo(run, i - 1) {
        OneMoreIff(run, steps, i - 1);
      }
    }
  }

  /** In a whole run every device's state agrees with its owner exactly when every patch is timely. */
  lemma CoherentRunIff(run: seq<State>, steps: seq<Step>)
    requires IsTrace(run, steps)
    ensures (forall i :: 0 <= i < |run| ==> AllCoherent(run[i].devices)) <==> (forall i :: 0 <= i < |steps| ==> Timely(run[i], steps[i]))
  {
    CoherentUpToIff(run, steps, |steps|);
  }

  /** The report or release of this step finds the device as it was read. */
  predicate Atomic(s: State, step: Step) {
    match step
    case PatchReport(n) =>
      n in s.devices && n in s.reporters && s.reporters[n].Read? ==> s.reporters[n].base == s.devices[n]
    case ReleaseOne(n) =>
      && (n in s.devices && s.controller.ReleaseStale? && n in s.controller.stale ==> s.controller.stale[n] == s.devices[n])
      && (n in s.devices && s.controller.ReleaseOwned? && n in s.controller.owned ==> s.controller.owned[n] == s.devices[n])
    case Advance =>
      s.controller.ReleaseMatched? && s.controller.matched in s.devices ==> s.controller.base == s.devices[s.controller.matched]
    case _ => true
  }

  ghost predicate AllAtomic(run: seq<State>, steps: seq<Step>)
    requires |run| == |steps| + 1
  {
    forall i :: 0 <= i < |steps| ==> Atomic(run[i], steps[i])
  }

  /** A new device is not bound before it is initialized. */
  predicate InitializedFree(s: State, step: Step) {
    match step
    case PatchReport(n) =>
      n in s.devices && n in s.reporters && s.reporters[n].Read? && s.reporters[n].report == Initialize ==> s.devices[n].owner.None?
    case _ => true
  }

  /** With reads and patches taken together, Available implies no owner and Claimed implies an owner
      in every state of a run exactly when no device is bound before it is initialized. */
  lemma AtomicCoherentIff(run: seq<State>, steps: seq<Step>)
    requires IsTrace(run, steps) && AllAtomic(run, steps)
    ensures (forall i :: 0 <= i < |run| ==> AllCoherent(run[i].devices)) <==> (forall i :: 0 <= i < |steps| ==> InitializedFree(run[i], steps[i]))
  {
    CoherentRunIff(run, steps);
    if forall i :: 0 <= i < |steps| ==> InitializedFree(run[i], steps[i]) {
      forall i | 0 <= i < |steps|
        ensures Timely(run[i], steps[i])
      {
        assert InitializedFree(run[i], steps[i]) && Atomic(run[i], steps[i]);
      }
    }
    if forall i :: 0 <= i < |run| ==> AllCoherent(run[i].devices) {
      forall i | 0 <= i < |steps|
        ensures InitializedFree(run[i], steps[i])
      {
        assert Timely(run[i], steps[i]) && Atomic(run[i], steps[i]) && AllCoherent(run[i].devices);
      }
    }
  }

  /** The branch for records without an owner reference makes a difference to the binding. */
  predicate LegacyDecides(u: nat, c: Claim, n: string, d: Device) {
    MayBind(u, c, n, d) && !MayBind(u, c.(active := false), n, d)
  }

  /** In timely runs that branch never decides a binding, wherever the controller stops. */
  lemma LegacyMatchNeverDecides(run: seq<State>, steps: seq<Step>, i: nat, u: nat, n: string)
    requires IsTrace(run, steps) && i < |run| && forall j :: 0 <= j < |steps| ==> Timely(run[j], steps[j])
    requires u in run[i].claims && n in run[i].devices
    ensures !LegacyDecides(u, run[i].claims[u], n, run[i].devices[n])
  {
    CoherentRunIff(run, steps);
    assert AllCoherent(run[i].devices);
  }

  // ---------------------------------------------------------------- a stranded device

  /** Claimed by nobody. */
  predicate Stranded(d: Device) {
    d.state == Claimed && d.owner.None?
  }

  /** No claim may bind a stranded device, unless its own status still points at it, and no
      report that reads it that way changes that while the device is there. */
  lemma StrandedStaysUnclaimable(d: Device, n: string, u: nat, c: Claim)
    requires Stranded(d)
    ensures MayBind(u, c, n, d) <==> c.active && c.matched == n
    ensures Stranded(ReportPatch(d, Refresh, d))
  {
  }

  /** Reading a vanished device for release just before it is reported back strands it. */
  lemma LateReleaseStrands(base: Device, u: nat)
    requires base.state == Unavailable && Owns(u, base)
    ensures Stranded(ReleasePatch(ReportPatch(base, Refresh, base), base, u))
  {
  }

  lemma Extended(run: seq<State>, s': State, step: Step) returns (longer: seq<State>)
    requires IsRun(run) && Next(Last(run), s', step)
    ensures longer == run + [s'] && IsRun(longer) && Last(longer) == s'
  {
    longer := run + [s'];
    forall i | 0 <= i < |longer| - 1
      ensures Steps(longer[i], longer[i + 1])
    {
      if i < |run| - 1 {
        assert Steps(run[i], run[i + 1]);
      } else {
        assert Next(longer[i], longer[i + 1], step);
      }
    }
  }

  /** A run that discovers one device and creates one claim for it. */
  lemma DiscoveredRun() returns (run: seq<State>)
    ensures IsRun(run)
    ensures Last(run) == State(map["d" := Device("s", Available, Some(true), None)],
                               map[0 := Claim("s", false, false, false, "")], {0}, Idle, map["d" := Silent])
  {
    var blank := Device("s", Unset, None, None);
    var free := Device("s", Available, Some(true), None);
    run := [State(map[], map[], {}, Idle, map[])];
    run := Extended(run, State(map["d" := blank], map[], {}, Idle, map["d" := Created]), CreateDevice("d", "s"));
    run := Extended(run, Last(run).(reporters := map["d" := Read(Initialize, blank)]), ReadDevice("d", Initialize));
    run := Extended(run, Last(run).(devices := map["d" := free], reporters := map["d" := Silent]), PatchReport("d"));
    run := Extended(run, Last(run).(claims := map[0 := Claim("s", false, false, false, "")], used := {0}), CreateClaim(0, "s"));
  }

  /** The claim gets its finalizer and is about to list devices. */
  lemma ListingRun() returns (run: seq<State>)
    ensures IsRun(run)
    ensures Last(run) == State(map["d" := Device("s", Available, Some(true), None)],
                               map[0 := Claim("s", true, false, false, "")], {0}, ListDevices(0), map["d" := Silent])
  {
    run := DiscoveredRun();
    run := Extended(run, Last(run).(controller := AddFinalizer(0, Last(run).claims[0])), StartReconcile(0));
    run := Extended(run, Last(run).(controller := ListDevices(0), claims := map[0 := Claim("s", true, false, false, "")]), Advance);
  }

  /** The claim binds the device. */
  lemma BoundRun() returns (run: seq<State>)
    ensures IsRun(run)
    ensures Last(run) == State(map["d" := Device("s", Claimed, Some(true), Some(0))],
                               map[0 := Claim("s", true, false, true, "d")], {0}, Idle, map["d" := Silent])
  {
    run := ListingRun();
    var free := Device("s", Available, Some(true), None);
    assert Eligible(Last(run), 0, "d");
    assert StaleDevices(Last(run).devices, 0, "s", "d") == map[];
    run := Extended(run, Last(run).(controller := Bind(0, "d", free, map[])), Advance);
    run := Extended(run, Last(run).(controller := ReleaseStale(0, "d", map[]),
                                    devices := map["d" := Device("s", Claimed, Some(true), Some(0))]), Advance);
    run := Extended(run, Last(run).(controller := Idle, claims := map[0 := Claim("s", true, false, true, "d")]), Advance);
  }

  /** The device vanishes and the claim is deleted. */
  lemma VanishedRun() returns (run: seq<State>)
    ensures IsRun(run)
    ensures Last(run) == State(map["d" := Device("s", Unavailable, Some(false), Some(0))],
                               map[0 := Claim("s", true, true, true, "d")], {0}, Idle, map["d" := Silent])
  {
    run := BoundRun();
    var gone := Device("s", Unavailable, Some(false), Some(0));
    run := Extended(run, Last(run).(reporters := map["d" := Read(Vanished, Last(run).devices["d"])]), ReadDevice("d", Vanished));
    run := Extended(run, Last(run).(devices := map["d" := gone], reporters := map["d" := Silent]), PatchReport("d"));
    run := Extended(run, Last(run).(claims := map[0 := Claim("s", true, true, true, "d")]), DeleteClaim(0));
  }

  /** The device comes back between the controller's read and its release: it is stranded. */
  lemma StrandedRun() returns (run: seq<State>)
    ensures IsRun(run) && "d" in Last(run).devices && Stranded(Last(run).devices["d"])
  {
    run := VanishedRun();
    var gone := Last(run).devices["d"];
    var back := Device("s", Claimed, Some(true), Some(0));
    run := Extended(run, Last(run).(controller := GetMatched(0, "d")), StartReconcile(0));
    run := Extended(run, Last(run).(controller := ReleaseMatched(0, "d", gone)), Advance);
    run := Extended(run, Last(run).(reporters := map["d" := Read(Refresh, gone)]), ReadDevice("d", Refresh));
    run := Extended(run, Last(run).(devices := map["d" := back], reporters := map["d" := Silent]), PatchReport("d"));
    run := Extended(run, Last(run).(controller := ListOwned(0, "d"), devices := map["d" := back.(owner := None)]), Advance);
  }

  // ---------------------------------------------------------------- bound too early

  lemma AtomicallyExtended(run: seq<State>, steps: seq<Step>, s': State, step: Step) returns (run': seq<State>, steps': seq<Step>)
    requires IsTrace(run, steps) && AllAtomic(run, steps) && Next(Last(run), s', step) && Atomic(Last(run), step)
    ensures IsTrace(run', steps') && AllAtomic(run', steps') && Last(run') == s'
  {
    run', steps' := run + [s'], steps + [step];
    forall i | 0 <= i < |steps'|
      ensures Next(run'[i], run'[i + 1], steps'[i]) && Atomic(run'[i], steps'[i])
    {
      if i < |steps| {
        assert Next(run[i], run[i + 1], steps[i]) && Atomic(run[i], steps[i]);
      }
    }
  }

  /** A device has been created, and a claim is about to list devices. */
  lemma CreatedRun() returns (run: seq<State>, steps: seq<Step>)
    ensures IsTrace(run, steps) && AllAtomic(run, steps)
    ensures Last(run) == State(map["d" := Device("s", Unset, None, None)],
                               map[0 := Claim("s", true, false, false, "")], {0}, ListDevices(0), map["d" := Created])
  {
    run, steps := [State(map[], map[], {}, Idle, map[])], [];
    run, steps := AtomicallyExtended(run, steps, Last(run).(claims := map[0 := Claim("s", false, false, false, "")], used := {0}), CreateClaim(0, "s"));
    run, steps := AtomicallyExtended(run, steps, Last(run).(controller := AddFinalizer(0, Last(run).claims[0])), StartReconcile(0));
    run, steps := AtomicallyExtended(run, steps, Last(run).(controller := ListDevices(0), claims := map[0 := Claim("s", true, false, false, "")]), Advance);
    run, steps := AtomicallyExtended(run, steps, Last(run).(devices := map["d" := Device("s", Unset, None, None)], reporters := map["d" := Created]),
                                     CreateDevice("d", "s"));
  }

  /** The claim binds the device before its reporter initializes it. */
  lemma BoundEarlyRun() returns (run: seq<State>, steps: seq<Step>)
    ensures IsTrace(run, steps) && AllAtomic(run, steps)
    ensures Last(run) == State(map["d" := Device("s", Claimed, None, Some(0))], map[0 := Claim("s", true, false, false, "")], {0},
                               ReleaseStale(0, "d", map[]), map["d" := Created])
  {
    run, steps := CreatedRun();
    assert Eligible(Last(run), 0, "d");
    assert StaleDevices(Last(run).devices, 0, "s", "d") == map[];
    run, steps := AtomicallyExtended(run, steps, Last(run).(controller := Bind(0, "d", Device("s", Unset, None, None), map[])), Advance);
    run, steps := AtomicallyExtended(run, steps, Last(run).(controller := ReleaseStale(0, "d", map[]),
                                                            devices := map["d" := Device("s", Claimed, None, Some(0))]), Advance);
  }

  /** Each patch has followed its read directly, and the device ends up Available with an owner. */
  lemma EarlyBindingRun() returns (run: seq<State>, steps: seq<Step>)
    ensures IsTrace(run, steps) && AllAtomic(run, steps)
    ensures "d" in Last(run).devices && Last(run).devices["d"] == Device("s", Available, Some(true), Some(0))
  {
    run, steps := BoundEarlyRun();
    var bound := Last(run).devices["d"];
    run, steps := AtomicallyExtended(run, steps, Last(run).(reporters := map["d" := Read(Initialize, bound)]), ReadDevice("d", Initialize));
    run, steps := AtomicallyExtended(run, steps, Last(run).(devices := map["d" := Device("s", Available, Some(true), Some(0))],
                                                            reporters := map["d" := Silent]), PatchReport("d"));
  }

  // ---------------------------------------------------------------- an interrupted move

  /** The bound device vanishes and another one of the same serial number is discovered. */
  lemma ReplacedRun() returns (run: seq<State>)
    ensures IsRun(run)
    ensures Last(run) == State(map["d" := Device("s", Unavailable, Some(false), Some(0)), "e" := Device("s", Unset, None, None)],
                               map[0 := Claim("s", true, false, true, "d")], {0}, Idle, map["d" := Silent, "e" := Created])
  {
    run := BoundRun();
    var gone := Device("s", Unavailable, Some(false), Some(0));
    var blank := Device("s", Unset, None, None);
    run := Extended(run, Last(run).(reporters := map["d" := Read(Vanished, Last(run).devices["d"])]), ReadDevice("d", Vanished));
    run := Extended(run, Last(run).(devices := map["d" := gone], reporters := map["d" := Silent]), PatchReport("d"));
    run := Extended(run, Last(run).(devices := map["d" := gone, "e" := blank], reporters := map["d" := Silent, "e" := Created]), CreateDevice("e", "s"));
  }

  /** The claim is moved to it: bound there, with the old device still to be released. */
  lemma MovingRun() returns (run: seq<State>)
    ensures IsRun(run)
    ensures Last(run) == State(map["d" := Device("s", Unavailable, Some(false), Some(0)), "e" := Device("s", Claimed, None, Some(0))],
                               map[0 := Claim("s", true, false, true, "d")], {0},
                               ReleaseStale(0, "e", map["d" := Device("s", Unavailable, Some(false), Some(0))]),
                               map["d" := Silent, "e" := Created])
  {
    run := ReplacedRun();
    var gone, blank := Last(run).devices["d"], Last(run).devices["e"];
    run := Extended(run, Last(run).(controller := ListDevices(0)), StartReconcile(0));
    assert Eligible(Last(run), 0, "e");
    assert StaleDevices(Last(run).devices, 0, "s", "e") == map["d" := gone];
    run := Extended(run, Last(run).(controller := Bind(0, "e", blank, map["d" := gone])), Advance);
    run := Extended(run, Last(run).(controller := ReleaseStale(0, "e", map["d" := gone]),
                                    devices := map["d" := gone, "e" := Device("s", Claimed, None, Some(0))]), Advance);
  }

  /** Stopped after the release and before the status write, the controller finds at its next
      listing an active claim whose matched device has no owner: the legacy condition. */
  lemma InterruptedMoveLosesMatch() returns (run: seq<State>)
    ensures IsRun(run) && Last(run).controller == ListDevices(0) && 0 in Last(run).claims && !Last(run).claims[0].deleting
    ensures Last(run).claims[0].active && Last(run).claims[0].matched == "d" && !MatchKept(Last(run), 0)
    ensures "d" in Last(run).devices && Last(run).devices["d"].owner.None?
  {
    run := MovingRun();
    var gone := Last(run).devices["d"];
    var moved := Last(run).devices["e"];
    run := Extended(run, Last(run).(controller := ReleaseStale(0, "e", map["d" := gone] - {"d"}),
                                    devices := map["d" := gone.(owner := None), "e" := moved]), ReleaseOne("d"));
    run := Extended(run, Last(run).(controller := Idle), ControllerCrash);
    run := Extended(run, Last(run).(controller := ListDevices(0)), StartReconcile(0));
  }

  /** The old device is reported back before it is released. */
  lemma ReturnedRun() returns (run: seq<State>)
    ensures IsRun(run)
    ensures Last(run) == State(map["d" := Device("s", Claimed, Some(true), Some(0)), "e" := Device("s", Claimed, None, Some(0))],
                               map[0 := Claim("s", true, false, true, "d")], {0},
                               ReleaseStale(0, "e", map["d" := Device("s", Unavailable, Some(false), Some(0))]),
                               map["d" := Silent, "e" := Created])
  {
    run := MovingRun();
    var gone, moved := Last(run).devices["d"], Last(run).devices["e"];
    run := Extended(run, Last(run).(reporters := map["d" := Read(Refresh, gone), "e" := Created]), ReadDevice("d", Refresh));
    run := Extended(run, Last(run).(devices := map["d" := Device("s", Claimed, Some(true), Some(0)), "e" := moved],
                                    reporters := map["d" := Silent, "e" := Created]), PatchReport("d"));
  }

  /** The release strands it, and the controller stops. */
  lemma StrandedMoveRun() returns (run: seq<State>)
    ensures IsRun(run)
    ensures Last(run) == State(map["d" := Device("s", Claimed, Some(true), None), "e" := Device("s", Claimed, None, Some(0))],
                               map[0 := Claim("s", true, false, true, "d")], {0}, Idle, map["d" := Silent, "e" := Silent])
  {
    run := ReturnedRun();
    var stale := Last(run).controller.stale;
    run := Extended(run, Last(run).(controller := ReleaseStale(0, "e", stale - {"d"}),
                                    devices := map["d" := Device("s", Claimed, Some(true), None), "e" := Last(run).devices["e"]]), ReleaseOne("d"));
    run := Extended(run, Last(run).(controller := Idle), ControllerCrash);
    run := Extended(run, Last(run).(reporters := map["d" := Silent, "e" := Silent]), ReporterCrash("e"));
  }

  /** The new device vanishes.  At the next listing the claim may bind the old one, and only because
      of the branch for records without an owner reference. */
  lemma LegacyMatchCanDecide() returns (run: seq<State>)
    ensures IsRun(run) && Last(run).controller == ListDevices(0) && Eligible(Last(run), 0, "d")
    ensures LegacyDecides(0, Last(run).claims[0], "d", Last(run).devices["d"])
  {
    run := StrandedMoveRun();
    var stranded, moved := Last(run).devices["d"], Last(run).devices["e"];
    run := Extended(run, Last(run).(reporters := map["d" := Silent, "e" := Read(Vanished, moved)]), ReadDevice("e", Vanished));
    run := Extended(run, Last(run).(devices := map["d" := stranded, "e" := Device("s", Unavailable, Some(false), Some(0))],
                                    reporters := map["d" := Silent, "e" := Silent]), PatchReport("e"));
    run := Extended(run, Last(run).(controller := ListDevices(0)), StartReconcile(0));
    assert OnlyPresent(Last(run).devices, "s", "d");
  }
}
