/**
 Retiring a Folder while receives, disconnects and settings changes go on
 (src/desktop/clean_exit.rs, src/desktop/connection.rs, the marker checks in
 src/sync.rs and the config writers in src/desktop.rs).

 Processes and threads interleave at the granularity of one file operation, one
 lock operation or one request. Four locks order them: the registry lock, the
 operation lock of the Folder, the state lock, and the lock inside the directory that
 holds directory-synchronisation state. A thread may stop anywhere, by an error, a
 crash or a lost reply; its locks are then free and what it wrote stays.
 */
module CleanExit {
  import opened Wrappers
  import opened Model

  /** The configuration file: the connection state, and everything else. */
  datatype Config = Config(connection: ConnectionState, settings: nat)

  datatype Flags = Flags(requested: bool, serverCleaned: bool, senderCleaned: bool, receiverCleaned: bool)

  predicate Complete(f: Flags) {
    f.requested && f.serverCleaned && f.senderCleaned && f.receiverCleaned
  }

  /** Where a thread stands. `desktop` receives hold the operation lock; command-line ones do not. */
  datatype Pc =
    | Idle
    | ReceiveLoad
    | ReceiveWait(desktop: bool)
    | ReceiveCheck(desktop: bool)
    | Receiving(desktop: bool)
    | DirectoryOpen
    | DirectoryWait(desktop: bool)
    | DirectoryCheck(desktop: bool)
    | DirectoryReceiving(desktop: bool)
    | ExitLoad
    | ExitSave(seen: Config)
    | ExitRegistry(saved: Config)
    | ExitRequest(saved: Config)
    | ExitReload(saved: Config)
    | CleanWait(saved: Config)
    | CleanDirectoryWait(saved: Config)
    | CleanDirectoryMarker(saved: Config)
    | CleanMarker(saved: Config, locked: bool) // locked: the directory was there, and its lock is held
    | CleanDirectory(saved: Config, locked: bool)
    | CleanStateFile(saved: Config, locked: bool)
    | SaveCleaned(saved: Config)
    | SendReceipt(saved: Config)
    | AwaitReceipt(saved: Config)
    | SaveExited(saved: Config)
    | DisconnectLoad
    | DisconnectSave(seen: Config)
    | DisconnectRequest(saved: Config)
    | DisconnectReload(saved: Config)
    | DisconnectFinish(saved: Config)
    | UpdateLoad
    | UpdateSave(seen: Config)

  datatype Action =
    | Internal
    | SaveState | StoreObject | AckDelivery // what a receive does
    | SaveDirectory // what a directory receive does
    | SaveConfig(config: Config)
    | Retire // the marker becomes durable
    | AckExit // the acknowledgement of the exit leaves the device
    | Receipt(flags: Flags)

  /** Everything on disk, and whether a receipt with all four flags has been received. */
  datatype Shared = Shared(
    config: Config,
    marker: bool,
    stateFile: bool,
    directoryThere: bool, // the directory of directory-sync state exists; once it does it is never empty again
    directory: bool, // it holds something that is not a lock file or a marker
    directoryMarker: bool,
    receipted: bool)

  type Thread = nat

  datatype Sys = Sys(
    shared: Shared,
    registryLock: Option<Thread>,
    operationLock: Option<Thread>,
    stateLock: Option<Thread>,
    directoryLock: Option<Thread>,
    threads: seq<Pc>)

  predicate InExit(c: ConnectionState) {
    c.ExitPending? || c.ExitLocalCleaned? || c.Exited?
  }

  predicate LocallyClean(c: ConnectionState) {
    c.ExitLocalCleaned? || c.Exited?
  }

  /** The marker is durable, directory state is gone, and no directory receive can bring it back. */
  predicate Swept(d: Shared) {
    d.marker && !d.directory && (d.directoryThere ==> d.directoryMarker)
  }

  /** The marker is durable and the local state is gone. */
  predicate Cleaned(d: Shared) {
    Swept(d) && !d.stateFile
  }

  predicate Transfer(a: Action) {
    a.SaveState? || a.StoreObject? || a.AckDelivery?
  }

  // -------------------------------------------------------------------- steps

  predicate HoldsRegistry(pc: Pc) {
    || pc.ExitLoad? || pc.ExitSave? || pc.ExitRegistry? || pc.DisconnectLoad? || pc.DisconnectSave?
    || pc.DisconnectReload? || pc.DisconnectFinish? || pc.UpdateLoad? || pc.UpdateSave?
  }

  predicate HoldsOperation(pc: Pc) {
    || pc.ReceiveLoad? || ((pc.ReceiveWait? || pc.ReceiveCheck? || pc.Receiving?) && pc.desktop)
    || pc.DirectoryOpen? || ((pc.DirectoryWait? || pc.DirectoryCheck? || pc.DirectoryReceiving?) && pc.desktop)
    || pc.ExitReload? || pc.CleanWait? || pc.SaveCleaned? || pc.SendReceipt? || pc.AwaitReceipt? || pc.SaveExited?
    || pc.CleanDirectoryWait? || Sweeping(pc)
  }

  /** Inside the local cleanup, from the first marker on. */
  predicate Sweeping(pc: Pc) {
    pc.CleanDirectoryMarker? || pc.CleanMarker? || pc.CleanDirectory? || pc.CleanStateFile?
  }

  predicate HoldsState(pc: Pc) {
    pc.ReceiveCheck? || pc.Receiving? || pc.CleanDirectoryWait? || Sweeping(pc)
  }

  predicate HoldsDirectory(pc: Pc) {
    || pc.DirectoryCheck? || pc.DirectoryReceiving? || pc.CleanDirectoryMarker?
    || ((pc.CleanMarker? || pc.CleanDirectory? || pc.CleanStateFile?) && pc.locked)
  }

  /** A write took effect; the thread goes on, or it ends because the write was reported as failed. */
  predicate Wrote(pc': Pc, next: Pc) {
    pc' == next || pc' == Idle
  }

  predicate ReceiveMove(d: Shared, pc: Pc, a: Action, d': Shared, pc': Pc) {
    match pc
    case ReceiveLoad =>
      && a == Internal && d' == d && d.config.connection == Connected
      && (pc' == ReceiveWait(true) || pc' == DirectoryOpen) // by the kind of the Folder
    case ReceiveWait(desktop) => a == Internal && d' == d && pc' == ReceiveCheck(desktop)
    case ReceiveCheck(desktop) => a == Internal && d' == d && !d.marker && pc' == Receiving(desktop)
    case Receiving(_) => Transfer(a) && d' == d.(stateFile := d.stateFile || a == SaveState) && pc' == pc
    case DirectoryOpen => a == Internal && d' == d.(directoryThere := true) && pc' == DirectoryWait(true)
    case DirectoryWait(desktop) => a == Internal && d' == d && pc' == DirectoryCheck(desktop)
    case DirectoryCheck(desktop) => a == Internal && d' == d && !d.directoryMarker && pc' == DirectoryReceiving(desktop)
    case DirectoryReceiving(_) => a == SaveDirectory && d' == d.(directory := true) && pc' == pc
    case _ => false
  }

  /** `run` makes the exit durable and asks for it. */
  predicate RequestMove(d: Shared, pc: Pc, a: Action, d': Shared, pc': Pc) {
    match pc
    case ExitLoad =>
      && a == Internal && d' == d && d.config.connection != Disconnected
      && pc' == if LocallyClean(d.config.connection) then ExitRegistry(d.config) else ExitSave(d.config)
    case ExitSave(seen) =>
      var c := seen.(connection := ExitPending);
      a == SaveConfig(c) && d' == d.(config := c) && Wrote(pc', ExitRegistry(c))
    case ExitRegistry(saved) => a == Internal && d' == d && pc' == ExitRequest(saved)
    case ExitRequest(saved) => a == Internal && d' == d && pc' == ExitReload(saved)
    case ExitReload(saved) =>
      && a == Internal && d' == d && d.config == saved
      && pc' == if LocallyClean(saved.connection) then SendReceipt(saved) else CleanWait(saved)
    case _ => false
  }

  /** `clean_local`. */
  predicate CleanMove(d: Shared, pc: Pc, a: Action, d': Shared, pc': Pc) {
    match pc
    case CleanWait(saved) =>
      && a == Internal && d' == d
      && pc' == if d.directoryThere then CleanDirectoryWait(saved) else CleanMarker(saved, false)
    case CleanDirectoryWait(saved) => a == Internal && d' == d && pc' == CleanDirectoryMarker(saved)
    case CleanDirectoryMarker(saved) =>
      a == Internal && d' == d.(directoryMarker := true) && Wrote(pc', CleanMarker(saved, true))
    case CleanMarker(saved, locked) => a == Retire && d' == d.(marker := true) && Wrote(pc', CleanDirectory(saved, locked))
    case CleanDirectory(saved, locked) =>
      a == Internal && d' == d.(directory := false) && Wrote(pc', CleanStateFile(saved, locked))
    case CleanStateFile(saved, _) => a == Internal && d' == d.(stateFile := false) && Wrote(pc', SaveCleaned(saved))
    case _ => false
  }

  /** `run` records the cleanup, acknowledges it and awaits the receipt. */
  predicate ReceiptMove(d: Shared, pc: Pc, a: Action, d': Shared, pc': Pc) {
    match pc
    case SaveCleaned(saved) =>
      var c := saved.(connection := ExitLocalCleaned);
      a == SaveConfig(c) && d' == d.(config := c) && Wrote(pc', SendReceipt(c))
    case SendReceipt(saved) => a == AckExit && d' == d && pc' == AwaitReceipt(saved)
    case AwaitReceipt(saved) =>
      && a.Receipt? && a.flags.receiverCleaned
      && if Complete(a.flags) then d' == d.(receipted := true) && pc' == SaveExited(saved) else d' == d && pc' == Idle
    case SaveExited(saved) =>
      var c := saved.(connection := Exited);
      a == SaveConfig(c) && d' == d.(config := c) && pc' == Idle
    case _ => false
  }

  predicate ExitMove(d: Shared, pc: Pc, a: Action, d': Shared, pc': Pc) {
    RequestMove(d, pc, a, d', pc') || CleanMove(d, pc, a, d', pc') || ReceiptMove(d, pc, a, d', pc')
  }

  predicate OtherMove(d: Shared, pc: Pc, a: Action, d': Shared, pc': Pc) {
    match pc
    case DisconnectLoad =>
      && a == Internal && d' == d && !InExit(d.config.connection) && d.config.connection != Disconnected
      && pc' == DisconnectSave(d.config)
    case DisconnectSave(seen) =>
      var c := seen.(connection := DisconnectPending);
      a == SaveConfig(c) && d' == d.(config := c) && Wrote(pc', DisconnectRequest(c))
    case DisconnectRequest(saved) => a == Internal && d' == d && pc' == DisconnectReload(saved)
    case DisconnectReload(saved) => a == Internal && d' == d && d.config == saved && pc' == DisconnectFinish(saved)
    case DisconnectFinish(saved) =>
      var c := saved.(connection := Disconnected);
      a == SaveConfig(c) && d' == d.(config := c) && pc' == Idle
    case UpdateLoad => a == Internal && d' == d && d.config.connection == Connected && pc' == UpdateSave(d.config)
    case UpdateSave(seen) =>
      a.SaveConfig? && a.config.connection == seen.connection && d' == d.(config := a.config) && pc' == Idle
    case _ => false
  }

  /**
   A new thread. On the command line the configuration was loaded before, without any
   lock; a directory receive there is given an existing state directory and loads none.
   */
  predicate Begins(d: Shared, pc': Pc) {
    || pc' == ReceiveLoad || pc' == ExitLoad || pc' == DisconnectLoad || pc' == UpdateLoad
    || (pc' == ReceiveWait(false) && d.config.connection == Connected)
    || (pc' == DirectoryWait(false) && d.directoryThere)
  }

  predicate Moves(d: Shared, pc: Pc, a: Action, d': Shared, pc': Pc) {
    || (a == Internal && d' == d && if pc == Idle then Begins(d, pc') else pc' == Idle)
    || ReceiveMove(d, pc, a, d', pc') || ExitMove(d, pc, a, d', pc') || OtherMove(d, pc, a, d', pc')
  }

  /** A lock is taken when free, given back by its holder, and otherwise left alone. */
  predicate LockMove(before: Option<Thread>, after: Option<Thread>, t: Thread, had: bool, has: bool) {
    if has && !had then before == None && after == Some(t)
    else if had && !has then after == None
    else after == before
  }

  predicate Step(s: Sys, s': Sys, t: Thread, a: Action) {
    && t < |s.threads| == |s'.threads|
    && var (pc, pc') := (s.threads[t], s'.threads[t]);
    && s'.threads == s.threads[t := pc']
    && Moves(s.shared, pc, a, s'.shared, pc')
    && LockMove(s.registryLock, s'.registryLock, t, HoldsRegistry(pc), HoldsRegistry(pc'))
    && LockMove(s.operationLock, s'.operationLock, t, HoldsOperation(pc), HoldsOperation(pc'))
    && LockMove(s.stateLock, s'.stateLock, t, HoldsState(pc), HoldsState(pc'))
    && LockMove(s.directoryLock, s'.directoryLock, t, HoldsDirectory(pc), HoldsDirectory(pc'))
  }

  // ---------------------------------------------------------------- invariant

  /** What a thread knows about the disk where it stands, whatever the others do. */
  predicate Knows(d: Shared, pc: Pc) {
    match pc
    case Receiving(_) => !d.marker
    case DirectoryOpen => !d.marker
    case DirectoryWait(desktop) => d.directoryThere && (desktop ==> !d.marker)
    case DirectoryCheck(desktop) => d.directoryThere && (desktop ==> !d.marker)
    case DirectoryReceiving(desktop) => d.directoryThere && !d.directoryMarker && (desktop ==> !d.marker)
    case ExitSave(seen) => InExit(seen.connection) || d.config == seen
    case ExitRegistry(_) => InExit(d.config.connection)
    case ExitRequest(_) => InExit(d.config.connection)
    case ExitReload(_) => InExit(d.config.connection)
    case CleanWait(_) => InExit(d.config.connection)
    case CleanDirectoryWait(_) => InExit(d.config.connection)
    case CleanDirectoryMarker(_) => InExit(d.config.connection)
    case CleanMarker(_, locked) => InExit(d.config.connection) && Sealed(d, locked)
    case CleanDirectory(_, locked) => InExit(d.config.connection) && d.marker && Sealed(d, locked)
    case CleanStateFile(_, locked) => InExit(d.config.connection) && Swept(d)
    case SaveCleaned(_) => InExit(d.config.connection) && Cleaned(d)
    case SendReceipt(_) => InExit(d.config.connection) && Cleaned(d)
    case AwaitReceipt(_) => InExit(d.config.connection) && Cleaned(d)
    case SaveExited(_) => InExit(d.config.connection) && Cleaned(d) && d.receipted
    case DisconnectSave(seen) => d.config == seen && !InExit(seen.connection)
    case DisconnectRequest(saved) => saved.connection == DisconnectPending
    case DisconnectReload(saved) => saved.connection == DisconnectPending
    case DisconnectFinish(saved) => d.config == saved && saved.connection == DisconnectPending
    case UpdateSave(seen) => d.config == seen && !InExit(seen.connection)
    case _ => true
  }

  /** What the cleanup found out about the directory: it is closed, or it is not there. */
  predicate Sealed(d: Shared, locked: bool) {
    if locked then d.directoryMarker else !d.directoryThere
  }

  predicate ConfigOk(d: Shared) {
    && (d.marker ==> InExit(d.config.connection))
    && (LocallyClean(d.config.connection) ==> Cleaned(d))
    && (d.config.connection == Exited ==> d.receipted)
  }

  /** All that a step from `pc` can do to what the others know. */
  predicate Effect(d: Shared, pc: Pc, d': Shared) {
    && (d.marker ==> d'.marker) && (d'.marker && !d.marker ==> HoldsState(pc) && HoldsOperation(pc))
    && (d.directoryThere ==> d'.directoryThere) && (d'.directoryThere && !d.directoryThere ==> HoldsOperation(pc))
    && (d.directoryMarker ==> d'.directoryMarker) && (d'.directoryMarker && !d.directoryMarker ==> HoldsDirectory(pc))
    && (Swept(d) ==> Swept(d')) && (Cleaned(d) ==> Cleaned(d')) && (d.receipted ==> d'.receipted)
    && (InExit(d.config.connection) ==> InExit(d'.config.connection))
    && (d'.config != d.config && !InExit(d.config.connection) ==> HoldsRegistry(pc))
  }

  lemma ReceiveMoveOk(d: Shared, pc: Pc, a: Action, d': Shared, pc': Pc)
    requires ConfigOk(d) && Knows(d, pc) && ReceiveMove(d, pc, a, d', pc')
    ensures ConfigOk(d') && Knows(d', pc') && Effect(d, pc, d')
  {
  }

  lemma RequestMoveOk(d: Shared, pc: Pc, a: Action, d': Shared, pc': Pc)
    requires ConfigOk(d) && Knows(d, pc) && RequestMove(d, pc, a, d', pc')
    ensures ConfigOk(d') && Knows(d', pc') && Effect(d, pc, d')
  {
  }

  lemma CleanMoveOk(d: Shared, pc: Pc, a: Action, d': Shared, pc': Pc)
    requires ConfigOk(d) && Knows(d, pc) && CleanMove(d, pc, a, d', pc')
    ensures ConfigOk(d') && Knows(d', pc') && Effect(d, pc, d')
  {
  }

  lemma ReceiptMoveOk(d: Shared, pc: Pc, a: Action, d': Shared, pc': Pc)
    requires ConfigOk(d) && Knows(d, pc) && ReceiptMove(d, pc, a, d', pc')
    ensures ConfigOk(d') && Knows(d', pc') && Effect(d, pc, d')
  {
  }

  lemma ExitMoveOk(d: Shared, pc: Pc, a: Action, d': Shared, pc': Pc)
    requires ConfigOk(d) && Knows(d, pc) && ExitMove(d, pc, a, d', pc')
    ensures ConfigOk(d') && Knows(d', pc') && Effect(d, pc, d')
  {
    hide RequestMove, CleanMove, ReceiptMove, ConfigOk, Knows, Effect;
    if RequestMove(d, pc, a, d', pc') {
      RequestMoveOk(d, pc, a, d', pc');
    } else if CleanMove(d, pc, a, d', pc') {
      CleanMoveOk(d, pc, a, d', pc');
    } else {
      ReceiptMoveOk(d, pc, a, d', pc');
    }
  }

  lemma OtherMoveOk(d: Shared, pc: Pc, a: Action, d': Shared, pc': Pc)
    requires ConfigOk(d) && Knows(d, pc) && OtherMove(d, pc, a, d', pc')
    ensures ConfigOk(d') && Knows(d', pc') && Effect(d, pc, d')
  {
  }

  /** The acting thread: what it knows where it arrives, and what it does to the others. */
  lemma MoveOk(d: Shared, pc: Pc, a: Action, d': Shared, pc': Pc)
    requires ConfigOk(d) && Knows(d, pc) && Moves(d, pc, a, d', pc')
    ensures ConfigOk(d') && Knows(d', pc') && Effect(d, pc, d')
  {
    hide ReceiveMove, ExitMove, OtherMove;
    if ReceiveMove(d, pc, a, d', pc') {
      ReceiveMoveOk(d, pc, a, d', pc');
    } else if ExitMove(d, pc, a, d', pc') {
      ExitMoveOk(d, pc, a, d', pc');
    } else if OtherMove(d, pc, a, d', pc') {
      OtherMoveOk(d, pc, a, d', pc');
    }
  }

  /** A bystander that is in no conflict over a lock keeps what it knows. */
  lemma Unaffected(d: Shared, pc: Pc, d': Shared, other: Pc)
    requires Effect(d, pc, d') && Knows(d, other)
    requires !(HoldsRegistry(pc) && HoldsRegistry(other)) && !(HoldsOperation(pc) && HoldsOperation(other))
    requires !(HoldsState(pc) && HoldsState(other)) && !(HoldsDirectory(pc) && HoldsDirectory(other))
    ensures Knows(d', other)
  {
  }

  predicate ThreadOk(s: Sys, t: Thread)
    requires t < |s.threads|
  {
    var pc := s.threads[t];
    && Knows(s.shared, pc)
    && (HoldsRegistry(pc) ==> s.registryLock == Some(t))
    && (HoldsOperation(pc) ==> s.operationLock == Some(t))
    && (HoldsState(pc) ==> s.stateLock == Some(t))
    && (HoldsDirectory(pc) ==> s.directoryLock == Some(t))
  }

  predicate Inv(s: Sys) {
    ConfigOk(s.shared) && forall t | 0 <= t < |s.threads| :: ThreadOk(s, t)
  }

  /** Every step of every thread keeps what all threads know. */
  lemma InvStep(s: Sys, s': Sys, t: Thread, a: Action)
    requires Inv(s) && Step(s, s', t, a)
    ensures Inv(s') && Effect(s.shared, s.threads[t], s'.shared)
  {
    hide Moves, Knows, HoldsRegistry, HoldsOperation, HoldsState, HoldsDirectory, Effect, ConfigOk;
    assert ThreadOk(s, t);
    MoveOk(s.shared, s.threads[t], a, s'.shared, s'.threads[t]);
    forall u | 0 <= u < |s'.threads| ensures ThreadOk(s', u) {
      if u != t {
        assert ThreadOk(s, u);
        Unaffected(s.shared, s.threads[t], s'.shared, s.threads[u]);
      }
    }
  }

  // ------------------------------------------------------------------ all runs

  /** A Folder before any exit: nothing runs, and it has not been retired. */
  predicate Init(s: Sys) {
    && (forall t | 0 <= t < |s.threads| :: s.threads[t] == Idle)
    && s.registryLock == None && s.operationLock == None && s.stateLock == None && s.directoryLock == None
    && !s.shared.marker && !s.shared.receipted && !InExit(s.shared.config.connection)
    && (s.shared.directory ==> s.shared.directoryThere) && !s.shared.directoryMarker
  }

  /** `who[i]` performs `acts[i]` between two states; what came before the run is an ordinary Folder. */
  predicate IsRun(states: seq<Sys>, who: seq<Thread>, acts: seq<Action>) {
    && |states| == |acts| + 1 && |who| == |acts| && Init(states[0])
    && forall i | 0 <= i < |acts| :: Step(states[i], states[i + 1], who[i], acts[i])
  }

  lemma {:induction false} RunInv(states: seq<Sys>, who: seq<Thread>, acts: seq<Action>, n: nat)
    requires IsRun(states, who, acts) && n <= |acts|
    ensures Inv(states[n])
  {
    hide Step;
    if n > 0 {
      RunInv(states, who, acts, n - 1);
      InvStep(states[n - 1], states[n], who[n - 1], acts[n - 1]);
    }
  }

  lemma {:induction false} RunKeeps(states: seq<Sys>, who: seq<Thread>, acts: seq<Action>, i: nat, j: nat)
    requires IsRun(states, who, acts) && i <= j <= |acts|
    ensures states[i].shared.marker ==> states[j].shared.marker
    ensures states[i].shared.directoryMarker ==> states[j].shared.directoryMarker
    ensures Cleaned(states[i].shared) ==> Cleaned(states[j].shared)
    ensures InExit(states[i].shared.config.connection) ==> InExit(states[j].shared.config.connection)
    decreases j
  {
    hide Step, InExit, Cleaned;
    if i < j {
      RunKeeps(states, who, acts, i, j - 1);
      RunInv(states, who, acts, j - 1);
      InvStep(states[j - 1], states[j], who[j - 1], acts[j - 1]);
    }
  }

  /**
   Retirement is final. Once the marker is durable, no receive or retry saves state,
   stores an object or acknowledges, however stale the configuration it holds.
   */
  lemma RetirementIsFinal(states: seq<Sys>, who: seq<Thread>, acts: seq<Action>, i: nat, j: nat)
    requires IsRun(states, who, acts) && i <= j < |acts| && states[i].shared.marker
    ensures acts[j] != SaveState && acts[j] != StoreObject && acts[j] != AckDelivery
  {
    RunKeeps(states, who, acts, i, j);
    RunInv(states, who, acts, j);
    assert Step(states[j], states[j + 1], who[j], acts[j]) && ThreadOk(states[j], who[j]);
  }

  /** The same for directory receives and the marker in the directory. */
  lemma DirectoryRetirementIsFinal(states: seq<Sys>, who: seq<Thread>, acts: seq<Action>, i: nat, j: nat)
    requires IsRun(states, who, acts) && i <= j < |acts| && states[i].shared.directoryMarker
    ensures acts[j] != SaveDirectory
  {
    RunKeeps(states, who, acts, i, j);
    RunInv(states, who, acts, j);
    assert Step(states[j], states[j + 1], who[j], acts[j]) && ThreadOk(states[j], who[j]);
  }

  /** Cleanup and receipt exclude each other: a receive in progress ends before cleanup starts, and the reverse. */
  lemma CleanupDrainsReceives(states: seq<Sys>, who: seq<Thread>, acts: seq<Action>, n: nat, t: Thread, u: Thread)
    requires IsRun(states, who, acts) && n <= |acts| && t < |states[n].threads| && u < |states[n].threads|
    requires states[n].threads[t].Receiving?
    ensures !Sweeping(states[n].threads[u])
    ensures states[n].threads[u].Receiving? ==> t == u
  {
    RunInv(states, who, acts, n);
    assert ThreadOk(states[n], t) && ThreadOk(states[n], u);
  }

  /** The relay hears that the exit is done only after the marker is durable and the local state is gone for good. */
  lemma ExitAcknowledgedTruthfully(states: seq<Sys>, who: seq<Thread>, acts: seq<Action>, n: nat)
    requires IsRun(states, who, acts) && n < |acts| && acts[n] == AckExit
    ensures forall m | n <= m <= |acts| ::
              states[m].shared.marker && !states[m].shared.stateFile && !states[m].shared.directory
  {
    RunInv(states, who, acts, n);
    assert Step(states[n], states[n + 1], who[n], acts[n]) && ThreadOk(states[n], who[n]);
    forall m | n <= m <= |acts| ensures Cleaned(states[m].shared) {
      RunKeeps(states, who, acts, n, m);
    }
  }

  lemma {:induction false} ReceiptedWasReceived(states: seq<Sys>, who: seq<Thread>, acts: seq<Action>, n: nat)
    requires IsRun(states, who, acts) && n <= |acts| && states[n].shared.receipted
    ensures exists i :: 0 <= i < n && acts[i] == Receipt(Flags(true, true, true, true))
  {
    hide Moves, LockMove;
    if n > 0 && !states[n - 1].shared.receipted {
      assert Step(states[n - 1], states[n], who[n - 1], acts[n - 1]);
      ReceiptNeeded(states[n - 1].shared, states[n - 1].threads[who[n - 1]], acts[n - 1], states[n].shared,
                    states[n].threads[who[n - 1]]);
      assert acts[n - 1] == Receipt(Flags(true, true, true, true));
    } else if n > 0 {
      ReceiptedWasReceived(states, who, acts, n - 1);
    }
  }

  lemma ReceiptNeeded(d: Shared, pc: Pc, a: Action, d': Shared, pc': Pc)
    requires Moves(d, pc, a, d', pc') && d'.receipted && !d.receipted
    ensures a == Receipt(Flags(true, true, true, true))
  {
    hide ReceiveMove, RequestMove, CleanMove, OtherMove;
    if ReceiveMove(d, pc, a, d', pc') || RequestMove(d, pc, a, d', pc') {
      NoReceiptEarlier(d, pc, a, d', pc');
    } else if CleanMove(d, pc, a, d', pc') {
      CleaningKeepsConfig(d, pc, a, d', pc');
    } else if OtherMove(d, pc, a, d', pc') {
      NoReceiptElsewhere(d, pc, a, d', pc');
    }
  }

  lemma NoReceiptEarlier(d: Shared, pc: Pc, a: Action, d': Shared, pc': Pc)
    requires ReceiveMove(d, pc, a, d', pc') || RequestMove(d, pc, a, d', pc')
    ensures d'.receipted == d.receipted
  {
  }

  lemma NoReceiptElsewhere(d: Shared, pc: Pc, a: Action, d': Shared, pc': Pc)
    requires OtherMove(d, pc, a, d', pc')
    ensures d'.receipted == d.receipted
  {
  }

  /** Exited is written only after a receipt in which the relay, both devices and the request are confirmed. */
  lemma ExitedNeedsFullReceipt(states: seq<Sys>, who: seq<Thread>, acts: seq<Action>, n: nat)
    requires IsRun(states, who, acts) && n < |acts| && acts[n].SaveConfig? && acts[n].config.connection == Exited
    ensures exists i :: 0 <= i < n && acts[i] == Receipt(Flags(true, true, true, true))
  {
    RunInv(states, who, acts, n);
    assert Step(states[n], states[n + 1], who[n], acts[n]) && ThreadOk(states[n], who[n]);
    ReceiptedWasReceived(states, who, acts, n);
  }

  /** Once an exit state is durable, no disconnect and no settings change leaves the exit states. */
  lemma ExitStatesAreClosed(states: seq<Sys>, who: seq<Thread>, acts: seq<Action>, i: nat, j: nat)
    requires IsRun(states, who, acts) && i <= j <= |acts|
    requires var c := states[i].shared.config.connection; c == ExitPending || c == ExitLocalCleaned || c == Exited
    ensures var c := states[j].shared.config.connection; c == ExitPending || c == ExitLocalCleaned || c == Exited
  {
    RunKeeps(states, who, acts, i, j);
  }

  /**
   A Folder becomes Disconnected only from DisconnectPending, by a thread that finishes a
   disconnect, and nothing else in its configuration changes.
   */
  lemma DisconnectPassesPending(states: seq<Sys>, who: seq<Thread>, acts: seq<Action>, n: nat)
    requires IsRun(states, who, acts) && n < |acts|
    requires states[n + 1].shared.config.connection == Disconnected && states[n].shared.config.connection != Disconnected
    ensures states[n].shared.config.connection == DisconnectPending
    ensures states[n + 1].shared.config == states[n].shared.config.(connection := Disconnected)
    ensures acts[n] == SaveConfig(states[n + 1].shared.config) && states[n].threads[who[n]].DisconnectFinish?
  {
    RunInv(states, who, acts, n);
    assert Step(states[n], states[n + 1], who[n], acts[n]) && ThreadOk(states[n], who[n]);
    var (s, s') := (states[n], states[n + 1]);
    BecomesDisconnected(s.shared, s.threads[who[n]], acts[n], s'.shared, s'.threads[who[n]]);
  }

  lemma BecomesDisconnected(d: Shared, pc: Pc, a: Action, d': Shared, pc': Pc)
    requires Knows(d, pc) && Moves(d, pc, a, d', pc')
    requires d'.config.connection == Disconnected && d.config.connection != Disconnected
    ensures d.config.connection == DisconnectPending && pc.DisconnectFinish?
    ensures d'.config == d.config.(connection := Disconnected) && a == SaveConfig(d'.config)
  {
    hide ReceiveMove, RequestMove, CleanMove, ReceiptMove, OtherMove;
    if ReceiveMove(d, pc, a, d', pc') {
      ReceivingKeepsConfig(d, pc, a, d', pc');
    } else if RequestMove(d, pc, a, d', pc') || ReceiptMove(d, pc, a, d', pc') {
      ExitingNeverDisconnects(d, pc, a, d', pc');
    } else if CleanMove(d, pc, a, d', pc') {
      CleaningKeepsConfig(d, pc, a, d', pc');
    } else {
      OnlyFinishing(d, pc, a, d', pc');
    }
  }

  lemma ReceivingKeepsConfig(d: Shared, pc: Pc, a: Action, d': Shared, pc': Pc)
    requires ReceiveMove(d, pc, a, d', pc')
    ensures d'.config == d.config
  {
  }

  lemma ExitingNeverDisconnects(d: Shared, pc: Pc, a: Action, d': Shared, pc': Pc)
    requires RequestMove(d, pc, a, d', pc') || ReceiptMove(d, pc, a, d', pc')
    ensures d'.config.connection == Disconnected ==> d'.config == d.config
  {
  }

  lemma OnlyFinishing(d: Shared, pc: Pc, a: Action, d': Shared, pc': Pc)
    requires Knows(d, pc) && d'.config.connection == Disconnected && d.config.connection != Disconnected
    requires OtherMove(d, pc, a, d', pc') || d' == d
    ensures d.config.connection == DisconnectPending && pc.DisconnectFinish?
    ensures d'.config == d.config.(connection := Disconnected) && a == SaveConfig(d'.config)
  {
  }

  /** An undisturbed disconnect ends in Disconnected. */
  lemma DisconnectCompletes(d: Shared)
    requires d.config.connection == Connected || d.config.connection == DisconnectPending
    ensures var p := d.config.(connection := DisconnectPending);
            var d1, d2 := d.(config := p), d.(config := p.(connection := Disconnected));
            && OtherMove(d, DisconnectLoad, Internal, d, DisconnectSave(d.config))
            && OtherMove(d, DisconnectSave(d.config), SaveConfig(p), d1, DisconnectRequest(p))
            && OtherMove(d1, DisconnectRequest(p), Internal, d1, DisconnectReload(p))
            && OtherMove(d1, DisconnectReload(p), Internal, d1, DisconnectFinish(p))
            && OtherMove(d1, DisconnectFinish(p), SaveConfig(p.(connection := Disconnected)), d2, Idle)
  {
  }

  // --------------------------------------------------- inside the exit states

  /** The one step that takes a finished cleanup back to pending is the first save of another `run`. */
  lemma OnlySaveRegresses(s: Sys, s': Sys, t: Thread, a: Action)
    requires Inv(s) && Step(s, s', t, a) && LocallyClean(s.shared.config.connection)
    ensures !LocallyClean(s'.shared.config.connection) <==> s.threads[t].ExitSave? && a.SaveConfig?
  {
    assert ThreadOk(s, t);
    var (d, d') := (s.shared, s'.shared);
    var (pc, pc') := (s.threads[t], s'.threads[t]);
    hide ReceiveMove, ExitMove, OtherMove, Knows, LocallyClean, ThreadOk, LockMove;
    if ReceiveMove(d, pc, a, d', pc') || OtherMove(d, pc, a, d', pc') {
      OthersDoNotRegress(d, pc, a, d', pc');
    } else if ExitMove(d, pc, a, d', pc') {
      OnlySaveMoves(d, pc, a, d', pc');
    }
  }

  lemma OthersDoNotRegress(d: Shared, pc: Pc, a: Action, d': Shared, pc': Pc)
    requires Knows(d, pc) && (ReceiveMove(d, pc, a, d', pc') || OtherMove(d, pc, a, d', pc'))
    requires LocallyClean(d.config.connection)
    ensures LocallyClean(d'.config.connection) && !pc.ExitSave?
  {
  }

  lemma OnlySaveMoves(d: Shared, pc: Pc, a: Action, d': Shared, pc': Pc)
    requires Knows(d, pc) && ExitMove(d, pc, a, d', pc') && LocallyClean(d.config.connection)
    ensures !LocallyClean(d'.config.connection) <==> pc.ExitSave? && a.SaveConfig?
  {
    hide RequestMove, CleanMove, ReceiptMove, LocallyClean, Knows;
    if RequestMove(d, pc, a, d', pc') {
      OnlySaveRequests(d, pc, a, d', pc');
    } else if CleanMove(d, pc, a, d', pc') {
      CleaningKeepsConfig(d, pc, a, d', pc');
    } else {
      ReceiptsAreClean(d, pc, a, d', pc');
    }
  }

  lemma OnlySaveRequests(d: Shared, pc: Pc, a: Action, d': Shared, pc': Pc)
    requires RequestMove(d, pc, a, d', pc') && LocallyClean(d.config.connection)
    ensures !LocallyClean(d'.config.connection) <==> pc.ExitSave? && a.SaveConfig?
  {
  }

  lemma ReceiptsAreClean(d: Shared, pc: Pc, a: Action, d': Shared, pc': Pc)
    requires ReceiptMove(d, pc, a, d', pc') && LocallyClean(d.config.connection)
    ensures LocallyClean(d'.config.connection) && !pc.ExitSave?
  {
  }

  lemma CleaningKeepsConfig(d: Shared, pc: Pc, a: Action, d': Shared, pc': Pc)
    requires CleanMove(d, pc, a, d', pc')
    ensures d'.config == d.config && d'.receipted == d.receipted && !a.SaveConfig? && !pc.ExitSave?
  {
  }

  /** Some `k` steps lead from one state to another. */
  ghost predicate Leads(s: Sys, s': Sys, k: nat)
    decreases k
  {
    if k == 0 then s == s'
    else exists t, a, s1 :: Step(s, s1, t, a) && Leads(s1, s', k - 1)
  }

  lemma FirstStep(s: Sys, s': Sys, k: nat) returns (t: Thread, a: Action, s1: Sys)
    requires Leads(s, s', k) && k > 0
    ensures Step(s, s1, t, a) && Leads(s1, s', k - 1)
  {
    hide Step;
    t, a, s1 :| Step(s, s1, t, a) && Leads(s1, s', k - 1);
  }

  lemma NoSteps(s: Sys, s': Sys)
    ensures Leads(s, s', 0) <==> s == s'
  {
  }

  ghost predicate CanRegress(s: Sys) {
    exists s', k :: Leads(s, s', k) && !LocallyClean(s'.shared.config.connection)
  }

  predicate AtExitSave(s: Sys, t: Thread) {
    t < |s.threads| && s.threads[t].ExitSave?
  }

  /** No other `run` stands before its first save, having read the configuration too early. */
  predicate NoneAtExitSave(s: Sys) {
    forall t | 0 <= t < |s.threads| :: !AtExitSave(s, t)
  }

  lemma EntersExitSave(d: Shared, pc: Pc, a: Action, d': Shared, pc': Pc)
    requires Moves(d, pc, a, d', pc') && pc'.ExitSave?
    ensures pc.ExitLoad? && !LocallyClean(d.config.connection)
  {
    NotByReceiving(d, pc, a, d', pc');
    NotOtherwise(d, pc, a, d', pc');
    if ExitMove(d, pc, a, d', pc') {
      ByLoading(d, pc, a, d', pc');
    }
    hide ReceiveMove, ExitMove, OtherMove, LocallyClean;
  }

  lemma NotByReceiving(d: Shared, pc: Pc, a: Action, d': Shared, pc': Pc)
    ensures pc'.ExitSave? ==> !ReceiveMove(d, pc, a, d', pc')
  {
  }

  lemma NotOtherwise(d: Shared, pc: Pc, a: Action, d': Shared, pc': Pc)
    ensures pc'.ExitSave? ==> !OtherMove(d, pc, a, d', pc')
  {
  }

  lemma ByLoading(d: Shared, pc: Pc, a: Action, d': Shared, pc': Pc)
    requires ExitMove(d, pc, a, d', pc') && pc'.ExitSave?
    ensures pc.ExitLoad? && !LocallyClean(d.config.connection)
  {
    NotByCleaning(d, pc, a, d', pc');
    hide CleanMove, ReceiptMove;
  }

  lemma NotByCleaning(d: Shared, pc: Pc, a: Action, d': Shared, pc': Pc)
    ensures pc'.ExitSave? ==> !CleanMove(d, pc, a, d', pc') && !ReceiptMove(d, pc, a, d', pc')
  {
  }

  lemma StaysClean(s: Sys, s': Sys, t: Thread, a: Action)
    requires Inv(s) && Step(s, s', t, a) && LocallyClean(s.shared.config.connection) && NoneAtExitSave(s)
    ensures LocallyClean(s'.shared.config.connection) && NoneAtExitSave(s')
  {
    OnlySaveRegresses(s, s', t, a);
    assert !AtExitSave(s, t);
    if s'.threads[t].ExitSave? {
      EntersExitSave(s.shared, s.threads[t], a, s'.shared, s'.threads[t]);
    }
    hide Moves, LocallyClean, Inv;
    forall u | 0 <= u < |s'.threads| ensures !AtExitSave(s', u) {
      assert !AtExitSave(s, u);
    }
  }

  lemma {:induction false} NeverRegresses(s: Sys, s': Sys, k: nat)
    requires Inv(s) && LocallyClean(s.shared.config.connection) && NoneAtExitSave(s) && Leads(s, s', k)
    ensures LocallyClean(s'.shared.config.connection)
    decreases k
  {
    hide Step, Inv, NoneAtExitSave, LocallyClean, Effect, Leads;
    if k == 0 {
      NoSteps(s, s');
    } else {
      var t, a, s1 := FirstStep(s, s', k);
      StaysClean(s, s1, t, a);
      InvStep(s, s1, t, a);
      NeverRegresses(s1, s', k - 1);
    }
  }

  /** The save of the thread that stands there. */
  function AfterExitSave(s: Sys, t: Thread): Sys
    requires AtExitSave(s, t)
  {
    s.(shared := s.shared.(config := s.threads[t].seen.(connection := ExitPending)), registryLock := None,
       threads := s.threads[t := Idle])
  }

  lemma ExitSaveRegresses(s: Sys, t: Thread)
    requires AtExitSave(s, t)
    ensures CanRegress(s)
  {
    var s' := AfterExitSave(s, t);
    assert Step(s, s', t, SaveConfig(s'.shared.config));
    assert Leads(s', s', 0);
    assert Leads(s, s', 1);
  }

  /**
   Inside the exit states the order is not kept. A recorded cleanup can ever be taken
   back to pending exactly when some other `run` has read the configuration and stands
   before its first save.
   */
  lemma CleanStateRegresses(s: Sys)
    requires Inv(s) && LocallyClean(s.shared.config.connection)
    ensures CanRegress(s) <==> exists t :: AtExitSave(s, t)
  {
    hide Inv, LocallyClean, Leads;
    if t :| AtExitSave(s, t) {
      ExitSaveRegresses(s, t);
    }
    if CanRegress(s) && NoneAtExitSave(s) {
      var s', k :| Leads(s, s', k) && !LocallyClean(s'.shared.config.connection);
      NeverRegresses(s, s', k);
    }
  }

  /** Some run leads here. */
  ghost predicate Reached(s: Sys) {
    exists states, who, acts :: IsRun(states, who, acts) && states[|acts|] == s
  }

  lemma ReachedInit(s: Sys)
    requires Init(s)
    ensures Reached(s)
  {
    assert IsRun([s], [], []);
  }

  /** Whatever is reached satisfies the invariant, so the theorem above is about every reachable state. */
  lemma ReachedIsInv(s: Sys)
    requires Reached(s)
    ensures Inv(s)
  {
    hide Inv;
    var states, who, acts :| IsRun(states, who, acts) && states[|acts|] == s;
    RunInv(states, who, acts, |acts|);
  }

  lemma ReachedStep(s: Sys, s': Sys, t: Thread, a: Action)
    requires Reached(s) && Step(s, s', t, a)
    ensures Reached(s')
  {
    hide Step, Init;
    var states, who, acts :| IsRun(states, who, acts) && states[|acts|] == s;
    var more := states + [s'];
    assert IsRun(more, who + [t], acts + [a]) by {
      forall i | 0 <= i < |acts| + 1 ensures Step(more[i], more[i + 1], (who + [t])[i], (acts + [a])[i]) {
        if i < |acts| {
          assert Step(states[i], states[i + 1], who[i], acts[i]);
        }
      }
    }
    assert more[|acts| + 1] == s';
  }

  /** Two threads, the second of which may hold the registry lock. */
  function Pair(d: Shared, p: Pc, q: Pc): Sys {
    Sys(d,
        if HoldsRegistry(p) then Some(0) else if HoldsRegistry(q) then Some(1) else None,
        if HoldsOperation(p) then Some(0) else None,
        if HoldsState(p) then Some(0) else None,
        if HoldsDirectory(p) then Some(0) else None,
        [p, q])
  }

  /** A move of the exit by the first thread. */
  lemma FirstMoves(d: Shared, p: Pc, q: Pc, a: Action, d': Shared, p': Pc)
    requires Reached(Pair(d, p, q))
    requires if p == Idle then a == Internal && d' == d && p' == ExitLoad else ExitMove(d, p, a, d', p')
    requires (HoldsRegistry(p) || HoldsRegistry(p')) ==> !HoldsRegistry(q)
    ensures Reached(Pair(d', p', q))
  {
    hide ReceiveMove, ExitMove, OtherMove, HoldsRegistry, HoldsOperation, HoldsState, HoldsDirectory, Reached;
    var s, s' := Pair(d, p, q), Pair(d', p', q);
    assert s'.threads == s.threads[0 := p'];
    assert Step(s, s', 0, a);
    ReachedStep(s, s', 0, a);
  }

  lemma SecondMoves(d: Shared, p: Pc, q: Pc, q': Pc)
    requires Reached(Pair(d, p, q))
    requires if q == Idle then q' == ExitLoad else ExitMove(d, q, Internal, d, q')
    requires !HoldsRegistry(p) && !HoldsOperation(q) && !HoldsOperation(q') && !HoldsState(q) && !HoldsState(q')
    requires !HoldsDirectory(q) && !HoldsDirectory(q')
    ensures Reached(Pair(d, p, q'))
  {
    hide ReceiveMove, ExitMove, OtherMove, HoldsRegistry, HoldsOperation, HoldsState, HoldsDirectory, Reached;
    var s, s' := Pair(d, p, q), Pair(d, p, q');
    assert s'.threads == s.threads[1 := q'];
    assert Step(s, s', 1, Internal);
    ReachedStep(s, s', 1, Internal);
  }

  /** The disk of a Folder in use, without directory state. */
  function InUse(c: Config): Shared {
    Shared(c, false, true, false, false, false, false)
  }

  lemma PairFacts(d: Shared, p: Pc, q: Pc)
    ensures Pair(d, p, q).shared == d && Pair(d, p, q).threads == [p, q]
    ensures HoldsRegistry(q) && !HoldsRegistry(p) ==> Pair(d, p, q).registryLock == Some(1)
  {
  }

  lemma InUseReached(c: Config)
    requires c.connection == Connected
    ensures Reached(Pair(InUse(c), Idle, Idle))
  {
    ReachedInit(Pair(InUse(c), Idle, Idle));
  }

  /** The disk of such a Folder once the local cleanup is recorded. */
  function CleanedUp(c: Config): Shared {
    Shared(c.(connection := ExitLocalCleaned), true, false, false, false, false, false)
  }

  lemma RunMakesExitDurable(c: Config)
    requires c.connection == Connected
    ensures var p := c.(connection := ExitPending); Reached(Pair(InUse(p), ExitRegistry(p), Idle))
  {
    hide Reached, Pair;
    var p := c.(connection := ExitPending);
    var d := InUse(c);
    InUseReached(c);
    FirstMoves(d, Idle, Idle, Internal, d, ExitLoad);
    FirstMoves(d, ExitLoad, Idle, Internal, d, ExitSave(c));
    FirstMoves(d, ExitSave(c), Idle, SaveConfig(p), InUse(p), ExitRegistry(p));
  }

  /** While it asks the relay, another run reads the configuration. */
  lemma SecondRunBegins(p: Config)
    requires Reached(Pair(InUse(p), ExitRegistry(p), Idle)) && p.connection == ExitPending
    ensures Reached(Pair(InUse(p), ExitRequest(p), ExitSave(p)))
  {
    hide Reached, Pair;
    var d := InUse(p);
    FirstMoves(d, ExitRegistry(p), Idle, Internal, d, ExitRequest(p));
    SecondMoves(d, ExitRequest(p), Idle, ExitLoad);
    SecondMoves(d, ExitRequest(p), ExitLoad, ExitSave(p));
  }

  lemma FirstRunRetires(p: Config, q: Pc)
    requires Reached(Pair(InUse(p), ExitRequest(p), q)) && q == ExitSave(p) && p.connection == ExitPending
    ensures Reached(Pair(InUse(p).(marker := true), CleanDirectory(p, false), q))
  {
    hide Reached, Pair;
    var d := InUse(p);
    FirstMoves(d, ExitRequest(p), q, Internal, d, ExitReload(p));
    FirstMoves(d, ExitReload(p), q, Internal, d, CleanWait(p));
    FirstMoves(d, CleanWait(p), q, Internal, d, CleanMarker(p, false));
    FirstMoves(d, CleanMarker(p, false), q, Retire, d.(marker := true), CleanDirectory(p, false));
  }

  lemma FirstRunCleansUp(p: Config, q: Pc)
    requires Reached(Pair(InUse(p).(marker := true), CleanDirectory(p, false), q)) && q == ExitSave(p)
    ensures var l := p.(connection := ExitLocalCleaned); Reached(Pair(CleanedUp(p), SendReceipt(l), q))
  {
    hide Reached, Pair;
    var d := InUse(p).(marker := true);
    var d' := d.(stateFile := false);
    var l := p.(connection := ExitLocalCleaned);
    FirstMoves(d, CleanDirectory(p, false), q, Internal, d, CleanStateFile(p, false));
    FirstMoves(d, CleanStateFile(p, false), q, Internal, d', SaveCleaned(p));
    FirstMoves(d', SaveCleaned(p), q, SaveConfig(l), CleanedUp(p), SendReceipt(l));
  }

  lemma FirstRunFinishes(p: Config, q: Pc)
    requires q == ExitSave(p)
    requires var l := p.(connection := ExitLocalCleaned); Reached(Pair(CleanedUp(p), SendReceipt(l), q))
    ensures Reached(Pair(Finished(p), Idle, q))
  {
    hide Reached, Pair;
    var l := p.(connection := ExitLocalCleaned);
    var d := CleanedUp(p);
    var d' := d.(receipted := true);
    FirstMoves(d, SendReceipt(l), q, AckExit, d, AwaitReceipt(l));
    FirstMoves(d, AwaitReceipt(l), q, Receipt(Flags(true, true, true, true)), d', SaveExited(l));
    FirstMoves(d', SaveExited(l), q, SaveConfig(l.(connection := Exited)), Finished(p), Idle);
  }

  /** The disk once the exit is complete. */
  function Finished(p: Config): Shared {
    CleanedUp(p).(receipted := true, config := p.(connection := Exited))
  }

  /** One run completes its exit while another, begun in the middle of it, stands before its first save. */
  lemma OvertakenRun(settings: nat) returns (s: Sys)
    ensures Reached(s) && s.shared.config == Config(Exited, settings)
    ensures AtExitSave(s, 1) && s.threads[1].seen == Config(ExitPending, settings) && s.registryLock == Some(1)
  {
    hide Reached, Pair;
    var p := Config(ExitPending, settings);
    var q := ExitSave(p);
    RunMakesExitDurable(Config(Connected, settings));
    SecondRunBegins(p);
    FirstRunRetires(p, q);
    FirstRunCleansUp(p, q);
    FirstRunFinishes(p, q);
    s := Pair(Finished(p), Idle, q);
    PairFacts(Finished(p), Idle, q);
  }

  /** The regression happens: a run reaches Exited, and its next step leaves the Folder in ExitPending. */
  lemma RegressionHappens(settings: nat) returns (s: Sys, s': Sys)
    ensures Reached(s) && s.shared.config.connection == Exited
    ensures Step(s, s', 1, SaveConfig(Config(ExitPending, settings))) && Reached(s')
    ensures s'.shared.config.connection == ExitPending
  {
    s := OvertakenRun(settings);
    s' := AfterExitSave(s, 1);
    hide Reached;
    ReachedStep(s, s', 1, SaveConfig(s'.shared.config));
  }

  // ------------------------------------------------------------------- retrying

  /** Alone means that no lock is in the way, so its moves are steps of the system. */
  lemma AloneIsAStep(s: Sys, s': Sys, t: Thread, a: Action)
    requires t < |s.threads| == |s'.threads| && s'.threads == s.threads[t := s'.threads[t]]
    requires Moves(s.shared, s.threads[t], a, s'.shared, s'.threads[t])
    requires forall u | 0 <= u < |s.threads| && u != t :: s.threads[u] == Idle
    requires HoldsAll(s, t) && HoldsAll(s', t)
    ensures Step(s, s', t, a)
  {
    hide Moves, HoldsRegistry, HoldsOperation, HoldsState, HoldsDirectory;
  }

  /** The locks in use are those of this one thread. */
  predicate HoldsAll(s: Sys, t: Thread)
    requires t < |s.threads|
  {
    && s.registryLock == (if HoldsRegistry(s.threads[t]) then Some(t) else None)
    && s.operationLock == (if HoldsOperation(s.threads[t]) then Some(t) else None)
    && s.stateLock == (if HoldsState(s.threads[t]) then Some(t) else None)
    && s.directoryLock == (if HoldsDirectory(s.threads[t]) then Some(t) else None)
  }

  function AfterReceipt(d: Shared, saved: Config, flags: Flags): Shared {
    if Complete(flags) then d.(receipted := true, config := saved.(connection := Exited)) else d
  }

  function AfterCleanup(d: Shared, saved: Config): Shared {
    d.(directoryMarker := d.directoryMarker || d.directoryThere, marker := true, directory := false, stateFile := false,
       config := saved.(connection := ExitLocalCleaned))
  }

  /** What an undisturbed `run` leaves on disk. */
  function AfterRun(d: Shared, flags: Flags): Shared {
    if LocallyClean(d.config.connection) then AfterReceipt(d, d.config, flags)
    else AfterReceipt(AfterCleanup(d, d.config), d.config, flags)
  }

  /** A move of a `run` in which nothing fails and nobody interferes, and which hears this receipt. */
  predicate Undisturbed(d: Shared, pc: Pc, a: Action, d': Shared, pc': Pc, flags: Flags) {
    && ExitMove(d, pc, a, d', pc') && (a.Receipt? ==> a.flags == flags)
    && (pc' == Idle ==> pc.AwaitReceipt? || pc.SaveExited?)
  }

  /** What an undisturbed run has established where it stands. */
  predicate OnCourse(d: Shared, pc: Pc, flags: Flags) {
    match pc
    case Idle => true
    case ExitLoad => d.config.connection != Disconnected
    case ExitSave(seen) => seen == d.config && !LocallyClean(seen.connection)
    case ExitRegistry(saved) => saved == d.config
    case ExitRequest(saved) => saved == d.config
    case ExitReload(saved) => saved == d.config
    case CleanWait(saved) => saved == d.config && !LocallyClean(saved.connection)
    case CleanDirectoryWait(saved) => saved == d.config && !LocallyClean(saved.connection) && d.directoryThere
    case CleanDirectoryMarker(saved) => saved == d.config && !LocallyClean(saved.connection) && d.directoryThere
    case CleanMarker(saved, locked) => saved == d.config && !LocallyClean(saved.connection) && Sealed(d, locked)
    case CleanDirectory(saved, locked) =>
      saved == d.config && !LocallyClean(saved.connection) && d.marker && Sealed(d, locked)
    case CleanStateFile(saved, locked) =>
      saved == d.config && !LocallyClean(saved.connection) && d.marker && Sealed(d, locked) && !d.directory
    case SaveCleaned(saved) => saved == d.config && !LocallyClean(saved.connection) && Cleaned(d)
    case SendReceipt(saved) => saved == d.config && LocallyClean(saved.connection)
    case AwaitReceipt(saved) => saved == d.config && LocallyClean(saved.connection)
    case SaveExited(saved) => saved == d.config && LocallyClean(saved.connection) && d.receipted && Complete(flags)
    case _ => false
  }

  /** Where an undisturbed run ends that stands here. */
  function Destination(d: Shared, pc: Pc, flags: Flags): Shared {
    if pc == Idle then d else AfterRun(d, flags)
  }

  /** Moves still to come, at most. */
  function Rank(pc: Pc): nat {
    match pc
    case ExitLoad => 15
    case ExitSave(_) => 14
    case ExitRegistry(_) => 13
    case ExitRequest(_) => 12
    case ExitReload(_) => 11
    case CleanWait(_) => 10
    case CleanDirectoryWait(_) => 9
    case CleanDirectoryMarker(_) => 8
    case CleanMarker(_, _) => 7
    case CleanDirectory(_, _) => 6
    case CleanStateFile(_, _) => 5
    case SaveCleaned(_) => 4
    case SendReceipt(_) => 3
    case AwaitReceipt(_) => 2
    case SaveExited(_) => 1
    case _ => 0
  }

  lemma RequestOnCourse(d: Shared, pc: Pc, a: Action, d': Shared, pc': Pc, flags: Flags)
    requires OnCourse(d, pc, flags) && RequestMove(d, pc, a, d', pc') && (a.Receipt? ==> a.flags == flags)
    requires pc' == Idle ==> pc.AwaitReceipt? || pc.SaveExited?
    ensures OnCourse(d', pc', flags) && Destination(d', pc', flags) == Destination(d, pc, flags) && Rank(pc') < Rank(pc)
  {
  }

  lemma CleanOnCourse(d: Shared, pc: Pc, a: Action, d': Shared, pc': Pc, flags: Flags)
    requires OnCourse(d, pc, flags) && CleanMove(d, pc, a, d', pc') && (a.Receipt? ==> a.flags == flags)
    requires pc' == Idle ==> pc.AwaitReceipt? || pc.SaveExited?
    ensures OnCourse(d', pc', flags) && Destination(d', pc', flags) == Destination(d, pc, flags) && Rank(pc') < Rank(pc)
  {
  }

  lemma ReceiptOnCourse(d: Shared, pc: Pc, a: Action, d': Shared, pc': Pc, flags: Flags)
    requires OnCourse(d, pc, flags) && ReceiptMove(d, pc, a, d', pc') && (a.Receipt? ==> a.flags == flags)
    requires pc' == Idle ==> pc.AwaitReceipt? || pc.SaveExited?
    ensures OnCourse(d', pc', flags) && Destination(d', pc', flags) == Destination(d, pc, flags) && Rank(pc') < Rank(pc)
  {
  }

  lemma UndisturbedMove(d: Shared, pc: Pc, a: Action, d': Shared, pc': Pc, flags: Flags)
    requires OnCourse(d, pc, flags) && Undisturbed(d, pc, a, d', pc', flags)
    ensures OnCourse(d', pc', flags) && Destination(d', pc', flags) == Destination(d, pc, flags) && Rank(pc') < Rank(pc)
  {
    hide RequestMove, CleanMove, ReceiptMove, OnCourse, Destination, Rank;
    if RequestMove(d, pc, a, d', pc') {
      RequestOnCourse(d, pc, a, d', pc', flags);
    } else if CleanMove(d, pc, a, d', pc') {
      CleanOnCourse(d, pc, a, d', pc', flags);
    } else {
      ReceiptOnCourse(d, pc, a, d', pc', flags);
    }
  }

  /** An undisturbed run that has not ended can go on. */
  lemma CanMoveOn(d: Shared, pc: Pc, flags: Flags) returns (a: Action, d': Shared, pc': Pc)
    requires OnCourse(d, pc, flags) && pc != Idle && flags.receiverCleaned
    ensures Undisturbed(d, pc, a, d', pc', flags)
  {
    a, d' := Internal, d;
    match pc
    case ExitLoad => pc' := if LocallyClean(d.config.connection) then ExitRegistry(d.config) else ExitSave(d.config);
    case ExitSave(seen) =>
      var c := seen.(connection := ExitPending);
      a, d', pc' := SaveConfig(c), d.(config := c), ExitRegistry(c);
    case ExitRegistry(saved) => pc' := ExitRequest(saved);
    case ExitRequest(saved) => pc' := ExitReload(saved);
    case ExitReload(saved) => pc' := if LocallyClean(saved.connection) then SendReceipt(saved) else CleanWait(saved);
    case CleanWait(saved) => pc' := if d.directoryThere then CleanDirectoryWait(saved) else CleanMarker(saved, false);
    case CleanDirectoryWait(saved) => pc' := CleanDirectoryMarker(saved);
    case CleanDirectoryMarker(saved) => d', pc' := d.(directoryMarker := true), CleanMarker(saved, true);
    case CleanMarker(saved, locked) => a, d', pc' := Retire, d.(marker := true), CleanDirectory(saved, locked);
    case CleanDirectory(saved, locked) => d', pc' := d.(directory := false), CleanStateFile(saved, locked);
    case CleanStateFile(saved, _) => d', pc' := d.(stateFile := false), SaveCleaned(saved);
    case SaveCleaned(saved) =>
      var c := saved.(connection := ExitLocalCleaned);
      a, d', pc' := SaveConfig(c), d.(config := c), SendReceipt(c);
    case SendReceipt(saved) => a, pc' := AckExit, AwaitReceipt(saved);
    case AwaitReceipt(saved) =>
      a := Receipt(flags);
      if Complete(flags) {
        d', pc' := d.(receipted := true), SaveExited(saved);
      } else {
        pc' := Idle;
      }
    case SaveExited(saved) =>
      var c := saved.(connection := Exited);
      a, d', pc' := SaveConfig(c), d.(config := c), Idle;
  }

  datatype Stage = Stage(disk: Shared, pc: Pc)

  /** The stages of an undisturbed run, from its start on. */
  ghost predicate IsUndisturbedRun(stages: seq<Stage>, acts: seq<Action>, flags: Flags) {
    && |stages| == |acts| + 1
    && forall i | 0 <= i < |acts| ::
         Undisturbed(stages[i].disk, stages[i].pc, acts[i], stages[i + 1].disk, stages[i + 1].pc, flags)
  }

  /** No undisturbed move is left. */
  ghost predicate Ended(s: Stage, flags: Flags) {
    forall a, d', pc' :: !Undisturbed(s.disk, s.pc, a, d', pc', flags)
  }

  lemma {:induction false} KeepsCourse(stages: seq<Stage>, acts: seq<Action>, flags: Flags, n: nat)
    requires IsUndisturbedRun(stages, acts, flags) && n <= |acts| && OnCourse(stages[0].disk, stages[0].pc, flags)
    ensures OnCourse(stages[n].disk, stages[n].pc, flags) && Rank(stages[n].pc) + n <= Rank(stages[0].pc)
    ensures Destination(stages[n].disk, stages[n].pc, flags) == Destination(stages[0].disk, stages[0].pc, flags)
  {
    if n > 0 {
      hide Undisturbed, OnCourse, Destination, Rank;
      KeepsCourse(stages, acts, flags, n - 1);
      UndisturbedMove(stages[n - 1].disk, stages[n - 1].pc, acts[n - 1], stages[n].disk, stages[n].pc, flags);
    }
  }

  /** A stage of a run that found the cleanup recorded. */
  predicate Skipping(s: Stage) {
    && (s.disk.config.connection == ExitLocalCleaned || s.disk.config.connection == Exited)
    && (s.pc.ExitLoad? || s.pc.ExitRegistry? || s.pc.ExitRequest? || s.pc.ExitReload? || s.pc.SendReceipt? || s.pc.AwaitReceipt?
        || s.pc.SaveExited? || s.pc.Idle?)
  }

  lemma SkippingMove(s: Stage, a: Action, s': Stage, flags: Flags)
    requires Skipping(s) && OnCourse(s.disk, s.pc, flags) && Undisturbed(s.disk, s.pc, a, s'.disk, s'.pc, flags)
    ensures Skipping(s') && a != Retire && !(a.SaveConfig? && a.config.connection == ExitPending)
  {
    hide CleanMove;
    assert !CleanMove(s.disk, s.pc, a, s'.disk, s'.pc) by {
      NoCleaning(s.disk, s.pc, a, s'.disk, s'.pc);
    }
  }

  lemma NoCleaning(d: Shared, pc: Pc, a: Action, d': Shared, pc': Pc)
    requires Skipping(Stage(d, pc))
    ensures !CleanMove(d, pc, a, d', pc')
  {
  }

  lemma {:induction false} CleanupIsSkipped(stages: seq<Stage>, acts: seq<Action>, flags: Flags, n: nat)
    requires IsUndisturbedRun(stages, acts, flags) && n < |acts| && OnCourse(stages[0].disk, stages[0].pc, flags)
    requires Skipping(stages[0])
    ensures Skipping(stages[n]) && acts[n] != Retire && !(acts[n].SaveConfig? && acts[n].config.connection == ExitPending)
    ensures Skipping(stages[n + 1])
  {
    hide Undisturbed, OnCourse, Skipping, Destination, Rank;
    if n > 0 {
      CleanupIsSkipped(stages, acts, flags, n - 1);
    }
    KeepsCourse(stages, acts, flags, n);
    SkippingMove(stages[n], acts[n], stages[n + 1], flags);
  }

  /**
   Retry works from every crash point: whatever an earlier attempt left behind, every
   undisturbed `run` that cannot go on has ended, after at most fifteen moves, with the
   local state gone, and in Exited when the relay's receipt is complete.
   */
  lemma RetryCompletes(stages: seq<Stage>, acts: seq<Action>, flags: Flags)
    requires IsUndisturbedRun(stages, acts, flags) && Ended(stages[|acts|], flags) && flags.receiverCleaned
    requires stages[0].pc == ExitLoad && ConfigOk(stages[0].disk) && stages[0].disk.config.connection != Disconnected
    ensures var c := stages[0].disk.config.connection; c == ExitLocalCleaned || c == Exited ==>
              forall i | 0 <= i < |acts| :: acts[i] != Retire && acts[i] != SaveConfig(stages[0].disk.config.(connection := ExitPending))
    ensures |acts| <= 15 && stages[|acts|] == Stage(AfterRun(stages[0].disk, flags), Idle)
    ensures var begin, end := stages[0].disk, stages[|acts|].disk;
            && end.marker && !end.stateFile && !end.directory
            && (flags == Flags(true, true, true, true) ==> end.config.connection == Exited)
            && (flags != Flags(true, true, true, true) ==>
                  end.config.connection == if begin.config.connection == Exited then Exited else ExitLocalCleaned)
            && (end.config.connection == ExitLocalCleaned || end.config.connection == Exited)
  {
    hide Undisturbed;
    KeepsCourse(stages, acts, flags, |acts|);
    var c := stages[0].disk.config.connection;
    if c == ExitLocalCleaned || c == Exited {
      forall i | 0 <= i < |acts|
        ensures acts[i] != Retire && acts[i] != SaveConfig(stages[0].disk.config.(connection := ExitPending))
      {
        CleanupIsSkipped(stages, acts, flags, i);
      }
    }
    var last := stages[|acts|];
    if last.pc != Idle {
      var a, d', pc' := CanMoveOn(last.disk, last.pc, flags);
      assert false;
    }
  }

  /** Such a run exists. */
  lemma {:induction false} RetryCanFinish(d: Shared, pc: Pc, flags: Flags) returns (stages: seq<Stage>, acts: seq<Action>)
    requires OnCourse(d, pc, flags) && flags.receiverCleaned
    ensures IsUndisturbedRun(stages, acts, flags) && stages[0] == Stage(d, pc) && stages[|acts|].pc == Idle
    decreases Rank(pc)
  {
    hide Undisturbed, OnCourse, Destination;
    if pc == Idle {
      return [Stage(d, pc)], [];
    }
    var a, d', pc' := CanMoveOn(d, pc, flags);
    UndisturbedMove(d, pc, a, d', pc', flags);
    var rest, more := RetryCanFinish(d', pc', flags);
    stages, acts := [Stage(d, pc)] + rest, [a] + more;
    forall i | 0 <= i < |acts|
      ensures Undisturbed(stages[i].disk, stages[i].pc, acts[i], stages[i + 1].disk, stages[i + 1].pc, flags)
    {
      assert i > 0 ==> stages[i] == rest[i - 1] && acts[i] == more[i - 1];
      assert stages[i + 1] == rest[i];
    }
  }

  /** From Disconnected there is no way on: the exit refuses and changes nothing. */
  lemma DisconnectedRefuses(d: Shared, a: Action, d': Shared, pc': Pc)
    requires d.config.connection == Disconnected && Moves(d, ExitLoad, a, d', pc')
    ensures d' == d && pc' == Idle
  {
    hide ReceiveMove, OtherMove;
    assert !ReceiveMove(d, ExitLoad, a, d', pc') && !OtherMove(d, ExitLoad, a, d', pc') by {
      NotAnExitMove(d, a, d', pc');
    }
  }

  lemma NotAnExitMove(d: Shared, a: Action, d': Shared, pc': Pc)
    ensures !ReceiveMove(d, ExitLoad, a, d', pc') && !OtherMove(d, ExitLoad, a, d', pc')
  {
  }
}
