/**
 The language-server pool (`internal/langserver/pool.go`) as a transition system.

 Goroutines interleave freely. Each section under `Pool.mu`, each process action and the
 unlocked write of `Entry.Ready` is one step; an `Ensure` that wins the claim for a key is a
 *spawner* whose program counter says how far it has come. Process exits, failing spawns and
 the watchdog's and `StopAll`'s signals can happen at any moment.
 */
module LangServerPool {

  type Key = string
  type Pid = nat
  type Thread = nat

  const DefaultKey: Key := "default"
  const DefaultPort := 42100

  /** `Running` is neither signalled nor exited. */
  datatype Status = Running | Signalled | Exited

  /**
   A started process together with the pool entry built for it; `ready` is `Entry.Ready`, and once its exit
   watcher has run it is `reaped`.
   */
  datatype Process = Process(key: Key, port: nat, status: Status, ready: bool, reaped: bool)

  /** Where a claiming `Ensure` stands. */
  datatype Spawner =
    | Claimed(key: Key, port: nat)
    | Started(key: Key, port: nat, pid: Pid)
    | Waiting(key: Key, port: nat, pid: Pid)
    | Killed(key: Key, port: nat, pid: Pid)
    | Leaving(key: Key, port: nat)

  datatype Pool = Pool(
    entries: map<Key, Pid>,
    spawning: map<Key, Thread>,
    spawners: map<Thread, Spawner>,
    procs: map<Pid, Process>,
    nextPort: nat)

  const InitialPool := Pool(map[], map[], map[], map[], 42101)

  // ----- the steps -----

  datatype Step =
    | Claim(t: Thread, key: Key)
    | Start(t: Thread, pid: Pid)
    | SpawnFails(t: Thread)
    | Register(t: Thread)
    | PortReady(t: Thread)
    | PortTimeout(t: Thread)
    | RemoveFailed(t: Thread)
    | Leave(t: Thread)
    | ProcessExits(pid: Pid)
    | ExitWatcher(pid: Pid)
    | WatchdogKills(pid: Pid)
    | StopAll

  predicate Enabled(s: Pool, a: Step) {
    match a
    case Claim(t, key) =>
      // Neither a ready entry nor a spawn in flight.
      && !(key in s.entries && s.entries[key] in s.procs && s.procs[s.entries[key]].ready)
      && key !in s.spawning
      && t !in s.spawners
    case Start(t, pid) => t in s.spawners && s.spawners[t].Claimed? && pid !in s.procs
    case SpawnFails(t) => t in s.spawners && s.spawners[t].Claimed?
    case Register(t) => t in s.spawners && s.spawners[t].Started?
    case PortReady(t) => t in s.spawners && s.spawners[t].Waiting? && s.spawners[t].pid in s.procs
    case PortTimeout(t) => t in s.spawners && s.spawners[t].Waiting? && s.spawners[t].pid in s.procs
    case RemoveFailed(t) => t in s.spawners && s.spawners[t].Killed?
    case Leave(t) => t in s.spawners && s.spawners[t].Leaving?
    case ProcessExits(pid) => pid in s.procs && s.procs[pid].status != Exited
    case ExitWatcher(pid) => pid in s.procs && s.procs[pid].status == Exited && !s.procs[pid].reaped
    case WatchdogKills(pid) => pid in s.procs && s.procs[pid].ready
    case StopAll => true
  }

  function Signal(p: Process): Process {
    if p.status == Running then p.(status := Signalled) else p
  }

  function MoveTo(s: Pool, t: Thread, pc: Spawner): Pool {
    s.(spawners := s.spawners[t := pc])
  }

  function Apply(s: Pool, a: Step): Pool
    requires Enabled(s, a)
  {
    match a
    case Claim(t, key) =>
      var port := if key == DefaultKey then DefaultPort else s.nextPort;
      MoveTo(s, t, Claimed(key, port)).(
        spawning := s.spawning[key := t],
        nextPort := if key == DefaultKey then s.nextPort else s.nextPort + 1)
    case Start(t, pid) =>
      var pc := s.spawners[t];
      MoveTo(s, t, Started(pc.key, pc.port, pid)).(procs := s.procs[pid := Process(pc.key, pc.port, Running, false, false)])
    case SpawnFails(t) =>
      MoveTo(s, t, Leaving(s.spawners[t].key, s.spawners[t].port))
    case Register(t) =>
      var pc := s.spawners[t];
      MoveTo(s, t, Waiting(pc.key, pc.port, pc.pid)).(entries := s.entries[pc.key := pc.pid])
    case PortReady(t) =>
      var pc := s.spawners[t];
      MoveTo(s, t, Leaving(pc.key, pc.port)).(procs := s.procs[pc.pid := s.procs[pc.pid].(ready := true)])
    case PortTimeout(t) =>
      var pc := s.spawners[t];
      MoveTo(s, t, Killed(pc.key, pc.port, pc.pid)).(procs := s.procs[pc.pid := Signal(s.procs[pc.pid])])
    case RemoveFailed(t) =>
      var pc := s.spawners[t];
      MoveTo(s, t, Leaving(pc.key, pc.port)).(entries := s.entries - {pc.key})
    case Leave(t) =>
      s.(spawning := s.spawning - {s.spawners[t].key}, spawners := s.spawners - {t})
    case ProcessExits(pid) =>
      s.(procs := s.procs[pid := s.procs[pid].(status := Exited)])
    case ExitWatcher(pid) =>
      // Only the entry this watcher was started for is dropped.
      var key := s.procs[pid].key;
      s.(entries := if key in s.entries && s.entries[key] == pid then s.entries - {key} else s.entries,
         procs := s.procs[pid := s.procs[pid].(reaped := true)])
    case WatchdogKills(pid) =>
      s.(procs := s.procs[pid := Signal(s.procs[pid])])
    case StopAll =>
      s.(entries := map[],
         procs := map pid | pid in s.procs ::
           if s.procs[pid].key in s.entries && s.entries[s.procs[pid].key] ==
                   pid then Signal(s.procs[pid]) else s.procs[pid])
  }

  // ----- the invariant -----

  /** One claim per key, held by exactly the spawner at work on it. */
  ghost predicate ClaimsMatch(s: Pool) {
    && (forall key :: key in s.spawning ==> s.spawning[key] in s.spawners && s.spawners[s.spawning[key]].key == key)
    && (forall t :: t in s.spawners ==> s.spawners[t].key in s.spawning && s.spawning[s.spawners[t].key] == t)
  }

  /** An entry leads to a process started for its key. */
  ghost predicate EntriesMatch(s: Pool) {
    forall key :: key in s.entries ==> s.entries[key] in s.procs && s.procs[s.entries[key]].key == key
  }

  /** What a spawner knows about its key's entry and its own process. */
  ghost predicate SpawnerFits(s: Pool, pc: Spawner) {
    match pc
    case Claimed(key, _) => key !in s.entries
    case Started(key, port, pid) =>
      key !in s.entries && pid in s.procs && s.procs[pid].key == key && s.procs[pid].port == port && !s.procs[pid].ready
    case Waiting(key, port, pid) =>
      && (key in s.entries ==> s.entries[key] == pid) && pid in s.procs && s.procs[pid].key == key
      && s.procs[pid].port == port && !s.procs[pid].ready
    case Killed(key, port, pid) =>
      && (key in s.entries ==> s.entries[key] == pid) && pid in s.procs && s.procs[pid].key == key
      && s.procs[pid].status != Running && !s.procs[pid].ready
    case Leaving(key, _) =>
      key in s.entries ==> s.entries[key] in s.procs && s.procs[s.entries[key]].ready
  }

  ghost predicate SpawnersFit(s: Pool) {
    forall t :: t in s.spawners ==> SpawnerFits(s, s.spawners[t])
  }

  /** The spawner at work on `key` has registered, or killed, process `pid` for it. */
  ghost predicate SpawnInFlight(s: Pool, key: Key, pid: Pid) {
    && key in s.spawning && s.spawning[key] in s.spawners
    && var pc := s.spawners[s.spawning[key]];
       (pc.Waiting? || pc.Killed?) && pc.pid == pid
  }

  /** A registered entry that is not ready has its spawner in flight. */
  ghost predicate UnreadyInFlight(s: Pool) {
    forall key :: key in s.entries && s.entries[key] in s.procs && !s.procs[s.entries[key]].ready ==>
      SpawnInFlight(s, key, s.entries[key])
  }

  ghost predicate Tracked(s: Pool, pid: Pid)
    requires pid in s.procs
  {
    s.procs[pid].key in s.entries && s.entries[s.procs[pid].key] == pid
  }

  /** The spawner of its key has just started it and has not registered it yet. */
  ghost predicate HeldBySpawner(s: Pool, pid: Pid)
    requires pid in s.procs
  {
    var key := s.procs[pid].key;
    && key in s.spawning && s.spawning[key] in s.spawners
    && s.spawners[s.spawning[key]] == Started(key, s.procs[pid].port, pid)
  }

  /** No process is lost: one that nobody signalled is tracked or in its spawner's hands. */
  ghost predicate NoOrphans(s: Pool) {
    forall pid :: pid in s.procs && s.procs[pid].status == Running ==> Tracked(s, pid) || HeldBySpawner(s, pid)
  }

  ghost predicate PortFits(s: Pool, key: Key, port: nat) {
    if key == DefaultKey then port == DefaultPort else DefaultPort < port < s.nextPort
  }

  /** A port belongs to its key: the default one, or one already handed out. */
  ghost predicate PortsFit(s: Pool) {
    && s.nextPort > DefaultPort
    && (forall pid :: pid in s.procs ==> PortFits(s, s.procs[pid].key, s.procs[pid].port))
    && (forall t :: t in s.spawners ==> PortFits(s, s.spawners[t].key, s.spawners[t].port))
  }

  /** Every port but the default one is handed out once. */
  ghost predicate PortsDiffer(s: Pool) {
    && (forall p, q ::
          p in s.procs && q in s.procs && p != q && s.procs[p].port == s.procs[q].port ==>
            s.procs[p].port == DefaultPort)
    && (forall t, q ::
          t in s.spawners && s.spawners[t].Claimed? && q in s.procs && s.spawners[t].port == s.procs[q].port ==>
            s.spawners[t].port == DefaultPort)
    && (forall t, u ::
          t in s.spawners && u in s.spawners && t != u && s.spawners[t].port == s.spawners[u].port ==>
            s.spawners[t].port == DefaultPort)
  }

  ghost predicate Inv(s: Pool) {
    && ClaimsMatch(s)
    && EntriesMatch(s)
    && SpawnersFit(s)
    && UnreadyInFlight(s)
    && NoOrphans(s)
    && PortsFit(s)
    && PortsDiffer(s)
  }

  lemma InitialInv()
    ensures Inv(InitialPool)
  {
  }

  lemma StepKeepsClaimsMatch(s: Pool, a: Step)
    requires ClaimsMatch(s) && Enabled(s, a)
    ensures ClaimsMatch(Apply(s, a))
  {
  }

  lemma StepKeepsEntriesMatch(s: Pool, a: Step)
    requires EntriesMatch(s) && SpawnersFit(s) && Enabled(s, a)
    ensures EntriesMatch(Apply(s, a))
  {
  }

  lemma StepKeepsSpawnersFit(s: Pool, a: Step)
    requires ClaimsMatch(s) && EntriesMatch(s) && SpawnersFit(s) && UnreadyInFlight(s) && Enabled(s, a)
    ensures SpawnersFit(Apply(s, a))
  {
  }

  lemma StepKeepsUnreadyInFlight(s: Pool, a: Step)
    requires ClaimsMatch(s) && EntriesMatch(s) && SpawnersFit(s) && UnreadyInFlight(s) && Enabled(s, a)
    ensures UnreadyInFlight(Apply(s, a))
  {
  }

  lemma StepKeepsNoOrphans(s: Pool, a: Step)
    requires ClaimsMatch(s) && EntriesMatch(s) && SpawnersFit(s) && NoOrphans(s) && Enabled(s, a)
    ensures NoOrphans(Apply(s, a))
  {
  }

  lemma StepKeepsPortsFit(s: Pool, a: Step)
    requires PortsFit(s) && SpawnersFit(s) && Enabled(s, a)
    ensures PortsFit(Apply(s, a))
  {
  }

  /** The ports in play are those of `s`, or fewer. */
  ghost predicate SamePorts(s: Pool, s': Pool) {
    && (forall p :: p in s'.procs ==> p in s.procs && s'.procs[p].port == s.procs[p].port)
    && (forall t :: t in s'.spawners ==>
          t in s.spawners && s'.spawners[t].port ==
                  s.spawners[t].port && (s'.spawners[t].Claimed? ==> s.spawners[t].Claimed?))
  }

  lemma SamePortsDiffer(s: Pool, s': Pool)
    requires PortsDiffer(s) && SamePorts(s, s')
    ensures PortsDiffer(s')
  {
  }

  lemma ClaimedPortIsNew(s: Pool, t: Thread, key: Key)
    requires PortsFit(s) && PortsDiffer(s) && Enabled(s, Claim(t, key))
    ensures PortsDiffer(Apply(s, Claim(t, key)))
  {
  }

  lemma StartedPortIsNew(s: Pool, t: Thread, pid: Pid)
    requires PortsFit(s) && PortsDiffer(s) && Enabled(s, Start(t, pid))
    ensures PortsDiffer(Apply(s, Start(t, pid)))
  {
  }

  lemma StepKeepsPortsDiffer(s: Pool, a: Step)
    requires SpawnersFit(s) && PortsFit(s) && PortsDiffer(s) && Enabled(s, a)
    ensures PortsDiffer(Apply(s, a))
  {
    hide PortsDiffer, PortsFit;
    match a
    case Claim(t, key) => ClaimedPortIsNew(s, t, key);
    case Start(t, pid) => StartedPortIsNew(s, t, pid);
    case _ =>
      assert SamePorts(s, Apply(s, a));
      SamePortsDiffer(s, Apply(s, a));
  }

  lemma StepKeepsInv(s: Pool, a: Step)
    requires Inv(s) && Enabled(s, a)
    ensures Inv(Apply(s, a))
  {
    hide Enabled, Apply, ClaimsMatch, EntriesMatch, SpawnersFit, UnreadyInFlight, NoOrphans, PortsFit, PortsDiffer;
    StepKeepsClaimsMatch(s, a);
    StepKeepsEntriesMatch(s, a);
    StepKeepsSpawnersFit(s, a);
    StepKeepsUnreadyInFlight(s, a);
    StepKeepsNoOrphans(s, a);
    StepKeepsPortsFit(s, a);
    StepKeepsPortsDiffer(s, a);
  }

  // ----- what it means -----

  /** No two running processes serve the same key or listen on the same port. */
  ghost predicate NoDuplicates(s: Pool) {
    forall p, q ::
      p in s.procs && q in s.procs && p != q && s.procs[p].status == Running && s.procs[q].status == Running ==>
        s.procs[p].key != s.procs[q].key && s.procs[p].port != s.procs[q].port
  }

  lemma InvGivesNoDuplicates(s: Pool)
    requires Inv(s)
    ensures NoDuplicates(s)
  {
    forall p, q | p in s.procs && q in s.procs && p != q && s.procs[p].status == Running && s.procs[q].status == Running
      ensures s.procs[p].key != s.procs[q].key && s.procs[p].port != s.procs[q].port
    {
      RunningIsUnique(s, p, q);
    }
  }

  /** A running process is the one its key's entry or spawner names. */
  lemma RunningIsUnique(s: Pool, p: Pid, q: Pid)
    requires Inv(s) && p in s.procs && q in s.procs
    requires s.procs[p].status == Running && s.procs[q].status == Running
    ensures s.procs[p].key == s.procs[q].key || s.procs[p].port == s.procs[q].port ==> p == q
  {
    hide ClaimsMatch, EntriesMatch, UnreadyInFlight;
    assert PortFits(s, s.procs[p].key, s.procs[p].port) && PortFits(s, s.procs[q].key, s.procs[q].port);
  }

  /** A run from the empty pool. */
  ghost predicate IsRun(states: seq<Pool>, steps: seq<Step>) {
    && |states| == |steps| + 1
    && states[0] == InitialPool
    && forall i :: 0 <= i < |steps| ==> Enabled(states[i], steps[i]) && states[i + 1] == Apply(states[i], steps[i])
  }

  lemma {:induction false} RunKeepsInv(states: seq<Pool>, steps: seq<Step>, n: nat)
    requires IsRun(states, steps) && n < |states|
    ensures Inv(states[n])
  {
    hide Inv, Enabled, Apply;
    if n == 0 {
      InitialInv();
    } else {
      RunKeepsInv(states, steps, n - 1);
      StepKeepsInv(states[n - 1], steps[n - 1]);
    }
  }

  /** In every interleaving, no running process is ever doubled or lost. */
  lemma RunsAreSafe(states: seq<Pool>, steps: seq<Step>, n: nat)
    requires IsRun(states, steps) && n < |states|
    ensures NoDuplicates(states[n]) && NoOrphans(states[n]) && ClaimsMatch(states[n]) && UnreadyInFlight(states[n])
  {
    RunKeepsInv(states, steps, n);
    InvGivesNoDuplicates(states[n]);
  }

  /** A process is only started for a key that no running process serves. */
  lemma StartsAreNeeded(states: seq<Pool>, steps: seq<Step>, n: nat)
    requires IsRun(states, steps) && n < |steps| && steps[n].Start?
    ensures forall q :: q in states[n].procs && states[n].procs[q].status == Running ==>
              states[n].procs[q].key != states[n].spawners[steps[n].t].key
  {
    RunKeepsInv(states, steps, n);
    var s := states[n];
    assert Enabled(s, steps[n]);
    hide Apply, IsRun, PortsFit, PortsDiffer, UnreadyInFlight;
    assert SpawnerFits(s, s.spawners[steps[n].t]);
  }

  /** `StopAll` leaves no running process behind except those a spawner has not registered yet. */
  lemma StopAllSignals(states: seq<Pool>, steps: seq<Step>, n: nat, pid: Pid)
    requires IsRun(states, steps) && n < |steps| && steps[n].StopAll? && pid in states[n + 1].procs
    ensures states[n + 1].entries == map[]
    ensures states[n + 1].procs[pid].status == Running ==> HeldBySpawner(states[n + 1], pid)
  {
    RunKeepsInv(states, steps, n + 1);
  }

  /** The steps that end a process: its exit, the watchdog's kill, and the one for a port that stays shut. */
  predicate Ends(s: Pool, a: Step, pid: Pid) {
    || a == ProcessExits(pid)
    || a == WatchdogKills(pid)
    || (a.PortTimeout? && a.t in s.spawners && s.spawners[a.t] == Waiting(s.spawners[a.t].key, s.spawners[a.t].port, pid))
  }

  lemma DownStays(s: Pool, a: Step, pid: Pid)
    requires Enabled(s, a) && pid in s.procs
    ensures pid in Apply(s, a).procs
    ensures Ends(s, a, pid) || s.procs[pid].status != Running ==> Apply(s, a).procs[pid].status != Running
  {
  }

  /** A process that has exited or been killed does not run at any later point. */
  lemma {:induction false} EndedStaysDown(states: seq<Pool>, steps: seq<Step>, i: nat, n: nat, pid: Pid)
    requires IsRun(states, steps) && i < n < |states| && pid in states[i].procs && Ends(states[i], steps[i], pid)
    ensures pid in states[n].procs && states[n].procs[pid].status != Running
  {
    hide Inv, Enabled, Apply, Ends;
    if i < n - 1 {
      EndedStaysDown(states, steps, i, n - 1, pid);
    }
    DownStays(states[n - 1], steps[n - 1], pid);
  }

  // ----- entries of processes that are gone -----

  /** The watcher of the process that the key's entry names has already run and will not drop the entry any more. */
  ghost predicate Stale(s: Pool, key: Key) {
    key in s.entries && s.entries[key] in s.procs && s.procs[s.entries[key]].reaped
  }

  /** At step `i` a process is registered. */
  predicate Registers(s: Pool, a: Step, pid: Pid) {
    a.Register? && a.t in s.spawners && s.spawners[a.t].Started? && s.spawners[a.t].pid == pid
  }

  lemma ReapedStays(s: Pool, a: Step, pid: Pid)
    requires Inv(s) && Enabled(s, a) && pid in s.procs
    ensures pid in Apply(s, a).procs
    ensures s.procs[pid].reaped ==> Apply(s, a).procs[pid].reaped
  {
  }

  /** One step: what makes an entry stale is only its registration behind the watcher. */
  lemma StaleStep(s: Pool, a: Step, key: Key)
    requires Inv(s) && Enabled(s, a) && key in Apply(s, a).entries
    ensures var pid := Apply(s, a).entries[key];
            && pid in s.procs
            && if Registers(s, a, pid) then Stale(Apply(s, a), key) == s.procs[pid].reaped
               else key in s.entries && s.entries[key] == pid && Stale(Apply(s, a), key) == Stale(s, key)
  {
    hide ClaimsMatch, UnreadyInFlight, NoOrphans, PortsFit, PortsDiffer;
  }

  /** The process was registered before step `n`, after its watcher had run. */
  ghost predicate RegisteredLate(states: seq<Pool>, steps: seq<Step>, n: nat, pid: Pid)
    requires IsRun(states, steps) && n < |states|
  {
    exists i :: 0 <= i < n && LateAt(states[i], steps[i], pid)
  }

  ghost predicate LateAt(s: Pool, a: Step, pid: Pid) {
    Registers(s, a, pid) && pid in s.procs && s.procs[pid].reaped
  }

  lemma {:induction false} LateIsReaped(states: seq<Pool>, steps: seq<Step>, n: nat, pid: Pid)
    requires IsRun(states, steps) && n < |states| && RegisteredLate(states, steps, n, pid)
    ensures pid in states[n].procs && states[n].procs[pid].reaped
  {
    hide Inv, Enabled, Apply, Registers;
    var i :| 0 <= i < n && LateAt(states[i], steps[i], pid);
    RunKeepsInv(states, steps, n - 1);
    if i < n - 1 {
      LateIsReaped(states, steps, n - 1, pid);
    }
    ReapedStays(states[n - 1], steps[n - 1], pid);
  }

  lemma NothingAtStart(states: seq<Pool>, steps: seq<Step>)
    requires IsRun(states, steps)
    ensures states[0].entries == map[]
  {
  }

  /**
   In every run: an entry names a process that is gone for good if and only if that process was
   registered after its exit watcher had run. The watcher is started before the registration, so this
   takes a process that dies at once.
   */
  lemma {:induction false} StaleIff(states: seq<Pool>, steps: seq<Step>, n: nat, key: Key)
    requires IsRun(states, steps) && n < |states| && key in states[n].entries
    ensures Stale(states[n], key) <==> RegisteredLate(states, steps, n, states[n].entries[key])
  {
    NothingAtStart(states, steps);
    hide Inv, Enabled, Apply, Registers;
    var pid := states[n].entries[key];
    if RegisteredLate(states, steps, n, pid) {
      LateIsReaped(states, steps, n, pid);
    } else {
      var s, a := states[n - 1], steps[n - 1];
      RunKeepsInv(states, steps, n - 1);
      StaleStep(s, a, key);
      assert !LateAt(s, a, pid);
      if !Registers(s, a, pid) {
        assert !RegisteredLate(states, steps, n - 1, pid);
        StaleIff(states, steps, n - 1, key);
      }
    }
  }

  /** A stale entry that has become ready is served from then on, until `StopAll`. */
  lemma StaleStays(s: Pool, a: Step, key: Key)
    requires Inv(s) && Enabled(s, a) && Stale(s, key) && s.procs[s.entries[key]].ready
    ensures !(a.Claim? && a.key == key)
    ensures !a.StopAll? ==>
              && Stale(Apply(s, a), key) && Apply(s, a).entries[key] == s.entries[key]
              && Apply(s, a).procs[s.entries[key]].ready
  {
    hide NoOrphans, PortsFit, PortsDiffer, UnreadyInFlight;
  }

  /** A process that dies before it is registered, on a port that answers: the steps, and the states. */
  function DeadStep(key: Key, i: nat): Step {
    match i
    case 0 => Claim(0, key)
    case 1 => Start(0, 0)
    case 2 => ProcessExits(0)
    case 3 => ExitWatcher(0)
    case 4 => Register(0)
    case _ => PortReady(0)
  }

  function DeadState(key: Key, i: nat): Pool {
    var port := if key == DefaultKey then DefaultPort else 42101;
    var pc := match i
              case 1 => Claimed(key, port)
              case 2 => Started(key, port, 0)
              case 3 => Started(key, port, 0)
              case 4 => Started(key, port, 0)
              case 5 => Waiting(key, port, 0)
              case _ => Leaving(key, port);
    if i == 0 then InitialPool
    else
      Pool(if i >= 5 then map[key := 0] else map[], map[key := 0], map[0 := pc],
           if i >= 2 then map[0 := Process(key, port, if i >= 3 then Exited else Running, i >= 6, i >= 4)] else map[],
           if key == DefaultKey then 42101 else 42102)
  }

  lemma DeadStepLeads(key: Key, i: nat)
    requires i < 6
    ensures Enabled(DeadState(key, i), DeadStep(key, i))
    ensures Apply(DeadState(key, i), DeadStep(key, i)) == DeadState(key, i + 1)
  {
  }

  /** Its entry ends up stale and ready. */
  lemma DeadOnArrival(key: Key)
    ensures var states := seq(7, i requires i >= 0 => DeadState(key, i));
            var steps := seq(6, i requires i >= 0 => DeadStep(key, i));
            && IsRun(states, steps)
            && Stale(states[6], key) && states[6].procs[states[6].entries[key]].ready
  {
    forall i: nat | i < 6
      ensures Enabled(DeadState(key, i), DeadStep(key, i))
      ensures Apply(DeadState(key, i), DeadStep(key, i)) == DeadState(key, i + 1)
    {
      DeadStepLeads(key, i);
    }
    var end := DeadState(key, 6);
    assert end.entries == map[key := 0] && end.procs[0].ready && end.procs[0].reaped;
    assert DeadState(key, 0) == InitialPool;
    hide Apply, Enabled, DeadState, DeadStep;
  }
}
