/** Opening and closing a device's session on any number of servers: waitInit,
    createClient, closeClient and the start of a server in comet/server.go,
    CheckDevice, AddDevice and RemoveDevice in storage/redis.go. Every step is one
    access to shared state, so connections interleave anywhere between them. */
module Handover {

  datatype Phase =
    | Waiting                     // INIT received; loops while the local table has the device
    | Cleared                     // the local table did not have it
    | Scanning(left: set<string>) // CheckDevice: the servers not asked yet
    | Stored                      // AddDevice succeeded
    | Live                        // in the local table; runs until it is closed
    | Closing                     // closed: regapps are being removed
    | Unmapped                    // removed from the local table
    | Gone                        // refused or closed

  datatype Conn = Conn(server: nat, name: string, dev: string, phase: Phase, apps: set<string>)

  datatype Life = Starting | Up | Dead

  /** A server process. Another process may come up under the same name. */
  datatype Proc = Proc(name: string, life: Life)

  datatype State = State(
    procs: map<nat, Proc>,
    nodes: set<string>,                            // the comet_nodes set
    conns: map<nat, Conn>,
    devices: map<(nat, string), nat>,              // DevicesMap of each server
    presence: set<(string, string)>,               // the comet:<name> hashes
    regapps: map<(nat, string, string), nat>)      // regappMap of each server, by device and app

  datatype Step =
    | InitDevices(server: nat, name: string)  // a process starts and deletes what is present under its name
    | AddComet(server: nat, listed: bool)     // it accepts from now on, listed or not
    | Die(server: nat)
    | Accept(c: nat, server: nat, dev: string)
    | Kick(c: nat)                        // the device is in the table: mark the old client closed
    | Refuse(c: nat)                      // waited too long, or storage failed
    | Look(c: nat)                        // the device is not in the table
    | BeginCheck(c: nat)                  // SMEMBERS
    | Ask(c: nat, name: string)           // HEXISTS
    | AddDevice(c: nat, ok: bool, written: bool)
    | Map(c: nat)
    | Register(c: nat, app: string)
    | Unregister(c: nat, app: string)
    | BeginClose(c: nat)
    | DropApp(c: nat, app: string)
    | Unmap(c: nat)
    | RemoveDevice(c: nat, erased: bool)

  predicate Holds(p: Phase) {
    p.Stored? || p.Live? || p.Closing? || p.Unmapped?
  }

  /** A step of a server, not of a connection. */
  predicate OfServer(step: Step) {
    step.InitDevices? || step.AddComet? || step.Die?
  }

  ghost predicate Enabled(s: State, step: Step) {
    match step
    case InitDevices(p, _) => p !in s.procs
    case AddComet(p, _) => p in s.procs && s.procs[p].life == Starting
    case Die(p) => p in s.procs && s.procs[p].life != Dead
    case Accept(c, p, dev) => c !in s.conns && p in s.procs && s.procs[p].life == Up
    case Kick(c) => c in s.conns && s.conns[c].phase.Waiting? && Local(s, c)
    case Refuse(c) => c in s.conns && !Holds(s.conns[c].phase) && !s.conns[c].phase.Gone?
    case Look(c) => c in s.conns && s.conns[c].phase.Waiting? && !Local(s, c)
    case BeginCheck(c) => c in s.conns && s.conns[c].phase.Cleared?
    case Ask(c, name) => c in s.conns && s.conns[c].phase.Scanning? && name in s.conns[c].phase.left
    case AddDevice(c, ok, written) =>
      c in s.conns && s.conns[c].phase.Scanning? && s.conns[c].phase.left == {} && (ok ==> written)
    case Map(c) => c in s.conns && s.conns[c].phase.Stored?
    case Register(c, app) => c in s.conns && s.conns[c].phase.Live? && Key(s, c, app) !in s.regapps
    case Unregister(c, app) => c in s.conns && s.conns[c].phase.Live? && app in s.conns[c].apps
    case BeginClose(c) => c in s.conns && s.conns[c].phase.Live?
    case DropApp(c, app) => c in s.conns && s.conns[c].phase.Closing? && app in s.conns[c].apps
    case Unmap(c) => c in s.conns && s.conns[c].phase.Closing? && s.conns[c].apps == {}
    case RemoveDevice(c, _) => c in s.conns && s.conns[c].phase.Unmapped?
  }

  ghost predicate Local(s: State, c: nat)
    requires c in s.conns
  {
    (s.conns[c].server, s.conns[c].dev) in s.devices
  }

  function Key(s: State, c: nat, app: string): (nat, string, string)
    requires c in s.conns
  {
    (s.conns[c].server, s.conns[c].dev, app)
  }

  function SetPhase(s: State, c: nat, p: Phase): State
    requires c in s.conns
  {
    s.(conns := s.conns[c := s.conns[c].(phase := p)])
  }

  function SetApps(s: State, c: nat, apps: set<string>): State
    requires c in s.conns
  {
    s.(conns := s.conns[c := s.conns[c].(apps := apps)])
  }

  /** The entries of a connection's device under its server's name. */
  function Presence(s: State, c: nat): (string, string)
    requires c in s.conns
  {
    (s.conns[c].name, s.conns[c].dev)
  }

  ghost function Next(s: State, step: Step): State
    requires Enabled(s, step)
  {
    match step
    case InitDevices(p, name) =>
      s.(procs := s.procs[p := Proc(name, Starting)], presence := set k | k in s.presence && k.0 != name)
    case AddComet(p, listed) =>
      var t := s.(procs := s.procs[p := s.procs[p].(life := Up)]);
      if listed then t.(nodes := s.nodes + {s.procs[p].name}) else t
    case Die(p) =>
      State(s.procs[p := s.procs[p].(life := Dead)],
            s.nodes,
            map c | c in s.conns ::
              if s.conns[c].server == p then s.conns[c].(phase := Gone, apps := {}) else s.conns[c],
            map k | k in s.devices && k.0 != p :: s.devices[k],
            s.presence,
            map k | k in s.regapps && k.0 != p :: s.regapps[k])
    case Accept(c, p, dev) => s.(conns := s.conns[c := Conn(p, s.procs[p].name, dev, Waiting, {})])
    case Kick(_) => s
    case Refuse(c) => SetPhase(s, c, Gone)
    case Look(c) => SetPhase(s, c, Cleared)
    case BeginCheck(c) => SetPhase(s, c, Scanning(s.nodes))
    case Ask(c, name) =>
      if (name, s.conns[c].dev) in s.presence then SetPhase(s, c, Gone)
      else SetPhase(s, c, Scanning(s.conns[c].phase.left - {name}))
    case AddDevice(c, ok, written) =>
      var t := SetPhase(s, c, if ok then Stored else Gone);
      if written then t.(presence := t.presence + {Presence(s, c)}) else t
    case Map(c) =>
      SetPhase(s, c, Live).(devices := s.devices[(s.conns[c].server, s.conns[c].dev) := c])
    case Register(c, app) =>
      SetApps(s, c, s.conns[c].apps + {app}).(regapps := s.regapps[Key(s, c, app) := c])
    case Unregister(c, app) =>
      SetApps(s, c, s.conns[c].apps - {app}).(regapps := s.regapps - {Key(s, c, app)})
    case BeginClose(c) => SetPhase(s, c, Closing)
    case DropApp(c, app) =>
      SetApps(s, c, s.conns[c].apps - {app}).(regapps := s.regapps - {Key(s, c, app)})
    case Unmap(c) =>
      SetPhase(s, c, Unmapped).(devices := s.devices - {(s.conns[c].server, s.conns[c].dev)})
    case RemoveDevice(c, erased) =>
      var t := SetPhase(s, c, Gone);
      if erased then t.(presence := t.presence - {Presence(s, c)}) else t
  }

  /** While one connection is between asking for a device and storing it, no
      other connection starts asking for that device. */
  ghost predicate NoOverlap(s: State, step: Step) {
    step.BeginCheck? && step.c in s.conns ==>
      forall d :: d in s.conns && d != step.c && s.conns[d].phase.Scanning? ==> s.conns[d].dev != s.conns[step.c].dev
  }

  /** A server that accepts is in comet_nodes. */
  ghost predicate Listed(s: State, step: Step) {
    step.Accept? && step.server in s.procs ==> s.procs[step.server].name in s.nodes
  }

  /** A process does not take the name of one that is running. */
  ghost predicate OwnName(s: State, step: Step) {
    step.InitDevices? ==> forall p :: p in s.procs && s.procs[p].name == step.name ==> s.procs[p].life == Dead
  }

  /** Which of the three assumptions are made. */
  datatype Assume = Assume(noOverlap: bool, listed: bool, ownNames: bool)

  ghost predicate Obeys(a: Assume, s: State, step: Step) {
    && (a.noOverlap ==> NoOverlap(s, step))
    && (a.listed ==> Listed(s, step))
    && (a.ownNames ==> OwnName(s, step))
  }

  /** A run, with all its states. */
  ghost predicate Trace(a: Assume, states: seq<State>, steps: seq<Step>) {
    && |states| == |steps| + 1
    && (forall i :: 0 <= i < |steps| ==>
          Enabled(states[i], steps[i]) && Obeys(a, states[i], steps[i]) && states[i + 1] == Next(states[i], steps[i]))
  }

  /** No process has started. */
  ghost predicate Fresh(s: State) {
    s.procs == map[] && s.conns == map[] && s.devices == map[] && s.regapps == map[]
  }

  ghost predicate Initial(s: State) {
    Fresh(s) && forall k :: k in s.presence ==> k.0 in s.nodes
  }

  /** A connection that has stored its device is the only one, and its
      server the only place where the device is present. */
  ghost predicate SoleHolder(s: State, c: nat)
    requires c in s.conns
  {
    Holds(s.conns[c].phase) ==>
      && (forall n :: n in s.nodes ==> ((n, s.conns[c].dev) in s.presence <==> n == s.conns[c].name))
      && (forall d :: d in s.conns && d != c && Holds(s.conns[d].phase) ==> s.conns[d].dev != s.conns[c].dev)
  }

  /** Wherever the device is present, a connection that is asking has yet to ask;
      and no other connection is asking for it. */
  ghost predicate SoleAsker(s: State, c: nat)
    requires c in s.conns
  {
    s.conns[c].phase.Scanning? ==>
      && s.conns[c].phase.left <= s.nodes
      && (forall n :: (n, s.conns[c].dev) in s.presence ==> n in s.conns[c].phase.left)
      && (forall d :: d in s.conns && d != c && s.conns[d].phase.Scanning? ==> s.conns[d].dev != s.conns[c].dev)
  }

  /** A session's entries in the tables of its server are its own. */
  ghost predicate OwnEntries(s: State, c: nat)
    requires c in s.conns
  {
    var conn := s.conns[c];
    && (conn.phase.Live? || conn.phase.Closing? ==> Local(s, c) && s.devices[(conn.server, conn.dev)] == c)
    && (!(conn.phase.Live? || conn.phase.Closing?) ==> conn.apps == {})
    && (forall app :: app in conn.apps ==> Key(s, c, app) in s.regapps && s.regapps[Key(s, c, app)] == c)
  }

  /** A connection that is not over belongs to a running, listed server. */
  ghost predicate Served(s: State, c: nat)
    requires c in s.conns
  {
    && s.conns[c].name in s.nodes
    && (s.conns[c].phase != Gone ==>
          s.conns[c].server in s.procs && s.procs[s.conns[c].server] == Proc(s.conns[c].name, Up))
  }

  /** Every table entry belongs to a session that has not left the table. */
  ghost predicate DeviceEntries(s: State) {
    forall k :: k in s.devices ==>
      s.devices[k] in s.conns &&
      var conn := s.conns[s.devices[k]];
      k == (conn.server, conn.dev) && (conn.phase.Live? || conn.phase.Closing?)
  }

  ghost predicate AppEntries(s: State) {
    forall k :: k in s.regapps ==>
      s.regapps[k] in s.conns &&
      var conn := s.conns[s.regapps[k]];
      k.0 == conn.server && k.1 == conn.dev && k.2 in conn.apps
  }

  ghost predicate Inv(s: State) {
    && (forall k :: k in s.presence ==> k.0 in s.nodes)
    && (forall c :: c in s.conns ==> Served(s, c))
    && (forall c :: c in s.conns ==> SoleHolder(s, c))
    && (forall c :: c in s.conns ==> SoleAsker(s, c))
    && (forall c :: c in s.conns ==> OwnEntries(s, c))
    && DeviceEntries(s)
    && AppEntries(s)
  }

  const ALL := Assume(true, true, true)

  /** A step of a connection leaves every other connection as it is, and every
      entry that is not under its own server and device. */
  lemma OthersFrame(s: State, step: Step)
    requires Enabled(s, step) && !OfServer(step)
    ensures var t := Next(s, step);
            && t.procs == s.procs && t.nodes == s.nodes && step.c in t.conns && s.conns.Keys <= t.conns.Keys
            && (forall d :: d != step.c ==> (d in t.conns <==> d in s.conns))
            && (forall d :: d != step.c && d in s.conns ==> t.conns[d] == s.conns[d])
  {
  }

  lemma AccessFrame(s: State, step: Step)
    requires Enabled(s, step) && !OfServer(step)
    ensures var t := Next(s, step);
            && step.c in t.conns
            && (t.presence != s.presence ==> step.AddDevice? || (step.RemoveDevice? && t.presence <= s.presence))
            && (Holds(t.conns[step.c].phase) ==> step.AddDevice? || (step.c in s.conns && Holds(s.conns[step.c].phase)))
            && (t.conns[step.c].phase.Scanning? ==>
                  step.BeginCheck? || (step.c in s.conns && s.conns[step.c].phase.Scanning?))
  {
  }

  lemma EntriesFrame(s: State, step: Step)
    requires Enabled(s, step) && !OfServer(step)
    ensures var t := Next(s, step);
            && (step.c in s.conns ==> var conn := s.conns[step.c];
                  && t.conns[step.c].(phase := conn.phase, apps := conn.apps) == conn
                  && (forall k :: k != (conn.server, conn.dev) ==> (k in t.devices <==> k in s.devices))
                  && (forall k :: k != (conn.server, conn.dev) && k in s.devices ==> t.devices[k] == s.devices[k])
                  && (forall k: (nat, string, string) :: (k.0, k.1) != (conn.server, conn.dev) ==>
                        (k in t.regapps <==> k in s.regapps))
                  && (forall k: (nat, string, string) :: (k.0, k.1) != (conn.server, conn.dev) && k in s.regapps ==>
                        t.regapps[k] == s.regapps[k])
                  && (forall k :: k != (conn.name, conn.dev) ==> (k in t.presence <==> k in s.presence)))
            && (step.c !in s.conns ==> t.devices == s.devices && t.regapps == s.regapps && t.presence == s.presence)
  {
  }

  lemma HolderActs(s: State, step: Step)
    requires Inv(s) && Enabled(s, step) && Obeys(ALL, s, step) && !OfServer(step) && !step.AddDevice?
    ensures step.c in Next(s, step).conns && SoleHolder(Next(s, step), step.c)
  {
    hide Next, Enabled, DeviceEntries, AppEntries, OwnEntries, Served, SoleAsker;
    OthersFrame(s, step);
    EntriesFrame(s, step);
    AccessFrame(s, step);
    if step.RemoveDevice? {
      LetsGo(s, step);
    }
    if step.c in s.conns {
      assert SoleHolder(s, step.c);
    }
  }

  lemma LetsGo(s: State, step: Step)
    requires Enabled(s, step) && step.RemoveDevice?
    ensures s.conns[step.c].phase.Unmapped? && Next(s, step).conns[step.c].phase.Gone?
  {
  }

  /** A device is stored only after its connection has asked everywhere. */
  lemma HolderAdds(s: State, step: Step, c: nat)
    requires Inv(s) && Enabled(s, step) && step.AddDevice? && c in s.conns
    ensures c in Next(s, step).conns && SoleHolder(Next(s, step), c)
  {
    hide DeviceEntries, AppEntries, OwnEntries;
    assert SoleHolder(s, c) && SoleAsker(s, step.c) && Served(s, c) && Served(s, step.c);
  }

  lemma HolderWatches(s: State, step: Step, c: nat)
    requires Inv(s) && Enabled(s, step) && !OfServer(step) && !step.AddDevice? && c in s.conns && c != step.c
    ensures c in Next(s, step).conns && SoleHolder(Next(s, step), c)
  {
    hide Next, Enabled, DeviceEntries, AppEntries, OwnEntries, SoleAsker, Served;
    OthersFrame(s, step);
    EntriesFrame(s, step);
    AccessFrame(s, step);
    if step.RemoveDevice? {
      LetsGo(s, step);
    }
    assert SoleHolder(s, c);
  }

  lemma AskerActs(s: State, step: Step)
    requires Inv(s) && Enabled(s, step) && Obeys(ALL, s, step) && !OfServer(step)
    ensures step.c in Next(s, step).conns && SoleAsker(Next(s, step), step.c)
  {
    hide DeviceEntries, AppEntries, OwnEntries, SoleHolder, Served;
    if step.c in s.conns {
      assert SoleAsker(s, step.c);
    }
  }

  lemma AskerWatches(s: State, step: Step, c: nat)
    requires Inv(s) && Enabled(s, step) && Obeys(ALL, s, step) && !OfServer(step) && c in s.conns && c != step.c
    ensures c in Next(s, step).conns && SoleAsker(Next(s, step), c)
  {
    hide Next, DeviceEntries, AppEntries, OwnEntries, SoleHolder, Served;
    OthersFrame(s, step);
    EntriesFrame(s, step);
    AccessFrame(s, step);
    assert SoleAsker(s, c);
  }

  lemma OwnerActs(s: State, step: Step)
    requires Inv(s) && Enabled(s, step) && !OfServer(step)
    ensures step.c in Next(s, step).conns && OwnEntries(Next(s, step), step.c)
  {
    hide Next, SoleAsker, DeviceEntries, AppEntries, SoleHolder, Served;
    EntriesFrame(s, step);
    AccessFrame(s, step);
    TableFrame(s, step);
    PhaseFrame(s, step);
    if step.c in s.conns {
      AppsFrame(s, step);
      assert OwnEntries(s, step.c);
    }
  }

  /** Which steps lead into and out of the local table. */
  lemma PhaseFrame(s: State, step: Step)
    requires Enabled(s, step) && !OfServer(step)
    ensures var t := Next(s, step);
            && (t.conns[step.c].phase.Live? || t.conns[step.c].phase.Closing? ==>
                  step.Map? || (step.c in s.conns && (s.conns[step.c].phase.Live? || s.conns[step.c].phase.Closing?)
                      && !step.Unmap?))
            && (step.Accept? ==> t.conns[step.c].apps == {} && t.conns[step.c].phase.Waiting?)
  {
  }

  /** Entries are removed only under the remover's own server and device. */
  lemma OwnerWatches(s: State, step: Step, c: nat)
    requires Inv(s) && Enabled(s, step) && !OfServer(step) && c in s.conns && c != step.c
    ensures c in Next(s, step).conns && OwnEntries(Next(s, step), c)
  {
    hide Next, SoleAsker, DeviceEntries, AppEntries, Served;
    OthersFrame(s, step);
    EntriesFrame(s, step);
    AccessFrame(s, step);
    TableFrame(s, step);
    if step.c in s.conns {
      AppsFrame(s, step);
    }
    assert OwnEntries(s, c) && SoleHolder(s, c);
  }

  lemma DevicesStep(s: State, step: Step)
    requires Inv(s) && Enabled(s, step) && !OfServer(step)
    ensures DeviceEntries(Next(s, step))
  {
    hide SoleAsker, SoleHolder, OwnEntries, AppEntries, Served;
    OthersFrame(s, step);
    var t := Next(s, step);
    forall k | k in t.devices
      ensures t.devices[k] in t.conns
      ensures var conn := t.conns[t.devices[k]];
              k == (conn.server, conn.dev) && (conn.phase.Live? || conn.phase.Closing?)
    {
      DeviceEntry(s, step, k);
    }
    hide Next;
  }

  /** A connection's phase while it is in the local table. */
  lemma TableFrame(s: State, step: Step)
    requires Enabled(s, step) && !OfServer(step)
    ensures var t := Next(s, step);
            && (step.Map? ==>
                  t.devices == s.devices[(s.conns[step.c].server, s.conns[step.c].dev) := step.c]
                      && t.conns[step.c].phase.Live?)
            && (step.Unmap? ==> t.devices == s.devices - {(s.conns[step.c].server, s.conns[step.c].dev)})
            && (!step.Map? && !step.Unmap? ==> t.devices == s.devices)
            && (step.c in s.conns && !step.Unmap? && (s.conns[step.c].phase.Live? || s.conns[step.c].phase.Closing?) ==>
                  t.conns[step.c].phase.Live? || t.conns[step.c].phase.Closing?)
  {
  }

  lemma DeviceEntry(s: State, step: Step, k: (nat, string))
    requires DeviceEntries(s) && Enabled(s, step) && !OfServer(step) && k in Next(s, step).devices
    ensures var t := Next(s, step);
            t.devices[k] in t.conns &&
            var conn := t.conns[t.devices[k]];
            k == (conn.server, conn.dev) && (conn.phase.Live? || conn.phase.Closing?)
  {
    hide Next, Enabled;
    TableFrame(s, step);
    OthersFrame(s, step);
    EntriesFrame(s, step);
    AccessFrame(s, step);
    InConns(s, step);
  }

  lemma InConns(s: State, step: Step)
    requires Enabled(s, step) && !OfServer(step)
    ensures step.c in s.conns <==> !step.Accept?
  {
  }

  lemma AppsStep(s: State, step: Step)
    requires Inv(s) && Enabled(s, step) && !OfServer(step)
    ensures AppEntries(Next(s, step))
  {
    hide SoleAsker, DeviceEntries, SoleHolder, Served, OwnEntries;
    var t := Next(s, step);
    forall k | k in t.regapps
      ensures t.regapps[k] in t.conns
      ensures var conn := t.conns[t.regapps[k]]; k.0 == conn.server && k.1 == conn.dev && k.2 in conn.apps
    {
      AppEntry(s, step, k);
    }
    hide Next;
  }

  /** What a step does to its connection's apps. */
  lemma AppsFrame(s: State, step: Step)
    requires Enabled(s, step) && !OfServer(step) && step.c in s.conns
    ensures var t, conn := Next(s, step), s.conns[step.c];
            if step.Register? then
              t.regapps == s.regapps[(conn.server, conn.dev, step.app) := step.c]
                  && t.conns[step.c].apps == conn.apps + {step.app}
            else if step.Unregister? || step.DropApp? then
              t.regapps == s.regapps - {(conn.server, conn.dev, step.app)}
                  && t.conns[step.c].apps == conn.apps - {step.app}
            else t.regapps == s.regapps && t.conns[step.c].apps == conn.apps
  {
  }

  lemma AppEntry(s: State, step: Step, k: (nat, string, string))
    requires AppEntries(s) && Enabled(s, step) && !OfServer(step) && k in Next(s, step).regapps
    ensures var t := Next(s, step);
            t.regapps[k] in t.conns &&
            var conn := t.conns[t.regapps[k]];
            k.0 == conn.server && k.1 == conn.dev && k.2 in conn.apps
  {
    hide Next, Enabled;
    OthersFrame(s, step);
    EntriesFrame(s, step);
    AccessFrame(s, step);
    InConns(s, step);
    if step.c in s.conns {
      AppsFrame(s, step);
    }
  }

  lemma ServedStep(s: State, step: Step)
    requires Inv(s) && Enabled(s, step) && Obeys(ALL, s, step) && !OfServer(step)
    ensures var t := Next(s, step);
            && (forall k :: k in t.presence ==> k.0 in t.nodes)
            && (forall c :: c in t.conns ==> Served(t, c))
  {
    hide SoleAsker, DeviceEntries, AppEntries, SoleHolder, OwnEntries;
    if step.c in s.conns {
      assert Served(s, step.c);
    }
  }

  /** A process that starts takes away only what dead ones left behind. */
  lemma StartStep(s: State, step: Step)
    requires Inv(s) && Enabled(s, step) && Obeys(ALL, s, step) && step.InitDevices?
    ensures Inv(Next(s, step))
  {
    var t := Next(s, step);
    forall c | c in t.conns
      ensures Served(t, c) && SoleHolder(t, c) && SoleAsker(t, c) && OwnEntries(t, c)
    {
      assert Served(s, c) && SoleHolder(s, c) && SoleAsker(s, c) && OwnEntries(s, c);
    }
  }

  lemma ListConn(s: State, step: Step, c: nat)
    requires Inv(s) && Enabled(s, step) && step.AddComet? && c in s.conns
    ensures var t := Next(s, step); Served(t, c) && SoleHolder(t, c) && SoleAsker(t, c) && OwnEntries(t, c)
  {
    hide DeviceEntries, AppEntries;
    assert Served(s, c) && SoleHolder(s, c) && SoleAsker(s, c) && OwnEntries(s, c);
  }

  lemma ListStep(s: State, step: Step)
    requires Inv(s) && Enabled(s, step) && step.AddComet?
    ensures Inv(Next(s, step))
  {
    hide Served, SoleHolder, SoleAsker, OwnEntries;
    forall c | c in s.conns
      ensures var t := Next(s, step); Served(t, c) && SoleHolder(t, c) && SoleAsker(t, c) && OwnEntries(t, c)
    {
      ListConn(s, step, c);
    }
  }

  lemma DieFrame(s: State, p: nat)
    requires Enabled(s, Die(p))
    ensures var t := Next(s, Die(p));
            && t.conns.Keys == s.conns.Keys && t.nodes == s.nodes && t.presence == s.presence
            && (forall c :: c in s.conns ==>
                  t.conns[c] == if s.conns[c].server == p then s.conns[c].(phase := Gone, apps := {}) else s.conns[c])
            && (forall q :: q != p ==> (q in t.procs <==> q in s.procs) && (q in s.procs ==> t.procs[q] == s.procs[q]))
            && (forall k :: k in t.devices <==> k in s.devices && k.0 != p)
            && (forall k :: k in t.regapps <==> k in s.regapps && k.0 != p)
            && (forall k :: k in t.devices ==> t.devices[k] == s.devices[k])
            && (forall k :: k in t.regapps ==> t.regapps[k] == s.regapps[k])
  {
  }

  lemma DieConn(s: State, p: nat, c: nat)
    requires Inv(s) && Enabled(s, Die(p)) && c in s.conns
    ensures var t := Next(s, Die(p));
            c in t.conns && Served(t, c) && SoleHolder(t, c) && SoleAsker(t, c) && OwnEntries(t, c)
  {
    hide Next, DeviceEntries, AppEntries;
    DieFrame(s, p);
    assert Served(s, c) && SoleHolder(s, c) && SoleAsker(s, c) && OwnEntries(s, c);
  }

  /** What is present under a dead server's name stays until the name is used again. */
  lemma DieStep(s: State, p: nat)
    requires Inv(s) && Enabled(s, Die(p))
    ensures Inv(Next(s, Die(p)))
  {
    hide Next, Enabled, Served, SoleHolder, SoleAsker, OwnEntries;
    DieFrame(s, p);
    forall c | c in s.conns
      ensures var t := Next(s, Die(p));
              c in t.conns && Served(t, c) && SoleHolder(t, c) && SoleAsker(t, c) && OwnEntries(t, c)
    {
      DieConn(s, p, c);
    }
  }

  lemma ConnStep(s: State, step: Step, c: nat)
    requires Inv(s) && Enabled(s, step) && Obeys(ALL, s, step) && !OfServer(step) && c in Next(s, step).conns
    ensures var t := Next(s, step); SoleHolder(t, c) && SoleAsker(t, c) && OwnEntries(t, c)
  {
    hide Next, Enabled, Obeys, Inv, SoleHolder, SoleAsker, OwnEntries;
    OthersFrame(s, step);
    InConns(s, step);
    if c == step.c {
      AskerActs(s, step);
      OwnerActs(s, step);
    } else {
      AskerWatches(s, step, c);
      OwnerWatches(s, step, c);
    }
    if step.AddDevice? {
      HolderAdds(s, step, c);
    } else if c == step.c {
      HolderActs(s, step);
    } else {
      HolderWatches(s, step, c);
    }
  }

  lemma InvStep(s: State, step: Step)
    requires Inv(s) && Enabled(s, step) && Obeys(ALL, s, step)
    ensures Inv(Next(s, step))
  {
    hide Next, Enabled, Obeys, Served, SoleHolder, SoleAsker, OwnEntries, DeviceEntries, AppEntries;
    if step.InitDevices? {
      StartStep(s, step);
    } else if step.AddComet? {
      ListStep(s, step);
    } else if step.Die? {
      DieStep(s, step.server);
    } else {
      ServedStep(s, step);
      DevicesStep(s, step);
      AppsStep(s, step);
      forall c | c in Next(s, step).conns
        ensures SoleHolder(Next(s, step), c) && SoleAsker(Next(s, step), c) && OwnEntries(Next(s, step), c)
      {
        ConnStep(s, step, c);
      }
    }
  }

  lemma {:induction false} InvFrom(states: seq<State>, steps: seq<Step>, i: nat)
    requires Trace(ALL, states, steps) && Inv(states[0]) && i <= |steps|
    ensures Inv(states[i])
  {
    if i > 0 {
      InvFrom(states, steps, i - 1);
      var j := i - 1;
      assert Enabled(states[j], steps[j]) && Obeys(ALL, states[j], steps[j])
          && states[j + 1] == Next(states[j], steps[j]);
      InvStep(states[j], steps[j]);
    }
  }

  lemma InvTrace(states: seq<State>, steps: seq<Step>, i: nat)
    requires Trace(ALL, states, steps) && Initial(states[0]) && i <= |steps|
    ensures Inv(states[i])
  {
    InvFrom(states, steps, i);
  }

  /** Under the three assumptions there is at most one session per device on all
      servers together; from the moment a new one has stored its device, no table
      entry of an older one is left anywhere and the device is present on its
      server only. */
  lemma OneSessionPerDevice(states: seq<State>, steps: seq<Step>, c: nat)
    requires Trace(ALL, states, steps) && Initial(states[0])
    requires c in states[|steps|].conns && Holds(states[|steps|].conns[c].phase)
    ensures
      var t := states[|steps|];
      var dev := t.conns[c].dev;
      && (forall d :: d in t.conns && Holds(t.conns[d].phase) && t.conns[d].dev == dev ==> d == c)
      && (forall k :: k in t.devices && k.1 == dev ==> t.devices[k] == c)
      && (forall k :: k in t.regapps && k.1 == dev ==> t.regapps[k] == c)
      && (t.conns[c].phase.Stored? ==>
            (forall k :: k in t.devices ==> k.1 != dev) && (forall k :: k in t.regapps ==> k.1 != dev))
      && (forall k :: k in t.presence && k.1 == dev ==> k.0 == t.conns[c].name)
  {
    InvTrace(states, steps, |steps|);
    hide Next, Enabled, Trace;
    var t := states[|steps|];
    assert SoleHolder(t, c) && OwnEntries(t, c);
    forall k | k in t.regapps && k.1 == t.conns[c].dev
      ensures t.regapps[k] == c
    {
      var d := t.regapps[k];
      assert OwnEntries(t, d);
    }
  }

  /** The steps of closing a session erase nothing of any other session. */
  lemma CloseErasesOwn(states: seq<State>, steps: seq<Step>, step: Step)
    requires Trace(ALL, states, steps) && Initial(states[0]) && Enabled(states[|steps|], step)
    requires step.DropApp? || step.Unmap? || step.RemoveDevice?
    ensures
      var t := states[|steps|];
      var u := Next(t, step);
      && (forall k :: k in t.devices && t.devices[k] != step.c ==> k in u.devices && u.devices[k] == t.devices[k])
      && (forall k :: k in t.regapps && t.regapps[k] != step.c ==> k in u.regapps && u.regapps[k] == t.regapps[k])
      && (forall d :: d in t.conns && d != step.c && Holds(t.conns[d].phase) ==> Presence(t, d) in u.presence)
  {
    var t := states[|steps|];
    InvTrace(states, steps, |steps|);
    CloseKeepsTables(t, step);
    forall d | d in t.conns && d != step.c && Holds(t.conns[d].phase)
      ensures Presence(t, d) in Next(t, step).presence
    {
      ClosePresence(t, step, d);
    }
    hide Next, Enabled, Trace, Inv;
  }

  lemma ClosePresence(t: State, step: Step, d: nat)
    requires step.DropApp? || step.Unmap? || step.RemoveDevice?
    requires Inv(t) && Enabled(t, step) && d in t.conns && d != step.c && Holds(t.conns[d].phase)
    ensures Presence(t, d) in Next(t, step).presence
  {
    hide Next, DeviceEntries, AppEntries, OwnEntries, SoleAsker;
    HolderWatches(t, step, d);
    OthersFrame(t, step);
    assert Served(t, d);
  }

  lemma CloseKeepsTables(t: State, step: Step)
    requires Inv(t) && Enabled(t, step)
    requires step.DropApp? || step.Unmap? || step.RemoveDevice?
    ensures var u := Next(t, step);
            && (forall k :: k in t.devices && t.devices[k] != step.c ==> k in u.devices && u.devices[k] == t.devices[k])
            && (forall k :: k in t.regapps && t.regapps[k] != step.c ==> k in u.regapps && u.regapps[k] == t.regapps[k])
  {
    hide SoleAsker, DeviceEntries, AppEntries, SoleHolder, Served;
    assert OwnEntries(t, step.c);
  }

  /** Two sessions hold one device. */
  ghost predicate Rivals(s: State, c: nat, d: nat) {
    && c != d && c in s.conns && d in s.conns && s.conns[c].dev == s.conns[d].dev
    && Holds(s.conns[c].phase) && Holds(s.conns[d].phase)
  }

  ghost predicate Doubled(s: State) {
    exists c, d :: Rivals(s, c, d)
  }

  /** At step k connection c stores its device although d holds it: c was not told
      of d's server, or had asked it before d stored the device there, or asked
      it after another process had deleted what d stored. */
  ghost predicate Slips(states: seq<State>, steps: seq<Step>, k: nat, c: nat, d: nat)
    requires |states| == |steps| + 1
  {
    && k < |steps| && steps[k].AddDevice? && steps[k].ok && steps[k].c == c
    && c != d && c in states[k].conns && d in states[k].conns && states[k].conns[c].dev == states[k].conns[d].dev
    && Holds(states[k].conns[d].phase)
    && (NotTold(states, steps, k, c, states[k].conns[d].name)
        || AskedBefore(states, steps, k, c, d, states[k].conns[d].name)
        || AskedAfter(states, steps, k, c, d, states[k].conns[d].name))
  }

  ghost predicate NotTold(states: seq<State>, steps: seq<Step>, k: nat, c: nat, name: string)
    requires |states| == |steps| + 1
  {
    exists b :: 0 <= b < k && b < |steps| && steps[b] == BeginCheck(c) && name !in states[b].nodes
  }

  ghost predicate AskedBefore(states: seq<State>, steps: seq<Step>, k: nat, c: nat, d: nat, name: string)
    requires |states| == |steps| + 1
  {
    exists i, j :: 0 <= i < j < k && k <= |steps| && steps[i] == Ask(c, name) && steps[j] == AddDevice(d, true, true)
  }

  ghost predicate AskedAfter(states: seq<State>, steps: seq<Step>, k: nat, c: nat, d: nat, name: string)
    requires |states| == |steps| + 1
  {
    exists e, i ::
      0 <= e < i < k && k <= |steps| && steps[i] == Ask(c, name) && Deletes(steps[e], name)
      && d in states[e].conns && Holds(states[e].conns[d].phase)
  }

  predicate Deletes(step: Step, name: string) {
    step.InitDevices? && step.name == name
  }

  const NONE := Assume(false, false, false)

  lemma TraceAt(a: Assume, states: seq<State>, steps: seq<Step>, i: nat)
    requires Trace(a, states, steps) && i < |steps|
    ensures Enabled(states[i], steps[i]) && states[i + 1] == Next(states[i], steps[i])
  {
  }

  /** Who becomes a rival has just stored its device. */
  lemma NewRival(s: State, step: Step, c: nat, d: nat)
    requires Enabled(s, step) && Rivals(Next(s, step), c, d) && !Doubled(s)
    ensures step.AddDevice? && step.ok && step.c in {c, d}
    ensures var other := if step.c == c then d else c;
            other in s.conns && Holds(s.conns[other].phase) && step.c in s.conns
                && s.conns[step.c].dev == s.conns[other].dev
  {
    assert !Rivals(s, c, d);
    if step.Die? {
      DieFrame(s, step.server);
      hide Next;
    } else if !OfServer(step) {
      OthersFrame(s, step);
    }
  }

  /** A connection that is asking began once, and has asked every server it was
      told of that is not left. */
  lemma {:induction false} Asking(states: seq<State>, steps: seq<Step>, k: nat, c: nat) returns (b: nat)
    requires Trace(NONE, states, steps) && Fresh(states[0]) && k <= |steps|
    requires c in states[k].conns && states[k].conns[c].phase.Scanning?
    ensures b < k && steps[b] == BeginCheck(c)
    ensures forall n :: n in states[b].nodes && n !in states[k].conns[c].phase.left ==>
              exists i :: b < i < k && Asked(states, steps, i, k, c, n)
    decreases k
  {
    if k == 0 {
      assert false;
    }
    TraceAt(NONE, states, steps, k - 1);
    var s, t, step := states[k - 1], states[k], steps[k - 1];
    if step == BeginCheck(c) {
      BeginsAsking(s, c);
      b := k - 1;
    } else {
      StillAsking(s, step, c);
      b := Asking(states, steps, k - 1, c);
      forall n | n in states[b].nodes && n !in t.conns[c].phase.left
        ensures exists i :: b < i < k && Asked(states, steps, i, k, c, n)
      {
        if n in s.conns[c].phase.left {
          assert Asked(states, steps, k - 1, k, c, n);
        } else {
          var i :| b < i < k - 1 && Asked(states, steps, i, k - 1, c, n);
          assert Asked(states, steps, i, k, c, n);
        }
      }
    }
  }

  /** At step i, connection c was told that its device is not present under the name. */
  ghost predicate Asked(states: seq<State>, steps: seq<Step>, i: int, k: nat, c: nat, n: string) {
    && 0 <= i < k <= |steps| && |states| == |steps| + 1
    && steps[i] == Ask(c, n) && c in states[i].conns && c in states[k].conns
    && states[i].conns[c].dev == states[k].conns[c].dev && (n, states[k].conns[c].dev) !in states[i].presence
  }

  lemma BeginsAsking(s: State, c: nat)
    requires Enabled(s, BeginCheck(c))
    ensures Next(s, BeginCheck(c)).conns[c].phase == Scanning(s.nodes)
  {
  }

  lemma StillAsking(s: State, step: Step, c: nat)
    requires Enabled(s, step) && step != BeginCheck(c)
    requires c in Next(s, step).conns && Next(s, step).conns[c].phase.Scanning?
    ensures c in s.conns && s.conns[c].phase.Scanning? && s.conns[c].dev == Next(s, step).conns[c].dev
    ensures var left := Next(s, step).conns[c].phase.left;
            || left == s.conns[c].phase.left
            || (step.Ask? && step.c == c && left == s.conns[c].phase.left - {step.name}
                && (step.name, s.conns[c].dev) !in s.presence)
  {
    if step.Die? {
      DieFrame(s, step.server);
      hide Next;
    } else if !OfServer(step) && step.c != c {
      OthersFrame(s, step);
      hide Next;
    }
  }

  /** A session that holds its device stored it once and has held it since; what
      it stored is there until another process deletes it, while nobody else
      holds the device. */
  lemma {:induction false} Holding(states: seq<State>, steps: seq<Step>, k: nat, d: nat) returns (j: nat)
    requires Trace(NONE, states, steps) && Fresh(states[0]) && k <= |steps|
    requires d in states[k].conns && Holds(states[k].conns[d].phase)
    requires forall m :: 0 <= m <= k ==> !Doubled(states[m])
    ensures j < k && steps[j] == AddDevice(d, true, true)
    ensures forall m :: j < m <= k ==> Held(states, m, k, d)
    ensures forall m :: j < m <= k ==> Kept(states, steps, j, m, Presence(states[k], d))
    decreases k
  {
    hide Next, Enabled, Doubled, Held, Kept;
    if k == 0 {
      assert false;
    }
    TraceAt(NONE, states, steps, k - 1);
    if steps[k - 1].AddDevice? && steps[k - 1].c == d {
      Stores(states[k - 1], steps[k - 1]);
      j := k - 1;
      HeldNow(states, steps, k, d);
    } else {
      StillHolding(states[k - 1], steps[k - 1], d);
      j := Holding(states, steps, k - 1, d);
      forall m | j < m <= k
        ensures Held(states, m, k, d) && Kept(states, steps, j, m, Presence(states[k], d))
      {
        HeldLonger(states, steps, j, m, k, d);
      }
    }
  }

  /** Present, or deleted between steps j and m. */
  ghost predicate Kept(states: seq<State>, steps: seq<Step>, j: nat, m: int, key: (string, string)) {
    && 0 <= m < |states|
    && (key in states[m].presence || exists e :: j < e < m && e < |steps| && Deletes(steps[e], key.0))
  }

  lemma HeldNow(states: seq<State>, steps: seq<Step>, k: nat, d: nat)
    requires 0 < k < |states| && d in states[k].conns && Holds(states[k].conns[d].phase)
    requires Presence(states[k], d) in states[k].presence
    ensures Held(states, k, k, d) && Kept(states, steps, k - 1, k, Presence(states[k], d))
  {
  }

  lemma HeldLonger(states: seq<State>, steps: seq<Step>, j: nat, m: nat, k: nat, d: nat)
    requires j < m <= k && 0 < k < |states| && k <= |steps| && j < k - 1
    requires d in states[k].conns && d in states[k - 1].conns && Holds(states[k].conns[d].phase)
    requires Presence(states[k - 1], d) == Presence(states[k], d)
    requires if m < k then Held(states, m, k - 1, d) && Kept(states, steps, j, m, Presence(states[k], d))
             else Kept(states, steps, j, k - 1, Presence(states[k], d))
    requires Presence(states[k], d) in states[k - 1].presence ==>
               Presence(states[k], d) in states[k].presence || Deletes(steps[k - 1], states[k].conns[d].name)
    ensures Held(states, m, k, d) && Kept(states, steps, j, m, Presence(states[k], d))
  {
    var key := Presence(states[k], d);
    if m == k && key !in states[k].presence {
      if key in states[k - 1].presence {
        assert Deletes(steps[k - 1], key.0);
      } else {
        var e :| j < e < k - 1 && e < |steps| && Deletes(steps[e], key.0);
        assert e < k;
      }
    }
  }

  ghost predicate Held(states: seq<State>, m: int, k: nat, d: nat) {
    && 0 <= m < |states| && k < |states| && d in states[m].conns && d in states[k].conns
    && Holds(states[m].conns[d].phase)
    && states[m].conns[d].dev == states[k].conns[d].dev && states[m].conns[d].name == states[k].conns[d].name
  }

  lemma Stores(s: State, step: Step)
    requires Enabled(s, step) && step.AddDevice? && Holds(Next(s, step).conns[step.c].phase)
    ensures step == AddDevice(step.c, true, true) && Presence(Next(s, step), step.c) in Next(s, step).presence
  {
  }

  lemma StillHolding(s: State, step: Step, d: nat)
    requires Enabled(s, step) && !(step.AddDevice? && step.c == d) && !Doubled(s)
    requires d in Next(s, step).conns && Holds(Next(s, step).conns[d].phase)
    ensures d in s.conns && Holds(s.conns[d].phase) && Presence(s, d) == Presence(Next(s, step), d)
    ensures Presence(s, d) in s.presence ==> Presence(s, d) in Next(s, step).presence || Deletes(step, s.conns[d].name)
  {
    if step.Die? {
      DieFrame(s, step.server);
      hide Next;
    } else if !OfServer(step) {
      OthersFrame(s, step);
      EntriesFrame(s, step);
      AccessFrame(s, step);
      if step.RemoveDevice? && step.c != d {
        LetsGo(s, step);
        assert !Rivals(s, step.c, d);
      }
    }
  }

  /** The first time two sessions hold a device, one has slipped past the other. */
  lemma FirstDouble(states: seq<State>, steps: seq<Step>, k: nat)
    requires Trace(NONE, states, steps) && Fresh(states[0]) && k < |steps|
    requires Doubled(states[k + 1]) && forall m :: 0 <= m <= k ==> !Doubled(states[m])
    ensures exists c, d :: Slips(states, steps, k, c, d)
  {
    hide Next, Enabled, Doubled;
    TraceAt(NONE, states, steps, k);
    var x, y := PickRivals(states[k + 1]);
    NewRival(states[k], steps[k], x, y);
    var c := steps[k].c;
    var d := if c == x then y else x;
    var name := states[k].conns[d].name;
    StoresAfterAll(states[k], steps[k]);
    var b := Asking(states, steps, k, c);
    var j := Holding(states, steps, k, d);
    if name !in states[b].nodes {
      assert NotTold(states, steps, k, c, name);
    } else {
      var i :| b < i < k && Asked(states, steps, i, k, c, name);
      if i < j {
        assert AskedBefore(states, steps, k, c, d, name);
      } else {
        assert i != j && Held(states, i, k, d);
        assert Kept(states, steps, j, i, Presence(states[k], d)) && Presence(states[k], d) !in states[i].presence;
        var e :| j < e < i && e < |steps| && Deletes(steps[e], name);
        assert Held(states, e, k, d);
        assert AskedAfter(states, steps, k, c, d, name);
      }
    }
    assert Slips(states, steps, k, c, d);
  }

  lemma PickRivals(s: State) returns (c: nat, d: nat)
    requires Doubled(s)
    ensures Rivals(s, c, d)
  {
    c, d :| Rivals(s, c, d);
  }

  lemma StoresAfterAll(s: State, step: Step)
    requires Enabled(s, step) && step.AddDevice?
    ensures step.c in s.conns && s.conns[step.c].phase == Scanning({})
  {
  }

  lemma SlipDoubles(states: seq<State>, steps: seq<Step>, k: nat, c: nat, d: nat)
    requires Trace(NONE, states, steps) && Slips(states, steps, k, c, d)
    ensures Doubled(states[k + 1])
  {
    TraceAt(NONE, states, steps, k);
    assert Rivals(states[k + 1], c, d);
  }

  /** In every run whatever, two sessions hold one device at some time exactly if
      some connection slips past another. */
  lemma DoubledIffSlips(states: seq<State>, steps: seq<Step>)
    requires Trace(NONE, states, steps) && Fresh(states[0])
    ensures (exists i :: 0 <= i <= |steps| && Doubled(states[i])) <==> (exists k, c, d :: Slips(states, steps, k, c, d))
  {
    if i :| 0 <= i <= |steps| && Doubled(states[i]) {
      var first := FirstIndex(states, i);
      NobodyYet(states[0]);
      FirstDouble(states, steps, first - 1);
    }
    if k, c, d :| Slips(states, steps, k, c, d) {
      SlipDoubles(states, steps, k, c, d);
    }
  }

  lemma NobodyYet(s: State)
    requires Fresh(s)
    ensures !Doubled(s)
  {
  }

  lemma {:induction false} FirstIndex(states: seq<State>, i: nat) returns (first: nat)
    requires i < |states| && Doubled(states[i])
    ensures first <= i && Doubled(states[first]) && forall m :: 0 <= m < first ==> !Doubled(states[m])
  {
    if m :| 0 <= m < i && Doubled(states[m]) {
      first := FirstIndex(states, m);
    } else {
      first := i;
    }
  }

  lemma Lengths(a: Assume, states: seq<State>, steps: seq<Step>)
    requires Trace(a, states, steps)
    ensures |states| == |steps| + 1
  {
  }

  lemma Start(a: Assume, s: State) returns (states: seq<State>, steps: seq<Step>)
    ensures states == [s] && steps == [] && Trace(a, states, steps)
  {
    states, steps := [s], [];
  }

  lemma Extend(a: Assume, states: seq<State>, steps: seq<Step>, step: Step)
    returns (more: seq<State>, longer: seq<Step>)
    requires Trace(a, states, steps)
    requires Enabled(states[|steps|], step) && Obeys(a, states[|steps|], step)
    ensures longer == steps + [step] && Trace(a, more, longer) && |more| == |longer| + 1 && more[0] == states[0]
    ensures more[|longer|] == Next(states[|steps|], step)
  {
    hide Next, Enabled, Obeys;
    more, longer := states + [Next(states[|steps|], step)], steps + [step];
    forall i | 0 <= i < |longer|
      ensures Enabled(more[i], longer[i]) && Obeys(a, more[i], longer[i]) && more[i + 1] == Next(more[i], longer[i])
    {
      if i < |steps| {
        assert more[i] == states[i] && more[i + 1] == states[i + 1] && longer[i] == steps[i];
      }
    }
  }

  /** Asks all servers that are left, if the device is present on none of them. */
  lemma {:induction false} AskAll(a: Assume, states: seq<State>, steps: seq<Step>, c: nat, left: set<string>)
    returns (more: seq<State>, longer: seq<Step>)
    requires Trace(a, states, steps)
    requires var s := states[|steps|];
             && c in s.conns && s.conns[c].phase == Scanning(left)
             && forall n :: n in left ==> (n, s.conns[c].dev) !in s.presence
    ensures Trace(a, more, longer) && |more| == |longer| + 1 && more[0] == states[0]
    ensures more[|longer|] == SetPhase(states[|steps|], c, Scanning({}))
    decreases left
  {
    hide Trace, Enabled;
    Lengths(a, states, steps);
    var s := states[|steps|];
    if left == {} {
      more, longer := states, steps;
      assert s == SetPhase(s, c, Scanning({}));
    } else {
      var n :| n in left;
      CanAsk(a, s, c, n);
      more, longer := Extend(a, states, steps, Ask(c, n));
      assert more[|longer|] == SetPhase(s, c, Scanning(left - {n}));
      more, longer := AskAll(a, more, longer, c, left - {n});
      assert more[|longer|] == SetPhase(s, c, Scanning({}));
    }
  }

  lemma CanAsk(a: Assume, s: State, c: nat, n: string)
    requires c in s.conns && s.conns[c].phase.Scanning? && n in s.conns[c].phase.left
    ensures Enabled(s, Ask(c, n)) && Obeys(a, s, Ask(c, n))
  {
  }

  /** The state after a connection got from asking to being live. */
  function Admitted(s: State, c: nat): State
    requires c in s.conns
  {
    SetPhase(s, c, Live).(presence := s.presence + {Presence(s, c)},
                          devices := s.devices[(s.conns[c].server, s.conns[c].dev) := c])
  }

  lemma Admit(a: Assume, states: seq<State>, steps: seq<Step>, c: nat) returns (more: seq<State>, longer: seq<Step>)
    requires Trace(a, states, steps)
    requires c in states[|steps|].conns && states[|steps|].conns[c].phase == Scanning({})
    ensures Trace(a, more, longer) && |more| == |longer| + 1 && more[0] == states[0]
            && more[|longer|] == Admitted(states[|steps|], c)
  {
    hide Trace;
    Lengths(a, states, steps);
    more, longer := Extend(a, states, steps, AddDevice(c, true, true));
    more, longer := Extend(a, more, longer, Map(c));
  }

  /** A connection whose device is present under no listed name can get in. */
  lemma LetIn(a: Assume, states: seq<State>, steps: seq<Step>, c: nat) returns (more: seq<State>, longer: seq<Step>)
    requires Trace(a, states, steps)
    requires var s := states[|steps|]; c in s.conns && s.conns[c].phase.Waiting? && !Local(s, c)
    requires var s := states[|steps|]; forall n :: n in s.nodes ==> (n, s.conns[c].dev) !in s.presence
    requires NoOverlap(states[|steps|], BeginCheck(c))
    ensures Trace(a, more, longer) && |more| == |longer| + 1 && more[0] == states[0]
            && more[|longer|] == Admitted(states[|steps|], c)
  {
    hide Trace;
    Lengths(a, states, steps);
    var s := states[|steps|];
    more, longer := Extend(a, states, steps, Look(c));
    more, longer := Extend(a, more, longer, BeginCheck(c));
    more, longer := AskAll(a, more, longer, c, s.nodes);
    more, longer := Admit(a, more, longer, c);
    hide Next, Enabled, Obeys, NoOverlap;
  }

  /** Two connections wait for a device that no server shows. */
  ghost predicate BothWait(s: State, c: nat, d: nat) {
    && c != d && c in s.conns && d in s.conns && s.conns[c].dev == s.conns[d].dev
    && s.conns[c].phase.Waiting? && s.conns[d].phase.Waiting? && !Local(s, c) && !Local(s, d)
    && (forall n :: n in s.nodes ==> (n, s.conns[c].dev) !in s.presence)
  }

  /** Nobody is asking for this connection's device. */
  ghost predicate NobodyAsks(s: State, c: nat)
    requires c in s.conns
  {
    forall e :: e in s.conns && s.conns[e].phase.Scanning? ==> s.conns[e].dev != s.conns[c].dev
  }

  /** The first assumption is needed: from every state in which two connections
      wait for a device that is present nowhere, both can get in. */
  lemma OverlapAdmitsTwo(s: State, c: nat, d: nat) returns (states: seq<State>, steps: seq<Step>)
    requires BothWait(s, c, d)
    ensures Trace(Assume(false, true, true), states, steps) && states[0] == s
    ensures Rivals(states[|steps|], c, d)
  {
    hide Trace;
    var a := Assume(false, true, true);
    states, steps := Start(a, s);
    states, steps := Extend(a, states, steps, Look(c));
    states, steps := Extend(a, states, steps, Look(d));
    states, steps := Extend(a, states, steps, BeginCheck(c));
    states, steps := Extend(a, states, steps, BeginCheck(d));
    states, steps := AskAll(a, states, steps, c, s.nodes);
    states, steps := AskAll(a, states, steps, d, s.nodes);
    states, steps := Admit(a, states, steps, c);
    states, steps := Admit(a, states, steps, d);
    hide Next, Enabled, Obeys;
  }

  /** So is the second: if one of them is on a server that is not listed, both can
      get in one after the other. */
  lemma UnlistedAdmitsTwo(s: State, c: nat, d: nat) returns (states: seq<State>, steps: seq<Step>)
    requires BothWait(s, c, d) && s.conns[c].server != s.conns[d].server && NobodyAsks(s, c)
    requires s.conns[c].name !in s.nodes
    ensures Trace(ALL, states, steps) && states[0] == s
    ensures Rivals(states[|steps|], c, d)
  {
    hide Trace, Enabled, Next, Obeys;
    states, steps := Start(ALL, s);
    states, steps := LetIn(ALL, states, steps, c);
    states, steps := LetIn(ALL, states, steps, d);
  }

  /** And the third: while c holds a device, a process that starts under the name
      of c's server makes room for d on any other server. */
  lemma SharedNameAdmitsTwo(s: State, c: nat, d: nat, p: nat) returns (states: seq<State>, steps: seq<Step>)
    requires c != d && c in s.conns && d in s.conns && s.conns[c].dev == s.conns[d].dev
    requires Holds(s.conns[c].phase) && s.conns[d].phase.Waiting? && !Local(s, d) && NobodyAsks(s, d) && p !in s.procs
    requires forall n :: n in s.nodes && (n, s.conns[d].dev) in s.presence ==> n == s.conns[c].name
    ensures Trace(Assume(true, true, false), states, steps) && states[0] == s
    ensures Rivals(states[|steps|], c, d)
  {
    hide Trace;
    var a := Assume(true, true, false);
    states, steps := Start(a, s);
    states, steps := Extend(a, states, steps, InitDevices(p, s.conns[c].name));
    states, steps := LetIn(a, states, steps, d);
    hide Next, Enabled, Obeys;
  }

  /** Only c has changed, and servers are as before. */
  ghost predicate OnlyChanged(s: State, t: State, c: nat) {
    && t.procs == s.procs && t.nodes == s.nodes && t.conns.Keys == s.conns.Keys && c in s.conns
    && (forall e :: e in s.conns && e != c ==> t.conns[e] == s.conns[e])
    && t.conns[c].server == s.conns[c].server && t.conns[c].name == s.conns[c].name && t.conns[c].dev == s.conns[c].dev
  }

  lemma OneChange(s: State, step: Step, c: nat)
    requires Enabled(s, step) && !OfServer(step) && c in s.conns && step.c == c
    ensures OnlyChanged(s, Next(s, step), c)
  {
    OthersFrame(s, step);
    EntriesFrame(s, step);
  }

  /** A session's own steps are not among those that the assumptions restrict. */
  lemma ClosingObeys(a: Assume, s: State, step: Step)
    requires step.Map? || step.BeginClose? || step.DropApp? || step.Unmap? || step.RemoveDevice?
    ensures Obeys(a, s, step)
  {
  }

  lemma ChangedTwice(s: State, t: State, u: State, c: nat)
    requires OnlyChanged(s, t, c) && OnlyChanged(t, u, c)
    ensures OnlyChanged(s, u, c)
  {
  }

  lemma Unchanged(s: State, c: nat)
    requires c in s.conns
    ensures OnlyChanged(s, s, c)
  {
  }

  /** The steps of closing, and where they lead. */
  predicate Closes(step: Step, c: nat, p: Phase) {
    || (step == Map(c) && p == Live) || (step == BeginClose(c) && p == Closing)
    || (step.DropApp? && step.c == c && p == Closing) || (step == Unmap(c) && p == Unmapped)
    || (step == RemoveDevice(c, true) && p == Gone)
  }

  lemma ClosePhase(s: State, step: Step, c: nat, p: Phase)
    requires Enabled(s, step) && Closes(step, c, p)
    ensures c in s.conns && c in Next(s, step).conns && Next(s, step).conns[c].phase == p
    ensures step.DropApp? ==> Next(s, step).conns[c].apps == s.conns[c].apps - {step.app} != s.conns[c].apps
  {
  }

  /** One step further in closing c. */
  lemma CloseStep(states: seq<State>, steps: seq<Step>, c: nat, step: Step, p: Phase)
    returns (more: seq<State>, longer: seq<Step>)
    requires Trace(ALL, states, steps) && Enabled(states[|steps|], step) && Closes(step, c, p)
    requires Inv(states[|steps|])
    ensures Trace(ALL, more, longer) && |more| == |longer| + 1 && more[0] == states[0]
    ensures more[|longer|] == Next(states[|steps|], step) && Inv(more[|longer|])
    ensures c in more[|longer|].conns && OnlyChanged(states[|steps|], more[|longer|], c)
    ensures more[|longer|].conns[c].phase == p
  {
    Lengths(ALL, states, steps);
    hide Trace, Inv, Next, Enabled, Obeys;
    var s := states[|steps|];
    ClosePhase(s, step, c, p);
    ClosingObeys(ALL, s, step);
    InvStep(s, step);
    OneChange(s, step, c);
    more, longer := Extend(ALL, states, steps, step);
  }

  lemma {:induction false} DropAll(states: seq<State>, steps: seq<Step>, c: nat)
    returns (more: seq<State>, longer: seq<Step>)
    requires Trace(ALL, states, steps) && c in states[|steps|].conns && states[|steps|].conns[c].phase.Closing?
    requires Inv(states[|steps|])
    ensures Trace(ALL, more, longer) && |more| == |longer| + 1 && more[0] == states[0] && Inv(more[|longer|])
    ensures c in more[|longer|].conns && OnlyChanged(states[|steps|], more[|longer|], c)
    ensures more[|longer|].conns[c].phase.Closing? && more[|longer|].conns[c].apps == {}
    decreases states[|steps|].conns[c].apps
  {
    hide Trace, Inv, Next;
    Lengths(ALL, states, steps);
    var s := states[|steps|];
    if s.conns[c].apps == {} {
      more, longer := states, steps;
    } else {
      var app :| app in s.conns[c].apps;
      ClosePhase(s, DropApp(c, app), c, Closing);
      more, longer := CloseStep(states, steps, c, DropApp(c, app), Closing);
      more, longer := DropAll(more, longer, c);
    }
  }

  /** Takes c out of its server's table. */
  lemma CloseLocally(states: seq<State>, steps: seq<Step>, c: nat)
    returns (more: seq<State>, longer: seq<Step>)
    requires Trace(ALL, states, steps) && c in states[|steps|].conns && Holds(states[|steps|].conns[c].phase)
    requires Inv(states[|steps|])
    ensures Trace(ALL, more, longer) && |more| == |longer| + 1 && more[0] == states[0] && Inv(more[|longer|])
    ensures c in more[|longer|].conns && OnlyChanged(states[|steps|], more[|longer|], c)
    ensures more[|longer|].conns[c].phase.Unmapped?
    decreases match states[|steps|].conns[c].phase case Stored => 3 case Live => 2 case Closing => 1 case _ => 0
  {
    hide Trace, Inv, Next, OnlyChanged;
    Lengths(ALL, states, steps);
    var s := states[|steps|];
    if s.conns[c].phase.Unmapped? {
      Unchanged(s, c);
      more, longer := states, steps;
    } else if s.conns[c].phase.Closing? {
      var t;
      more, longer := DropAll(states, steps, c);
      t := more[|longer|];
      more, longer := CloseStep(more, longer, c, Unmap(c), Unmapped);
      ChangedTwice(s, t, more[|longer|], c);
    } else {
      var stored := s.conns[c].phase.Stored?;
      var step, p := if stored then Map(c) else BeginClose(c), if stored then Live else Closing;
      var t;
      more, longer := CloseStep(states, steps, c, step, p);
      t := more[|longer|];
      more, longer := CloseLocally(more, longer, c);
      ChangedTwice(s, t, more[|longer|], c);
    }
  }

  /** Closes c to the end. */
  lemma CloseAll(states: seq<State>, steps: seq<Step>, c: nat)
    returns (more: seq<State>, longer: seq<Step>)
    requires Trace(ALL, states, steps) && c in states[|steps|].conns && Holds(states[|steps|].conns[c].phase)
    requires Inv(states[|steps|])
    ensures Trace(ALL, more, longer) && |more| == |longer| + 1 && more[0] == states[0] && Inv(more[|longer|])
    ensures c in more[|longer|].conns && OnlyChanged(states[|steps|], more[|longer|], c)
    ensures more[|longer|].conns[c].phase.Gone?
    ensures forall k :: k in more[|longer|].presence ==> k.1 != states[|steps|].conns[c].dev
  {
    hide Trace, Inv, Next;
    Lengths(ALL, states, steps);
    more, longer := CloseLocally(states, steps, c);
    RemoveErases(more[|longer|], c);
    more, longer := CloseStep(more, longer, c, RemoveDevice(c, true), Gone);
  }

  lemma RemoveErases(s: State, c: nat)
    requires Enabled(s, RemoveDevice(c, true))
    requires Inv(s)
    ensures Next(s, RemoveDevice(c, true)).conns[c].phase.Gone?
    ensures forall k :: k in Next(s, RemoveDevice(c, true)).presence ==> k.1 != s.conns[c].dev
  {
    assert SoleHolder(s, c);
    hide DeviceEntries, AppEntries, OwnEntries, SoleAsker;
  }

  /** When the holder of a device has closed and could erase its entry, the device
      is present nowhere. */
  lemma CloseLeavesNothing(states: seq<State>, steps: seq<Step>, c: nat)
    requires Trace(ALL, states, steps) && Initial(states[0]) && Enabled(states[|steps|], RemoveDevice(c, true))
    ensures var s := states[|steps|];
            forall k :: k in Next(s, RemoveDevice(c, true)).presence ==> k.1 != s.conns[c].dev
  {
    InvTrace(states, steps, |steps|);
    RemoveErases(states[|steps|], c);
    hide Next, Enabled, Inv, Trace;
  }

  /** With nobody left to hold the device, the local table does not have it. */
  lemma NoEntryLeft(s: State, t: State, c: nat, d: nat)
    requires OnlyChanged(s, t, c) && Holds(s.conns[c].phase) && t.conns[c].phase.Gone?
    requires d in s.conns && s.conns[d].dev == s.conns[c].dev && d != c
    requires Inv(s) && Inv(t)
    ensures !Local(t, d)
  {
    assert SoleHolder(s, c);
    hide AppEntries, OwnEntries, SoleAsker, Served;
  }

  /** A device moves from one connection to another: from every reachable state in
      which c holds it, d waits for it and nobody is asking for it, there is a run
      that closes c and lets d in. */
  lemma HandsOver(states: seq<State>, steps: seq<Step>, c: nat, d: nat)
    returns (more: seq<State>, longer: seq<Step>)
    requires Trace(ALL, states, steps) && Initial(states[0])
    requires var s := states[|steps|];
             && c in s.conns && d in s.conns && s.conns[c].dev == s.conns[d].dev
             && Holds(s.conns[c].phase) && s.conns[d].phase.Waiting? && NobodyAsks(s, d)
    ensures Trace(ALL, more, longer) && more[0] == states[|steps|]
    ensures c in more[|longer|].conns && more[|longer|].conns[c].phase.Gone?
    ensures d in more[|longer|].conns && more[|longer|].conns[d].phase.Live?
  {
    hide Trace, Inv, Next, Enabled, Obeys;
    Lengths(ALL, states, steps);
    var s := states[|steps|];
    InvTrace(states, steps, |steps|);
    more, longer := Start(ALL, s);
    more, longer := CloseAll(more, longer, c);
    var t := more[|longer|];
    NoEntryLeft(s, t, c, d);
    assert NoOverlap(t, BeginCheck(d));
    more, longer := LetIn(ALL, more, longer, d);
  }

  ghost predicate Writes(s: State, step: Step, k: (string, string)) {
    step.AddDevice? && step.written && step.c in s.conns && Presence(s, step.c) == k
  }

  ghost predicate Erases(s: State, step: Step, k: (string, string)) {
    || (step.RemoveDevice? && step.erased && step.c in s.conns && Presence(s, step.c) == k)
    || (step.InitDevices? && step.name == k.0)
  }

  /** No step from i on, and before n, erases it. */
  ghost predicate Spared(states: seq<State>, steps: seq<Step>, i: int, n: nat, k: (string, string))
    requires |states| == |steps| + 1 && 0 <= i && n <= |steps|
  {
    forall m :: i <= m < n ==> !Erases(states[m], steps[m], k)
  }

  lemma SparedLonger(states: seq<State>, steps: seq<Step>, i: nat, n: nat, k: (string, string))
    requires |states| == |steps| + 1 && i <= n < |steps|
    ensures Spared(states, steps, i, n + 1, k) <==>
            Spared(states, steps, i, n, k) && !Erases(states[n], steps[n], k)
  {
    hide Erases;
  }

  lemma SparedJustNow(states: seq<State>, steps: seq<Step>, n: nat, k: (string, string))
    requires |states| == |steps| + 1 && n <= |steps|
    ensures Spared(states, steps, n, n, k)
  {
  }

  lemma PresenceStep(s: State, step: Step, k: (string, string))
    requires Enabled(s, step)
    ensures k in Next(s, step).presence <==> Writes(s, step, k) || (k in s.presence && !Erases(s, step, k))
  {
  }

  /** Present at first, or written, and spared since. */
  ghost predicate Lasts(states: seq<State>, steps: seq<Step>, n: nat, k: (string, string))
    requires |states| == |steps| + 1 && n <= |steps|
  {
    || (k in states[0].presence && Spared(states, steps, 0, n, k))
    || exists j :: 0 <= j < n && Writes(states[j], steps[j], k) && Spared(states, steps, j + 1, n, k)
  }

  lemma LastsLonger(states: seq<State>, steps: seq<Step>, n: nat, k: (string, string))
    requires |states| == |steps| + 1 && n < |steps|
    ensures Lasts(states, steps, n + 1, k) <==>
            || Writes(states[n], steps[n], k)
            || (Lasts(states, steps, n, k) && !Erases(states[n], steps[n], k))
  {
    hide Erases, Writes, Spared;
    SparedLonger(states, steps, 0, n, k);
    SparedJustNow(states, steps, n + 1, k);
    if j :| 0 <= j < n && Writes(states[j], steps[j], k) && Spared(states, steps, j + 1, n, k) {
      SparedLonger(states, steps, j + 1, n, k);
    }
    if j :| 0 <= j < n && Writes(states[j], steps[j], k) && Spared(states, steps, j + 1, n + 1, k) {
      SparedLonger(states, steps, j + 1, n, k);
    }
  }

  /** In every run, without any assumption: an entry is present exactly if it was
      at first or was written, and has not been erased since. */
  lemma {:induction false} PresenceHistory(states: seq<State>, steps: seq<Step>, n: nat, k: (string, string))
    requires Trace(NONE, states, steps) && n <= |steps|
    ensures k in states[n].presence <==> Lasts(states, steps, n, k)
  {
    Lengths(NONE, states, steps);
    if n > 0 {
      PresenceHistory(states, steps, n - 1, k);
      TraceAt(NONE, states, steps, n - 1);
      PresenceStep(states[n - 1], steps[n - 1], k);
      LastsLonger(states, steps, n - 1, k);
    }
    hide Next, Enabled, Trace, Writes, Erases;
  }

  /** Who is refused, told no, not stored, or closed, stays out. */
  ghost predicate TurnsAway(s: State, step: Step, c: nat) {
    || step == Refuse(c) || (step.RemoveDevice? && step.c == c)
    || (step.AddDevice? && step.c == c && !step.ok)
    || (step.Ask? && step.c == c && c in s.conns && (step.name, s.conns[c].dev) in s.presence)
    || (step.Die? && c in s.conns && s.conns[c].server == step.server)
  }

  lemma AwayStep(s: State, step: Step, c: nat)
    requires Enabled(s, step)
    requires TurnsAway(s, step, c) || (c in s.conns && s.conns[c].phase.Gone?)
    ensures c in Next(s, step).conns && Next(s, step).conns[c].phase.Gone?
  {
    if step.Die? {
      DieFrame(s, step.server);
      hide Next;
    }
  }

  lemma {:induction false} StaysAway(states: seq<State>, steps: seq<Step>, i: nat, j: nat, c: nat)
    requires Trace(NONE, states, steps) && i < j <= |steps| && TurnsAway(states[i], steps[i], c)
    ensures c in states[j].conns && states[j].conns[c].phase.Gone?
    decreases j
  {
    hide Next, Enabled, TurnsAway;
    TraceAt(NONE, states, steps, j - 1);
    if i < j - 1 {
      StaysAway(states, steps, i, j - 1, c);
    }
    AwayStep(states[j - 1], steps[j - 1], c);
  }

  lemma NodesStep(s: State, step: Step, n: string)
    requires Enabled(s, step)
    ensures n in Next(s, step).nodes <==>
            n in s.nodes || (step.AddComet? && step.listed && s.procs[step.server].name == n)
  {
  }

  /** comet_nodes has the names of the servers that could be entered, and loses none. */
  lemma {:induction false} NodesHistory(states: seq<State>, steps: seq<Step>, n: string, i: nat)
    requires Trace(NONE, states, steps) && i <= |steps|
    ensures n in states[i].nodes <==>
            || n in states[0].nodes
            || exists j, p :: 0 <= j < i && steps[j] == AddComet(p, true) && Named(states[j], p, n)
  {
    if i > 0 {
      NodesHistory(states, steps, n, i - 1);
      TraceAt(NONE, states, steps, i - 1);
      NodesStep(states[i - 1], steps[i - 1], n);
      hide Next, Trace;
      if steps[i - 1].AddComet? && steps[i - 1].listed {
        assert steps[i - 1] == AddComet(steps[i - 1].server, true);
        assert Named(states[i - 1], steps[i - 1].server, n) <==> states[i - 1].procs[steps[i - 1].server].name == n;
      }
    }
  }

  predicate Named(s: State, p: nat, n: string) {
    p in s.procs && s.procs[p].name == n
  }
}
