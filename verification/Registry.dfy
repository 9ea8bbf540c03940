/** Registration of apps by any number of devices at once: the handlers of
    comet/handlers.go, the INIT part of waitInit and closeClient in
    comet/server.go, and AppManager. A state machine with one step per lock
    section or store access. */
module Registry {
  import opened Apps

  /** The hashes db_app_*, db_device_* and db_user_*. */
  datatype Store = Store(
    app: map<(string, RegId), AppInfo>,
    device: map<(string, string), RegId>,
    user: map<(string, RegId), string>)

  datatype UpdateJob = UpdateJob(regId: RegId, info: AppInfo)

  /** What INIT still has to load. */
  datatype Item = Named(app: string, regId: RegId) | Loaded(regId: RegId, info: AppInfo)

  /** Where a session's goroutine is. Every phase but the first is inside a handler. */
  datatype Phase =
    | Idle
    | Checked(app: string, user: string)             // RegisterApp: not in memory
    | AppStored(app: string, user: string, info: AppInfo)
    | DeviceStored(app: string, user: string, info: AppInfo)
    | Fetching(app: string, regId: RegId)            // RegisterApp2: not in memory
    | Adding(app: string, regId: RegId, info: AppInfo) // AddApp entered
    | Absent(app: string, regId: RegId, info: AppInfo) // AddApp: not in memory
    | Have(app: string, r: RegApp)                   // AddApp returned
    | Erasing(app: string, stage: nat)               // UnregisterApp: hashes erased so far
    | Dropped(app: string, closing: bool)            // out of regappMap, still in RegApps
    | Closing

  datatype Session = Session(apps: map<string, RegApp>, todo: seq<Item>, phase: Phase)

  datatype State = State(
    regapps: map<RegId, RegApp>,
    sessions: map<string, Session>,
    store: Store,
    jobs: seq<UpdateJob>)

  datatype Step =
    | Init(d: string, todo: seq<Item>)
    | Skip(d: string)
    | CheckNamed(d: string)
    | Fetch(d: string, ok: bool)
    | TakeLoaded(d: string)
    | BeginRegister(d: string, app: string, user: string)
    | StoreApp(d: string, now: int, ok: bool)
    | StoreDevice(d: string, ok: bool)
    | StoreUser(d: string, ok: bool)
    | AddCheck(d: string)
    | Insert(d: string, r: RegApp)
    | Publish(d: string)
    | BeginUnregister(d: string, app: string)
    | Erase(d: string, ok: bool)
    | Drop(d: string)
    | Forget(d: string)
    | BeginClose(d: string)
    | CloseOne(d: string, app: string)
    | CloseDone(d: string)
    | PushReply(d: string, app: string, info: AppInfo)
    | UpdateInfo(d: string, app: string, info: AppInfo, ok: bool)
    | RunJob(i: nat, ok: bool)
    | Crash                                   // the process dies; another one starts

  function AppOf(i: Item): string {
    if i.Named? then i.app else i.info.appId
  }

  /** An INIT list is taken to name distinct apps, with ids issued to the device;
      a loaded list is a snapshot of the device's hash. */
  ghost predicate Admissible(s: State, d: string, todo: seq<Item>) {
    && (forall i, j :: 0 <= i < j < |todo| ==> AppOf(todo[i]) != AppOf(todo[j]))
    && (forall i :: 0 <= i < |todo| ==>
          match todo[i]
          case Named(_, regId) => regId.Digest? ==> regId.dev == d
          case Loaded(regId, info) =>
            && (d, info.appId) in s.store.device && s.store.device[(d, info.appId)] == regId
            && (info.appId, regId) in s.store.app && s.store.app[(info.appId, regId)] == info)
  }

  ghost predicate Ready(s: State, d: string) {
    d in s.sessions && s.sessions[d].phase.Idle? && s.sessions[d].todo == []
  }

  ghost predicate Enabled(s: State, step: Step) {
    match step
    case Init(d, todo) => d !in s.sessions && Admissible(s, d, todo)
    case Skip(d) => d in s.sessions && s.sessions[d].phase.Idle? && s.sessions[d].todo != []
    case CheckNamed(d) =>
      d in s.sessions && s.sessions[d].phase.Idle? && s.sessions[d].todo != [] && s.sessions[d].todo[0].Named?
    case Fetch(d, _) => d in s.sessions && s.sessions[d].phase.Fetching?
    case TakeLoaded(d) =>
      d in s.sessions && s.sessions[d].phase.Idle? && s.sessions[d].todo != [] && s.sessions[d].todo[0].Loaded?
    case BeginRegister(d, app, _) => Ready(s, d) && app !in s.sessions[d].apps
    case StoreApp(d, _, _) => d in s.sessions && s.sessions[d].phase.Checked?
    case StoreDevice(d, _) => d in s.sessions && s.sessions[d].phase.AppStored?
    case StoreUser(d, _) => d in s.sessions && s.sessions[d].phase.DeviceStored?
    case AddCheck(d) => d in s.sessions && s.sessions[d].phase.Adding?
    case Insert(d, r) =>
      && d in s.sessions && s.sessions[d].phase.Absent?
      && r.devId == d && r.regId == s.sessions[d].phase.regId
      && r.appId == s.sessions[d].phase.info.appId && r.userId == s.sessions[d].phase.info.userId
    case Publish(d) => d in s.sessions && s.sessions[d].phase.Have?
    case BeginUnregister(d, app) => Ready(s, d) && app in s.sessions[d].apps
    case Erase(d, _) =>
      && d in s.sessions && s.sessions[d].phase.Erasing? && s.sessions[d].phase.stage < 3
      && s.sessions[d].phase.app in s.sessions[d].apps
    case Drop(d) =>
      && d in s.sessions && s.sessions[d].phase.Erasing? && s.sessions[d].phase.stage == 3
      && s.sessions[d].phase.app in s.sessions[d].apps
    case Forget(d) => d in s.sessions && s.sessions[d].phase.Dropped?
    case BeginClose(d) => Ready(s, d)
    case CloseOne(d, app) => d in s.sessions && s.sessions[d].phase.Closing? && app in s.sessions[d].apps
    case CloseDone(d) => d in s.sessions && s.sessions[d].phase.Closing? && s.sessions[d].apps == map[]
    case PushReply(d, app, info) =>
      && Ready(s, d) && app in s.sessions[d].apps
      && info.appId == s.sessions[d].apps[app].appId && info.userId == s.sessions[d].apps[app].userId
    case UpdateInfo(d, app, info, _) =>
      && Ready(s, d) && app in s.sessions[d].apps
      && info.appId == s.sessions[d].apps[app].appId && info.userId == s.sessions[d].apps[app].userId
    case RunJob(i, _) => i < |s.jobs|
    case Crash => true
  }

  function At(s: State, d: string, phase: Phase): State
    requires d in s.sessions
  {
    s.(sessions := s.sessions[d := s.sessions[d].(phase := phase)])
  }

  function NextItem(s: State, d: string, phase: Phase): State
    requires d in s.sessions && s.sessions[d].todo != []
  {
    s.(sessions := s.sessions[d := s.sessions[d].(phase := phase, todo := s.sessions[d].todo[1..])])
  }

  function NewInfo(app: string, user: string, now: int): AppInfo {
    AppInfo(app, now, user, -1, [], [])
  }

  /** UnregisterApp erases one hash entry after the other. */
  function Erased(t: Store, r: RegApp, stage: nat): Store {
    if stage == 0 then t.(app := t.app - {(r.appId, r.regId)})
    else if stage == 1 then t.(device := t.device - {(r.devId, r.appId)})
    else if r.userId != "" then t.(user := t.user - {(r.userId, r.regId)})
    else t
  }

  /** All of it, if only some of the erasures succeed. */
  function ErasedAll(t: Store, r: RegApp, oks: (bool, bool, bool)): Store {
    var t0 := if oks.0 then Erased(t, r, 0) else t;
    var t1 := if oks.1 then Erased(t0, r, 1) else t0;
    if oks.2 then Erased(t1, r, 2) else t1
  }

  /** HSETNX */
  function SetUser(t: Store, user: string, regId: RegId, app: string): Store {
    if user != "" && (user, regId) !in t.user then t.(user := t.user[(user, regId) := app]) else t
  }

  ghost function Next(s: State, step: Step): State
    requires Enabled(s, step)
  {
    match step
    case Init(d, todo) => s.(sessions := s.sessions[d := Session(map[], todo, Idle)])
    case Skip(d) => NextItem(s, d, Idle)
    case CheckNamed(d) =>
      var i := s.sessions[d].todo[0];
      NextItem(s, d, if i.regId in s.regapps then Idle else Fetching(i.app, i.regId))
    case Fetch(d, ok) =>
      var p := s.sessions[d].phase;
      if ok && (p.app, p.regId) in s.store.app then At(s, d, Adding(p.app, p.regId, s.store.app[(p.app, p.regId)]))
      else At(s, d, Idle)
    case TakeLoaded(d) =>
      var i := s.sessions[d].todo[0];
      NextItem(s, d, Adding(i.info.appId, i.regId, i.info))
    case BeginRegister(d, app, user) =>
      if Digest(d, app, user) in s.regapps then s else At(s, d, Checked(app, user))
    case StoreApp(d, now, ok) =>
      var p := s.sessions[d].phase;
      var info := NewInfo(p.app, p.user, now);
      if ok then
        At(s, d, AppStored(p.app, p.user, info)).(store :=
            s.store.(app := s.store.app[(p.app, Digest(d, p.app, p.user)) := info]))
      else At(s, d, Idle)
    case StoreDevice(d, ok) =>
      var p := s.sessions[d].phase;
      var t := At(s, d, DeviceStored(p.app, p.user, p.info));
      if ok then t.(store := s.store.(device := s.store.device[(d, p.app) := Digest(d, p.app, p.user)])) else t
    case StoreUser(d, ok) =>
      var p := s.sessions[d].phase;
      var t := At(s, d, Adding(p.app, Digest(d, p.app, p.user), p.info));
      if ok then t.(store := SetUser(s.store, p.user, Digest(d, p.app, p.user), p.app)) else t
    case AddCheck(d) =>
      var p := s.sessions[d].phase;
      At(s, d, if p.regId in s.regapps then Have(p.app, s.regapps[p.regId]) else Absent(p.app, p.regId, p.info))
    case Insert(d, r) =>
      var p := s.sessions[d].phase;
      At(s, d, Have(p.app, r)).(regapps := s.regapps[p.regId := r])
    case Publish(d) =>
      var p := s.sessions[d].phase;
      s.(sessions := s.sessions[d := s.sessions[d].(apps := s.sessions[d].apps[p.app := p.r], phase := Idle)])
    case BeginUnregister(d, app) => At(s, d, Erasing(app, 0))
    case Erase(d, ok) =>
      var p := s.sessions[d].phase;
      var t := At(s, d, Erasing(p.app, p.stage + 1));
      if ok then t.(store := Erased(s.store, s.sessions[d].apps[p.app], p.stage)) else t
    case Drop(d) =>
      var p := s.sessions[d].phase;
      At(s, d, Dropped(p.app, false)).(regapps := s.regapps - {s.sessions[d].apps[p.app].regId})
    case Forget(d) =>
      var p := s.sessions[d].phase;
      s.(sessions := s.sessions[d :=
          s.sessions[d].(apps := s.sessions[d].apps - {p.app}, phase := if p.closing then Closing else Idle)])
    case BeginClose(d) => At(s, d, Closing)
    case CloseOne(d, app) => At(s, d, Dropped(app, true)).(regapps := s.regapps - {s.sessions[d].apps[app].regId})
    case CloseDone(d) => s.(sessions := s.sessions - {d})
    case PushReply(d, app, info) => s.(jobs := s.jobs + [UpdateJob(s.sessions[d].apps[app].regId, info)])
    case UpdateInfo(d, app, info, ok) =>
      if ok then s.(store := s.store.(app := s.store.app[(info.appId, s.sessions[d].apps[app].regId) := info])) else s
    case RunJob(i, ok) =>
      var job := s.jobs[i];
      var t := s.(jobs := s.jobs[..i] + s.jobs[i + 1..]);
      if ok then t.(store := s.store.(app := s.store.app[(job.info.appId, job.regId) := job.info])) else t
    case Crash => State(map[], map[], s.store, [])
  }

  ghost predicate Runs(s: State, steps: seq<Step>, t: State)
    decreases |steps|
  {
    if steps == [] then s == t
    else Enabled(s, steps[0]) && Runs(Next(s, steps[0]), steps[1..], t)
  }

  /** Whatever the store holds before the first session, written by this program. */
  ghost predicate Initial(s: State) {
    s.regapps == map[] && s.sessions == map[] && StoreInv(s.store, s.jobs)
  }

  /** Stored records lie under their own id. */
  ghost predicate StoreInv(t: Store, jobs: seq<UpdateJob>) {
    && (forall k :: k in t.app ==> k.1.Digest? && k.1.app == k.0 == t.app[k].appId && k.1.user == t.app[k].userId)
    && (forall k :: k in t.device ==> t.device[k].Digest? && t.device[k].dev == k.0 && t.device[k].app == k.1)
    && (forall i :: 0 <= i < |jobs| ==>
          jobs[i].regId.Digest? && jobs[i].regId.app == jobs[i].info.appId && jobs[i].regId.user == jobs[i].info.userId)
  }

  /** A registration of device d for an app. */
  predicate Mine(d: string, app: string, r: RegApp) {
    Genuine(r) && r.devId == d && r.appId == app
  }

  ghost predicate PhaseInv(regapps: map<RegId, RegApp>, d: string, apps: map<string, RegApp>, p: Phase) {
    match p
    case Idle => true
    case Closing => true
    case Checked(app, user) => app !in apps
    case AppStored(app, user, info) => app !in apps && info.appId == app && info.userId == user
    case DeviceStored(app, user, info) => app !in apps && info.appId == app && info.userId == user
    case Fetching(app, regId) => app !in apps && (regId.Digest? ==> regId.dev == d)
    case Adding(app, regId, info) => app !in apps && info.appId == app && regId == Digest(d, app, info.userId)
    case Absent(app, regId, info) =>
      app !in apps && info.appId == app && regId == Digest(d, app, info.userId) && regId !in regapps
    case Have(app, r) => app !in apps && Mine(d, app, r) && r.regId in regapps && regapps[r.regId] == r
    case Erasing(app, stage) => app in apps && stage <= 3
    case Dropped(app, _) => app in apps && apps[app].regId !in regapps
  }

  ghost predicate TodoInv(d: string, apps: map<string, RegApp>, p: Phase, todo: seq<Item>) {
    && (forall i :: 0 <= i < |todo| ==>
          && AppOf(todo[i]) !in apps
          && (p.Fetching? || p.Adding? || p.Absent? || p.Have? ==> p.app != AppOf(todo[i]))
          && match todo[i]
             case Named(_, regId) => regId.Digest? ==> regId.dev == d
             case Loaded(regId, info) => regId == Digest(d, info.appId, info.userId))
    && (forall i, j :: 0 <= i < j < |todo| ==> AppOf(todo[i]) != AppOf(todo[j]))
    && (todo != [] ==> p.Idle? || p.Fetching? || p.Adding? || p.Absent? || p.Have?)
  }

  /** The session's own table agrees with regappMap, up to the one entry that
      its handler is moving. */
  ghost predicate SessionInv(regapps: map<RegId, RegApp>, d: string, c: Session) {
    && (forall app :: app in c.apps ==>
          && Mine(d, app, c.apps[app])
          && (!(c.phase.Dropped? && c.phase.app == app) ==>
                c.apps[app].regId in regapps && regapps[c.apps[app].regId] == c.apps[app]))
    && (forall k :: k in regapps && k.Digest? && k.dev == d ==>
          || (k.app in c.apps && c.apps[k.app] == regapps[k])
          || c.phase == Have(k.app, regapps[k]))
    && PhaseInv(regapps, d, c.apps, c.phase)
    && TodoInv(d, c.apps, c.phase, c.todo)
  }

  ghost predicate MapInv(s: State) {
    forall k :: k in s.regapps ==> k.Digest? && k.dev in s.sessions && s.regapps[k].regId == k && Genuine(s.regapps[k])
  }

  ghost predicate Inv(s: State) {
    && MapInv(s)
    && StoreInv(s.store, s.jobs)
    && (forall d :: d in s.sessions ==> SessionInv(s.regapps, d, s.sessions[d]))
  }

  /** Every session but this one is as before. */
  ghost predicate OthersKept(before: map<string, Session>, after: map<string, Session>, d: string) {
    && (forall e :: e != d ==> (e in after <==> e in before))
    && (forall e :: e != d && e in before ==> after[e] == before[e])
  }

  lemma LoadFrame(s: State, step: Step)
    requires Enabled(s, step)
    requires step.Init? || step.Skip? || step.CheckNamed? || step.Fetch? || step.TakeLoaded?
    ensures OthersKept(s.sessions, Next(s, step).sessions, step.d)
  {
  }

  lemma RegisterFrame(s: State, step: Step)
    requires Enabled(s, step)
    requires || step.BeginRegister? || step.StoreApp? || step.StoreDevice? || step.StoreUser? || step.AddCheck?
             || step.Insert? || step.Publish?
    ensures OthersKept(s.sessions, Next(s, step).sessions, step.d)
  {
  }

  lemma LeaveFrame(s: State, step: Step)
    requires Enabled(s, step)
    requires || step.BeginUnregister? || step.Erase? || step.Drop? || step.Forget? || step.BeginClose?
             || step.CloseOne? || step.CloseDone? || step.PushReply? || step.UpdateInfo?
    ensures OthersKept(s.sessions, Next(s, step).sessions, step.d)
  {
  }

  /** A handler touches no other session. */
  lemma SessionsFrame(s: State, step: Step)
    requires Enabled(s, step) && !step.RunJob? && !step.Crash?
    ensures var t, d := Next(s, step), step.d;
            && (forall e :: e != d ==> (e in t.sessions <==> e in s.sessions))
            && (forall e :: e != d && e in s.sessions ==> t.sessions[e] == s.sessions[e])
  {
    hide Next, Enabled;
    if step.Init? || step.Skip? || step.CheckNamed? || step.Fetch? || step.TakeLoaded? {
      LoadFrame(s, step);
    } else if step.BeginRegister? || step.StoreApp? || step.StoreDevice? || step.StoreUser? || step.AddCheck?
              || step.Insert? || step.Publish? {
      RegisterFrame(s, step);
    } else {
      LeaveFrame(s, step);
    }
  }

  /** Only three kinds of step change regappMap. */
  lemma MapUnchanged(s: State, step: Step)
    requires Enabled(s, step) && !step.Insert? && !step.Drop? && !step.CloseOne? && !step.Crash?
    ensures Next(s, step).regapps == s.regapps
  {
  }

  /** They change the entry of one of their own device's ids. */
  lemma MapFrame(s: State, step: Step)
    requires Inv(s) && Enabled(s, step) && !step.RunJob? && !step.Crash?
    ensures var t, d := Next(s, step), step.d;
            && (forall k: RegId :: !(k.Digest? && k.dev == d) ==> (k in t.regapps <==> k in s.regapps))
            && (forall k: RegId :: !(k.Digest? && k.dev == d) && k in s.regapps ==> t.regapps[k] == s.regapps[k])
  {
    hide TodoInv, StoreInv, MapInv;
    if step.Insert? || step.Drop? || step.CloseOne? {
      assert SessionInv(s.regapps, step.d, s.sessions[step.d]);
    } else {
      MapUnchanged(s, step);
    }
  }

  lemma SessionWatches(before: map<RegId, RegApp>, after: map<RegId, RegApp>, d: string, c: Session)
    requires SessionInv(before, d, c)
    requires forall k: RegId :: k.Digest? && k.dev == d ==> (k in after <==> k in before)
    requires forall k: RegId :: k.Digest? && k.dev == d && k in before ==> after[k] == before[k]
    ensures SessionInv(after, d, c)
  {
    hide TodoInv;
  }

  lemma StoreUnchanged(s: State, step: Step)
    requires Enabled(s, step)
    requires !step.StoreApp? && !step.StoreDevice? && !step.StoreUser? && !step.Erase?
    requires !step.PushReply? && !step.UpdateInfo? && !step.RunJob? && !step.Crash?
    ensures Next(s, step).store == s.store && Next(s, step).jobs == s.jobs
  {
  }

  lemma StoreRegisters(s: State, step: Step)
    requires Inv(s) && Enabled(s, step) && (step.StoreApp? || step.StoreDevice? || step.StoreUser?)
    ensures StoreInv(Next(s, step).store, Next(s, step).jobs)
  {
    assert SessionInv(s.regapps, step.d, s.sessions[step.d]);
  }

  lemma ErasedKeepsStore(t: Store, jobs: seq<UpdateJob>, r: RegApp, stage: nat)
    requires StoreInv(t, jobs)
    ensures StoreInv(Erased(t, r, stage), jobs)
  {
  }

  lemma EraseKeepsStore(s: State, step: Step)
    requires Inv(s) && Enabled(s, step) && step.Erase?
    ensures StoreInv(Next(s, step).store, Next(s, step).jobs)
  {
    var p := s.sessions[step.d].phase;
    ErasedKeepsStore(s.store, s.jobs, s.sessions[step.d].apps[p.app], p.stage);
  }

  lemma UpdateKeepsStore(s: State, step: Step)
    requires Inv(s) && Enabled(s, step) && (step.PushReply? || step.UpdateInfo?)
    ensures StoreInv(Next(s, step).store, Next(s, step).jobs)
  {
    assert SessionInv(s.regapps, step.d, s.sessions[step.d]);
  }

  lemma JobKeepsStore(s: State, step: Step)
    requires Inv(s) && Enabled(s, step) && step.RunJob?
    ensures StoreInv(Next(s, step).store, Next(s, step).jobs)
  {
  }

  lemma MapStep(s: State, step: Step)
    requires Inv(s) && Enabled(s, step) && !step.Crash?
    ensures MapInv(Next(s, step))
  {
    if step.Insert? || step.Drop? || step.CloseOne? {
      assert SessionInv(s.regapps, step.d, s.sessions[step.d]);
    } else {
      MapUnchanged(s, step);
      SessionsStay(s, step);
    }
  }

  lemma SessionsKept(s: State, step: Step)
    requires Enabled(s, step) && !step.CloseDone? && !step.Crash?
    ensures s.sessions.Keys <= Next(s, step).sessions.Keys
  {
  }

  /** Unless the process dies, a session ends only when it has no entry left. */
  lemma SessionsStay(s: State, step: Step)
    requires Inv(s) && Enabled(s, step) && !step.Crash?
    ensures forall k :: k in s.regapps ==> k.dev in Next(s, step).sessions
  {
    if step.CloseDone? {
      LastSession(s, step.d);
    } else {
      SessionsKept(s, step);
    }
  }

  lemma LastSession(s: State, d: string)
    requires Inv(s) && Enabled(s, CloseDone(d))
    ensures forall k :: k in s.regapps ==> k.dev != d
  {
    assert SessionInv(s.regapps, d, s.sessions[d]);
  }

  /** A handler that moves on without touching either table. */
  lemma PhaseMoves(regapps: map<RegId, RegApp>, d: string, c: Session, phase: Phase, todo: seq<Item>)
    requires SessionInv(regapps, d, c) && !c.phase.Dropped? && !c.phase.Have? && !phase.Dropped?
    requires PhaseInv(regapps, d, c.apps, phase) && TodoInv(d, c.apps, phase, todo)
    ensures SessionInv(regapps, d, c.(phase := phase, todo := todo))
  {
  }

  lemma InitActs(s: State, step: Step)
    requires Inv(s) && Enabled(s, step) && step.Init?
    ensures SessionInv(Next(s, step).regapps, step.d, Next(s, step).sessions[step.d])
  {
  }

  lemma LoadActs(s: State, step: Step)
    requires Inv(s) && Enabled(s, step) && (step.Skip? || step.CheckNamed? || step.Fetch? || step.TakeLoaded?)
    ensures SessionInv(Next(s, step).regapps, step.d, Next(s, step).sessions[step.d])
  {
    hide Next, SessionInv, MapInv;
    if step.Fetch? {
      FetchActs(s, step);
    } else {
      ItemActs(s, step);
    }
  }

  lemma ItemActs(s: State, step: Step)
    requires Inv(s) && Enabled(s, step) && (step.Skip? || step.CheckNamed? || step.TakeLoaded?)
    ensures SessionInv(Next(s, step).regapps, step.d, Next(s, step).sessions[step.d])
  {
    hide StoreInv, MapInv;
    var c, after := s.sessions[step.d], Next(s, step).sessions[step.d];
    assert SessionInv(s.regapps, step.d, c);
    PhaseMoves(s.regapps, step.d, c, after.phase, after.todo);
  }

  lemma FetchActs(s: State, step: Step)
    requires Inv(s) && Enabled(s, step) && step.Fetch?
    ensures SessionInv(Next(s, step).regapps, step.d, Next(s, step).sessions[step.d])
  {
    hide MapInv;
    var c, after := s.sessions[step.d], Next(s, step).sessions[step.d];
    assert SessionInv(s.regapps, step.d, c);
    PhaseMoves(s.regapps, step.d, c, after.phase, after.todo);
  }

  lemma RegisterActs(s: State, step: Step)
    requires Inv(s) && Enabled(s, step)
    requires step.BeginRegister? || step.StoreApp? || step.StoreDevice? || step.StoreUser? || step.AddCheck?
    ensures SessionInv(Next(s, step).regapps, step.d, Next(s, step).sessions[step.d])
  {
    hide StoreInv, MapInv;
    var c, after := s.sessions[step.d], Next(s, step).sessions[step.d];
    assert SessionInv(s.regapps, step.d, c);
    PhaseMoves(s.regapps, step.d, c, after.phase, after.todo);
  }

  /** A new entry in regappMap, which the session does not have yet. */
  lemma AppInserted(regapps: map<RegId, RegApp>, d: string, c: Session, r: RegApp)
    requires SessionInv(regapps, d, c) && c.phase.Absent? && r.devId == d && r.regId == c.phase.regId
    requires r.appId == c.phase.info.appId && r.userId == c.phase.info.userId
    ensures SessionInv(regapps[c.phase.regId := r], d, c.(phase := Have(c.phase.app, r)))
  {
  }

  /** Then the session gets it. */
  lemma AppPublished(regapps: map<RegId, RegApp>, d: string, c: Session)
    requires SessionInv(regapps, d, c) && c.phase.Have?
    ensures SessionInv(regapps, d, c.(apps := c.apps[c.phase.app := c.phase.r], phase := Idle))
  {
  }

  lemma InsertActs(s: State, step: Step)
    requires Inv(s) && Enabled(s, step) && (step.Insert? || step.Publish?)
    ensures SessionInv(Next(s, step).regapps, step.d, Next(s, step).sessions[step.d])
  {
    hide SessionInv, StoreInv, MapInv;
    var c := s.sessions[step.d];
    assert SessionInv(s.regapps, step.d, c);
    if step.Insert? {
      AppInserted(s.regapps, step.d, c, step.r);
    } else {
      AppPublished(s.regapps, step.d, c);
    }
  }

  lemma LeavingPhase(s: State, step: Step)
    requires Enabled(s, step) && (step.BeginUnregister? || step.Erase? || step.BeginClose?)
    ensures var t := Next(s, step);
            && t.regapps == s.regapps && step.d in t.sessions
            && t.sessions[step.d] == s.sessions[step.d].(phase :=
                 if step.BeginUnregister? then Erasing(step.app, 0)
                 else if step.Erase? then Erasing(s.sessions[step.d].phase.app, s.sessions[step.d].phase.stage + 1)
                 else Closing)
  {
  }

  lemma LeaveActs(s: State, step: Step)
    requires Inv(s) && Enabled(s, step) && (step.BeginUnregister? || step.Erase? || step.BeginClose?)
    ensures SessionInv(Next(s, step).regapps, step.d, Next(s, step).sessions[step.d])
  {
    hide Next, StoreInv, MapInv;
    LeavingPhase(s, step);
    var c, after := s.sessions[step.d], Next(s, step).sessions[step.d];
    assert SessionInv(s.regapps, step.d, c);
    PhaseMoves(s.regapps, step.d, c, after.phase, after.todo);
  }

  /** Taking an app's entry out of regappMap leaves the others of its session. */
  lemma AppDrops(regapps: map<RegId, RegApp>, d: string, c: Session, app: string, closing: bool)
    requires SessionInv(regapps, d, c) && app in c.apps && (c.phase.Erasing? || c.phase.Closing?)
    ensures SessionInv(regapps - {c.apps[app].regId}, d, c.(phase := Dropped(app, closing)))
  {
  }

  lemma DropActs(s: State, step: Step)
    requires Inv(s) && Enabled(s, step) && (step.Drop? || step.CloseOne?)
    ensures SessionInv(Next(s, step).regapps, step.d, Next(s, step).sessions[step.d])
  {
    hide SessionInv, StoreInv, MapInv;
    var c := s.sessions[step.d];
    assert SessionInv(s.regapps, step.d, c);
    AppDrops(s.regapps, step.d, c, if step.Drop? then c.phase.app else step.app, step.CloseOne?);
  }

  /** Then the session can forget it. */
  lemma AppForgotten(regapps: map<RegId, RegApp>, d: string, c: Session)
    requires SessionInv(regapps, d, c) && c.phase.Dropped? && forall k :: k in regapps ==> regapps[k].regId == k
    ensures SessionInv(regapps, d,
            c.(apps := c.apps - {c.phase.app}, phase := if c.phase.closing then Closing else Idle))
  {
  }

  lemma ForgetActs(s: State, step: Step)
    requires Inv(s) && Enabled(s, step) && step.Forget?
    ensures SessionInv(Next(s, step).regapps, step.d, Next(s, step).sessions[step.d])
  {
    hide SessionInv, StoreInv;
    assert SessionInv(s.regapps, step.d, s.sessions[step.d]);
    AppForgotten(s.regapps, step.d, s.sessions[step.d]);
  }

  lemma StoreStep(s: State, step: Step)
    requires Inv(s) && Enabled(s, step) && !step.Crash?
    ensures StoreInv(Next(s, step).store, Next(s, step).jobs)
  {
    hide Next, Enabled, SessionInv, MapInv;
    if step.StoreApp? || step.StoreDevice? || step.StoreUser? {
      StoreRegisters(s, step);
    } else if step.Erase? {
      EraseKeepsStore(s, step);
    } else if step.PushReply? || step.UpdateInfo? {
      UpdateKeepsStore(s, step);
    } else if step.RunJob? {
      JobKeepsStore(s, step);
    } else {
      StoreUnchanged(s, step);
    }
  }

  /** The session whose handler moves. */
  lemma ActorStep(s: State, step: Step)
    requires Inv(s) && Enabled(s, step) && !step.RunJob? && !step.Crash? && !step.PushReply? && !step.UpdateInfo?
    requires step.d in Next(s, step).sessions
    ensures SessionInv(Next(s, step).regapps, step.d, Next(s, step).sessions[step.d])
  {
    hide Next, Inv, SessionInv;
    if step.Init? {
      InitActs(s, step);
    } else if step.Skip? || step.CheckNamed? || step.Fetch? || step.TakeLoaded? {
      LoadActs(s, step);
    } else if step.Insert? || step.Publish? {
      InsertActs(s, step);
    } else if step.Drop? || step.CloseOne? {
      DropActs(s, step);
    } else if step.Forget? {
      ForgetActs(s, step);
    } else if step.BeginUnregister? || step.Erase? || step.BeginClose? {
      LeaveActs(s, step);
    } else if step.CloseDone? {
      Ends(s, step.d);
    } else {
      RegisterActs(s, step);
    }
  }

  lemma Ends(s: State, d: string)
    requires Enabled(s, CloseDone(d))
    ensures d !in Next(s, CloseDone(d)).sessions
  {
  }

  /** Updates leave the tables alone. */
  lemma UpdateFrame(s: State, step: Step)
    requires Enabled(s, step) && (step.RunJob? || step.PushReply? || step.UpdateInfo?)
    ensures Next(s, step).sessions == s.sessions && Next(s, step).regapps == s.regapps
  {
  }

  lemma InvStep(s: State, step: Step)
    requires Inv(s) && Enabled(s, step)
    ensures Inv(Next(s, step))
  {
    if step.Crash? {
      assert Inv(Next(s, step));
    } else {
      HandlerStep(s, step);
    }
    hide Inv, Next, Enabled;
  }

  lemma HandlerStep(s: State, step: Step)
    requires Inv(s) && Enabled(s, step) && !step.Crash?
    ensures Inv(Next(s, step))
  {
    hide Next, Enabled, SessionInv, StoreInv, MapInv;
    MapStep(s, step);
    StoreStep(s, step);
    var t := Next(s, step);
    if step.RunJob? || step.PushReply? || step.UpdateInfo? {
      UpdateFrame(s, step);
    } else {
      SessionsFrame(s, step);
      MapFrame(s, step);
      forall d | d in t.sessions
        ensures SessionInv(t.regapps, d, t.sessions[d])
      {
        if d != step.d {
          SessionWatches(s.regapps, t.regapps, d, s.sessions[d]);
        } else {
          ActorStep(s, step);
        }
      }
    }
  }

  lemma {:induction false} InvRuns(s: State, steps: seq<Step>, t: State)
    requires Inv(s) && Runs(s, steps, t)
    ensures Inv(t)
    decreases |steps|
  {
    if steps != [] {
      InvStep(s, steps[0]);
      InvRuns(Next(s, steps[0]), steps[1..], t);
    }
  }

  /** The session is between two handlers. */
  predicate AtBoundary(c: Session) {
    c.phase.Idle? || c.phase.Closing?
  }

  /** In every run, however the handlers interleave: a device that is between
      handlers has in regappMap exactly its session's RegApps, each under its own
      id; and every entry of regappMap belongs to the session of its device. */
  lemma RegistryAgrees(s: State, steps: seq<Step>, t: State)
    requires Initial(s) && Runs(s, steps, t)
    ensures forall k :: k in t.regapps ==>
              && k.Digest? && k.dev in t.sessions && Genuine(t.regapps[k]) && t.regapps[k].regId == k
              && (AtBoundary(t.sessions[k.dev]) ==>
                    k.app in t.sessions[k.dev].apps && t.sessions[k.dev].apps[k.app] == t.regapps[k])
    ensures forall d, app :: d in t.sessions && app in t.sessions[d].apps && AtBoundary(t.sessions[d]) ==>
              var r := t.sessions[d].apps[app];
              && Genuine(r) && r.devId == d && r.appId == app
              && r.regId in t.regapps && t.regapps[r.regId] == r
  {
    InvRuns(s, steps, t);
    hide Runs, TodoInv, StoreInv;
    forall k | k in t.regapps
      ensures AtBoundary(t.sessions[k.dev]) ==>
                k.app in t.sessions[k.dev].apps && t.sessions[k.dev].apps[k.app] == t.regapps[k]
    {
      assert SessionInv(t.regapps, k.dev, t.sessions[k.dev]);
    }
    forall d, app | d in t.sessions && app in t.sessions[d].apps && AtBoundary(t.sessions[d])
      ensures Mine(d, app, t.sessions[d].apps[app])
      ensures var r := t.sessions[d].apps[app]; r.regId in t.regapps && t.regapps[r.regId] == r
    {
      assert SessionInv(t.regapps, d, t.sessions[d]);
    }
  }
}
