/** Whole handlers as runs of the machine in Registry. */
module RegistryRuns {
  import opened Apps
  import opened Registry

  lemma RunsNothing(s: State)
    ensures Runs(s, [], s)
  {
  }

  /** A step that neither unregisters, nor dies, nor fails a write that the user
      index depends on. */
  predicate Mild(step: Step) {
    match step
    case BeginUnregister(_, _) => false
    case Crash => false
    case StoreUser(_, ok) => ok
    case Erase(_, ok) => ok
    case _ => true
  }

  ghost predicate AllMild(steps: seq<Step>) {
    forall i :: 0 <= i < |steps| ==> Mild(steps[i])
  }

  lemma {:induction false} Extend(s: State, steps: seq<Step>, t: State, step: Step)
    returns (u: State, longer: seq<Step>)
    requires Runs(s, steps, t) && Enabled(t, step)
    ensures u == Next(t, step) && longer == steps + [step] && Runs(s, longer, u)
    ensures AllMild(steps) && Mild(step) ==> AllMild(longer)
    decreases |steps|
  {
    u, longer := Next(t, step), steps + [step];
    if steps == [] {
      assert longer[1..] == [];
    } else {
      var _, rest := Extend(Next(s, steps[0]), steps[1..], t, step);
      assert longer[1..] == rest;
    }
  }

  /** One run after another is a run. */
  lemma {:induction false} RunsOn(s: State, steps: seq<Step>, t: State, more: seq<Step>, u: State)
    requires Runs(s, steps, t) && Runs(t, more, u)
    ensures Runs(s, steps + more, u)
    decreases |steps|
  {
    hide Next, Enabled;
    if steps == [] {
      assert steps + more == more;
    } else {
      RunsOn(Next(s, steps[0]), steps[1..], t, more, u);
      assert (steps + more)[1..] == steps[1..] + more;
    }
  }

  /** What RegisterApp leaves in the store. */
  function Registered(t: Store, d: string, app: string, user: string, now: int, deviceOk: bool, userOk: bool): Store {
    var regId := Digest(d, app, user);
    Store(t.app[(app, regId) := NewInfo(app, user, now)],
          if deviceOk then t.device[(d, app) := regId] else t.device,
          if userOk then SetUser(t, user, regId, app).user else t.user)
  }

  /** RegisterApp up to AddApp: the three entries are written. */
  lemma StoreRun(
    s: State, steps: seq<Step>, t: State,
    d: string, app: string, user: string, now: int, deviceOk: bool, userOk: bool)
    returns (u: State, longer: seq<Step>)
    requires Runs(s, steps, t) && Ready(t, d) && app !in t.sessions[d].apps && Digest(d, app, user) !in t.regapps
    ensures Runs(s, longer, u)
    ensures AllMild(steps) && userOk ==> AllMild(longer)
    ensures u == At(t, d, Adding(app, Digest(d, app, user), NewInfo(app, user, now)))
                 .(store := Registered(t.store, d, app, user, now, deviceOk, userOk))
  {
    hide Runs;
    u, longer := Extend(s, steps, t, BeginRegister(d, app, user));
    u, longer := Extend(s, longer, u, StoreApp(d, now, true));
    u, longer := Extend(s, longer, u, StoreDevice(d, deviceOk));
    u, longer := Extend(s, longer, u, StoreUser(d, userOk));
  }

  /** AddApp, of an app that is not in memory, and what its caller does with r. */
  lemma AddRun(s: State, steps: seq<Step>, t: State, d: string, r: RegApp) returns (u: State, longer: seq<Step>)
    requires Runs(s, steps, t) && d in t.sessions && t.sessions[d].phase.Adding? && r.regId !in t.regapps
    requires var p := t.sessions[d].phase;
             r.devId == d && p.regId == r.regId && p.info.appId == r.appId && p.info.userId == r.userId
    ensures Runs(s, longer, u)
    ensures AllMild(steps) ==> AllMild(longer)
    ensures var c := t.sessions[d];
            u == t.(sessions := t.sessions[d := Session(c.apps[c.phase.app := r], c.todo, Idle)],
                    regapps := t.regapps[r.regId := r])
  {
    hide Runs;
    u, longer := Extend(s, steps, t, AddCheck(d));
    u, longer := Extend(s, longer, u, Insert(d, r));
    u, longer := Extend(s, longer, u, Publish(d));
  }

  /** The state in which an app begins to be unregistered. */
  function Unregistering(t: State, d: string, app: string): State
    requires d in t.sessions
  {
    At(t, d, Erasing(app, 0))
  }

  lemma BeginsUnregistering(t: State, d: string, app: string)
    requires Ready(t, d) && app in t.sessions[d].apps
    ensures Enabled(t, BeginUnregister(d, app)) && Next(t, BeginUnregister(d, app)) == Unregistering(t, d, app)
  {
  }

  /** The state in which a process starts after another has died. */
  function Restarted(t: State): State {
    State(map[], map[], t.store, [])
  }

  lemma Restarts(t: State)
    ensures Enabled(t, Crash) && Next(t, Crash) == Restarted(t)
  {
  }

  lemma EraseOneRun(s: State, steps: seq<Step>, t: State, d: string, ok: bool) returns (u: State, longer: seq<Step>)
    requires Runs(s, steps, t) && d in t.sessions && t.sessions[d].phase.Erasing?
    requires t.sessions[d].phase.app in t.sessions[d].apps && t.sessions[d].phase.stage < 3
    ensures Runs(s, longer, u) && (AllMild(steps) && ok ==> AllMild(longer))
    ensures var p := t.sessions[d].phase;
            u == At(t, d, Erasing(p.app, p.stage + 1)).(store :=
              if ok then Erased(t.store, t.sessions[d].apps[p.app], p.stage) else t.store)
  {
    hide Runs, AllMild, Erased;
    u, longer := Extend(s, steps, t, Erase(d, ok));
  }

  /** UnregisterApp erases the three entries. */
  lemma EraseAllRun(s: State, steps: seq<Step>, t: State, d: string, oks: (bool, bool, bool))
    returns (u: State, longer: seq<Step>)
    requires Runs(s, steps, t) && d in t.sessions && t.sessions[d].phase.Erasing? && t.sessions[d].phase.stage == 0
    requires t.sessions[d].phase.app in t.sessions[d].apps
    ensures Runs(s, longer, u) && (AllMild(steps) && oks == (true, true, true) ==> AllMild(longer))
    ensures var p := t.sessions[d].phase;
            u == At(t, d, Erasing(p.app, 3)).(store := ErasedAll(t.store, t.sessions[d].apps[p.app], oks))
  {
    hide Runs, Next, Enabled, AllMild, Erased;
    u, longer := EraseOneRun(s, steps, t, d, oks.0);
    u, longer := EraseOneRun(s, longer, u, d, oks.1);
    u, longer := EraseOneRun(s, longer, u, d, oks.2);
  }

  lemma EraseRun(s: State, steps: seq<Step>, t: State, d: string, app: string, oks: (bool, bool, bool))
    returns (u: State, longer: seq<Step>)
    requires Runs(s, steps, t) && Ready(t, d) && app in t.sessions[d].apps
    ensures Runs(s, longer, u)
    ensures u == At(t, d, Erasing(app, 3)).(store := ErasedAll(t.store, t.sessions[d].apps[app], oks))
  {
    hide Runs, ErasedAll;
    u, longer := Extend(s, steps, t, BeginUnregister(d, app));
    u, longer := EraseAllRun(s, longer, u, d, oks);
  }

  /** Then the entry leaves regappMap and the session. */
  lemma ForgetRun(s: State, steps: seq<Step>, t: State, d: string, app: string) returns (u: State, longer: seq<Step>)
    requires Runs(s, steps, t) && d in t.sessions && app in t.sessions[d].apps
    requires t.sessions[d].phase == Erasing(app, 3)
    ensures Runs(s, longer, u)
    ensures AllMild(steps) ==> AllMild(longer)
    ensures u == t.(sessions := t.sessions[d := Session(t.sessions[d].apps - {app}, t.sessions[d].todo, Idle)],
                    regapps := t.regapps - {t.sessions[d].apps[app].regId})
  {
    hide Runs;
    u, longer := Extend(s, steps, t, Drop(d));
    u, longer := Extend(s, longer, u, Forget(d));
  }

  /** One turn of the loop of closeClient. */
  lemma CloseOneRun(s: State, steps: seq<Step>, t: State, d: string, app: string) returns (u: State, longer: seq<Step>)
    requires Runs(s, steps, t) && d in t.sessions && app in t.sessions[d].apps && t.sessions[d].phase.Closing?
    ensures Runs(s, longer, u)
    ensures AllMild(steps) ==> AllMild(longer)
    ensures u == t.(sessions := t.sessions[d := Session(t.sessions[d].apps - {app}, t.sessions[d].todo, Closing)],
                    regapps := t.regapps - {t.sessions[d].apps[app].regId})
  {
    hide Runs;
    u, longer := Extend(s, steps, t, CloseOne(d, app));
    u, longer := Extend(s, longer, u, Forget(d));
  }

  /** The whole loop of closeClient. */
  lemma {:induction false} CloseAllRun(s: State, steps: seq<Step>, t: State, d: string)
    returns (u: State, longer: seq<Step>)
    requires Runs(s, steps, t) && d in t.sessions && t.sessions[d].phase.Closing? && t.sessions[d].todo == []
    ensures Runs(s, longer, u) && (AllMild(steps) ==> AllMild(longer))
    ensures u.sessions == t.sessions[d := Session(map[], [], Closing)] && u.store == t.store && u.jobs == t.jobs
    ensures u.regapps.Keys <= t.regapps.Keys
    decreases t.sessions[d].apps.Keys
  {
    hide Runs, Next, Enabled, AllMild;
    var apps := t.sessions[d].apps;
    if apps == map[] {
      u, longer := t, steps;
      assert t.sessions == t.sessions[d := Session(map[], [], Closing)];
    } else {
      var app :| app in apps;
      u, longer := CloseOneRun(s, steps, t, d, app);
      assert (apps - {app}).Keys < apps.Keys;
      u, longer := CloseAllRun(s, longer, u, d);
    }
  }

  lemma BeginCloseRun(s: State, d: string) returns (u: State, steps: seq<Step>)
    requires Ready(s, d)
    ensures Runs(s, steps, u) && u == At(s, d, Closing)
  {
    RunsNothing(s);
    u, steps := Extend(s, [], s, BeginClose(d));
  }

  lemma CloseDoneRun(s: State, steps: seq<Step>, t: State, d: string) returns (u: State, longer: seq<Step>)
    requires Runs(s, steps, t) && d in t.sessions && t.sessions[d].phase.Closing? && t.sessions[d].apps == map[]
    ensures Runs(s, longer, u) && u == t.(sessions := t.sessions - {d})
    ensures AllMild(steps) ==> AllMild(longer)
  {
    hide Runs;
    u, longer := Extend(s, steps, t, CloseDone(d));
  }

  /** A session that ends. */
  lemma LeaveRun(s: State, steps: seq<Step>, t: State, d: string) returns (u: State, longer: seq<Step>)
    requires Runs(s, steps, t) && Ready(t, d)
    ensures Runs(s, longer, u) && (AllMild(steps) ==> AllMild(longer))
    ensures u.sessions == t.sessions - {d} && u.store == t.store && u.jobs == t.jobs && u.regapps.Keys <= t.regapps.Keys
  {
    hide Runs, AllMild;
    u, longer := Extend(s, steps, t, BeginClose(d));
    u, longer := CloseAllRun(s, longer, u, d);
    u, longer := CloseDoneRun(s, longer, u, d);
    hide Next, Enabled;
    assert u.sessions == t.sessions - {d};
  }

  /** The rest of unregistering an app, all writes successful. */
  lemma UnregisterRun(s: State, steps: seq<Step>, t: State, d: string) returns (u: State, longer: seq<Step>)
    requires Runs(s, steps, t) && d in t.sessions && t.sessions[d].phase.Erasing? && t.sessions[d].phase.stage == 0
    requires t.sessions[d].phase.app in t.sessions[d].apps
    ensures Runs(s, longer, u) && (AllMild(steps) ==> AllMild(longer))
    ensures var c, app := t.sessions[d], t.sessions[d].phase.app;
            && u.sessions == t.sessions[d := Session(c.apps - {app}, c.todo, Idle)]
            && u.regapps == t.regapps - {c.apps[app].regId} && u.jobs == t.jobs
            && u.store == ErasedAll(t.store, c.apps[app], (true, true, true))
  {
    hide Runs, AllMild, Next, Enabled, ErasedAll;
    u, longer := EraseAllRun(s, steps, t, d, (true, true, true));
    u, longer := ForgetRun(s, longer, u, d, t.sessions[d].phase.app);
    assert u.sessions == t.sessions[d :=
        Session(t.sessions[d].apps - {t.sessions[d].phase.app}, t.sessions[d].todo, Idle)];
  }

  lemma UpdateRun(s: State, steps: seq<Step>, t: State, i: nat) returns (u: State, longer: seq<Step>)
    requires Runs(s, steps, t) && i < |t.jobs|
    ensures Runs(s, longer, u) && (AllMild(steps) ==> AllMild(longer))
    ensures u.sessions == t.sessions && u.regapps == t.regapps && u.store.user == t.store.user
    ensures u.store.app == t.store.app[(t.jobs[i].info.appId, t.jobs[i].regId) := t.jobs[i].info]
  {
    hide Runs, AllMild;
    u, longer := Extend(s, steps, t, RunJob(i, true));
  }

  /** One turn of the loop over the apps that INIT names: `read` says whether
      the record could be read, r is the object made of it. */
  lemma LoadRun(s: State, steps: seq<Step>, t: State, d: string, read: bool, r: RegApp?)
    returns (u: State, longer: seq<Step>)
    requires Runs(s, steps, t) && d in t.sessions && t.sessions[d].phase.Idle?
    requires t.sessions[d].todo != [] && t.sessions[d].todo[0].Named?
    requires var i := t.sessions[d].todo[0];
             if i.regId in t.regapps || !read || (i.app, i.regId) !in t.store.app then r == null
             else
               && r != null && r.devId == d && r.regId == i.regId
               && r.appId == t.store.app[(i.app, i.regId)].appId && r.userId == t.store.app[(i.app, i.regId)].userId
    ensures Runs(s, longer, u)
    ensures AllMild(steps) ==> AllMild(longer)
    ensures var c := t.sessions[d];
            u == t.(sessions := t.sessions[d :=
                Session(if r == null then c.apps else c.apps[c.todo[0].app := r], c.todo[1..], Idle)],
                    regapps := if r == null then t.regapps else t.regapps[r.regId := r])
  {
    hide Runs;
    var i := t.sessions[d].todo[0];
    u, longer := Extend(s, steps, t, CheckNamed(d));
    if i.regId !in t.regapps {
      u, longer := Extend(s, longer, u, Fetch(d, read));
    }
    if r != null {
      u, longer := AddRun(s, longer, u, d, r);
    }
  }

  /** One turn of the loop over the apps that the store lists: r is the object
      AddApp returns. */
  lemma TakeLoadedRun(s: State, steps: seq<Step>, t: State, d: string, r: RegApp) returns (u: State, longer: seq<Step>)
    requires Runs(s, steps, t) && d in t.sessions && t.sessions[d].phase.Idle?
    requires t.sessions[d].todo != [] && t.sessions[d].todo[0].Loaded?
    requires var i := t.sessions[d].todo[0];
             if i.regId in t.regapps then r == t.regapps[i.regId]
             else r.devId == d && r.regId == i.regId && r.appId == i.info.appId && r.userId == i.info.userId
    ensures Runs(s, longer, u)
    ensures AllMild(steps) ==> AllMild(longer)
    ensures var c := t.sessions[d];
            u == t.(sessions := t.sessions[d := Session(c.apps[c.todo[0].info.appId := r], c.todo[1..], Idle)],
                    regapps := t.regapps[c.todo[0].regId := r])
  {
    hide Runs;
    u, longer := Extend(s, steps, t, TakeLoaded(d));
    u, longer := Extend(s, longer, u, AddCheck(d));
    if t.sessions[d].todo[0].regId !in t.regapps {
      u, longer := Extend(s, longer, u, Insert(d, r));
    }
    u, longer := Extend(s, longer, u, Publish(d));
  }
}
