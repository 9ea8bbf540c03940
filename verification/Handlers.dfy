/** The handlers that change a client's RegApps, on the objects: registering and
    unregistering (comet/handlers.go), the INIT loops and closeClient
    (comet/server.go). Each, run without interruption, is a run of the machine
    in Registry. */
module Handlers {
  import opened Apps
  import opened Lookups
  import opened RegistryRuns
  import opened Sequences
  import R = Registry
  import A = Acks
  import T = Topics

  const ERR_INTERNAL := 1000
  const ERR_INVALID_PARAMS := 1002
  const ERR_INVALID_APPID := 1003
  const ERR_INVALID_PKG := 1004
  const ERR_AUTH := 1005
  const ERR_REG_CONFLICT := 1006
  const ERR_NOT_REG := 1007
  const ERR_INVALID_REGID := 1008

  /** What reading an app's record from db_apps gives. */
  datatype AppRecord = Unreadable | Missing | Garbled | Readable

  /** A table without the entries of these apps. */
  ghost predicate Left(before: map<RegId, RegApp>, after: map<RegId, RegApp>, gone: map<string, RegApp>) {
    && (forall k :: k in after <==> k in before && forall app :: app in gone ==> gone[app].regId != k)
    && (forall k :: k in after ==> after[k] == before[k])
  }

  lemma LeftAll(regapps: map<RegId, RegApp>, apps: map<string, RegApp>)
    ensures Left(regapps, regapps, apps - apps.Keys)
  {
  }

  lemma LeftMore(
    before: map<RegId, RegApp>, after: map<RegId, RegApp>, apps: map<string, RegApp>, kept: set<string>, app: string)
    requires Left(before, after, apps - kept) && app in kept && app in apps
    ensures Left(before, after - {apps[app].regId}, apps - (kept - {app}))
  {
    var less, more := apps - kept, apps - (kept - {app});
    assert forall a :: a in more <==> a in less || a == app;
  }

  /** Queued updates of an app's registration are for that app. */
  lemma OwnUpdates(s: R.State, d: string, app: string)
    requires R.Inv(s) && d in s.sessions && app in s.sessions[d].apps
    ensures var r := s.sessions[d].apps[app];
            forall i :: 0 <= i < |s.jobs| && s.jobs[i].regId == r.regId ==> s.jobs[i].info.appId == r.appId
  {
    assert R.SessionInv(s.regapps, d, s.sessions[d]);
  }

  /** UpdateJob.Do for the job in front is the machine's step. */
  method RunUpdate(jobChannel: JobQueue<R.UpdateJob>, manager: AppManager, ghost s: R.State)
    returns (ok: bool, ghost t: R.State)
    requires jobChannel.jobs != [] && s.jobs == jobChannel.jobs
    requires s.regapps == manager.regappMap && s.store == manager.storage.View()
    modifies jobChannel, manager.storage`app, manager.storage`failures
    ensures R.Enabled(s, R.RunJob(0, ok)) && t == R.Next(s, R.RunJob(0, ok))
    ensures t.jobs == jobChannel.jobs && t.store == manager.storage.View() && t.regapps == manager.regappMap
    ensures old(manager.storage.failures) == [] ==> ok
  {
    var job := jobChannel.jobs[0];
    jobChannel.jobs := jobChannel.jobs[1..];
    ok := manager.storage.SetApp(job.info.appId, job.regId, job.info);
    t := R.Next(s, R.RunJob(0, ok));
  }

  class Client {
    const devId: string
    const manager: AppManager
    var regApps: map<string, RegApp>

    constructor (devId: string, manager: AppManager)
      ensures this.devId == devId && this.manager == manager && regApps == map[]
    {
      this.devId, this.manager, regApps := devId, manager, map[];
    }

    /** The machine state has the tables, and this client in this phase. */
    ghost predicate Shows(s: R.State, todo: seq<R.Item>, phase: R.Phase)
      reads this, manager, manager.storage
    {
      && s.regapps == manager.regappMap && s.store == manager.storage.View()
      && devId in s.sessions && s.sessions[devId] == R.Session(regApps, todo, phase)
    }

    /** RegisterApp and what follows it; r is null if that failed. */
    method Register(appId: string, userId: string, now: int, ghost s: R.State)
      returns (r: RegApp?, ghost steps: seq<R.Step>, ghost t: R.State)
      requires Shows(s, [], R.Idle) && appId !in regApps
      modifies this`regApps, manager`regappMap, manager.storage
      ensures Shows(t, [], R.Idle) && R.Runs(s, steps, t)
      ensures t.jobs == s.jobs && t.sessions - {devId} == s.sessions - {devId}
      ensures Digest(devId, appId, userId) in old(manager.regappMap) ==> r == null
      ensures Digest(devId, appId, userId) !in old(manager.regappMap) && old(manager.storage.failures) == [] ==>
              r != null
      ensures old(manager.storage.failures) == [] ==> manager.storage.failures == []
      ensures r != null ==>
                && fresh(r) && r.devId == devId && r.regId == Digest(devId, appId, userId)
                && r.Info() == R.NewInfo(appId, userId, now)
                && r.regTime == now && r.lastMsgId == -1 && r.topics == [] && r.sendIds == []
      ensures regApps == if r == null then old(regApps) else old(regApps)[appId := r]
      ensures manager.regappMap == if r == null then old(manager.regappMap) else old(manager.regappMap)[r.regId := r]
      ensures r == null ==> t == s
    {
      hide R.Runs;
      var regId := Digest(devId, appId, userId);
      ghost var appOk, deviceOk, userOk;
      r, appOk, deviceOk, userOk := manager.RegisterApp(devId, regId, appId, userId, now);
      RunsNothing(s);
      if r == null {
        t, steps := Extend(s, [], s, R.BeginRegister(devId, appId, userId));
        if !appOk && regId !in s.regapps {
          t, steps := Extend(s, steps, t, R.StoreApp(devId, now, false));
        }
        assert t.sessions == s.sessions;
        return;
      }
      regApps := regApps[appId := r];
      t, steps := StoreRun(s, [], s, devId, appId, userId, now, deviceOk, userOk);
      t, steps := AddRun(s, steps, t, devId, r);
    }

    /** `record` is what db_apps has of the app id, `user` what the token is good for. */
    method HandleRegister(appId: string, record: AppRecord, user: Option<string>, now: int, ghost s: R.State)
      returns (result: int, ghost steps: seq<R.Step>, ghost t: R.State)
      requires Shows(s, [], R.Idle)
      modifies this`regApps, manager`regappMap, manager.storage
      ensures Shows(t, [], R.Idle) && R.Runs(s, steps, t)
      ensures t.jobs == s.jobs && t.sessions - {devId} == s.sessions - {devId}
      ensures appId == "" ==> result == ERR_INVALID_PARAMS
      ensures appId != "" && !record.Readable? ==> result == if record.Missing? then ERR_INVALID_APPID else ERR_INTERNAL
      ensures appId != "" && record.Readable? && user.None? ==> result == ERR_AUTH
      ensures appId != "" && record.Readable? && user.Some? ==>
                var regId := Digest(devId, appId, user.value);
                if appId in old(regApps) then
                  result == if old(regApps)[appId].regId == regId then 0 else ERR_REG_CONFLICT
                else if regId in old(manager.regappMap) then result == ERR_INTERNAL
                else
                  && result in {0, ERR_INTERNAL}
                  && (old(manager.storage.failures) == [] ==> result == 0)
                  && (result == 0 ==>
                        && appId in regApps && fresh(regApps[appId])
                        && var r := regApps[appId];
                           && r.regId == regId && r.devId == devId && r.appId == appId && r.userId == user.value
                           && r.regTime == now && r.lastMsgId == -1 && r.topics == [] && r.sendIds == [])
      ensures result != 0 || appId in old(regApps) ==> t == s && regApps == old(regApps)
      ensures result == 0 ==> appId in regApps && regApps == old(regApps)[appId := regApps[appId]]
    {
      RunsNothing(s);
      hide R.Runs;
      steps, t := [], s;
      if appId == "" {
        return ERR_INVALID_PARAMS, steps, t;
      }
      if record == Unreadable {
        return ERR_INTERNAL, steps, t;
      }
      if record == Missing {
        return ERR_INVALID_APPID, steps, t;
      }
      if record == Garbled {
        return ERR_INTERNAL, steps, t;
      }
      if user == None {
        return ERR_AUTH, steps, t;
      }
      if appId in regApps {
        if regApps[appId].regId == Digest(devId, appId, user.value) {
          return 0, steps, t;
        }
        return ERR_REG_CONFLICT, steps, t;
      }
      var r;
      r, steps, t := Register(appId, user.value, now, s);
      result := if r == null then ERR_INTERNAL else 0;
    }

    /** What UnregisterApp and its callers do with a registered app. */
    method Unregister(appId: string, ghost s: R.State)
      returns (ghost oks: (bool, bool, bool), ghost steps: seq<R.Step>, ghost t: R.State)
      requires Shows(s, [], R.Idle) && appId in regApps
      modifies this`regApps, manager`regappMap, manager.storage
      ensures Shows(t, [], R.Idle) && R.Runs(s, steps, t)
      ensures t.jobs == s.jobs && t.sessions - {devId} == s.sessions - {devId}
      ensures regApps == old(regApps) - {appId}
      ensures manager.regappMap == old(manager.regappMap) - {old(regApps)[appId].regId}
      ensures manager.storage.View() == R.ErasedAll(old(manager.storage.View()), old(regApps)[appId], oks)
      ensures old(manager.storage.failures) == [] ==> oks == (true, true, true)
    {
      hide R.Runs, R.ErasedAll;
      oks := manager.UnregisterApp(regApps[appId]);
      RunsNothing(s);
      t, steps := EraseRun(s, [], s, devId, appId, oks);
      t, steps := ForgetRun(s, steps, t, devId, appId);
      regApps := regApps - {appId};
    }

    method HandleUnregister(appId: string, regId: RegId, ghost s: R.State)
      returns (result: int, ghost steps: seq<R.Step>, ghost t: R.State)
      requires Shows(s, [], R.Idle)
      modifies this`regApps, manager`regappMap, manager.storage
      ensures Shows(t, [], R.Idle) && R.Runs(s, steps, t)
      ensures t.jobs == s.jobs && t.sessions - {devId} == s.sessions - {devId}
      ensures result ==
        if appId == "" || regId == Foreign("") then ERR_INVALID_PARAMS
        else if appId !in old(regApps) then ERR_NOT_REG
        else if old(regApps)[appId].regId != regId then ERR_INVALID_REGID else 0
      ensures result != 0 ==> t == s && regApps == old(regApps)
      ensures result == 0 ==>
                regApps == old(regApps) - {appId} && manager.regappMap == old(manager.regappMap) - {regId}
    {
      RunsNothing(s);
      hide R.Runs;
      steps, t := [], s;
      if appId == "" || regId == Foreign("") {
        return ERR_INVALID_PARAMS, steps, t;
      }
      if appId !in regApps {
        return ERR_NOT_REG, steps, t;
      }
      if regApps[appId].regId != regId {
        return ERR_INVALID_REGID, steps, t;
      }
      ghost var oks;
      oks, steps, t := Unregister(appId, s);
      result := 0;
    }

    /** addSendids for a registered app. */
    method AddSendids(appId: string, sendIds: seq<string>, ghost s: R.State, ghost steps: seq<R.Step>, ghost t: R.State)
      returns (ok: bool, ghost longer: seq<R.Step>, ghost u: R.State)
      requires Shows(t, [], R.Idle) && R.Runs(s, steps, t) && appId in regApps
      modifies regApps[appId], manager.storage`app, manager.storage`failures
      ensures Shows(u, [], R.Idle) && R.Runs(s, longer, u) && u.jobs == t.jobs && u.sessions == t.sessions
      ensures var r := regApps[appId];
              r.Info() ==
              if ok then old(r.Info()).(sendIds := old(r.sendIds) + A.NewIds(old(r.sendIds), sendIds))
              else old(r.Info())
      ensures old(manager.storage.failures) == [] ==> ok
    {
      hide R.Runs, A.Enabled, A.Next;
      var r := regApps[appId];
      ghost var acks := A.Settled(r, manager.storage);
      ghost var write := A.NewIds(r.sendIds, sendIds) != [];
      ok, acks := A.AddSendids(r, sendIds, manager.storage, [], acks);
      u, longer := t, steps;
      if ok && write {
        u, longer := Extend(s, steps, t, R.UpdateInfo(devId, appId, r.Info(), true));
      }
    }

    /** delSendid for a registered app. */
    method DelSendid(appId: string, sendId: string, ghost s: R.State)
      returns (ok: bool, ghost steps: seq<R.Step>, ghost t: R.State)
      requires Shows(s, [], R.Idle) && appId in regApps
      modifies regApps[appId], manager.storage`app, manager.storage`failures
      ensures Shows(t, [], R.Idle) && R.Runs(s, steps, t) && t.jobs == s.jobs && t.sessions == s.sessions
      ensures old(manager.storage.failures) == [] ==> ok
      ensures ok ==>
                var i := A.FirstIndex(old(regApps[appId].sendIds), sendId);
                regApps[appId].sendIds ==
                if sendId == "[all]" then []
                else if i < 0 then old(regApps[appId].sendIds)
                else T.Without(old(regApps[appId].sendIds), i)
    {
      RunsNothing(s);
      hide R.Runs, A.Enabled, A.Next;
      var r := regApps[appId];
      ghost var acks := A.Settled(r, manager.storage);
      ghost var write := sendId == "[all]" || A.FirstIndex(r.sendIds, sendId) >= 0;
      ok, acks := A.DelSendid(r, sendId, manager.storage, [], acks);
      steps, t := [], s;
      if ok && write {
        t, steps := Extend(s, [], s, R.UpdateInfo(devId, appId, r.Info(), true));
      }
    }

    /** `found` is the app id that db_packages has for the package. An app whose
        send ids cannot be stored stays registered, without them. */
    method HandleRegister2(
      pkg: string, sendIds: seq<string>, found: Option<string>, user: Option<string>, now: int, ghost s: R.State)
      returns (result: int, ghost steps: seq<R.Step>, ghost t: R.State)
      requires Shows(s, [], R.Idle)
      modifies this`regApps, manager`regappMap, manager.storage, regApps.Values
      ensures Shows(t, [], R.Idle) && R.Runs(s, steps, t)
      ensures t.jobs == s.jobs && t.sessions - {devId} == s.sessions - {devId}
      ensures pkg == "" || sendIds == [] ==> result == ERR_INVALID_PARAMS
      ensures pkg != "" && sendIds != [] && found.None? ==> result == ERR_INVALID_PKG
      ensures pkg != "" && sendIds != [] && found.Some? && user.None? ==> result == ERR_AUTH
      ensures pkg != "" && sendIds != [] && found.Some? && user.Some? ==>
                var appId, regId := found.value, Digest(devId, found.value, user.value);
                if appId in old(regApps) && old(regApps)[appId].regId != regId then result == ERR_REG_CONFLICT
                else if appId !in old(regApps) && regId in old(manager.regappMap) then result == ERR_INTERNAL && t == s
                else
                  && result in {0, ERR_INTERNAL} && (old(manager.storage.failures) == [] ==> result == 0)
                  && (appId !in regApps ==> result == ERR_INTERNAL && t == s)
                  && (appId in regApps ==>
                        && regApps[appId].regId == regId
                        && var had := if appId in old(regApps) then old(regApps[appId].sendIds) else [];
                           regApps[appId].sendIds == if result == 0 then had + A.NewIds(had, sendIds) else had)
                  && regApps == (if appId in regApps then old(regApps)[appId := regApps[appId]] else old(regApps))
                  && manager.regappMap == (if appId in old(regApps) || appId !in regApps then old(manager.regappMap)
                                           else old(manager.regappMap)[regId := regApps[appId]])
                  && (appId in old(regApps) ==> regApps == old(regApps))
                  && (appId !in old(regApps) && appId in regApps ==>
                        regApps[appId].regTime == now && regApps[appId].lastMsgId == -1)
      ensures result in {ERR_INVALID_PARAMS, ERR_INVALID_PKG, ERR_AUTH, ERR_REG_CONFLICT} ==>
                t == s && regApps == old(regApps) && manager.regappMap == old(manager.regappMap)
    {
      RunsNothing(s);
      hide R.Runs, Shows;
      steps, t := [], s;
      if pkg == "" {
        return ERR_INVALID_PARAMS, steps, t;
      }
      if |sendIds| == 0 {
        return ERR_INVALID_PARAMS, steps, t;
      }
      if found == None {
        return ERR_INVALID_PKG, steps, t;
      }
      if user == None {
        return ERR_AUTH, steps, t;
      }
      var appId := found.value;
      var regId := Digest(devId, appId, user.value);
      if appId in regApps {
        if regApps[appId].regId != regId {
          return ERR_REG_CONFLICT, steps, t;
        }
        var ok;
        ok, steps, t := AddSendids(appId, sendIds, s, steps, t);
        return if ok then 0 else ERR_INTERNAL, steps, t;
      }
      var r;
      r, steps, t := Register(appId, user.value, now, s);
      if r == null {
        return ERR_INTERNAL, steps, t;
      }
      var ok;
      ok, steps, t := AddSendids(appId, sendIds, s, steps, t);
      result := if ok then 0 else ERR_INTERNAL;
    }

    /** Takes a send id away, and unregisters the app when it was the last. */
    method HandleUnregister2(pkg: string, regId: RegId, sendId: string, found: Option<string>, ghost s: R.State)
      returns (result: int, ghost steps: seq<R.Step>, ghost t: R.State)
      requires Shows(s, [], R.Idle)
      modifies this`regApps, manager`regappMap, manager.storage, regApps.Values
      ensures Shows(t, [], R.Idle) && R.Runs(s, steps, t)
      ensures t.jobs == s.jobs && t.sessions - {devId} == s.sessions - {devId}
      ensures pkg == "" || regId == Foreign("") || sendId == "" ==> result == ERR_INVALID_PARAMS
      ensures pkg != "" && regId != Foreign("") && sendId != "" ==>
                if found.None? then result == ERR_INVALID_PKG
                else if found.value !in old(regApps) then result == ERR_NOT_REG
                else if old(regApps)[found.value].regId != regId then result == ERR_INVALID_REGID
                else
                  && result in {0, ERR_INTERNAL} && (old(manager.storage.failures) == [] ==> result == 0)
                  && (result == 0 ==>
                        var had := old(regApps[found.value].sendIds);
                        var i := A.FirstIndex(had, sendId);
                        var left := if sendId == "[all]" then [] else if i < 0 then had else T.Without(had, i);
                        if left == [] then
                          regApps == old(regApps) - {found.value}
                              && manager.regappMap == old(manager.regappMap) - {regId}
                        else regApps == old(regApps) && regApps[found.value].sendIds == left)
      ensures result != 0 ==> regApps == old(regApps) && manager.regappMap == old(manager.regappMap)
    {
      RunsNothing(s);
      hide R.Runs, Shows;
      steps, t := [], s;
      if pkg == "" || regId == Foreign("") || sendId == "" {
        return ERR_INVALID_PARAMS, steps, t;
      }
      if found == None {
        return ERR_INVALID_PKG, steps, t;
      }
      var appId := found.value;
      if appId !in regApps {
        return ERR_NOT_REG, steps, t;
      }
      var r := regApps[appId];
      if r.regId != regId {
        return ERR_INVALID_REGID, steps, t;
      }
      var ok;
      ok, steps, t := DelSendid(appId, sendId, s);
      if !ok {
        return ERR_INTERNAL, steps, t;
      }
      if |r.sendIds| != 0 {
        return 0, steps, t;
      }
      ghost var oks, more, u;
      oks, more, u := Unregister(appId, t);
      RunsOn(s, steps, t, more, u);
      return 0, steps + more, u;
    }

    /** handlePushReply: an acknowledgement that is taken is the machine's step. */
    method HandlePushReply(appId: string, regId: RegId, msgId: int, jobChannel: JobQueue<R.UpdateJob>, ghost s: R.State)
      returns (taken: bool, ghost t: R.State)
      requires R.Inv(s) && Shows(s, [], R.Idle) && s.jobs == jobChannel.jobs
      modifies jobChannel, regApps.Values
      ensures taken <==> appId != "" && regId != Foreign("") && appId in regApps && regApps[appId].regId == regId
                         && msgId > old(if appId in regApps then regApps[appId].lastMsgId else 0)
      ensures Shows(t, [], R.Idle) && t.jobs == jobChannel.jobs
      ensures !taken ==> t == s
      ensures taken ==>
                && R.Enabled(s, R.PushReply(devId, appId, regApps[appId].Info()))
                && t == R.Next(s, R.PushReply(devId, appId, regApps[appId].Info()))
    {
      hide R.Inv, A.Next, A.Enabled;
      ghost var acks := A.State(AppInfo("", 0, "", 0, [], []), None, [], None, []);
      if appId in regApps {
        ghost var r := regApps[appId];
        OwnUpdates(s, devId, appId);
        acks := A.State(
          r.Info(), A.Settled(r, manager.storage).stored, A.Updates(jobChannel.jobs, r.regId), None, []);
      }
      taken, acks := A.HandlePushReply(regApps, appId, regId, msgId, jobChannel, manager.storage, acks);
      t := if taken then R.Next(s, R.PushReply(devId, appId, regApps[appId].Info())) else s;
    }

    /** The object was made for this device of a stored record that was named. */
    ghost predicate FromRecord(
      r: RegApp, k: RegId, apps: seq<(string, RegId)>, stored: map<(string, RegId), AppInfo>)
      reads r
    {
      && r.devId == devId && r.regId == k
      && exists a :: (a, k) in apps && (a, k) in stored && r.Info() == stored[(a, k)]
    }

    /** One turn of the loop over the named apps. */
    method LoadOne(
      appId: string, regId: RegId,
      ghost s: R.State, ghost steps: seq<R.Step>, ghost t: R.State, ghost todo: seq<R.Item>)
      returns (ghost read: bool, ghost longer: seq<R.Step>, ghost u: R.State)
      requires todo != [] && todo[0] == R.Named(appId, regId) && Shows(t, todo, R.Idle) && R.Runs(s, steps, t)
      modifies this`regApps, manager`regappMap, manager.storage`failures
      ensures Shows(u, todo[1..], R.Idle) && R.Runs(s, longer, u)
      ensures u.jobs == t.jobs && u.sessions - {devId} == t.sessions - {devId}
      ensures old(manager.storage.failures) == [] ==> read && manager.storage.failures == []
      ensures if appId == "" || regId == Foreign("") || regId in old(manager.regappMap) || !read
                 || (appId, regId) !in manager.storage.app
              then manager.regappMap == old(manager.regappMap) && regApps == old(regApps)
              else
                && regId in manager.regappMap
                && var r := manager.regappMap[regId];
                   && fresh(r) && r.devId == devId && r.regId == regId
                   && r.Info() == manager.storage.app[(appId, regId)]
                   && manager.regappMap == old(manager.regappMap)[regId := r]
                   && regApps == old(regApps)[appId := r]
    {
      hide R.Runs;
      read := true;
      if appId == "" || regId == Foreign("") {
        u, longer := Extend(s, steps, t, R.Skip(devId));
        return;
      }
      var r;
      r, read := manager.RegisterApp2(devId, regId, appId);
      if r != null {
        regApps := regApps[appId := r];
      }
      u, longer := LoadRun(s, steps, t, devId, read, r);
    }

    /** INIT with Sync == 0: loads the named apps that are stored and not yet in
        memory. `failed` says whether a record could not be read. */
    method LoadNamed(apps: seq<(string, RegId)>, ghost s: R.State, ghost todo: seq<R.Item>)
      returns (ghost failed: bool, ghost steps: seq<R.Step>, ghost t: R.State)
      requires Shows(s, todo, R.Idle) && |todo| == |apps|
      requires forall i :: 0 <= i < |apps| ==> todo[i] == R.Named(apps[i].0, apps[i].1)
      modifies this`regApps, manager`regappMap, manager.storage`failures
      ensures Shows(t, [], R.Idle) && R.Runs(s, steps, t)
      ensures t.jobs == s.jobs && t.sessions - {devId} == s.sessions - {devId}
      ensures old(manager.storage.failures) == [] ==> !failed
      ensures !failed ==> forall i ::
                0 <= i < |apps| && apps[i].0 != "" && apps[i].1 != Foreign("") && apps[i] in manager.storage.app ==>
                apps[i].1 in manager.regappMap
      ensures forall k :: k in old(manager.regappMap) ==>
                k in manager.regappMap && manager.regappMap[k] == old(manager.regappMap)[k]
      ensures forall k :: k in manager.regappMap && k !in old(manager.regappMap) ==>
                FromRecord(manager.regappMap[k], k, apps, manager.storage.app)
    {
      RunsNothing(s);
      hide R.Runs, Shows;
      failed, steps, t := false, [], s;
      var n := 0;
      while n < |apps|
        invariant n <= |apps|
        invariant Shows(t, todo[n..], R.Idle) && R.Runs(s, steps, t)
        invariant t.jobs == s.jobs && t.sessions - {devId} == s.sessions - {devId}
        invariant old(manager.storage.failures) == [] ==> !failed && manager.storage.failures == []
        invariant !failed ==> forall i ::
                    0 <= i < n && apps[i].0 != "" && apps[i].1 != Foreign("") && apps[i] in manager.storage.app ==>
                    apps[i].1 in manager.regappMap
        invariant forall k :: k in old(manager.regappMap) ==>
                    k in manager.regappMap && manager.regappMap[k] == old(manager.regappMap)[k]
        invariant forall k :: k in manager.regappMap && k !in old(manager.regappMap) ==>
                    FromRecord(manager.regappMap[k], k, apps, manager.storage.app)
      {
        var (appId, regId) := apps[n];
        assert todo[n..][0] == R.Named(appId, regId) && todo[n..][1..] == todo[n + 1..];
        ghost var read;
        read, steps, t := LoadOne(appId, regId, s, steps, t, todo[n..]);
        failed := failed || !read;
        n := n + 1;
      }
      assert todo[n..] == [];
    }

    /** The object was made for this device of a listed record. */
    ghost predicate FromList(r: RegApp, k: RegId, infos: seq<(RegId, AppInfo)>)
      reads r
    {
      r.devId == devId && r.regId == k && (k, r.Info()) in infos
    }

    /** One turn of the loop over the stored apps. */
    method TakeOne(
      regId: RegId, info: AppInfo, taken: bool,
      ghost s: R.State, ghost steps: seq<R.Step>, ghost t: R.State, ghost todo: seq<R.Item>)
      returns (ghost longer: seq<R.Step>, ghost u: R.State)
      requires todo != [] && todo[0] == R.Loaded(regId, info) && Shows(t, todo, R.Idle) && R.Runs(s, steps, t)
      modifies this`regApps, manager`regappMap
      ensures Shows(u, todo[1..], R.Idle) && R.Runs(s, longer, u)
      ensures u.jobs == t.jobs && u.sessions - {devId} == t.sessions - {devId}
      ensures !taken ==> manager.regappMap == old(manager.regappMap) && regApps == old(regApps)
      ensures taken ==>
                && regId in manager.regappMap
                && var r := manager.regappMap[regId];
                   && manager.regappMap == old(manager.regappMap)[regId := r]
                   && regApps == old(regApps)[info.appId := r]
                   && (regId in old(manager.regappMap) ==> r == old(manager.regappMap)[regId])
                   && (regId !in old(manager.regappMap) ==>
                         fresh(r) && r.devId == devId && r.regId == regId && r.Info() == info)
    {
      hide R.Runs;
      if !taken {
        u, longer := Extend(s, steps, t, R.Skip(devId));
        return;
      }
      var r := manager.AddApp(devId, regId, info);
      regApps := regApps[info.appId := r];
      u, longer := TakeLoadedRun(s, steps, t, devId, r);
    }

    /** INIT with Sync != 0: takes over the apps that the store lists for the
        device. `known` are the app ids that can be read from db_apps. */
    method LoadStored(infos: seq<(RegId, AppInfo)>, known: set<string>, ghost s: R.State, ghost todo: seq<R.Item>)
      returns (listed: seq<(string, RegId)>, ghost steps: seq<R.Step>, ghost t: R.State)
      requires Shows(s, todo, R.Idle) && |todo| == |infos|
      requires forall i :: 0 <= i < |infos| ==> todo[i] == R.Loaded(infos[i].0, infos[i].1)
      modifies this`regApps, manager`regappMap
      ensures Shows(t, [], R.Idle) && R.Runs(s, steps, t)
      ensures t.jobs == s.jobs && t.sessions - {devId} == s.sessions - {devId}
      ensures forall i :: 0 <= i < |infos| && infos[i].1.appId in known ==>
                (infos[i].1.appId, infos[i].0) in listed && infos[i].0 in manager.regappMap
                    && infos[i].1.appId in regApps
      ensures forall app, k :: (app, k) in listed ==>
                exists i :: 0 <= i < |infos| && infos[i].1.appId == app && infos[i].0 == k && app in known
      ensures forall k :: k in manager.regappMap && k !in old(manager.regappMap) ==>
                FromList(manager.regappMap[k], k, infos)
    {
      RunsNothing(s);
      hide R.Runs, Shows;
      listed, steps, t := [], [], s;
      var n := 0;
      while n < |infos|
        invariant n <= |infos|
        invariant Shows(t, todo[n..], R.Idle) && R.Runs(s, steps, t)
        invariant t.jobs == s.jobs && t.sessions - {devId} == s.sessions - {devId}
        invariant forall i :: 0 <= i < n && infos[i].1.appId in known ==>
                    (infos[i].1.appId, infos[i].0) in listed && infos[i].0 in manager.regappMap
                        && infos[i].1.appId in regApps
        invariant forall app, k :: (app, k) in listed ==>
                    exists i :: 0 <= i < n && infos[i].1.appId == app && infos[i].0 == k && app in known
        invariant forall k :: k in manager.regappMap && k !in old(manager.regappMap) ==>
                    FromList(manager.regappMap[k], k, infos)
      {
        var (regId, info) := infos[n];
        assert todo[n..][0] == R.Loaded(regId, info) && todo[n..][1..] == todo[n + 1..];
        steps, t := TakeOne(regId, info, info.appId in known, s, steps, t, todo[n..]);
        n := n + 1;
        if info.appId in known {
          listed := listed + [(info.appId, regId)];
        }
      }
      assert todo[n..] == [];
    }

    /** The loop of closeClient. */
    method CloseClient(ghost s: R.State) returns (ghost steps: seq<R.Step>, ghost t: R.State)
      requires Shows(s, [], R.Idle)
      modifies this`regApps, manager`regappMap
      ensures R.Runs(s, steps, t) && t == R.State(manager.regappMap, s.sessions - {devId}, s.store, s.jobs)
      ensures regApps == map[]
      ensures Left(old(manager.regappMap), manager.regappMap, old(regApps))
    {
      hide R.Runs, R.Next, R.Enabled, Left;
      LeftAll(manager.regappMap, regApps);
      t, steps := BeginCloseRun(s, devId);
      while regApps != map[]
        invariant Shows(t, [], R.Closing) && R.Runs(s, steps, t)
        invariant t.store == s.store && t.jobs == s.jobs && t.sessions - {devId} == s.sessions - {devId}
        invariant forall app :: app in regApps ==> app in old(regApps) && regApps[app] == old(regApps)[app]
        invariant Left(old(manager.regappMap), manager.regappMap, old(regApps) - regApps.Keys)
        decreases regApps.Keys
      {
        var appId :| appId in regApps;
        LeftMore(old(manager.regappMap), manager.regappMap, old(regApps), regApps.Keys, appId);
        t, steps := CloseOne(appId, s, steps, t);
      }
      t, steps := CloseDoneRun(s, steps, t, devId);
      assert t.sessions == s.sessions - {devId};
      assert old(regApps) - regApps.Keys == old(regApps);
    }

    method CloseOne(appId: string, ghost s: R.State, ghost steps: seq<R.Step>, ghost t: R.State)
      returns (ghost u: R.State, ghost longer: seq<R.Step>)
      requires Shows(t, [], R.Closing) && R.Runs(s, steps, t) && appId in regApps
      modifies this`regApps, manager`regappMap
      ensures Shows(u, [], R.Closing) && R.Runs(s, longer, u)
      ensures u.store == t.store && u.jobs == t.jobs && u.sessions - {devId} == t.sessions - {devId}
      ensures regApps == old(regApps) - {appId} && regApps.Keys == old(regApps).Keys - {appId} < old(regApps).Keys
      ensures manager.regappMap == old(manager.regappMap) - {old(regApps)[appId].regId}
    {
      hide R.Runs;
      manager.DelApp(regApps[appId].regId);
      u, longer := CloseOneRun(s, steps, t, devId, appId);
      regApps := regApps - {appId};
    }
  }
}
