/** AppManager's table and the store it writes to (comet/app_manager.go,
    storage/redis.go): the lock sections and lookups, on the objects. */
module Lookups {
  import opened Sequences
  import opened Apps
  import opened Topics
  import Registry

  type Store = Registry.Store

  /** The Redis hashes. Each write may fail, and then changes nothing. */
  class Storage {
    var app: map<(string, RegId), AppInfo>
    var device: map<(string, string), RegId>
    var user: map<(string, RegId), string>
    var failures: seq<bool> // how the coming accesses end

    constructor ()
      ensures View() == Registry.Store(map[], map[], map[])
    {
      app, device, user, failures := map[], map[], map[], [];
    }

    ghost function View(): Store
      reads this
    {
      Registry.Store(app, device, user)
    }

    method Attempt() returns (ok: bool)
      modifies this`failures
      ensures old(failures) == [] ==> ok && failures == []
    {
      ok := failures == [] || !failures[0];
      failures := if failures == [] then [] else failures[1..];
    }

    method SetApp(appId: string, regId: RegId, info: AppInfo) returns (ok: bool)
      modifies this`app, this`failures
      ensures app == if ok then old(app)[(appId, regId) := info] else old(app)
      ensures old(failures) == [] ==> ok && failures == []
    {
      ok := Attempt();
      if ok {
        app := app[(appId, regId) := info];
      }
    }

    method SetDevice(devId: string, appId: string, regId: RegId) returns (ok: bool)
      modifies this`device, this`failures
      ensures device == if ok then old(device)[(devId, appId) := regId] else old(device)
      ensures old(failures) == [] ==> ok && failures == []
    {
      ok := Attempt();
      if ok {
        device := device[(devId, appId) := regId];
      }
    }

    method SetUserIfNew(userId: string, regId: RegId, appId: string) returns (ok: bool)
      modifies this`user, this`failures
      ensures user == if ok && (userId, regId) !in old(user) then old(user)[(userId, regId) := appId] else old(user)
      ensures old(failures) == [] ==> ok && failures == []
    {
      ok := Attempt();
      if ok && (userId, regId) !in user {
        user := user[(userId, regId) := appId];
      }
    }

    method DelApp(appId: string, regId: RegId) returns (ok: bool)
      modifies this`app, this`failures
      ensures app == if ok then old(app) - {(appId, regId)} else old(app)
      ensures old(failures) == [] ==> ok && failures == []
    {
      ok := Attempt();
      if ok {
        app := app - {(appId, regId)};
      }
    }

    method DelDevice(devId: string, appId: string) returns (ok: bool)
      modifies this`device, this`failures
      ensures device == if ok then old(device) - {(devId, appId)} else old(device)
      ensures old(failures) == [] ==> ok && failures == []
    {
      ok := Attempt();
      if ok {
        device := device - {(devId, appId)};
      }
    }

    method DelUser(userId: string, regId: RegId) returns (ok: bool)
      modifies this`user, this`failures
      ensures user == if ok then old(user) - {(userId, regId)} else old(user)
      ensures old(failures) == [] ==> ok && failures == []
    {
      ok := Attempt();
      if ok {
        user := user - {(userId, regId)};
      }
    }

    /** HGETALL db_user_<userId>: every field once, in any order. */
    method UserEntries(userId: string) returns (ok: bool, entries: seq<(RegId, string)>)
      modifies this`failures
      ensures old(failures) == [] ==> ok && failures == []
      ensures ok ==> forall k, a :: (k, a) in entries <==> (userId, k) in user && user[(userId, k)] == a
      ensures forall i, j :: 0 <= i < j < |entries| ==> entries[i].0 != entries[j].0
    {
      ok := Attempt();
      entries := [];
      if !ok {
        return;
      }
      var todo := user.Keys;
      while todo != {}
        invariant todo <= user.Keys
        invariant forall k, a :: (k, a) in entries <==>
                    (userId, k) in user && (userId, k) !in todo && user[(userId, k)] == a
        invariant forall i, j :: 0 <= i < j < |entries| ==> entries[i].0 != entries[j].0
      {
        var key :| key in todo;
        todo := todo - {key};
        if key.0 == userId {
          assert forall i :: 0 <= i < |entries| ==> (entries[i].0, entries[i].1) in entries;
          entries := entries + [(key.1, user[key])];
        }
      }
    }
  }

  /** Every object lies under its own id, as RegistryAgrees has it. */
  predicate Keyed(regapps: map<RegId, RegApp>) {
    forall k :: k in regapps ==> regapps[k].regId == k
  }

  class AppManager {
    var regappMap: map<RegId, RegApp>
    const storage: Storage

    constructor (storage: Storage)
      ensures this.storage == storage && regappMap == map[]
    {
      this.storage := storage;
      regappMap := map[];
    }

    /** An id in memory keeps its object; otherwise a new object is entered. */
    method AddApp(devId: string, regId: RegId, info: AppInfo) returns (r: RegApp)
      modifies this`regappMap
      ensures regappMap == old(regappMap)[regId := r]
      ensures regId in old(regappMap) ==> r == old(regappMap)[regId]
      ensures regId !in old(regappMap) ==> fresh(r) && r.devId == devId && r.regId == regId && r.Info() == info
    {
      if regId in regappMap {
        return regappMap[regId];
      }
      r := new RegApp(devId, regId, info);
      regappMap := regappMap[regId := r];
    }

    method DelApp(regId: RegId)
      modifies this`regappMap
      ensures regappMap == old(regappMap) - {regId}
    {
      if regId in regappMap {
        regappMap := regappMap - {regId};
      }
    }

    /** Fails when the id is in memory or the record cannot be stored; the other
        two hash writes may fail silently. A record that is stored already is
        overwritten. */
    method RegisterApp(devId: string, regId: RegId, appId: string, userId: string, now: int)
      returns (r: RegApp?, ghost appOk: bool, ghost deviceOk: bool, ghost userOk: bool)
      modifies this`regappMap, storage
      ensures old(storage.failures) == [] ==> appOk && deviceOk && userOk && storage.failures == []
      ensures r == null <==> regId in old(regappMap) || !appOk
      ensures r == null ==> regappMap == old(regappMap) && storage.View() == old(storage.View())
      ensures r != null ==>
                && fresh(r) && r.devId == devId && r.regId == regId && r.appId == appId && r.userId == userId
                && r.regTime == now && r.lastMsgId == -1 && r.topics == [] && r.sendIds == []
                && r.Info() == Registry.NewInfo(appId, userId, now)
                && regappMap == old(regappMap)[regId := r]
                && storage.app == old(storage.app)[(appId, regId) := r.Info()]
                && storage.device == (if deviceOk then old(storage.device)[(devId, appId) := regId]
                      else old(storage.device))
                && storage.user == (if userOk then Registry.SetUser(old(storage.View()), userId, regId, appId).user
                      else old(storage.user))
                && (userId != "" && (userId, regId) !in old(storage.user) ==>
                      storage.user == if userOk then old(storage.user)[(userId, regId) := appId] else old(storage.user))
                && (userId == "" || (userId, regId) in old(storage.user) ==> storage.user == old(storage.user))
    {
      appOk, deviceOk, userOk := true, true, true;
      if regId in regappMap {
        return null, true, true, true;
      }
      var info := Registry.NewInfo(appId, userId, now);
      var stored := storage.SetApp(appId, regId, info);
      appOk := stored;
      if !stored {
        return null, false, true, true;
      }
      var done := storage.SetDevice(devId, appId, regId);
      deviceOk := done;
      if userId != "" {
        done := storage.SetUserIfNew(userId, regId, appId);
        userOk := done;
      }
      r := AddApp(devId, regId, info);
    }

    /** Loads a stored record; fails when the id is in memory or not stored. */
    method RegisterApp2(devId: string, regId: RegId, appId: string) returns (r: RegApp?, ghost readOk: bool)
      modifies this`regappMap, storage`failures
      ensures old(storage.failures) == [] ==> readOk && storage.failures == []
      ensures r == null <==> regId in old(regappMap) || !readOk || (appId, regId) !in storage.app
      ensures r == null ==> regappMap == old(regappMap)
      ensures r != null ==>
                && fresh(r) && r.devId == devId && r.regId == regId && r.Info() == storage.app[(appId, regId)]
                && regappMap == old(regappMap)[regId := r]
    {
      readOk := true;
      if regId in regappMap {
        return null, true;
      }
      var ok := storage.Attempt();
      readOk := ok;
      if !ok || (appId, regId) !in storage.app {
        return null, ok;
      }
      r := AddApp(devId, regId, storage.app[(appId, regId)]);
    }

    /** Erases the three hash entries as Registry's Erase steps do, then the
        memory entry. */
    method UnregisterApp(r: RegApp) returns (ghost oks: (bool, bool, bool))
      modifies this`regappMap, storage
      ensures regappMap == old(regappMap) - {r.regId}
      ensures storage.app == if oks.0 then old(storage.app) - {(r.appId, r.regId)} else old(storage.app)
      ensures storage.device == if oks.1 then old(storage.device) - {(r.devId, r.appId)} else old(storage.device)
      ensures storage.user == if oks.2 && r.userId != "" then old(storage.user) - {(r.userId, r.regId)}
                              else old(storage.user)
      ensures storage.View() == Registry.ErasedAll(old(storage.View()), r, oks)
      ensures old(storage.failures) == [] ==> oks == (true, true, true)
    {
      var app := storage.DelApp(r.appId, r.regId);
      var device := storage.DelDevice(r.devId, r.appId);
      var user := true;
      if r.userId != "" {
        user := storage.DelUser(r.userId, r.regId);
      }
      oks := (app, device, user);
      DelApp(r.regId);
    }

    method GetApp(appId: string, regId: RegId) returns (r: RegApp?)
      ensures r != null ==> regId in regappMap && regappMap[regId] == r && r.appId == appId
      ensures r == null ==> regId in regappMap ==> regappMap[regId].appId != appId
    {
      if regId in regappMap {
        if regappMap[regId].appId != appId {
          return null;
        }
        return regappMap[regId];
      }
      return null;
    }

    method GetApps(appId: string) returns (apps: seq<RegApp>)
      ensures forall r :: r in apps <==> r in regappMap.Values && r.appId == appId
      ensures Keyed(regappMap) ==> NoDup(apps)
    {
      apps := [];
      var todo := regappMap.Keys;
      while todo != {}
        invariant todo <= regappMap.Keys
        invariant forall k :: k in regappMap && k !in todo && regappMap[k].appId == appId ==> regappMap[k] in apps
        invariant forall r :: r in apps ==> r in regappMap.Values && r.appId == appId
        invariant Keyed(regappMap) ==> NoDup(apps) && forall r :: r in apps ==> r.regId !in todo
      {
        var k :| k in todo;
        todo := todo - {k};
        if regappMap[k].appId == appId {
          apps := apps + [regappMap[k]];
        }
      }
    }

    method GetAppsByTopic(appId: string, topics: seq<string>, op: string) returns (apps: seq<RegApp>)
      ensures forall r :: r in apps <==> r in regappMap.Values && r.appId == appId && Matches(r.topics, topics, op)
      ensures Keyed(regappMap) ==> NoDup(apps)
    {
      apps := [];
      var todo := regappMap.Keys;
      while todo != {}
        invariant todo <= regappMap.Keys
        invariant forall k :: k in regappMap && k !in todo ==>
                    regappMap[k].appId == appId && Matches(regappMap[k].topics, topics, op) ==> regappMap[k] in apps
        invariant forall r :: r in apps ==> r in regappMap.Values && r.appId == appId && Matches(r.topics, topics, op)
        invariant Keyed(regappMap) ==> NoDup(apps) && forall r :: r in apps ==> r.regId !in todo
      {
        var k :| k in todo;
        todo := todo - {k};
        if regappMap[k].appId == appId {
          var ok := MatchTopics(regappMap[k].topics, topics, op);
          if ok {
            apps := apps + [regappMap[k]];
          }
        }
      }
    }

    /** The registrations in memory that db_user_<userId> lists for the app. */
    method GetAppsByUser(appId: string, userId: string) returns (apps: seq<RegApp>, ok: bool)
      modifies storage`failures
      ensures old(storage.failures) == [] ==> ok && storage.failures == []
      ensures !ok ==> apps == []
      ensures Keyed(regappMap) ==> NoDup(apps)
      ensures ok ==> forall r :: r in apps <==>
                exists k :: k in regappMap && regappMap[k] == r
                         && (userId, k) in storage.user && storage.user[(userId, k)] == appId
    {
      var entries;
      ok, entries := storage.UserEntries(userId);
      apps := [];
      if !ok {
        return;
      }
      var n := 0;
      while n < |entries|
        invariant n <= |entries|
        invariant forall i :: 0 <= i < n && entries[i].1 == appId && entries[i].0 in regappMap ==>
                  regappMap[entries[i].0] in apps
        invariant forall r :: r in apps ==>
                    exists k :: k in regappMap && regappMap[k] == r && (k, appId) in entries[..n]
        invariant Keyed(regappMap) ==> NoDup(apps) && forall r :: r in apps ==> (r.regId, appId) in entries[..n]
      {
        assert entries[..n + 1] == entries[..n] + [entries[n]];
        var (regId, app) := entries[n];
        if app == appId && regId in regappMap {
          assert (regId, appId) in entries[..n + 1];
          assert forall e :: e in entries[..n] ==> e.0 != regId;
          apps := apps + [regappMap[regId]];
        }
        n := n + 1;
      }
      forall k | k in regappMap && (userId, k) in storage.user && storage.user[(userId, k)] == appId
        ensures regappMap[k] in apps
      {
        assert (k, appId) in entries;
      }
    }
  }
}
