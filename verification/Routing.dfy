/** Two routings of a push: PushMessages to the devices that are connected
    (comet/comet.go), handleOfflineMsgs to a device that connects later
    (comet/server.go). Do they pick the same registrations? */
module Routing {
  import opened Sequences
  import opened Apps
  import opened Topics
  import opened Lookups
  import Registry
  import RegistryRuns
  import UserIndex

  datatype PushType = All | RegIds | UserIds | DevIds | Topic | Group | Other

  datatype RawMessage = RawMessage(
    msgId: int,
    pushType: PushType,
    regIds: seq<RegId>,
    userIds: seq<string>,
    devIds: seq<string>,
    topics: seq<string>,
    topicOp: string,
    groups: seq<string>,
    sendId: string)

  type Tables = map<string, map<string, RegApp>>

  type Groups = map<string, set<string>> // the sets db_group_*, of devices

  predicate InGroup(groups: Groups, g: string, d: string) {
    g in groups && d in groups[g]
  }

  predicate InSome(groups: Groups, gs: seq<string>, d: string) {
    exists g :: g in gs && InGroup(groups, g, d)
  }

  function GroupsOf(groups: Groups, d: string): set<string> {
    set g | g in groups && d in groups[g]
  }

  /** The registrations the online lookups of an app find. */
  ghost predicate Online(
    regapps: map<RegId, RegApp>, devices: Tables, user: Users, groups: Groups,
    appId: string, m: RawMessage, r: RegApp)
    reads r
  {
    match m.pushType
    case All => r in regapps.Values && r.appId == appId
    case RegIds => exists k :: k in m.regIds && k in regapps && regapps[k] == r && r.appId == appId
    case UserIds =>
      exists u, k :: u in m.userIds && k in regapps && regapps[k] == r && (u, k) in user && user[(u, k)] == appId
    case DevIds => exists d :: d in m.devIds && d in devices && appId in devices[d] && devices[d][appId] == r
    case Topic => r in regapps.Values && r.appId == appId && Matches(r.topics, m.topics, m.topicOp)
    case Group =>
      exists d :: InSome(groups, m.groups, d) && d in devices && appId in devices[d] && devices[d][appId] == r
    case Other => false
  }

  /** The test of handleOfflineMsgs for a registration of device d; `member` are
      the groups that the store says the device is in. */
  ghost predicate Offline(d: string, member: set<string>, m: RawMessage, r: RegApp)
    reads r
  {
    match m.pushType
    case All => true
    case RegIds => r.regId in m.regIds
    case UserIds => r.userId != "" && r.userId in m.userIds
    case DevIds => d in m.devIds
    case Topic => Matches(r.topics, m.topics, m.topicOp)
    case Group => exists g :: g in m.groups && g in member
    case Other => false
  }

  ghost predicate OnlineSender(m: RawMessage, r: RegApp)
    reads r
  {
    m.sendId == "" || m.sendId in r.sendIds
  }

  ghost predicate OfflineSender(m: RawMessage, r: RegApp)
    reads r
  {
    r.sendIds == [] || m.sendId == "" || m.sendId in r.sendIds
  }

  /** The message for the device of each of these registrations. */
  function Copies(apps: seq<RegApp>, m: RawMessage): (sent: seq<(string, RawMessage)>) {
    if apps == [] then [] else Copies(apps[..|apps| - 1], m) + [(apps[|apps| - 1].devId, m)]
  }

  lemma NoCopies(m: RawMessage)
    ensures Copies([], m) == []
  {
  }

  lemma CopiesAppend(a: seq<RegApp>, r: RegApp, m: RawMessage)
    ensures Copies(a + [r], m) == Copies(a, m) + [(r.devId, m)]
  {
    assert (a + [r])[..|a|] == a;
  }

  lemma {:induction false} CopiesConcat(a: seq<RegApp>, b: seq<RegApp>, m: RawMessage)
    ensures Copies(a + b, m) == Copies(a, m) + Copies(b, m)
    decreases |b|
  {
    if b == [] {
      assert a + b == a;
    } else {
      CopiesConcat(a, b[..|b| - 1], m);
      assert (a + b)[..|a + b| - 1] == a + b[..|b| - 1];
    }
  }

  type Users = map<(string, RegId), string>

  ghost predicate InMemory(regapps: map<RegId, RegApp>, r: RegApp) {
    r.regId in regapps && regapps[r.regId] == r
  }

  /** The user's hash lists the id for the app. */
  predicate ListedFor(user: Users, u: string, appId: string, k: RegId) {
    (u, k) in user && user[(u, k)] == appId
  }

  /** How many of these users list the id for the app. */
  function Listings(user: Users, us: seq<string>, appId: string, k: RegId): nat {
    if us == [] then 0
    else
      Listings(user, us[..|us| - 1], appId, k) + if ListedFor(user, us[|us| - 1], appId, k) then 1 else 0
  }

  /** How a scan of a group's set ends. A page that is not the last has a next
      cursor, which is not 0. */
  datatype Scan = Page(next: nat, items: seq<string>) | Failed

  function Items(scan: Scan): seq<string> {
    if scan.Page? then scan.items else []
  }

  predicate IsLast(scan: Scan) {
    scan.Page? ==> scan.next == 0
  }

  /** The devices that the scans of so many groups give. A group is scanned until a
      page has no next or a scan fails; when no outcome is left, scans fail. */
  function Visited(n: nat, scans: seq<Scan>): seq<string>
    decreases |scans|
  {
    if n == 0 || scans == [] then []
    else Items(scans[0]) + Visited(if IsLast(scans[0]) then n - 1 else n, scans[1..])
  }

  /** How often the online lookups come upon a registration: once for a push to
      all or by topic, else once for each listing of its id, user or device. */
  ghost function Times(
    regapps: map<RegId, RegApp>, devices: Tables, user: Users, scans: seq<Scan>,
    appId: string, m: RawMessage, r: RegApp): nat
    reads r
  {
    match m.pushType
    case All => if InMemory(regapps, r) && r.appId == appId then 1 else 0
    case RegIds => if InMemory(regapps, r) && r.appId == appId then multiset(m.regIds)[r.regId] else 0
    case UserIds => if InMemory(regapps, r) then Listings(user, m.userIds, appId, r.regId) else 0
    case DevIds => if AtDevice(devices, appId, r) then multiset(m.devIds)[r.devId] else 0
    case Topic =>
      if InMemory(regapps, r) && r.appId == appId && Matches(r.topics, m.topics, m.topicOp) then 1 else 0
    case Group =>
      if AtDevice(devices, appId, r) then multiset(Visited(|m.groups|, scans))[r.devId] else 0
    case Other => 0
  }

  ghost predicate AtDevice(devices: Tables, appId: string, r: RegApp) {
    r.devId in devices && appId in devices[r.devId] && devices[r.devId][appId] == r
  }

  /** Each client's table is keyed by app id and has its own device's apps. */
  ghost predicate ProperTables(devices: Tables) {
    forall d, app :: d in devices && app in devices[d] ==> devices[d][app].appId == app && devices[d][app].devId == d
  }

  lemma {:induction false} ListedOnce(user: Users, us: seq<string>, appId: string, k: RegId)
    ensures Listings(user, us, appId, k) > 0 <==> exists u :: u in us && ListedFor(user, u, appId, k)
    decreases |us|
  {
    if us != [] {
      var last := |us| - 1;
      ListedOnce(user, us[..last], appId, k);
      assert us == us[..last] + [us[last]];
      if u :| u in us && ListedFor(user, u, appId, k) && u != us[last] {
        assert u in us[..last];
      }
    }
  }

  /** Each group fits on one page, and every scan succeeds. */
  ghost predicate OnePageEach(groups: Groups, gs: seq<string>, scans: seq<Scan>) {
    && |gs| <= |scans|
    && (forall i :: 0 <= i < |gs| ==> scans[i].Page? && scans[i].next == 0)
    && (forall i, d :: 0 <= i < |gs| ==> (d in scans[i].items <==> InGroup(groups, gs[i], d)))
  }

  /** Then the scans find the groups' devices. */
  lemma {:induction false} ScansFindGroups(groups: Groups, gs: seq<string>, scans: seq<Scan>)
    requires OnePageEach(groups, gs, scans)
    ensures forall d :: d in Visited(|gs|, scans) <==> InSome(groups, gs, d)
    decreases |gs|
  {
    if gs != [] {
      ScansFindGroups(groups, gs[1..], scans[1..]);
      assert gs == [gs[0]] + gs[1..];
      forall d
        ensures d in Visited(|gs|, scans) <==> InSome(groups, gs, d)
      {
        assert d in Visited(|gs|, scans) <==> InGroup(groups, gs[0], d) || InSome(groups, gs[1..], d);
      }
    }
  }

  lemma CountMore(items: seq<string>, more: seq<string>, d: string, k: nat)
    requires k > 0 && multiset(more)[d] == (k - 1) * multiset(items)[d]
    ensures multiset(items + more)[d] == k * multiset(items)[d]
  {
    assert multiset(items + more)[d] == multiset(items)[d] + multiset(more)[d];
  }

  /** But every scan begins at cursor 0: a group of more than one page is not got
      past, and its first page is found again with each scan. */
  lemma {:induction false} FirstPageAgain(n: nat, page: Scan, k: nat, d: string)
    requires n > 0 && page.Page? && page.next != 0
    ensures multiset(Visited(n, seq(k, _ => page)))[d] == k * multiset(page.items)[d]
    decreases k
  {
    if k > 0 {
      FirstPageAgain(n, page, k - 1, d);
      var pages, fewer := seq(k, _ => page), seq(k - 1, _ => page);
      assert pages[0] == page && pages[1..] == fewer;
      CountMore(page.items, Visited(n, fewer), d, k);
    }
  }

  /** What is found at all is found that often. */
  lemma FoundIsOnline(
    regapps: map<RegId, RegApp>, devices: Tables, user: Users, groups: Groups, scans: seq<Scan>,
    appId: string, m: RawMessage, r: RegApp)
    requires Keyed(regapps) && ProperTables(devices)
    requires m.pushType.Group? ==> OnePageEach(groups, m.groups, scans)
    ensures Times(regapps, devices, user, scans, appId, m, r) > 0 <==>
            Online(regapps, devices, user, groups, appId, m, r)
  {
    hide Matches, OnePageEach;
    if m.pushType.UserIds? {
      ListedOnce(user, m.userIds, appId, r.regId);
    } else if m.pushType.Group? {
      ScansFindGroups(groups, m.groups, scans);
    }
  }

  /** Where the user index is right about a registration, a push by user comes upon
      it once for each listing of its user. */
  lemma {:induction false} ListingsCount(t: Registry.Store, us: seq<string>, appId: string, k: RegId)
    requires k.Digest? && UserIndex.RightlyListed(t, k)
    ensures Listings(t.user, us, appId, k) == if k.user != "" && k.app == appId then multiset(us)[k.user] else 0
    decreases |us|
  {
    if us != [] {
      var last := |us| - 1;
      ListingsCount(t, us[..last], appId, k);
      assert us == us[..last] + [us[last]];
    }
  }

  class Comet {
    const manager: AppManager
    var devices: Tables // the RegApps of each client in DevicesMap
    var sent: seq<(string, RawMessage)> // what was put into the queues, and for which device

    constructor (manager: AppManager)
      ensures this.manager == manager && devices == map[] && sent == []
    {
      this.manager := manager;
      devices, sent := map[], [];
    }

    /** As RegistryAgrees has it. */
    ghost predicate Valid()
      reads this`devices, manager`regappMap
    {
      ProperTables(devices) && Keyed(manager.regappMap)
    }

    method GetAppByDevice(appId: string, devId: string) returns (r: RegApp?)
      requires Valid()
      ensures r != null <==> devId in devices && appId in devices[devId]
      ensures r != null ==> r == devices[devId][appId]
    {
      if devId !in devices {
        return null;
      }
      var todo := devices[devId].Keys;
      while todo != {}
        invariant todo <= devices[devId].Keys
        invariant appId in devices[devId] ==> appId in todo
      {
        var app :| app in todo;
        todo := todo - {app};
        if devices[devId][app].appId == appId {
          return devices[devId][app];
        }
      }
      return null;
    }

    /** True if the message was queued for the app's client. */
    method PushMessage(r: RegApp, m: RawMessage) returns (queued: bool)
      modifies this`sent
      ensures sent == if queued then old(sent) + [(r.devId, m)] else old(sent)
      ensures queued <==> OnlineSender(m, r) && r.devId in devices
    {
      if m.sendId != "" {
        var found := Contains(r.sendIds, m.sendId);
        if !found {
          return false;
        }
      }
      if r.devId !in devices {
        return false;
      }
      sent := sent + [(r.devId, m)];
      return true;
    }

    /** The message can be queued for the registration. */
    ghost predicate Reaches(m: RawMessage, r: RegApp)
      reads this`devices, r
    {
      OnlineSender(m, r) && r.devId in devices
    }

    method PushAll(apps: seq<RegApp>, m: RawMessage) returns (pushed: seq<RegApp>)
      modifies this`sent
      ensures sent == old(sent) + Copies(pushed, m)
      ensures forall r: RegApp :: multiset(pushed)[r] == if Reaches(m, r) then multiset(apps)[r] else 0
    {
      hide OnlineSender, Copies;
      NoCopies(m);
      pushed := [];
      var n := 0;
      while n < |apps|
        invariant n <= |apps| && sent == old(sent) + Copies(pushed, m)
        invariant forall r: RegApp :: multiset(pushed)[r] == if Reaches(m, r) then multiset(apps[..n])[r] else 0
      {
        CountNext(apps, n);
        CopiesAppend(pushed, apps[n], m);
        var queued := PushMessage(apps[n], m);
        pushed := if queued then pushed + [apps[n]] else pushed;
        n := n + 1;
      }
      assert apps[..n] == apps;
    }

    /** What the lookup of one id adds. */
    method PushToRegId(appId: string, key: RegId, m: RawMessage) returns (pushed: seq<RegApp>)
      requires Valid()
      modifies this`sent
      ensures sent == old(sent) + Copies(pushed, m)
      ensures forall r: RegApp :: multiset(pushed)[r] ==
                if Reaches(m, r) && InMemory(manager.regappMap, r) && r.appId == appId && r.regId == key then 1 else 0
    {
      hide OnlineSender, Copies;
      NoCopies(m);
      pushed := [];
      var r := manager.GetApp(appId, key);
      if r != null {
        CopiesAppend([], r, m);
        var queued := PushMessage(r, m);
        pushed := if queued then [] + [r] else [];
      }
    }

    method PushToRegIds(appId: string, m: RawMessage) returns (pushed: seq<RegApp>)
      requires Valid()
      modifies this`sent
      ensures sent == old(sent) + Copies(pushed, m)
      ensures forall r: RegApp :: multiset(pushed)[r] ==
                if Reaches(m, r) && InMemory(manager.regappMap, r) && r.appId == appId
                then multiset(m.regIds)[r.regId] else 0
    {
      hide Copies;
      NoCopies(m);
      pushed := [];
      var n := 0;
      while n < |m.regIds|
        invariant n <= |m.regIds| && sent == old(sent) + Copies(pushed, m)
        invariant forall r: RegApp :: multiset(pushed)[r] ==
                    if Reaches(m, r) && InMemory(manager.regappMap, r) && r.appId == appId
                    then multiset(m.regIds[..n])[r.regId] else 0
      {
        CountNext(m.regIds, n);
        var more := PushToRegId(appId, m.regIds[n], m);
        CopiesConcat(pushed, more, m);
        assert multiset(pushed + more) == multiset(pushed) + multiset(more);
        pushed := pushed + more;
        n := n + 1;
      }
      assert m.regIds[..n] == m.regIds;
    }

    /** What the lookup of one device adds. */
    method PushToDevId(appId: string, key: string, m: RawMessage) returns (pushed: seq<RegApp>)
      requires Valid()
      modifies this`sent
      ensures sent == old(sent) + Copies(pushed, m)
      ensures forall r: RegApp :: multiset(pushed)[r] ==
                if Reaches(m, r) && AtDevice(devices, appId, r) && r.devId == key then 1 else 0
    {
      hide OnlineSender, Copies;
      NoCopies(m);
      pushed := [];
      var r := GetAppByDevice(appId, key);
      if r != null {
        CopiesAppend([], r, m);
        var queued := PushMessage(r, m);
        pushed := if queued then [] + [r] else [];
      }
    }

    method PushToDevices(appId: string, devIds: seq<string>, m: RawMessage) returns (pushed: seq<RegApp>)
      requires Valid()
      modifies this`sent
      ensures sent == old(sent) + Copies(pushed, m)
      ensures forall r: RegApp :: multiset(pushed)[r] ==
                if Reaches(m, r) && AtDevice(devices, appId, r) then multiset(devIds)[r.devId] else 0
    {
      hide Copies;
      NoCopies(m);
      pushed := [];
      var n := 0;
      while n < |devIds|
        invariant n <= |devIds| && sent == old(sent) + Copies(pushed, m)
        invariant forall r: RegApp :: multiset(pushed)[r] ==
                    if Reaches(m, r) && AtDevice(devices, appId, r) then multiset(devIds[..n])[r.devId] else 0
      {
        CountNext(devIds, n);
        var more := PushToDevId(appId, devIds[n], m);
        CopiesConcat(pushed, more, m);
        pushed := pushed + more;
        n := n + 1;
      }
      assert devIds[..n] == devIds;
    }

    method PushToGroups(appId: string, scans: seq<Scan>, m: RawMessage) returns (pushed: seq<RegApp>)
      requires Valid()
      modifies this`sent
      ensures sent == old(sent) + Copies(pushed, m)
      ensures forall r: RegApp :: multiset(pushed)[r] ==
                if Reaches(m, r) && AtDevice(devices, appId, r)
                then multiset(Visited(|m.groups|, scans))[r.devId] else 0
    {
      hide Copies, Visited;
      NoCopies(m);
      pushed := [];
      ghost var visited := [];
      var left, rest := |m.groups|, scans;
      while left > 0 && rest != []
        invariant 0 <= left <= |m.groups| && sent == old(sent) + Copies(pushed, m)
        invariant visited + Visited(left, rest) == Visited(|m.groups|, scans)
        invariant forall r: RegApp :: multiset(pushed)[r] ==
                    if Reaches(m, r) && AtDevice(devices, appId, r) then multiset(visited)[r.devId] else 0
        decreases |rest|
      {
        NextScan(left, rest);
        var more := PushToDevices(appId, Items(rest[0]), m);
        CopiesConcat(pushed, more, m);
        assert multiset(pushed + more) == multiset(pushed) + multiset(more);
        assert multiset(visited + Items(rest[0])) == multiset(visited) + multiset(Items(rest[0]));
        pushed := pushed + more;
        visited := visited + Items(rest[0]);
        left := if IsLast(rest[0]) then left - 1 else left;
        rest := rest[1..];
      }
      NextScan(left, rest);
    }

    lemma NextScan(n: nat, scans: seq<Scan>)
      ensures Visited(n, scans) ==
              if n == 0 || scans == [] then []
              else Items(scans[0]) + Visited(if IsLast(scans[0]) then n - 1 else n, scans[1..])
    {
    }

    /** What the lookup of one user adds. */
    method PushToUser(appId: string, u: string, m: RawMessage) returns (pushed: seq<RegApp>, ghost readOk: bool)
      requires Valid()
      modifies manager.storage`failures, this`sent
      ensures old(manager.storage.failures) == [] ==> readOk && manager.storage.failures == []
      ensures sent == old(sent) + Copies(pushed, m)
      ensures forall r: RegApp :: multiset(pushed)[r] ==
                if readOk && Reaches(m, r) && InMemory(manager.regappMap, r)
                   && ListedFor(manager.storage.user, u, appId, r.regId)
                then 1 else 0
    {
      hide OnlineSender, Copies;
      var apps, ok := manager.GetAppsByUser(appId, u);
      readOk := ok;
      CountOnce(apps);
      assert forall r: RegApp :: r in apps <==>
               ok && InMemory(manager.regappMap, r) && ListedFor(manager.storage.user, u, appId, r.regId);
      pushed := PushAll(apps, m);
    }

    method PushToUsers(appId: string, m: RawMessage) returns (pushed: seq<RegApp>, ghost readOk: bool)
      requires Valid()
      modifies manager.storage`failures, this`sent
      ensures old(manager.storage.failures) == [] ==> readOk
      ensures sent == old(sent) + Copies(pushed, m)
      ensures forall r: RegApp :: Counted(multiset(pushed)[r], readOk,
                if Reaches(m, r) && InMemory(manager.regappMap, r)
                then Listings(manager.storage.user, m.userIds, appId, r.regId) else 0)
    {
      hide OnlineSender, Copies;
      NoCopies(m);
      pushed, readOk := [], true;
      var n := 0;
      while n < |m.userIds|
        invariant n <= |m.userIds| && sent == old(sent) + Copies(pushed, m)
        invariant old(manager.storage.failures) == [] ==> readOk && manager.storage.failures == []
        invariant forall r: RegApp :: Counted(multiset(pushed)[r], readOk,
                    if Reaches(m, r) && InMemory(manager.regappMap, r)
                    then Listings(manager.storage.user, m.userIds[..n], appId, r.regId) else 0)
      {
        var more, ok := PushToUser(appId, m.userIds[n], m);
        readOk := readOk && ok;
        assert m.userIds[..n + 1][..n] == m.userIds[..n];
        CopiesConcat(pushed, more, m);
        pushed := pushed + more;
        n := n + 1;
      }
      assert m.userIds[..n] == m.userIds;
    }

    /** Queues the message for the selected registrations whose sender filter
        passes and whose device is connected, as often as they are selected. `scans`
        is how the scans of groups end; `readOk` says whether the user index could
        be read throughout. */
    method PushMessages(appId: string, m: RawMessage, scans: seq<Scan>)
      returns (pushed: seq<RegApp>, ghost readOk: bool)
      requires Valid()
      modifies manager.storage`failures, this`sent
      ensures old(manager.storage.failures) == [] || !m.pushType.UserIds? ==> readOk
      ensures sent == old(sent) + Copies(pushed, m)
      ensures forall r: RegApp :: Counted(multiset(pushed)[r], readOk,
                if Reaches(m, r)
                then Times(manager.regappMap, devices, manager.storage.user, scans, appId, m, r) else 0)
    {
      hide OnlineSender, Copies, Matches, ProperTables;
      NoCopies(m);
      pushed, readOk := [], true;
      match m.pushType
      case All =>
        var apps := manager.GetApps(appId);
        CountOnce(apps);
        pushed := PushAll(apps, m);
      case RegIds =>
        pushed := PushToRegIds(appId, m);
      case UserIds =>
        pushed, readOk := PushToUsers(appId, m);
      case DevIds =>
        pushed := PushToDevices(appId, m.devIds, m);
      case Topic =>
        var apps := manager.GetAppsByTopic(appId, m.topics, m.topicOp);
        CountOnce(apps);
        pushed := PushAll(apps, m);
      case Group =>
        pushed := PushToGroups(appId, scans, m);
      case Other =>
    }
  }

  /** So many, or fewer if something could not be read. */
  predicate Counted(count: nat, readOk: bool, due: nat) {
    if readOk then count == due else count <= due
  }

  ghost predicate Passes(d: string, member: set<string>, m: RawMessage, r: RegApp)
    reads r
  {
    Offline(d, member, m, r) && OfflineSender(m, r)
  }

  /** The messages that pass, in the order given. */
  ghost function Replayed(d: string, member: set<string>, msgs: seq<RawMessage>, r: RegApp): seq<RawMessage>
    reads r
  {
    if msgs == [] then []
    else
      var last := msgs[|msgs| - 1];
      Replayed(d, member, msgs[..|msgs| - 1], r) + if Passes(d, member, last, r) then [last] else []
  }

  /** The messages queued for the client: `member` are the device's groups as far
      as the store can be read. */
  method HandleOfflineMsgs(devId: string, r: RegApp, msgs: seq<RawMessage>, member: set<string>)
    returns (queued: seq<RawMessage>)
    ensures queued == Replayed(devId, member, msgs, r)
  {
    queued := [];
    var n := 0;
    while n < |msgs|
      invariant n <= |msgs|
      invariant queued == Replayed(devId, member, msgs[..n], r)
    {
      var m := msgs[n];
      assert msgs[..n + 1][..n] == msgs[..n];
      n := n + 1;
      var ok := false;
      match m.pushType {
        case All => ok := true;
        case RegIds =>
          for i := 0 to |m.regIds|
            invariant ok <==> r.regId in m.regIds[..i]
          {
            assert m.regIds[..i + 1] == m.regIds[..i] + [m.regIds[i]];
            ok := ok || r.regId == m.regIds[i];
          }
          assert m.regIds[..|m.regIds|] == m.regIds;
        case UserIds =>
          if r.userId == "" {
            continue;
          }
          ok := Contains(m.userIds, r.userId);
        case DevIds => ok := Contains(m.devIds, devId);
        case Topic => ok := MatchTopics(r.topics, m.topics, m.topicOp);
        case Group =>
          for i := 0 to |m.groups|
            invariant ok <==> exists g :: g in m.groups[..i] && g in member
          {
            assert m.groups[..i + 1] == m.groups[..i] + [m.groups[i]];
            ok := ok || m.groups[i] in member;
          }
          assert m.groups[..|m.groups|] == m.groups;
        case Other => continue;
      }
      if ok {
        if |r.sendIds| > 0 && m.sendId != "" {
          var found := Contains(r.sendIds, m.sendId);
          if !found {
            continue;
          }
        }
        queued := queued + [m];
      }
    }
    assert msgs[..n] == msgs;
  }

  /** The RegApps of every client, by device. */
  function TablesOf(s: Registry.State): Tables {
    map d | d in s.sessions :: s.sessions[d].apps
  }

  ghost predicate OnlineIn(s: Registry.State, groups: Groups, appId: string, m: RawMessage, r: RegApp)
    reads r
  {
    Online(s.regapps, TablesOf(s), s.store.user, groups, appId, m, r)
  }

  lemma RegisteredApp(s: Registry.State, k: RegId)
    requires Registry.Inv(s) && k in s.regapps
    ensures var r := s.regapps[k];
            && k == r.regId == Digest(r.devId, r.appId, r.userId) && r.devId in s.sessions
            && (s.sessions[r.devId].phase == Registry.Have(r.appId, r)
                || (r.appId in s.sessions[r.devId].apps && s.sessions[r.devId].apps[r.appId] == r))
  {
    assert Registry.SessionInv(s.regapps, k.dev, s.sessions[k.dev]);
  }

  lemma ConnectedApp(s: Registry.State, d: string, app: string)
    requires Registry.Inv(s) && d in s.sessions && app in s.sessions[d].apps
    ensures var c := s.sessions[d]; var r := c.apps[app];
            && r.appId == app && r.devId == d && (c.phase.Have? ==> c.phase.app != app)
            && (r.regId in s.regapps && s.regapps[r.regId] == r
                <==> !(c.phase.Dropped? && c.phase.app == app))
  {
    assert Registry.SessionInv(s.regapps, d, s.sessions[d]);
  }

  lemma AddedApp(s: Registry.State, d: string)
    requires Registry.Inv(s) && d in s.sessions && s.sessions[d].phase.Have?
    ensures var p := s.sessions[d].phase;
            && p.app == p.r.appId && p.r.devId == d && p.app !in s.sessions[d].apps
            && p.r.regId in s.regapps && s.regapps[p.r.regId] == p.r
  {
    assert Registry.SessionInv(s.regapps, d, s.sessions[d]);
  }

  ghost predicate Registered(s: Registry.State, appId: string, r: RegApp) {
    InMemory(s.regapps, r) && r.appId == appId
  }

  /** The online lookups find the registration exactly if it is registered for
      the app and the offline test holds of it. */
  ghost predicate Agree(s: Registry.State, groups: Groups, appId: string, m: RawMessage, r: RegApp)
    reads r
  {
    OnlineIn(s, groups, appId, m, r) <==> Registered(s, appId, r) && Offline(r.devId, GroupsOf(groups, r.devId), m, r)
  }

  /** The registration is in only one of regappMap and its client's RegApps. */
  predicate Moving(c: Registry.Session, appId: string, r: RegApp) {
    || c.phase == Registry.Have(appId, r)
    || (c.phase.Dropped? && c.phase.app == appId && appId in c.apps && c.apps[appId] == r)
  }

  /** The lookup of this push consults a table that the registration's own device
      is just entering it into or taking it out of. */
  ghost predicate InTransit(s: Registry.State, groups: Groups, appId: string, m: RawMessage, r: RegApp) {
    match m.pushType
    case UserIds =>
      Registered(s, appId, r) && UserIndex.Leaving(s, r.regId) && r.userId != "" && r.userId in m.userIds
    case DevIds => r.devId in m.devIds && r.devId in s.sessions && Moving(s.sessions[r.devId], appId, r)
    case Group =>
      InSome(groups, m.groups, r.devId) && r.devId in s.sessions && Moving(s.sessions[r.devId], appId, r)
    case _ => false
  }

  /** A device that is between handlers has nothing in transit. */
  lemma RestIsNoTransit(s: Registry.State, groups: Groups, appId: string, m: RawMessage, r: RegApp)
    requires r.devId in s.sessions ==> Registry.AtBoundary(s.sessions[r.devId])
    requires Registry.Inv(s)
    ensures !InTransit(s, groups, appId, m, r)
  {
    hide Registry.Inv, InSome;
    if r.regId in s.regapps && s.regapps[r.regId] == r {
      RegisteredApp(s, r.regId);
    }
  }

  /** The tables of the machine are as Comet takes them to be. */
  lemma TablesAreProper(s: Registry.State)
    requires Registry.Inv(s)
    ensures ProperTables(TablesOf(s)) && Keyed(s.regapps)
  {
    forall d, app | d in s.sessions && app in s.sessions[d].apps
      ensures s.sessions[d].apps[app].appId == app && s.sessions[d].apps[app].devId == d
    {
      ConnectedApp(s, d, app);
    }
    hide Registry.Inv;
  }

  /** Pushes by device or group look at the sessions... */
  lemma AgreeByDevice(s: Registry.State, groups: Groups, appId: string, m: RawMessage, r: RegApp)
    requires Registry.Inv(s) && (m.pushType.DevIds? || m.pushType.Group?)
    ensures Agree(s, groups, appId, m, r) <==> !InTransit(s, groups, appId, m, r)
  {
    hide Registry.Inv;
    if r.regId in s.regapps && s.regapps[r.regId] == r {
      RegisteredApp(s, r.regId);
    }
    forall d | d in s.sessions && appId in s.sessions[d].apps && s.sessions[d].apps[appId] == r
      ensures d == r.devId && r.appId == appId
    {
      ConnectedApp(s, d, appId);
    }
    if r.devId in s.sessions && s.sessions[r.devId].phase.Have? {
      AddedApp(s, r.devId);
    }
    if r.devId in s.sessions && appId in s.sessions[r.devId].apps {
      ConnectedApp(s, r.devId, appId);
    }
    assert OnlineIn(s, groups, appId, m, r) <==>
           (if m.pushType.DevIds? then r.devId in m.devIds else InSome(groups, m.groups, r.devId))
           && r.devId in s.sessions && appId in s.sessions[r.devId].apps
           && s.sessions[r.devId].apps[appId] == r;
  }

  lemma IndexOfRegistration(s: Registry.State, r: RegApp)
    requires InMemory(s.regapps, r) && UserIndex.IndexAgrees(s)
    ensures if UserIndex.Leaving(s, r.regId) then UserIndex.Delisted(s.store, r.regId)
            else UserIndex.RightlyListed(s.store, r.regId)
  {
  }

  lemma OnlineByUser(s: Registry.State, groups: Groups, appId: string, m: RawMessage, r: RegApp)
    requires Keyed(s.regapps) && m.pushType.UserIds?
    ensures OnlineIn(s, groups, appId, m, r) <==>
            && InMemory(s.regapps, r)
            && exists u :: u in m.userIds && ListedFor(s.store.user, u, appId, r.regId)
  {
  }

  /** ...those by user at the index... */
  lemma AgreeByUser(s: Registry.State, groups: Groups, appId: string, m: RawMessage, r: RegApp)
    requires Registry.Inv(s) && UserIndex.IndexAgrees(s) && m.pushType.UserIds?
    ensures Agree(s, groups, appId, m, r) <==> !InTransit(s, groups, appId, m, r)
  {
    hide Registry.Inv, UserIndex.IndexAgrees, UserIndex.Leaving, OnlineIn;
    TablesAreProper(s);
    OnlineByUser(s, groups, appId, m, r);
    if InMemory(s.regapps, r) {
      RegisteredApp(s, r.regId);
      IndexOfRegistration(s, r);
    }
  }

  /** ...and the others at regappMap only. */
  lemma AgreeByTable(s: Registry.State, groups: Groups, appId: string, m: RawMessage, r: RegApp)
    requires Registry.Inv(s) && !m.pushType.UserIds? && !(m.pushType.DevIds? || m.pushType.Group?)
    ensures Agree(s, groups, appId, m, r)
  {
    TablesAreProper(s);
    hide Registry.Inv, Matches;
  }

  /** For every kind of push, if the user index agrees and groups are read as they
      are, both routings pick a registration alike exactly if it is not in transit. */
  lemma RoutingAgrees(s: Registry.State, groups: Groups, appId: string, m: RawMessage, r: RegApp)
    requires Registry.Inv(s) && UserIndex.IndexAgrees(s)
    ensures Agree(s, groups, appId, m, r) <==> !InTransit(s, groups, appId, m, r)
  {
    hide Registry.Inv, UserIndex.IndexAgrees, Agree;
    match m.pushType {
      case UserIds => AgreeByUser(s, groups, appId, m, r);
      case DevIds | Group => AgreeByDevice(s, groups, appId, m, r);
      case _ => AgreeByTable(s, groups, appId, m, r);
    }
  }

  function ForUser(u: string): RawMessage {
    RawMessage(1, UserIds, [], [u], [], [], "", [], "")
  }

  /** A push to one user finds a registration through the index or not at all. */
  lemma FoundByUser(s: Registry.State, groups: Groups, appId: string, u: string, r: RegApp)
    requires Keyed(s.regapps)
    ensures OnlineIn(s, groups, appId, ForUser(u), r) <==>
            InMemory(s.regapps, r) && ListedFor(s.store.user, u, appId, r.regId)
  {
    assert u in ForUser(u).userIds;
  }

  /** Where the index is wrong about a registration, some push to one user shows it. */
  lemma WronglyListed(s: Registry.State, groups: Groups, k: RegId) returns (appId: string, u: string)
    requires k in s.regapps
    requires !(if UserIndex.Leaving(s, k) then UserIndex.Delisted(s.store, k) else UserIndex.RightlyListed(s.store, k))
    requires Registry.Inv(s)
    ensures Agree(s, groups, appId, ForUser(u), s.regapps[k]) <==> InTransit(s, groups, appId, ForUser(u), s.regapps[k])
  {
    RegisteredApp(s, k);
    TablesAreProper(s);
    hide Registry.Inv, OnlineIn;
    if UserIndex.Leaving(s, k) {
      u :| (u, k) in s.store.user;
    } else {
      u :| !(((u, k) in s.store.user <==> u != "" && k.user == u)
             && ((u, k) in s.store.user ==> s.store.user[(u, k)] == k.app));
    }
    appId := if (u, k) in s.store.user then s.store.user[(u, k)] else k.app;
    FoundByUser(s, groups, appId, u, s.regapps[k]);
  }

  /** The user index is exactly what the agreement needs. */
  lemma AgreementNeedsIndex(s: Registry.State, groups: Groups)
    requires Registry.Inv(s)
    ensures UserIndex.IndexAgrees(s) <==>
            forall k, appId, u :: k in s.regapps ==>
              (Agree(s, groups, appId, ForUser(u), s.regapps[k]) <==>
               !InTransit(s, groups, appId, ForUser(u), s.regapps[k]))
  {
    hide Registry.Inv, Agree, InTransit;
    if UserIndex.IndexAgrees(s) {
      forall k, appId, u | k in s.regapps
        ensures Agree(s, groups, appId, ForUser(u), s.regapps[k]) <==>
                !InTransit(s, groups, appId, ForUser(u), s.regapps[k])
      {
        RoutingAgrees(s, groups, appId, ForUser(u), s.regapps[k]);
      }
    } else {
      var k :| k in s.regapps
               && !(if UserIndex.Leaving(s, k) then UserIndex.Delisted(s.store, k)
                    else UserIndex.RightlyListed(s.store, k));
      var appId, u := WronglyListed(s, groups, k);
    }
  }

  /** So in every orderly run they differ exactly for what is in transit, thus for
      no registration whose own device is between handlers. */
  lemma RoutingAgreesInRuns(
    s: Registry.State, steps: seq<Registry.Step>, t: Registry.State,
    groups: Groups, appId: string, m: RawMessage, r: RegApp)
    requires UserIndex.Initial(s) && UserIndex.OrderlyRuns(s, steps, t)
    ensures Agree(t, groups, appId, m, r) <==> !InTransit(t, groups, appId, m, r)
    ensures (r.devId in t.sessions ==> Registry.AtBoundary(t.sessions[r.devId])) ==> Agree(t, groups, appId, m, r)
  {
    hide Registry.Inv, UserIndex.IndexAgrees, Agree, InTransit;
    UserIndex.IndexKept(s, steps, t);
    RoutingAgrees(t, groups, appId, m, r);
    if r.devId in t.sessions ==> Registry.AtBoundary(t.sessions[r.devId]) {
      RestIsNoTransit(t, groups, appId, m, r);
    }
  }

  /** Where the index does not list a registration of a user, a push to that user
      misses it online and reaches it offline. */
  lemma UnlistedSplits(t: Registry.State, groups: Groups, r: RegApp)
    requires Registry.Inv(t) && r.regId in t.regapps && t.regapps[r.regId] == r && r.userId != ""
    requires (r.userId, r.regId) !in t.store.user
    ensures !OnlineIn(t, groups, r.appId, ForUser(r.userId), r)
    ensures Offline(r.devId, GroupsOf(groups, r.devId), ForUser(r.userId), r)
  {
    TablesAreProper(t);
    FoundByUser(t, groups, r.appId, r.userId, r);
    assert r.userId in ForUser(r.userId).userIds;
  }

  /** From every reachable state in which an app of a user has an update queued,
      unregistering the app can go on, all writes successful, until the routings
      differ for it although its device is between handlers. */
  lemma StaleUpdateSplitsRouting(t: Registry.State, groups: Groups, d: string, app: string, i: nat)
    returns (u: Registry.State, steps: seq<Registry.Step>)
    requires Registry.Ready(t, d) && app in t.sessions[d].apps && t.sessions[d].apps[app].userId != ""
    requires i < |t.jobs| && t.jobs[i].regId == t.sessions[d].apps[app].regId
    requires Registry.Inv(t)
    ensures UserIndex.OrderlyRuns(RegistryRuns.Unregistering(t, d, app), steps, u)
    ensures d in u.sessions && u.sessions[d].phase.Idle?
    ensures var r := t.sessions[d].apps[app];
            && r.devId == d && r.regId in u.regapps && u.regapps[r.regId] == r
            && !OnlineIn(u, groups, r.appId, ForUser(r.userId), r)
            && Offline(r.devId, GroupsOf(groups, r.devId), ForUser(r.userId), r)
  {
    hide Registry.Next, Registry.Enabled, Registry.Inv, Registry.Runs, UserIndex.OrderlyRuns;
    UserIndex.OwnApp(t, d, app);
    RegistryRuns.BeginsUnregistering(t, d, app);
    Registry.InvStep(t, Registry.BeginUnregister(d, app));
    u, steps := UserIndex.StaleUpdateBreaksIndex(t, d, app, i);
    Registry.InvRuns(RegistryRuns.Unregistering(t, d, app), steps, u);
    UnlistedSplits(u, groups, t.sessions[d].apps[app]);
  }

  /** The sender filters agree exactly when the message has no sender or the
      registration has some. */
  lemma SendersAgree(m: RawMessage, r: RegApp)
    ensures (OnlineSender(m, r) <==> OfflineSender(m, r)) <==> m.sendId == "" || r.sendIds != []
  {
  }
}
