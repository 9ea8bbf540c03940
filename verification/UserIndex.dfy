/** The hashes db_user_*: when do they list exactly the registered apps of a
    user? Online pushes by user id rely on them. */
module UserIndex {
  import opened Apps
  import opened Registry
  import opened RegistryRuns

  /** Successful index writes; no app of a user is unregistered while an update of
      it is still queued; and the process does not die between writing a user's
      record and its index entry. */
  ghost predicate Orderly(s: State, step: Step) {
    match step
    case StoreUser(_, ok) => ok
    case Erase(_, ok) => ok
    case BeginUnregister(d, app) =>
      d in s.sessions && app in s.sessions[d].apps ==> NoneQueued(s, s.sessions[d].apps[app])
    case Crash => forall d :: d in s.sessions ==> BetweenWrites(s, d)
    case _ => true
  }

  /** The registration has no user, or no update of it is queued. */
  ghost predicate NoneQueued(s: State, r: RegApp) {
    r.userId == "" || forall i :: 0 <= i < |s.jobs| ==> s.jobs[i].regId != r.regId
  }

  /** If the session has written a record, but not yet the index entry, that entry
      is there already. */
  predicate BetweenWrites(s: State, d: string)
    requires d in s.sessions
  {
    var p := s.sessions[d].phase;
    p.AppStored? || p.DeviceStored? ==> Indexed(s.store, Digest(d, p.app, p.user))
  }

  ghost predicate OrderlyRuns(s: State, steps: seq<Step>, t: State)
    decreases |steps|
  {
    if steps == [] then s == t
    else
      && Enabled(s, steps[0]) && Orderly(s, steps[0])
      && OrderlyRuns(Next(s, steps[0]), steps[1..], t)
  }

  /** A registration of a user is listed under that user. */
  predicate Indexed(t: Store, k: RegId) {
    k.Digest? && k.user != "" ==> (k.user, k) in t.user
  }

  /** The index entry is already erased, the memory entry not yet. */
  predicate Leaving(s: State, k: RegId) {
    k.Digest? && k.dev in s.sessions && s.sessions[k.dev].phase == Erasing(k.app, 3)
  }

  /** The record is stored, the index entry not yet. */
  predicate Arriving(s: State, k: RegId) {
    && k.Digest? && k.dev in s.sessions
    && (s.sessions[k.dev].phase.AppStored? || s.sessions[k.dev].phase.DeviceStored?)
    && s.sessions[k.dev].phase.app == k.app && s.sessions[k.dev].phase.user == k.user
  }

  ghost predicate MapIndexed(s: State) {
    forall k :: k in s.regapps ==> Indexed(s.store, k) || Leaving(s, k)
  }

  ghost predicate StoreIndexed(s: State) {
    && (forall u :: u in s.store.user ==> u.1.Digest? && u.1.user == u.0 != "" && s.store.user[u] == u.1.app)
    && (forall a :: a in s.store.app ==> Indexed(s.store, a.1) || Arriving(s, a.1))
    && (forall i :: 0 <= i < |s.jobs| ==> Indexed(s.store, s.jobs[i].regId))
  }

  ghost predicate SessionIndexed(t: Store, jobs: seq<UpdateJob>, c: Session) {
    && (c.phase.Adding? || c.phase.Absent? ==> Indexed(t, c.phase.regId))
    && (forall i :: 0 <= i < |c.todo| && c.todo[i].Loaded? ==> Indexed(t, c.todo[i].regId))
    && (c.phase.Erasing? && c.phase.app in c.apps ==>
          var r := c.apps[c.phase.app];
          r.userId != "" ==>
            && (forall i :: 0 <= i < |jobs| ==> jobs[i].regId != r.regId)
            && (c.phase.stage > 0 ==> (c.phase.app, r.regId) !in t.app))
  }

  ghost predicate UserInv(s: State) {
    && MapIndexed(s)
    && StoreIndexed(s)
    && (forall d :: d in s.sessions ==> SessionIndexed(s.store, s.jobs, s.sessions[d]))
  }

  /** A store for which the index was kept so far. */
  ghost predicate Initial(s: State) {
    Registry.Initial(s) && StoreIndexed(s)
  }

  /** Steps that write neither to the store nor to regappMap. */
  predicate Moves(step: Step) {
    || step.Init? || step.Skip? || step.CheckNamed? || step.Fetch? || step.TakeLoaded? || step.BeginRegister?
    || step.AddCheck? || step.Publish? || step.BeginUnregister? || step.Forget? || step.BeginClose? || step.CloseDone?
  }

  predicate Settled(s: State, d: string) {
    d in s.sessions ==>
      var p := s.sessions[d].phase;
      !p.AppStored? && !p.DeviceStored? && !(p.Erasing? && p.stage == 3)
  }

  lemma MoveFrame(s: State, step: Step)
    requires Enabled(s, step) && Moves(step)
    ensures var t := Next(s, step);
            t.regapps == s.regapps && t.store == s.store && t.jobs == s.jobs
    ensures Settled(s, step.d) && Settled(Next(s, step), step.d)
  {
  }

  lemma TablesStay(s: State, t: State, d: string)
    requires MapIndexed(s) && StoreIndexed(s)
    requires t.regapps == s.regapps && t.store == s.store && t.jobs == s.jobs
    requires Settled(s, d) && Settled(t, d)
    requires forall e :: e != d ==> (e in t.sessions <==> e in s.sessions)
    requires forall e :: e != d && e in s.sessions ==> t.sessions[e] == s.sessions[e]
    ensures MapIndexed(t) && StoreIndexed(t)
  {
    forall k: RegId
      ensures Leaving(t, k) == Leaving(s, k) && Arriving(t, k) == Arriving(s, k)
    {
    }
  }

  lemma LoadMoves(s: State, step: Step)
    requires Inv(s) && UserInv(s) && Enabled(s, step)
    requires step.Init? || step.Skip? || step.CheckNamed? || step.Fetch? || step.TakeLoaded?
    ensures SessionIndexed(s.store, s.jobs, Next(s, step).sessions[step.d])
  {
    if step.d in s.sessions {
      assert SessionInv(s.regapps, step.d, s.sessions[step.d]);
      assert SessionIndexed(s.store, s.jobs, s.sessions[step.d]);
    }
  }

  lemma HandlerMoves(s: State, step: Step)
    requires Inv(s) && UserInv(s) && Enabled(s, step) && Orderly(s, step)
    requires step.BeginRegister? || step.AddCheck? || step.Publish? || step.BeginUnregister? || step.Forget?
             || step.BeginClose?
    ensures SessionIndexed(s.store, s.jobs, Next(s, step).sessions[step.d])
  {
    assert SessionIndexed(s.store, s.jobs, s.sessions[step.d]);
  }

  lemma MoveStep(s: State, step: Step)
    requires Inv(s) && UserInv(s) && Enabled(s, step) && Orderly(s, step) && Moves(step)
    ensures UserInv(Next(s, step))
  {
    var t := Next(s, step);
    MoveFrame(s, step);
    SessionsFrame(s, step);
    TablesStay(s, t, step.d);
    forall d | d in t.sessions
      ensures SessionIndexed(t.store, t.jobs, t.sessions[d])
    {
      if d != step.d {
        assert SessionIndexed(s.store, s.jobs, s.sessions[d]);
      } else if step.Init? || step.Skip? || step.CheckNamed? || step.Fetch? || step.TakeLoaded? {
        LoadMoves(s, step);
      } else {
        HandlerMoves(s, step);
      }
    }
  }

  /** An app in a session's table is that device's registration of the app. */
  lemma OwnApp(s: State, d: string, app: string)
    requires Inv(s) && d in s.sessions && app in s.sessions[d].apps
    ensures Mine(d, app, s.sessions[d].apps[app])
    ensures !s.sessions[d].phase.Dropped? ==> s.sessions[d].apps[app].regId in s.regapps
    ensures s.sessions[d].phase.Erasing? ==> s.sessions[d].todo == []
  {
    assert SessionInv(s.regapps, d, s.sessions[d]);
  }

  /** What another session's step leaves alone. */
  lemma SessionStays(s: State, t: State, d: string, e: string)
    requires Inv(s) && UserInv(s) && e in s.sessions && e != d
    requires forall k: RegId :: Indexed(s.store, k) && !(k.Digest? && k.dev == d) ==> Indexed(t.store, k)
    requires forall a, k: RegId :: (a, k) in t.store.app && !(k.Digest? && k.dev == d) ==> (a, k) in s.store.app
    requires forall i :: 0 <= i < |t.jobs| ==>
               t.jobs[i] in s.jobs || (t.jobs[i].regId.Digest? && t.jobs[i].regId.dev == d)
    ensures SessionIndexed(t.store, t.jobs, s.sessions[e])
  {
    var c := s.sessions[e];
    assert SessionInv(s.regapps, e, c) && SessionIndexed(s.store, s.jobs, c);
  }

  lemma StoreAppSession(s: State, step: Step, e: string)
    requires Inv(s) && UserInv(s) && Enabled(s, step) && step.StoreApp? && e in s.sessions
    ensures SessionIndexed(Next(s, step).store, s.jobs, Next(s, step).sessions[e])
  {
    hide Inv;
    if e != step.d {
      SessionStays(s, Next(s, step), step.d, e);
    } else {
      assert SessionIndexed(s.store, s.jobs, s.sessions[e]);
    }
  }

  lemma StoreAppStep(s: State, step: Step)
    requires Inv(s) && UserInv(s) && Enabled(s, step) && step.StoreApp?
    ensures UserInv(Next(s, step))
  {
    hide Inv, SessionIndexed;
    var t := Next(s, step);
    assert forall k: RegId :: Leaving(t, k) == Leaving(s, k) && (Arriving(s, k) ==> Arriving(t, k));
    forall e | e in t.sessions
      ensures SessionIndexed(t.store, t.jobs, t.sessions[e])
    {
      StoreAppSession(s, step, e);
    }
  }

  lemma StoreDeviceStep(s: State, step: Step)
    requires Inv(s) && UserInv(s) && Enabled(s, step) && step.StoreDevice?
    ensures UserInv(Next(s, step))
  {
    hide Inv;
    var t := Next(s, step);
    assert forall k: RegId :: Leaving(t, k) == Leaving(s, k) && Arriving(t, k) == Arriving(s, k);
    forall e | e in t.sessions
      ensures SessionIndexed(t.store, t.jobs, t.sessions[e])
    {
      assert SessionIndexed(s.store, s.jobs, s.sessions[e]);
    }
  }

  lemma StoreUserKeeps(s: State, step: Step)
    requires Enabled(s, step) && Orderly(s, step) && step.StoreUser?
    ensures var t := Next(s, step);
            && (forall k: RegId :: Indexed(s.store, k) ==> Indexed(t.store, k))
            && (forall k: RegId :: Leaving(t, k) == Leaving(s, k))
            && (forall k: RegId :: Arriving(s, k) ==> Arriving(t, k) || Indexed(t.store, k))
  {
  }

  lemma StoreUserStep(s: State, step: Step)
    requires Inv(s) && UserInv(s) && Enabled(s, step) && Orderly(s, step) && step.StoreUser?
    ensures UserInv(Next(s, step))
  {
    hide Inv, Leaving, Arriving;
    var t := Next(s, step);
    StoreUserKeeps(s, step);
    forall e | e in t.sessions
      ensures SessionIndexed(t.store, t.jobs, t.sessions[e])
    {
      assert SessionIndexed(s.store, s.jobs, s.sessions[e]);
    }
  }

  lemma InsertStep(s: State, step: Step)
    requires Inv(s) && UserInv(s) && Enabled(s, step) && (step.Insert? || step.CloseOne?)
    ensures UserInv(Next(s, step))
  {
    hide Inv;
    var t := Next(s, step);
    assert forall k: RegId :: Leaving(t, k) == Leaving(s, k) && Arriving(t, k) == Arriving(s, k);
    forall e | e in t.sessions
      ensures SessionIndexed(t.store, t.jobs, t.sessions[e])
    {
      assert SessionIndexed(s.store, s.jobs, s.sessions[e]);
    }
  }

  lemma DropFrame(s: State, step: Step)
    requires Enabled(s, step) && step.Drop?
    ensures var t, c := Next(s, step), s.sessions[step.d];
            && t.store == s.store && t.jobs == s.jobs
            && t.regapps == s.regapps - {c.apps[c.phase.app].regId}
            && t.sessions == s.sessions[step.d := c.(phase := Dropped(c.phase.app, false))]
  {
  }

  lemma DropMap(s: State, step: Step)
    requires Inv(s) && UserInv(s) && Enabled(s, step) && step.Drop?
    ensures MapIndexed(Next(s, step))
  {
    DropFrame(s, step);
    var t := Next(s, step);
    forall k | k in t.regapps
      ensures Indexed(t.store, k) || Leaving(t, k)
    {
      assert SessionInv(s.regapps, k.dev, s.sessions[k.dev]);
    }
    hide Next, StoreIndexed, SessionIndexed;
  }

  lemma DropStep(s: State, step: Step)
    requires Inv(s) && UserInv(s) && Enabled(s, step) && step.Drop?
    ensures UserInv(Next(s, step))
  {
    hide Next, Inv;
    DropFrame(s, step);
    DropMap(s, step);
    var t := Next(s, step);
    forall k: RegId
      ensures Arriving(t, k) == Arriving(s, k)
    {
    }
    forall e | e in t.sessions
      ensures SessionIndexed(t.store, t.jobs, t.sessions[e])
    {
      assert SessionIndexed(s.store, s.jobs, s.sessions[e]);
    }
  }

  /** What is known of the app that is being unregistered. */
  lemma EraseFrame(s: State, step: Step)
    requires Inv(s) && UserInv(s) && Enabled(s, step) && Orderly(s, step) && step.Erase?
    ensures var t, c := Next(s, step), s.sessions[step.d];
            var r := c.apps[c.phase.app];
            && Mine(step.d, c.phase.app, r) && c.todo == []
            && t.regapps == s.regapps && t.jobs == s.jobs
            && t.store == Erased(s.store, r, c.phase.stage)
            && (forall k: RegId :: Arriving(t, k) == Arriving(s, k))
            && (forall k: RegId :: k != r.regId && Indexed(s.store, k) ==> Indexed(t.store, k))
            && (forall a :: a in t.store.app ==> a in s.store.app && (c.phase.stage == 0 ==> a != (r.appId, r.regId)))
  {
    hide Inv, UserInv;
    OwnApp(s, step.d, s.sessions[step.d].phase.app);
  }

  lemma EraseMap(s: State, step: Step)
    requires Inv(s) && UserInv(s) && Enabled(s, step) && Orderly(s, step) && step.Erase?
    ensures MapIndexed(Next(s, step))
  {
    hide Inv;
    EraseFrame(s, step);
    var t, r := Next(s, step), s.sessions[step.d].apps[s.sessions[step.d].phase.app];
    forall k | k in t.regapps
      ensures Indexed(t.store, k) || Leaving(t, k)
    {
      assert Leaving(s, k) ==> k.dev != step.d;
      if k == r.regId && s.sessions[step.d].phase.stage != 2 {
        assert !Leaving(s, k);
      }
    }
  }

  /** When the index entry goes, the record and its updates are gone already. */
  lemma EraseKeeps(s: State, step: Step, k: RegId)
    requires Inv(s) && UserInv(s) && Enabled(s, step) && Orderly(s, step) && step.Erase? && Indexed(s.store, k)
    requires (exists app :: (app, k) in Next(s, step).store.app)
             || (exists i :: 0 <= i < |s.jobs| && s.jobs[i].regId == k)
    ensures Indexed(Next(s, step).store, k)
  {
    EraseFrame(s, step);
    RecordKeys(s);
    hide Next, Inv;
    assert SessionIndexed(s.store, s.jobs, s.sessions[step.d]);
  }

  lemma EraseRecord(s: State, step: Step, app: string, k: RegId)
    requires Inv(s) && UserInv(s) && Enabled(s, step) && Orderly(s, step) && step.Erase?
    requires (app, k) in Next(s, step).store.app
    ensures Indexed(Next(s, step).store, k) || Arriving(Next(s, step), k)
  {
    EraseFrame(s, step);
    hide Next, Inv, Enabled, Orderly, Arriving, Leaving;
    assert (app, k) in s.store.app;
    if Indexed(s.store, k) {
      EraseKeeps(s, step, k);
    }
  }

  lemma EraseUpdate(s: State, step: Step, i: nat)
    requires Inv(s) && UserInv(s) && Enabled(s, step) && Orderly(s, step) && step.Erase? && i < |s.jobs|
    ensures Indexed(Next(s, step).store, s.jobs[i].regId)
  {
    hide Next, Inv, Enabled, Orderly, Indexed, Arriving, Leaving;
    EraseKeeps(s, step, s.jobs[i].regId);
  }

  lemma EraseUsers(s: State, step: Step)
    requires Inv(s) && UserInv(s) && Enabled(s, step) && Orderly(s, step) && step.Erase?
    ensures var user := Next(s, step).store.user;
            forall u :: u in user ==> u.1.Digest? && u.1.user == u.0 != "" && user[u] == u.1.app
  {
    hide Inv, Indexed, Arriving, Leaving;
  }

  lemma EraseStore(s: State, step: Step)
    requires Inv(s) && UserInv(s) && Enabled(s, step) && Orderly(s, step) && step.Erase?
    ensures StoreIndexed(Next(s, step))
  {
    hide Next, Inv, UserInv, Enabled, Orderly, Indexed, Arriving, Leaving;
    EraseFrame(s, step);
    EraseUsers(s, step);
    var t := Next(s, step);
    forall a | a in t.store.app
      ensures Indexed(t.store, a.1) || Arriving(t, a.1)
    {
      EraseRecord(s, step, a.0, a.1);
    }
    forall i | 0 <= i < |t.jobs|
      ensures Indexed(t.store, t.jobs[i].regId)
    {
      EraseUpdate(s, step, i);
    }
  }

  lemma RecordKeys(s: State)
    requires Inv(s)
    ensures forall a :: a in s.store.app ==> a.1.Digest? && a.1.app == a.0
  {
  }

  lemma EraseSessions(s: State, step: Step, e: string)
    requires Inv(s) && UserInv(s) && Enabled(s, step) && Orderly(s, step) && step.Erase? && e in s.sessions
    ensures SessionIndexed(Next(s, step).store, s.jobs, Next(s, step).sessions[e])
  {
    hide Inv;
    EraseFrame(s, step);
    if e != step.d {
      SessionStays(s, Next(s, step), step.d, e);
    } else {
      assert SessionIndexed(s.store, s.jobs, s.sessions[step.d]);
    }
  }

  lemma EraseStep(s: State, step: Step)
    requires Inv(s) && UserInv(s) && Enabled(s, step) && Orderly(s, step) && step.Erase?
    ensures UserInv(Next(s, step))
  {
    EraseFrame(s, step);
    EraseMap(s, step);
    EraseStore(s, step);
    SessionsFrame(s, step);
    forall e | e in Next(s, step).sessions
      ensures SessionIndexed(Next(s, step).store, Next(s, step).jobs, Next(s, step).sessions[e])
    {
      EraseSessions(s, step, e);
    }
    hide Next, Inv;
  }

  lemma PushReplyStep(s: State, step: Step)
    requires Inv(s) && UserInv(s) && Enabled(s, step) && step.PushReply?
    ensures UserInv(Next(s, step))
  {
    hide Inv;
    var t := Next(s, step);
    OwnApp(s, step.d, step.app);
    assert Indexed(s.store, s.sessions[step.d].apps[step.app].regId);
    forall e | e in t.sessions
      ensures SessionIndexed(t.store, t.jobs, t.sessions[e])
    {
      assert SessionIndexed(s.store, s.jobs, s.sessions[e]);
      if e != step.d {
        SessionStays(s, t, step.d, e);
      }
    }
    assert forall k: RegId :: Leaving(t, k) == Leaving(s, k) && Arriving(t, k) == Arriving(s, k);
  }

  lemma UpdateInfoStep(s: State, step: Step)
    requires Inv(s) && UserInv(s) && Enabled(s, step) && step.UpdateInfo?
    ensures UserInv(Next(s, step))
  {
    hide Inv;
    var t := Next(s, step);
    OwnApp(s, step.d, step.app);
    assert Indexed(s.store, s.sessions[step.d].apps[step.app].regId);
    forall e | e in t.sessions
      ensures SessionIndexed(t.store, t.jobs, t.sessions[e])
    {
      assert SessionIndexed(s.store, s.jobs, s.sessions[e]);
      if e != step.d {
        SessionStays(s, t, step.d, e);
      }
    }
    assert forall k: RegId :: Leaving(t, k) == Leaving(s, k) && Arriving(t, k) == Arriving(s, k);
  }

  /** A job that runs is gone from the queue, so nobody is unregistering its app. */
  lemma JobSession(t: Store, jobs: seq<UpdateJob>, i: nat, ok: bool, c: Session)
    requires SessionIndexed(t, jobs, c) && i < |jobs|
    ensures
      var job := jobs[i];
      var u := if ok then t.(app := t.app[(job.info.appId, job.regId) := job.info]) else t;
      SessionIndexed(u, jobs[..i] + jobs[i + 1..], c)
  {
    assert forall j :: j in jobs[..i] + jobs[i + 1..] ==> j in jobs;
  }

  lemma JobStep(s: State, step: Step)
    requires Inv(s) && UserInv(s) && Enabled(s, step) && step.RunJob?
    ensures UserInv(Next(s, step))
  {
    hide Inv;
    var t := Next(s, step);
    forall e | e in t.sessions
      ensures SessionIndexed(t.store, t.jobs, t.sessions[e])
    {
      JobSession(s.store, s.jobs, step.i, step.ok, s.sessions[e]);
    }
    assert forall k: RegId ::
             && Leaving(t, k) == Leaving(s, k) && Arriving(t, k) == Arriving(s, k)
             && Indexed(t.store, k) == Indexed(s.store, k);
    hide SessionIndexed;
  }

  lemma UserStep(s: State, step: Step)
    requires Inv(s) && UserInv(s) && Enabled(s, step) && Orderly(s, step)
    ensures UserInv(Next(s, step))
  {
    hide Next, Inv, UserInv, Enabled, Orderly;
    match step {
      case StoreApp(_, _, _) => StoreAppStep(s, step);
      case StoreDevice(_, _) => StoreDeviceStep(s, step);
      case StoreUser(_, _) => StoreUserStep(s, step);
      case Insert(_, _) | CloseOne(_, _) => InsertStep(s, step);
      case Drop(_) => DropStep(s, step);
      case Erase(_, _) => EraseStep(s, step);
      case PushReply(_, _, _) => PushReplyStep(s, step);
      case UpdateInfo(_, _, _, _) => UpdateInfoStep(s, step);
      case RunJob(_, _) => JobStep(s, step);
      case Crash => CrashStep(s);
      case _ => MoveStep(s, step);
    }
  }

  lemma CrashStep(s: State)
    requires UserInv(s) && Orderly(s, Crash)
    ensures UserInv(Next(s, Crash))
  {
    forall a | a in s.store.app
      ensures Indexed(s.store, a.1)
    {
      if Arriving(s, a.1) {
        assert BetweenWrites(s, a.1.dev);
      }
    }
  }

  lemma {:induction false} UserRuns(s: State, steps: seq<Step>, t: State)
    requires Inv(s) && UserInv(s) && OrderlyRuns(s, steps, t)
    ensures Inv(t) && UserInv(t)
    decreases |steps|
  {
    if steps != [] {
      InvStep(s, steps[0]);
      UserStep(s, steps[0]);
      UserRuns(Next(s, steps[0]), steps[1..], t);
    }
  }

  /** db_user_* has the entry of a registration under its user, and no other. */
  ghost predicate RightlyListed(t: Store, k: RegId) {
    && (forall u :: (u, k) in t.user <==> k.Digest? && u != "" && k.user == u)
    && (forall u :: (u, k) in t.user ==> t.user[(u, k)] == k.app)
  }

  /** No user has an entry of the registration. */
  ghost predicate Delisted(t: Store, k: RegId) {
    forall u :: (u, k) !in t.user
  }

  /** db_user_*, restricted to the registrations in memory, is their user field,
      but for one that is about to leave memory, which is not listed any more. */
  ghost predicate IndexAgrees(s: State) {
    forall k :: k in s.regapps ==>
      if Leaving(s, k) then Delisted(s.store, k) else RightlyListed(s.store, k)
  }

  /** What is about to leave memory has left the index. */
  ghost predicate Unlisted(s: State) {
    forall d :: d in s.sessions && s.sessions[d].phase.Erasing? && s.sessions[d].phase.stage == 3 ==>
      EntryErased(s.store, s.sessions[d])
  }

  ghost predicate EntryErased(t: Store, c: Session)
    requires c.phase.Erasing?
  {
    c.phase.app in c.apps && c.apps[c.phase.app].userId != "" ==>
      (c.apps[c.phase.app].userId, c.apps[c.phase.app].regId) !in t.user
  }

  lemma ErasedEntries(t: Store, r: RegApp, stage: nat)
    ensures Erased(t, r, stage).user.Keys <= t.user.Keys
  {
  }

  /** Only the second step of registering adds an entry, one of its own device. */
  lemma EntriesFrame(s: State, step: Step)
    requires Enabled(s, step)
    ensures forall u :: u in Next(s, step).store.user && u !in s.store.user ==>
              step.StoreUser? && u.1.Digest? && u.1.dev == step.d
  {
    hide Erased;
    if step.Erase? {
      var c := s.sessions[step.d];
      ErasedEntries(s.store, c.apps[c.phase.app], c.phase.stage);
    }
  }

  lemma ErasedFrame(s: State, step: Step)
    requires Enabled(s, step) && !step.RunJob? && !step.Crash? && step.d in Next(s, step).sessions
    requires var c := Next(s, step).sessions[step.d]; c.phase.Erasing? && c.phase.stage == 3
    ensures step.Erase?
    ensures step.ok ==> EntryErased(Next(s, step).store, Next(s, step).sessions[step.d])
  {
  }

  lemma UnlistedStep(s: State, step: Step)
    requires Inv(s) && Unlisted(s) && Enabled(s, step) && Orderly(s, step)
    ensures Unlisted(Next(s, step))
  {
    var t := Next(s, step);
    EntriesFrame(s, step);
    forall d | d in t.sessions && t.sessions[d].phase.Erasing? && t.sessions[d].phase.stage == 3
      ensures EntryErased(t.store, t.sessions[d])
    {
      if step.RunJob? || step.Crash? {
        assert d in s.sessions && t.sessions[d] == s.sessions[d];
      } else {
        SessionsFrame(s, step);
        if d == step.d {
          ErasedFrame(s, step);
        } else if t.sessions[d].phase.app in s.sessions[d].apps {
          OwnApp(s, d, t.sessions[d].phase.app);
        }
      }
    }
    hide Next, Inv, Enabled;
  }

  lemma {:induction false} UnlistedRuns(s: State, steps: seq<Step>, t: State)
    requires Inv(s) && Unlisted(s) && OrderlyRuns(s, steps, t)
    ensures Unlisted(t)
    decreases |steps|
  {
    if steps != [] {
      UnlistedStep(s, steps[0]);
      InvStep(s, steps[0]);
      UnlistedRuns(Next(s, steps[0]), steps[1..], t);
    }
  }

  /** In every orderly run the index agrees, whatever handlers are running. */
  lemma IndexKept(s: State, steps: seq<Step>, t: State)
    requires Initial(s) && OrderlyRuns(s, steps, t)
    ensures Inv(t) && IndexAgrees(t)
  {
    hide OrderlyRuns, IndexAgrees;
    InitialUserInv(s);
    UserRuns(s, steps, t);
    UnlistedRuns(s, steps, t);
    UserInvAgrees(t);
  }

  lemma UserInvAgrees(t: State)
    requires UserInv(t) && Unlisted(t) && Inv(t)
    ensures IndexAgrees(t)
  {
    hide SessionInv, SessionIndexed, Unlisted;
    forall k | k in t.regapps
      ensures if Leaving(t, k) then Delisted(t.store, k) else RightlyListed(t.store, k)
    {
      if Leaving(t, k) {
        LeavingIsDelisted(t, k);
      } else {
        assert Indexed(t.store, k);
      }
    }
  }

  lemma LeavingIsDelisted(t: State, k: RegId)
    requires UserInv(t) && Inv(t) && Unlisted(t) && k in t.regapps && Leaving(t, k)
    ensures Delisted(t.store, k)
  {
    var c := t.sessions[k.dev];
    assert SessionInv(t.regapps, k.dev, c);
    assert EntryErased(t.store, c);
    assert c.apps[k.app] == t.regapps[k];
    hide SessionIndexed;
  }

  lemma {:induction false} MildIsOrderly(s: State, steps: seq<Step>, t: State)
    requires Runs(s, steps, t) && AllMild(steps)
    ensures OrderlyRuns(s, steps, t)
    decreases |steps|
  {
    if steps != [] {
      assert Mild(steps[0]);
      MildIsOrderly(Next(s, steps[0]), steps[1..], t);
    }
  }

  /** Unregistering an app while an update of it is queued can go on, with all
      writes successful, such that the update brings the record back, but not the
      index entry, and the device leaves. */
  lemma UpdateOutlivesApp(t: State, d: string, app: string, i: nat) returns (u: State, steps: seq<Step>)
    requires Ready(t, d) && app in t.sessions[d].apps && t.sessions[d].apps[app].userId != ""
    requires i < |t.jobs| && t.jobs[i].regId == t.sessions[d].apps[app].regId
    requires Inv(t)
    ensures Runs(Unregistering(t, d, app), steps, u) && AllMild(steps)
    ensures var r := t.sessions[d].apps[app];
            && u.sessions == t.sessions - {d} && r.regId !in u.regapps
            && RecordOf(u.store, r) && (r.userId, r.regId) !in u.store.user
  {
    var s, r, job := Unregistering(t, d, app), t.sessions[d].apps[app], t.jobs[i];
    hide Next, Enabled, Runs, AllMild, Inv, ErasedAll;
    OwnApp(t, d, app);
    QueuedInfo(t, i);
    RunsNothing(s);
    NothingIsMild();
    u, steps := UnregisterRun(s, [], s, d);
    EntryGone(t.store, r);
    SessionGone(s.sessions, u.sessions, d, u.sessions[d]);
    SessionGone(t.sessions, s.sessions, d, s.sessions[d]);
    u, steps := RecordReturns(s, steps, u, d, r, i);
  }

  lemma RecordReturns(s: State, steps: seq<Step>, t: State, d: string, r: RegApp, i: nat)
    returns (u: State, longer: seq<Step>)
    requires Runs(s, steps, t) && Ready(t, d) && r.regId !in t.regapps && (r.userId, r.regId) !in t.store.user
    requires i < |t.jobs| && t.jobs[i].regId == r.regId
    requires t.jobs[i].info.appId == r.appId && t.jobs[i].info.userId == r.userId
    ensures Runs(s, longer, u) && (AllMild(steps) ==> AllMild(longer))
    ensures u.sessions == t.sessions - {d} && r.regId !in u.regapps
    ensures RecordOf(u.store, r) && (r.userId, r.regId) !in u.store.user
  {
    hide Runs, AllMild;
    u, longer := UpdateRun(s, steps, t, i);
    u, longer := LeaveRun(s, longer, u, d);
  }

  lemma EntryGone(t: Store, r: RegApp)
    requires r.userId != ""
    ensures (r.userId, r.regId) !in ErasedAll(t, r, (true, true, true)).user
  {
  }

  lemma SessionGone(before: map<string, Session>, after: map<string, Session>, d: string, c: Session)
    requires after == before[d := c]
    ensures after - {d} == before - {d}
  {
  }

  lemma NothingIsMild()
    ensures AllMild([])
  {
  }

  lemma QueuedInfo(t: State, i: nat)
    requires Inv(t) && i < |t.jobs|
    ensures var job := t.jobs[i];
            job.regId.Digest? && job.info.appId == job.regId.app && job.info.userId == job.regId.user
  {
  }

  /** The record of a registration is stored. */
  ghost predicate RecordOf(t: Store, r: RegApp) {
    && (r.appId, r.regId) in t.app
    && t.app[(r.appId, r.regId)].appId == r.appId && t.app[(r.appId, r.regId)].userId == r.userId
  }

  /** A device that is gone and names the app at its next INIT gets it registered. */
  lemma StoredAppLoads(s: State, steps: seq<Step>, t: State, r: RegApp) returns (u: State, longer: seq<Step>)
    requires Runs(s, steps, t) && Genuine(r) && r.devId !in t.sessions && r.regId !in t.regapps && RecordOf(t.store, r)
    ensures Runs(s, longer, u) && (AllMild(steps) ==> AllMild(longer))
    ensures u.store == t.store && u.regapps == t.regapps[r.regId := r]
    ensures u.sessions == t.sessions[r.devId := Session(map[r.appId := r], [], Idle)]
  {
    hide Runs, AllMild;
    var d := r.devId;
    u, longer := Extend(s, steps, t, Init(d, [Named(r.appId, r.regId)]));
    u, longer := Extend(s, longer, u, CheckNamed(d));
    assert u.sessions[d].todo == [];
    u, longer := Extend(s, longer, u, Fetch(d, true));
    u, longer := AddRun(s, longer, u, d, r);
    hide Next, Enabled;
    assert u.sessions == t.sessions[d := Session(map[r.appId := r], [], Idle)];
  }

  /** So the index does not list the app although its device is between handlers. */
  lemma StaleUpdateBreaksIndex(t: State, d: string, app: string, i: nat) returns (u: State, steps: seq<Step>)
    requires Ready(t, d) && app in t.sessions[d].apps && t.sessions[d].apps[app].userId != ""
    requires i < |t.jobs| && t.jobs[i].regId == t.sessions[d].apps[app].regId
    requires Inv(t)
    ensures OrderlyRuns(Unregistering(t, d, app), steps, u) && Runs(Unregistering(t, d, app), steps, u)
    ensures var r := t.sessions[d].apps[app];
            && r.regId in u.regapps && u.regapps[r.regId] == r
            && d in u.sessions && u.sessions[d].phase.Idle?
            && (r.userId, r.regId) !in u.store.user && !IndexAgrees(u)
  {
    hide Next, Enabled, Runs, AllMild, Inv;
    var s, r := Unregistering(t, d, app), t.sessions[d].apps[app];
    OwnApp(t, d, app);
    u, steps := UpdateOutlivesApp(t, d, app, i);
    u, steps := StoredAppLoads(s, steps, u, r);
    MildIsOrderly(s, steps, u);
    NotAgreeing(u, r);
  }

  lemma NotAgreeing(u: State, r: RegApp)
    requires Genuine(r) && r.userId != "" && r.regId in u.regapps && (r.userId, r.regId) !in u.store.user
    requires r.devId in u.sessions ==> u.sessions[r.devId].phase.Idle?
    ensures !IndexAgrees(u)
  {
    assert !Leaving(u, r.regId) && r.regId.user == r.userId;
    assert !RightlyListed(u.store, r.regId);
  }

  /** Whatever orderly happens next, the index agrees. */
  lemma UserInvIsSafe(t: State)
    requires Inv(t) && UserInv(t) && Unlisted(t)
    ensures forall steps, u :: OrderlyRuns(t, steps, u) ==> IndexAgrees(u)
  {
    hide Inv, UserInv, Unlisted, IndexAgrees;
    forall steps, u | OrderlyRuns(t, steps, u)
      ensures IndexAgrees(u)
    {
      UserRuns(t, steps, u);
      UnlistedRuns(t, steps, u);
      UserInvAgrees(u);
    }
  }

  lemma UnregisterIsOrderly(t: State, d: string, app: string)
    requires Ready(t, d) && app in t.sessions[d].apps && NoneQueued(t, t.sessions[d].apps[app])
    ensures Orderly(t, BeginUnregister(d, app))
  {
  }

  lemma SafeIfNoneQueued(t: State, d: string, app: string)
    requires Ready(t, d) && app in t.sessions[d].apps && NoneQueued(t, t.sessions[d].apps[app])
    requires Inv(t) && UserInv(t) && Unlisted(t)
    ensures forall steps, u :: OrderlyRuns(Unregistering(t, d, app), steps, u) ==> IndexAgrees(u)
  {
    hide Next, Enabled, Orderly, Inv, UserInv, Unlisted, OrderlyRuns, IndexAgrees;
    UnregisterIsOrderly(t, d, app);
    BeginsUnregistering(t, d, app);
    InvStep(t, BeginUnregister(d, app));
    UserStep(t, BeginUnregister(d, app));
    UnlistedStep(t, BeginUnregister(d, app));
    UserInvIsSafe(Unregistering(t, d, app));
  }

  /** In a reachable state, a device that is between handlers can unregister an app
      such that the index will agree whatever orderly happens next, exactly if the
      app has no user or no update of it is queued. */
  lemma SafeToUnregister(s: State, steps: seq<Step>, t: State, d: string, app: string)
    requires Initial(s) && OrderlyRuns(s, steps, t) && Ready(t, d) && app in t.sessions[d].apps
    ensures (forall more, u :: OrderlyRuns(Next(t, BeginUnregister(d, app)), more, u) ==> IndexAgrees(u))
            <==> NoneQueued(t, t.sessions[d].apps[app])
  {
    hide Next, Inv, UserInv, Unlisted, OrderlyRuns, IndexAgrees, Initial;
    InitialUserInv(s);
    UserRuns(s, steps, t);
    UnlistedRuns(s, steps, t);
    BeginsUnregistering(t, d, app);
    var r := t.sessions[d].apps[app];
    if NoneQueued(t, r) {
      SafeIfNoneQueued(t, d, app);
    } else {
      var i :| 0 <= i < |t.jobs| && t.jobs[i].regId == r.regId;
      var u, more := StaleUpdateBreaksIndex(t, d, app, i);
    }
  }

  lemma InitialUserInv(s: State)
    requires Initial(s)
    ensures Inv(s) && UserInv(s) && Unlisted(s)
  {
  }

  /** A session that has written a record, but not yet the index entry. */
  predicate Halfway(c: Session) {
    c.phase.AppStored? || c.phase.DeviceStored?
  }

  /** The registration it is making. */
  function Coming(d: string, c: Session): RegId
    requires Halfway(c)
  {
    Digest(d, c.phase.app, c.phase.user)
  }

  /** Its record is there. */
  ghost predicate Recorded(s: State) {
    forall d :: d in s.sessions && Halfway(s.sessions[d]) ==>
      (s.sessions[d].phase.app, Coming(d, s.sessions[d])) in s.store.app
  }

  lemma RecordsStay(s: State, step: Step)
    requires Enabled(s, step)
    ensures forall a :: a in s.store.app ==>
              || a in Next(s, step).store.app
              || (step.Erase? && a.1 == s.sessions[step.d].apps[s.sessions[step.d].phase.app].regId)
  {
  }

  /** Who is halfway was so before, with the same registration, or just wrote it. */
  lemma HalfwayFrame(s: State, step: Step)
    requires Enabled(s, step) && !step.RunJob? && !step.Crash?
    requires step.d in Next(s, step).sessions && Halfway(Next(s, step).sessions[step.d])
    ensures var t := Next(s, step);
            || (step.StoreApp? && (t.sessions[step.d].phase.app, Coming(step.d, t.sessions[step.d])) in t.store.app)
            || (step.d in s.sessions && Halfway(s.sessions[step.d]) && !step.Erase?
                && s.sessions[step.d].phase.app == t.sessions[step.d].phase.app
                && Coming(step.d, s.sessions[step.d]) == Coming(step.d, t.sessions[step.d]))
  {
  }

  lemma RecordedStep(s: State, step: Step)
    requires Inv(s) && Recorded(s) && Enabled(s, step)
    ensures Recorded(Next(s, step))
  {
    RecordsStay(s, step);
    if step.Erase? {
      OwnApp(s, step.d, s.sessions[step.d].phase.app);
    }
    var t := Next(s, step);
    forall e | e in t.sessions && Halfway(t.sessions[e])
      ensures (t.sessions[e].phase.app, Coming(e, t.sessions[e])) in t.store.app
    {
      if step.RunJob? || step.Crash? {
        assert e in s.sessions && t.sessions[e] == s.sessions[e];
      } else {
        SessionsFrame(s, step);
        if e == step.d {
          HalfwayFrame(s, step);
        }
      }
    }
    hide Next, Inv, Halfway;
  }

  lemma {:induction false} RecordedRuns(s: State, steps: seq<Step>, t: State)
    requires Inv(s) && Recorded(s) && OrderlyRuns(s, steps, t)
    ensures Recorded(t)
    decreases |steps|
  {
    if steps != [] {
      RecordedStep(s, steps[0]);
      InvStep(s, steps[0]);
      RecordedRuns(Next(s, steps[0]), steps[1..], t);
    }
  }

  lemma HalfwayRecord(t: State, d: string, r: RegApp)
    requires d in t.sessions && Halfway(t.sessions[d])
    requires Genuine(r) && r.regId == Coming(d, t.sessions[d])
    requires Inv(t) && Recorded(t)
    ensures RecordOf(t.store, r)
  {
    assert (r.appId, r.regId) in t.store.app;
  }

  /** A process that dies between the two writes leaves a record that the next INIT
      loads although the index does not list it. r is the object made of it. */
  lemma CrashLosesIndex(t: State, d: string, r: RegApp) returns (u: State, steps: seq<Step>)
    requires d in t.sessions && Halfway(t.sessions[d]) && !BetweenWrites(t, d)
    requires Genuine(r) && r.regId == Coming(d, t.sessions[d])
    requires Inv(t) && Recorded(t)
    ensures OrderlyRuns(Restarted(t), steps, u) && u.sessions == map[d := Session(map[r.appId := r], [], Idle)]
    ensures r.regId in u.regapps && u.regapps[r.regId] == r && !IndexAgrees(u)
  {
    hide Next, Enabled, Runs, AllMild, Inv, Recorded;
    var s := Restarted(t);
    HalfwayRecord(t, d, r);
    RunsNothing(s);
    NothingIsMild();
    u, steps := StoredAppLoads(s, [], s, r);
    MildIsOrderly(s, steps, u);
    NotAgreeing(u, r);
  }

  /** In a reachable state, the process can die such that every stored record is
      listed under its user, exactly if no session is between writing a user's
      record and its index entry. */
  lemma CrashKeepsStore(s: State, steps: seq<Step>, t: State)
    requires Initial(s) && OrderlyRuns(s, steps, t)
    ensures (forall a :: a in Next(t, Crash).store.app ==> Indexed(Next(t, Crash).store, a.1))
            <==> forall d :: d in t.sessions ==> BetweenWrites(t, d)
  {
    InitialUserInv(s);
    UserRuns(s, steps, t);
    RecordedRuns(s, steps, t);
    Restarts(t);
    hide Inv, OrderlyRuns, Next, BetweenWrites, Indexed;
    if d :| d in t.sessions && !BetweenWrites(t, d) {
      Unindexed(t, d);
    } else {
      DyingIsOrderly(t);
      CrashStep(t);
    }
  }

  lemma Unindexed(t: State, d: string)
    requires d in t.sessions && !BetweenWrites(t, d) && Recorded(t)
    ensures Halfway(t.sessions[d])
    ensures var k := Coming(d, t.sessions[d]);
            (t.sessions[d].phase.app, k) in t.store.app && !Indexed(t.store, k)
  {
  }

  /** In a reachable state, the process can die such that the index will agree
      whatever orderly happens next, exactly if no session is between writing a
      user's record and its index entry. The machine's states hold references, and
      a lemma cannot make an object: those that INIT would make for the records
      half written are taken from what exists. */
  lemma SafeToDie(s: State, steps: seq<Step>, t: State)
    requires Initial(s) && OrderlyRuns(s, steps, t)
    requires forall d :: d in t.sessions && Halfway(t.sessions[d]) ==> exists r: RegApp ::
               Genuine(r) && r.regId == Coming(d, t.sessions[d])
    ensures (forall more, u :: OrderlyRuns(Next(t, Crash), more, u) ==> IndexAgrees(u))
            <==> forall d :: d in t.sessions ==> BetweenWrites(t, d)
  {
    InitialUserInv(s);
    UserRuns(s, steps, t);
    UnlistedRuns(s, steps, t);
    RecordedRuns(s, steps, t);
    Restarts(t);
    hide Inv, UserInv, Unlisted, Recorded, OrderlyRuns, IndexAgrees, Next, BetweenWrites;
    if d :| d in t.sessions && !BetweenWrites(t, d) {
      NotBetween(t, d);
      var r: RegApp :| Genuine(r) && r.regId == Coming(d, t.sessions[d]);
      var u, more := CrashLosesIndex(t, d, r);
    } else {
      DyingIsOrderly(t);
      InvStep(t, Crash);
      CrashStep(t);
      UnlistedStep(t, Crash);
      UserInvIsSafe(Next(t, Crash));
    }
  }

  lemma NotBetween(t: State, d: string)
    requires d in t.sessions && !BetweenWrites(t, d)
    ensures Halfway(t.sessions[d])
  {
  }

  lemma DyingIsOrderly(t: State)
    requires forall d :: d in t.sessions ==> BetweenWrites(t, d)
    ensures Enabled(t, Crash) && Orderly(t, Crash)
  {
  }
}
