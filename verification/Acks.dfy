/** Acknowledging messages (comet/handlers.go): handlePushReply puts the new
    last message id into memory at once and into the store through the worker's
    queue, while other handlers write the same record directly. */
module Acks {
  import opened Sequences
  import opened Apps
  import opened Lookups
  import T = Topics
  import R = Registry

  type UpdateJob = R.UpdateJob

  /** One registration: its memory object, its stored record, and its updates in
      the worker's queue, the one being run first. */
  datatype State = State(
    mem: AppInfo,
    stored: Option<AppInfo>,
    queue: seq<AppInfo>,
    running: Option<AppInfo>,
    queuedIds: seq<int>)       // bookkeeping: the ids of all updates ever queued

  datatype Step =
    | PushReply(msgId: int)
    | WriteThrough(info: AppInfo)    // subscribe, unsubscribe, sendids: store, then memory
    | WriteFails(info: AppInfo)      // the store refused; memory may have been touched
    | TakeJob
    | FinishJob

  /** The direct writes keep the last message id of memory. */
  predicate Enabled(s: State, step: Step) {
    match step
    case PushReply(_) => true
    case WriteThrough(info) => info.lastMsgId == s.mem.lastMsgId
    case WriteFails(info) => info.lastMsgId == s.mem.lastMsgId
    case TakeJob => s.running.None? && s.queue != []
    case FinishJob => s.running.Some?
  }

  function Next(s: State, step: Step): State
    requires Enabled(s, step)
  {
    match step
    case PushReply(msgId) =>
      if msgId <= s.mem.lastMsgId then s
      else
        var info := s.mem.(lastMsgId := msgId);
        s.(mem := info, queue := s.queue + [info], queuedIds := s.queuedIds + [msgId])
    case WriteThrough(info) => s.(mem := info, stored := Some(info))
    case WriteFails(info) => s.(mem := info)
    case TakeJob => s.(running := Some(s.queue[0]), queue := s.queue[1..])
    case FinishJob => s.(stored := s.running, running := None)
  }

  /** The updates of one registration in a queue. */
  function Updates(jobs: seq<UpdateJob>, regId: RegId): (infos: seq<AppInfo>) {
    if jobs == [] then []
    else (if jobs[0].regId == regId then [jobs[0].info] else []) + Updates(jobs[1..], regId)
  }

  lemma {:induction false} UpdatesAppend(jobs: seq<UpdateJob>, j: UpdateJob, regId: RegId)
    ensures Updates(jobs + [j], regId) == Updates(jobs, regId) + if j.regId == regId then [j.info] else []
  {
    if jobs != [] {
      UpdatesAppend(jobs[1..], j, regId);
      assert (jobs + [j])[1..] == jobs[1..] + [j];
    }
  }

  /** The machine state has this registration's object, record and updates; the
      worker is between jobs. */
  ghost predicate Shows(s: State, r: RegApp, storage: Storage, jobs: seq<UpdateJob>)
    reads r, storage
  {
    && s.mem == r.Info() && s.running == None
    && s.stored == (if (r.appId, r.regId) in storage.app then Some(storage.app[(r.appId, r.regId)]) else None)
    && s.queue == Updates(jobs, r.regId)
    && (forall i :: 0 <= i < |jobs| && jobs[i].regId == r.regId ==> jobs[i].info.appId == r.appId)
  }

  /** The machine state of a registration of which no update is queued. */
  ghost function Settled(r: RegApp, storage: Storage): (s: State)
    reads r, storage
    ensures Shows(s, r, storage, [])
  {
    State(r.Info(),
          if (r.appId, r.regId) in storage.app then Some(storage.app[(r.appId, r.regId)]) else None, [], None, [])
  }

  /** An acknowledgement is taken if it is for a registration of this client and
      newer than the last; then memory has it and one update is queued. */
  method HandlePushReply(
    apps: map<string, RegApp>, appId: string, regId: RegId, msgId: int,
    jobChannel: JobQueue<UpdateJob>, ghost storage: Storage, ghost s: State)
    returns (taken: bool, ghost t: State)
    requires appId in apps ==> Shows(s, apps[appId], storage, jobChannel.jobs)
    modifies jobChannel, apps.Values
    ensures taken <==> appId != "" && regId != Foreign("") && appId in apps && apps[appId].regId == regId
                       && msgId > old(if appId in apps then apps[appId].lastMsgId else 0)
    ensures !taken ==>
              jobChannel.jobs == old(jobChannel.jobs) && forall r :: r in apps.Values ==> r.Info() == old(r.Info())
    ensures taken ==>
              var r := apps[appId];
              && r.Info() == old(r.Info()).(lastMsgId := msgId)
              && jobChannel.jobs == old(jobChannel.jobs) + [R.UpdateJob(regId, r.Info())]
              && forall q :: q in apps.Values && q != r ==> q.Info() == old(q.Info())
    ensures appId in apps ==>
              && Shows(t, apps[appId], storage, jobChannel.jobs)
              && t == if appId != "" && regId != Foreign("") && apps[appId].regId == regId
                      then Next(s, PushReply(msgId)) else s
  {
    t := s;
    if appId == "" || regId == Foreign("") {
      return false, s;
    }
    if appId !in apps {
      return false, s;
    }
    var r := apps[appId];
    if r.regId != regId {
      return false, s;
    }
    if msgId <= r.lastMsgId {
      return false, s;
    }
    r.lastMsgId := msgId;
    UpdatesAppend(jobChannel.jobs, R.UpdateJob(regId, r.Info()), regId);
    jobChannel.jobs := jobChannel.jobs + [R.UpdateJob(regId, r.Info())];
    return true, Next(s, PushReply(msgId));
  }

  /** A registration that has just been made takes its first acknowledgement, of
      any id that is not negative. */
  method RegisterThenAck(
    manager: AppManager, devId: string, regId: RegId, appId: string, userId: string, now: int,
    msgId: int, jobChannel: JobQueue<UpdateJob>)
    returns (r: RegApp?, taken: bool)
    requires forall i :: 0 <= i < |jobChannel.jobs| && jobChannel.jobs[i].regId == regId ==>
               jobChannel.jobs[i].info.appId == appId
    modifies manager`regappMap, manager.storage, jobChannel
    ensures r == null ==> !taken
    ensures r != null && appId != "" && regId != Foreign("") ==> (taken <==> msgId >= 0)
    ensures taken ==>
              && r != null && r.lastMsgId == msgId && r.regTime == now
              && |jobChannel.jobs| == |old(jobChannel.jobs)| + 1
              && jobChannel.jobs[|old(jobChannel.jobs)|] ==
                 R.UpdateJob(regId, AppInfo(appId, now, userId, msgId, [], []))
  {
    ghost var appOk, deviceOk, userOk;
    r, appOk, deviceOk, userOk := manager.RegisterApp(devId, regId, appId, userId, now);
    taken := false;
    if r != null {
      ghost var s := State(r.Info(), Settled(r, manager.storage).stored, Updates(jobChannel.jobs, regId), None, []);
      ghost var t;
      taken, t := HandlePushReply(map[appId := r], appId, regId, msgId, jobChannel, manager.storage, s);
    }
  }

  /** UpdateJob.Do for the job in front, as the worker runs it. */
  method RunUpdate(jobChannel: JobQueue<UpdateJob>, storage: Storage, ghost r: RegApp, ghost s: State)
    returns (ok: bool, ghost t: State)
    requires jobChannel.jobs != [] && Shows(s, r, storage, jobChannel.jobs)
    modifies jobChannel, storage
    ensures var job := old(jobChannel.jobs)[0];
            && jobChannel.jobs == old(jobChannel.jobs)[1..]
            && storage.app == if ok then old(storage.app)[(job.info.appId, job.regId) := job.info] else old(storage.app)
    ensures var job := old(jobChannel.jobs)[0];
            if job.regId != r.regId then t == s
            else Enabled(s, TakeJob) && (ok ==> t == Next(Next(s, TakeJob), FinishJob))
    ensures ok ==> Shows(t, r, storage, jobChannel.jobs)
  {
    var job := jobChannel.jobs[0];
    jobChannel.jobs := jobChannel.jobs[1..];
    ok := storage.SetApp(job.info.appId, job.regId, job.info);
    t := if job.regId == r.regId then Next(Next(s, TakeJob), FinishJob) else s;
  }

  /** The non-empty ids that are not in `have`, repetitions included. */
  function NewIds(have: seq<string>, ids: seq<string>): seq<string> {
    if ids == [] then []
    else
      var last := ids[|ids| - 1];
      NewIds(have, ids[..|ids| - 1]) + if last != "" && last !in have then [last] else []
  }

  /** The order is kept... */
  lemma {:induction false} NewIdsConcat(have: seq<string>, a: seq<string>, b: seq<string>)
    ensures NewIds(have, a + b) == NewIds(have, a) + NewIds(have, b)
    decreases |b|
  {
    if b == [] {
      assert a + b == a;
    } else {
      NewIdsConcat(have, a, b[..|b| - 1]);
      assert (a + b)[..|a + b| - 1] == a + b[..|b| - 1];
    }
  }

  /** ...and each new id comes as often as it was given. */
  lemma {:induction false} NewIdsCount(have: seq<string>, ids: seq<string>, x: string)
    ensures multiset(NewIds(have, ids))[x] == if x != "" && x !in have then multiset(ids)[x] else 0
    decreases |ids|
  {
    if ids != [] {
      NewIdsCount(have, ids[..|ids| - 1], x);
      assert ids == ids[..|ids| - 1] + [ids[|ids| - 1]];
    }
  }

  /** Writes the whole record, so the stored last message id is the one in memory. */
  method AddSendids(r: RegApp, ids: seq<string>, storage: Storage, ghost jobs: seq<UpdateJob>, ghost s: State)
    returns (ok: bool, ghost t: State)
    requires Shows(s, r, storage, jobs)
    modifies r, storage`app, storage`failures
    ensures Enabled(s, WriteThrough(r.Info())) && Shows(t, r, storage, jobs)
    ensures t == if ok && NewIds(old(r.sendIds), ids) != [] then Next(s, WriteThrough(r.Info())) else s
    ensures var added := NewIds(old(r.sendIds), ids);
            && r.Info() == (if ok then old(r.Info()).(sendIds := old(r.sendIds) + added) else old(r.Info()))
            && storage.app == (if ok && added != [] then old(storage.app)[(r.appId, r.regId) := r.Info()]
                  else old(storage.app))
            && (added == [] ==> ok)
    ensures old(storage.failures) == [] ==> ok
  {
    var added := [];
    var n := 0;
    while n < |ids|
      invariant n <= |ids| && added == NewIds(r.sendIds, ids[..n])
      invariant r.Info() == old(r.Info()) && storage.app == old(storage.app)
                && storage.failures == old(storage.failures)
    {
      assert ids[..n + 1][..n] == ids[..n];
      if ids[n] != "" {
        var found := T.Contains(r.sendIds, ids[n]);
        if !found {
          added := added + [ids[n]];
        }
      }
      n := n + 1;
    }
    assert ids[..n] == ids;
    ok := true;
    if |added| != 0 {
      var info := r.Info().(sendIds := r.sendIds + added);
      ok := storage.SetApp(info.appId, r.regId, info);
      if ok {
        r.sendIds := r.sendIds + added;
      }
    } else {
      assert r.sendIds + added == r.sendIds;
    }
    t := if ok && added != [] then Next(s, WriteThrough(r.Info())) else s;
  }

  function FirstIndex(s: seq<string>, x: string): (i: int)
    ensures -1 <= i < |s|
    ensures i >= 0 ==> s[i] == x && x !in s[..i]
    ensures i < 0 ==> x !in s
  {
    if s == [] then -1
    else if s[0] == x then 0
    else
      var i := FirstIndex(s[1..], x);
      assert s == [s[0]] + s[1..];
      assert i >= 0 ==> s[..i + 1] == [s[0]] + s[1..][..i];
      if i >= 0 then i + 1 else -1
  }

  /** "[all]" clears the list. A failed write of any other deletion leaves the
      shifted array under the old window. */
  method DelSendid(r: RegApp, sendId: string, storage: Storage, ghost jobs: seq<UpdateJob>, ghost s: State)
    returns (ok: bool, ghost t: State)
    requires Shows(s, r, storage, jobs)
    modifies r, storage`app, storage`failures
    ensures Enabled(s, WriteThrough(r.Info())) && Shows(t, r, storage, jobs)
    ensures t == if sendId != "[all]" && sendId !in old(r.sendIds) then s
                 else if ok then Next(s, WriteThrough(r.Info())) else Next(s, WriteFails(r.Info()))
    ensures old(storage.failures) == [] ==> ok
    ensures var i := FirstIndex(old(r.sendIds), sendId);
            if sendId == "[all]" then
              && r.Info() == (if ok then old(r.Info()).(sendIds := []) else old(r.Info()))
              && storage.app == (if ok then old(storage.app)[(r.appId, r.regId) := r.Info()] else old(storage.app))
            else if i < 0 then
              ok && r.Info() == old(r.Info()) && storage.app == old(storage.app)
            else
              && r.Info() == old(r.Info()).(sendIds :=
                    if ok then T.Without(old(r.sendIds), i) else T.Shifted(old(r.sendIds), i))
              && storage.app == (if ok then old(storage.app)[(r.appId, r.regId) := r.Info()] else old(storage.app))
  {
    var fewer := [];
    if sendId != "[all]" {
      var index := FirstIndex(r.sendIds, sendId);
      if index < 0 {
        return true, s;
      }
      fewer := T.Without(r.sendIds, index);
      r.sendIds := T.Shifted(r.sendIds, index);
    }
    var info := r.Info().(sendIds := fewer);
    ok := storage.SetApp(info.appId, r.regId, info);
    if ok {
      r.sendIds := fewer;
    }
    t := if ok then Next(s, WriteThrough(r.Info())) else Next(s, WriteFails(r.Info()));
  }

  ghost predicate Runs(s: State, steps: seq<Step>, t: State)
    decreases |steps|
  {
    if steps == [] then s == t
    else Enabled(s, steps[0]) && Runs(Next(s, steps[0]), steps[1..], t)
  }

  /** A registration as it starts: stored and memory agree, nothing is pending. */
  predicate Initial(s: State) {
    && s.stored.Some? && s.stored.value.lastMsgId == s.mem.lastMsgId
    && s.queue == [] && s.running == None && s.queuedIds == []
  }

  /** The updates still to be written, in order. */
  function Pending(s: State): seq<AppInfo> {
    (if s.running.Some? then [s.running.value] else []) + s.queue
  }

  ghost predicate Increasing(ids: seq<int>) {
    forall i, j :: 0 <= i < j < |ids| ==> ids[i] < ids[j]
  }

  ghost predicate Inv(s: State) {
    var p := Pending(s);
    && s.stored.Some? && s.stored.value.lastMsgId <= s.mem.lastMsgId
    && Increasing(s.queuedIds) && |p| <= |s.queuedIds|
    && (s.queuedIds != [] ==> s.queuedIds[|s.queuedIds| - 1] == s.mem.lastMsgId)
    && (forall i :: 0 <= i < |p| ==> p[i].lastMsgId == s.queuedIds[|s.queuedIds| - |p| + i])
    && (p == [] ==> s.stored.value.lastMsgId == s.mem.lastMsgId)
  }

  /** A job put behind the others. */
  lemma InvPush(s: State, msgId: int)
    requires Inv(s) && msgId > s.mem.lastMsgId
    ensures Inv(Next(s, PushReply(msgId)))
  {
    var t := Next(s, PushReply(msgId));
    var p, q := Pending(s), Pending(t);
    assert q == p + [t.mem];
    forall i | 0 <= i < |q|
      ensures q[i].lastMsgId == t.queuedIds[|t.queuedIds| - |q| + i]
    {
      if i < |p| {
        assert q[i] == p[i];
      }
    }
  }

  /** The first of the pending jobs written. */
  lemma InvFinish(s: State)
    requires Inv(s) && s.running.Some?
    ensures Inv(Next(s, FinishJob))
  {
    var t := Next(s, FinishJob);
    var p, q, ids := Pending(s), Pending(t), s.queuedIds;
    assert p[0] == s.running.value && q == p[1..];
    assert p[0].lastMsgId == ids[|ids| - |p| + 0];
    forall i | 0 <= i < |q|
      ensures q[i].lastMsgId == ids[|ids| - |q| + i]
    {
      assert q[i] == p[i + 1];
    }
  }

  lemma InvStep(s: State, step: Step)
    requires Inv(s) && Enabled(s, step)
    ensures Inv(Next(s, step)) && Next(s, step).mem.lastMsgId >= s.mem.lastMsgId
  {
    match step
    case PushReply(msgId) =>
      if msgId > s.mem.lastMsgId {
        InvPush(s, msgId);
      }
    case FinishJob =>
      InvFinish(s);
    case _ =>
      assert Pending(Next(s, step)) == Pending(s);
  }

  lemma {:induction false} InvRuns(s: State, steps: seq<Step>, t: State)
    requires Inv(s) && Runs(s, steps, t)
    ensures Inv(t) && t.mem.lastMsgId >= s.mem.lastMsgId
    decreases |steps|
  {
    if steps != [] {
      InvStep(s, steps[0]);
      InvRuns(Next(s, steps[0]), steps[1..], t);
    }
  }

  /** In every run of one registration, with successful job writes: the id in
      memory is the newest acknowledged, the queued ids strictly increase, the stored id never
      exceeds the one in memory, and equals it whenever the queue is drained. */
  lemma AcksPersist(s: State, steps: seq<Step>, t: State)
    requires Initial(s) && Runs(s, steps, t)
    ensures t.mem.lastMsgId >= s.mem.lastMsgId
    ensures forall m :: PushReply(m) in steps ==> t.mem.lastMsgId >= m
    ensures t.mem.lastMsgId == s.mem.lastMsgId || PushReply(t.mem.lastMsgId) in steps
    ensures Increasing(t.queuedIds)
    ensures t.stored.Some? && t.stored.value.lastMsgId <= t.mem.lastMsgId
    ensures Pending(t) == [] ==> t.stored.value.lastMsgId == t.mem.lastMsgId
  {
    InvRuns(s, steps, t);
    NewestKept(s, steps, t);
  }

  lemma {:induction false} NewestKept(s: State, steps: seq<Step>, t: State)
    requires Runs(s, steps, t)
    ensures t.mem.lastMsgId >= s.mem.lastMsgId
    ensures forall m :: PushReply(m) in steps ==> t.mem.lastMsgId >= m
    ensures t.mem.lastMsgId == s.mem.lastMsgId || PushReply(t.mem.lastMsgId) in steps
    decreases |steps|
  {
    if steps != [] {
      NewestKept(Next(s, steps[0]), steps[1..], t);
      assert steps == [steps[0]] + steps[1..];
    }
  }

  /** UnregisterApp erases the record at once. The worker goes on. */
  function Unregistered(s: State): State {
    s.(stored := None)
  }

  ghost predicate DrainsTo(s: State, t: State)
    decreases 2 * |s.queue| + if s.running.Some? then 1 else 0
  {
    if s.running.Some? then DrainsTo(Next(s, FinishJob), t)
    else if s.queue != [] then DrainsTo(Next(s, TakeJob), t)
    else s == t
  }

  lemma {:induction false} DrainStores(s: State, t: State)
    requires DrainsTo(s, t)
    ensures t.stored == if Pending(s) == [] then s.stored else Some(Pending(s)[|Pending(s)| - 1])
    decreases 2 * |s.queue| + if s.running.Some? then 1 else 0
  {
    if s.running.Some? {
      DrainStores(Next(s, FinishJob), t);
    } else if s.queue != [] {
      DrainStores(Next(s, TakeJob), t);
    }
  }

  /** An unregistered app stays erased exactly if none of its updates was
      pending; otherwise the last of them brings its record back. */
  lemma UnregisterSticks(s: State, t: State)
    requires DrainsTo(Unregistered(s), t)
    ensures t.stored == None <==> Pending(s) == []
    ensures Pending(s) != [] ==> t.stored == Some(Pending(s)[|Pending(s)| - 1])
  {
    DrainStores(Unregistered(s), t);
    assert Pending(Unregistered(s)) == Pending(s);
  }
}
