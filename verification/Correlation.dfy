/** Commands and their replies: SendMessage with a reply channel (comet/server.go),
    handleCmdReply (comet/handlers.go), and handleRpcRequest, which waits
    (mq/rpc_server.go), on the state machine of Delivery. */
module Correlation {
  import opened Message
  import opened Sequences
  import opened Delivery

  function ReplyOf(j: Job): Option<nat> {
    if j.Send? then j.reply else None
  }

  /** How many numbers NextSeq had handed out before this one: it starts from 2
      and wraps around at 2^32. */
  function Turn(seqNo: uint32): nat {
    (seqNo - 2) % 0x1_0000_0000
  }

  /** How many of a client's jobs have run to the end. */
  function Done(h: History, w: Worker, c: nat): int {
    h.taken - if !w.running.Idle? && w.running.job.Send? && w.running.job.client == c then 1 else 0
  }

  /** Sequence numbers: no two channels wait for the same one. */
  ghost predicate Numbered(nextSeq: uint32, h: History) {
    && h.allocs < 0x1_0000_0000 && nextSeq == (1 + h.allocs) % 0x1_0000_0000
    && (forall ch :: ch in h.issued ==> Turn(h.issued[ch]) < h.allocs)
    && (forall a, b :: a in h.issued && b in h.issued && a != b ==> h.issued[a] != h.issued[b])
    && h.ready !! h.registered && h.ready <= h.issued.Keys && h.registered <= h.issued.Keys
  }

  /** Queued jobs: each channel belongs to one job, which carries its number,
      and is registered only after that job is done. */
  ghost predicate Queued(h: History, done: int) {
    && (forall i :: 0 <= i < |h.log| && ReplyOf(h.log[i]).Some? ==>
          var ch := ReplyOf(h.log[i]).value;
          && ch in h.issued && h.issued[ch] == h.log[i].seqNo && ch !in h.ready
          && (done <= i ==> ch !in h.registered))
    && (forall i, j :: 0 <= i < j < |h.log| && ReplyOf(h.log[i]).Some? ==> ReplyOf(h.log[i]) != ReplyOf(h.log[j]))
  }

  /** Still in replyChannels, under its own number. */
  predicate Waits(cl: Client, ch: nat) {
    ch in cl.history.issued && cl.history.issued[ch] in cl.waiting && cl.waiting[cl.history.issued[ch]] == ch
  }

  /** It was sent its own number's reply. */
  predicate Replied(cl: Client, ch: nat) {
    ch in cl.history.issued && (ch, cl.history.issued[ch]) in cl.replies
  }

  predicate OneOf(a: bool, b: bool, c: bool) {
    (a && !b && !c) || (!a && b && !c) || (!a && !b && c)
  }

  /** Every channel that was registered waits, has given up, or has its reply. */
  ghost predicate Accounted(cl: Client) {
    && cl.history.timedOut <= cl.history.registered
    && forall ch :: ch in cl.history.registered ==> OneOf(Waits(cl, ch), ch in cl.history.timedOut, Replied(cl, ch))
  }

  /** Replies: a channel that got one is not waiting, and got the right one. */
  ghost predicate Answered(cl: Client) {
    var h := cl.history;
    && h.registered <= h.issued.Keys
    && (forall n :: n in cl.waiting ==> cl.waiting[n] in h.registered && h.issued[cl.waiting[n]] == n)
    && (forall i :: 0 <= i < |cl.replies| ==>
          && cl.replies[i].0 in h.registered && h.issued[cl.replies[i].0] == cl.replies[i].1
          && cl.replies[i].1 !in cl.waiting)
    && (forall i, j :: 0 <= i < j < |cl.replies| ==> cl.replies[i].0 != cl.replies[j].0)
    && Accounted(cl)
  }

  ghost predicate ReplyInv(c: nat, cl: Client, w: Worker) {
    Numbered(cl.nextSeq, cl.history) && Queued(cl.history, Done(cl.history, w, c)) && Answered(cl)
  }

  ghost predicate Correlated(s: State, c: nat)
    requires c < |s.clients|
  {
    s.clients[c].worker < |s.workers| && ReplyInv(c, s.clients[c], s.workers[s.clients[c].worker])
  }

  ghost predicate AllCorrelated(s: State) {
    forall c :: 0 <= c < |s.clients| ==> Correlated(s, c)
  }

  lemma AllocateStep(cl: Client, reply: Option<nat>, done: int)
    requires Numbered(cl.nextSeq, cl.history) && Queued(cl.history, done) && Answered(cl)
    requires cl.history.allocs + 1 < 0x1_0000_0000
    requires reply.Some? ==> reply.value !in cl.history.issued
    ensures var t := AfterAllocate(cl, reply);
            Numbered(t.nextSeq, t.history) && Queued(t.history, done) && Answered(t)
  {
    var t := AfterAllocate(cl, reply);
    assert Turn(t.nextSeq) == cl.history.allocs;
  }

  lemma EnqueueReply(cl: Client, job: Job, done: int)
    requires Numbered(cl.nextSeq, cl.history) && Queued(cl.history, done) && Answered(cl)
    requires job.Send?
    requires job.reply.Some? ==>
               && job.reply.value in cl.history.ready && job.reply.value in cl.history.issued
               && job.seqNo == cl.history.issued[job.reply.value]
    ensures var t := AfterEnqueue(cl, job);
            Numbered(t.nextSeq, t.history) && Queued(t.history, done) && Answered(t)
  {
    var h, t := cl.history, AfterEnqueue(cl, job);
    forall i | 0 <= i < |h.log| && ReplyOf(h.log[i]).Some?
      ensures ReplyOf(h.log[i]) != ReplyOf(job)
    {
    }
  }

  lemma RegisterStep(cl: Client, k: nat)
    requires Numbered(cl.nextSeq, cl.history) && Queued(cl.history, k) && Answered(cl)
    requires k < |cl.history.log| && cl.history.log[k].Send?
    ensures var t := AfterRegister(cl, cl.history.log[k]);
            Numbered(t.nextSeq, t.history) && Queued(t.history, k + 1) && Answered(t)
  {
    var h := cl.history;
    var job := h.log[k];
    assert ReplyOf(job) == job.reply;
  }

  lemma CmdReplyStep(cl: Client, seqNo: uint32)
    requires Answered(cl)
    ensures Answered(AfterCmdReply(cl, seqNo))
  {
    var t := AfterCmdReply(cl, seqNo);
    forall ch | ch in t.history.registered
      ensures OneOf(Waits(t, ch), ch in t.history.timedOut, Replied(t, ch))
    {
      assert OneOf(Waits(cl, ch), ch in cl.history.timedOut, Replied(cl, ch));
    }
  }

  lemma TimeoutStep(cl: Client, seqNo: uint32, done: int)
    requires Numbered(cl.nextSeq, cl.history) && Queued(cl.history, done) && Answered(cl)
    ensures var t := AfterTimeout(cl, seqNo);
            Numbered(t.nextSeq, t.history) && Queued(t.history, done) && Answered(t)
  {
    var t := AfterTimeout(cl, seqNo);
    forall ch | ch in t.history.registered
      ensures OneOf(Waits(t, ch), ch in t.history.timedOut, Replied(t, ch))
    {
      assert OneOf(Waits(cl, ch), ch in cl.history.timedOut, Replied(cl, ch));
    }
  }

  /** Steps that neither allocate, queue, register nor reply. */
  lemma QuietReply(cl: Client, done: int, after: Client, later: int)
    requires Numbered(cl.nextSeq, cl.history) && Queued(cl.history, done) && Answered(cl)
    requires done <= later && after.nextSeq == cl.nextSeq && after.replies == cl.replies
    requires after.history.(taken := 0, whole := 0, cut := []) == cl.history.(taken := 0, whole := 0, cut := [])
    requires after.waiting == cl.waiting
    ensures Numbered(after.nextSeq, after.history) && Queued(after.history, later) && Answered(after)
  {
  }

  /** What a step of a client leaves for its replies. */
  lemma ClientFrame(s: State, step: Step)
    requires Enabled(s, step)
    requires step.Allocate? || step.MarkClosed? || step.CloseSocket? || step.CmdReply? || step.Timeout?
    ensures var t, c := Next(s, step), step.c;
            && c < |t.clients| && t.workers == s.workers && t.clients[c].worker == s.clients[c].worker
            && t.clients[c].history.log == s.clients[c].history.log
            && t.clients[c].history.taken == s.clients[c].history.taken
  {
  }

  lemma QuietClient(s: State, step: Step, done: int)
    requires Enabled(s, step) && (step.MarkClosed? || step.CloseSocket?)
    requires var cl := s.clients[step.c];
             Numbered(cl.nextSeq, cl.history) && Queued(cl.history, done) && Answered(cl)
    ensures step.c < |Next(s, step).clients|
    ensures var cl := Next(s, step).clients[step.c];
            Numbered(cl.nextSeq, cl.history) && Queued(cl.history, done) && Answered(cl)
  {
    hide Numbered, Queued, Answered;
    QuietReply(s.clients[step.c], done, Next(s, step).clients[step.c], done);
  }

  /** A step of the client itself, not of its worker. */
  lemma CorrelatedClient(s: State, step: Step)
    requires Inv(s) && AllCorrelated(s) && Enabled(s, step)
    requires step.Allocate? || step.MarkClosed? || step.CloseSocket? || step.CmdReply? || step.Timeout?
    ensures step.c < |Next(s, step).clients| && Correlated(Next(s, step), step.c)
  {
    hide WireInv, Routed, Turn, Numbered, Queued, Answered;
    ClientFrame(s, step);
    var cl := s.clients[step.c];
    assert Correlated(s, step.c);
    var done := Done(cl.history, s.workers[cl.worker], step.c);
    if step.Allocate? {
      AllocateStep(cl, step.reply, done);
    } else if step.CmdReply? {
      CmdReplyStep(cl, step.seqNo);
    } else if step.Timeout? {
      TimeoutStep(cl, step.seqNo, done);
    } else {
      QuietClient(s, step, done);
    }
  }

  lemma QuietWorker(s: State, step: Step)
    requires Inv(s) && AllCorrelated(s) && Enabled(s, step) && Subject(s, step) < |s.clients|
    requires step.Take? || step.WriteHeader? || step.WriteBody?
    ensures Correlated(Next(s, step), Subject(s, step))
  {
    hide Serialize, FrameBytes, Body, Outgoing, Honest, Frames, Mine, Turn, Numbered, Queued, Answered;
    var t, c := Next(s, step), Subject(s, step);
    assert Wired(s, c) && Correlated(s, c);
    var cl := s.clients[c];
    var w := cl.worker;
    assert Routed(s.clients, Actor(s, step), s.workers[Actor(s, step)]);
    QuietReply(cl, Done(cl.history, s.workers[w], c), t.clients[c], Done(t.clients[c].history, t.workers[w], c));
  }

  lemma CorrelatedWorker(s: State, step: Step)
    requires Inv(s) && AllCorrelated(s) && Enabled(s, step) && Subject(s, step) < |s.clients|
    requires step.Enqueue? || step.Take? || step.WriteHeader? || step.WriteBody? || step.Register?
    ensures Correlated(Next(s, step), Subject(s, step))
  {
    hide Serialize, FrameBytes, Body, Outgoing, Honest, Frames, Mine, Turn, Numbered, Queued, Answered;
    var c := Subject(s, step);
    assert Wired(s, c) && Correlated(s, c);
    var cl := s.clients[c];
    if step.Enqueue? {
      EnqueueReply(cl, step.job, Done(cl.history, s.workers[cl.worker], c));
    } else if step.Register? {
      assert Routed(s.clients, Actor(s, step), s.workers[Actor(s, step)]);
      RegisterStep(cl, cl.history.taken - 1);
    } else {
      QuietWorker(s, step);
    }
  }

  lemma CorrelatedStep(s: State, step: Step)
    requires Inv(s) && AllCorrelated(s) && Enabled(s, step)
    ensures AllCorrelated(Next(s, step))
  {
    hide Serialize, FrameBytes, Body, Outgoing, Honest, Frames, Mine, Turn, Numbered, Queued, Answered;
    var t := Next(s, step);
    StepFrame(s, step);
    forall c | 0 <= c < |t.clients|
      ensures Correlated(t, c)
    {
      if c == |s.clients| {
        FreshCorrelated(s, step);
      } else if c == Subject(s, step) {
        if step.Enqueue? || step.Take? || step.WriteHeader? || step.WriteBody? || step.Register? {
          CorrelatedWorker(s, step);
        } else {
          CorrelatedClient(s, step);
        }
      } else {
        assert Correlated(s, c);
        assert Routed(s.clients, s.clients[c].worker, s.workers[s.clients[c].worker]);
      }
    }
  }

  lemma FreshCorrelated(s: State, step: Step)
    requires Inv(s) && Enabled(s, step) && |Next(s, step).clients| > |s.clients|
    ensures Correlated(Next(s, step), |s.clients|)
  {
    assert step.Open?;
  }

  lemma {:induction false} CorrelatedRuns(s: State, steps: seq<Step>, t: State)
    requires Inv(s) && AllCorrelated(s) && Runs(s, steps, t)
    ensures Inv(t) && AllCorrelated(t)
    decreases |steps|
  {
    if steps != [] {
      InvStep(s, steps[0]);
      CorrelatedStep(s, steps[0]);
      CorrelatedRuns(Next(s, steps[0]), steps[1..], t);
    }
  }

  /** In every run, with fewer than 2^32 numbers allocated per session: a channel
      is sent at most one reply, only one bearing the number allocated for it,
      and that number was allocated for no other channel. */
  lemma RepliesMatchCommands(s: State, steps: seq<Step>, t: State, c: nat)
    requires Initial(s) && Runs(s, steps, t) && c < |t.clients|
    ensures
      var replies, issued := t.clients[c].replies, t.clients[c].history.issued;
      && (forall i, j :: 0 <= i < j < |replies| ==> replies[i].0 != replies[j].0)
      && (forall i :: 0 <= i < |replies| ==> replies[i].0 in issued && issued[replies[i].0] == replies[i].1)
      && (forall a, b :: a in issued && b in issued && a != b ==> issued[a] != issued[b])
  {
    CorrelatedRuns(s, steps, t);
    assert Correlated(t, c);
  }

  /** Who has queued commands done: all of them have their channels registered
      while the session is open or its worker is at a job of it; otherwise all
      whose frame was followed by another. */
  ghost predicate Carried(cl: Client, w: Worker, c: nat) {
    var h, done := cl.history, Done(cl.history, w, c);
    forall i :: 0 <= i < done && i < |h.log| && ReplyOf(h.log[i]).Some? ==>
      (Busy(w, c) || !cl.closed || i + 1 < h.whole) ==> ReplyOf(h.log[i]).value in h.registered
  }

  ghost predicate AllCarried(s: State) {
    forall c :: 0 <= c < |s.clients| ==>
      s.clients[c].worker < |s.workers| && Carried(s.clients[c], s.workers[s.clients[c].worker], c)
  }

  lemma CarriedClient(s: State, step: Step)
    requires Inv(s) && AllCarried(s) && Enabled(s, step)
    requires step.Allocate? || step.MarkClosed? || step.CloseSocket? || step.CmdReply? || step.Timeout?
    ensures var t := Next(s, step);
            step.c < |t.clients| && t.clients[step.c].worker < |t.workers|
            && Carried(t.clients[step.c], t.workers[t.clients[step.c].worker], step.c)
  {
    hide WireInv, Routed;
    ClientFrame(s, step);
    var cl := s.clients[step.c];
    assert Carried(cl, s.workers[cl.worker], step.c);
  }

  lemma CarriedTake(s: State, step: Step)
    requires Inv(s) && AllCarried(s) && Enabled(s, step) && Subject(s, step) < |s.clients|
    requires step.Enqueue? || step.Take?
    ensures var t, c := Next(s, step), Subject(s, step);
            t.clients[c].worker < |t.workers| && Carried(t.clients[c], t.workers[t.clients[c].worker], c)
  {
    hide Serialize, FrameBytes, Body, Outgoing, Honest, Frames, Mine;
    var c := Subject(s, step);
    assert Wired(s, c) && Carried(s.clients[c], s.workers[s.clients[c].worker], c);
    assert Routed(s.clients, Actor(s, step), s.workers[Actor(s, step)]);
  }

  /** While a job is being done, all before it are registered. */
  lemma CarriedBusy(cl: Client, w: Worker, c: nat, after: Client, rest: Worker)
    requires Carried(cl, w, c) && Busy(w, c) && 0 < cl.history.taken <= |cl.history.log|
    requires after.history.log == cl.history.log && after.history.taken == cl.history.taken
    requires cl.history.registered <= after.history.registered && after.history.whole <= after.history.taken
    requires Busy(rest, c) ||
             (rest.running.Idle? &&
              (after.closed || var last := ReplyOf(cl.history.log[cl.history.taken - 1]);
                               last.Some? ==> last.value in after.history.registered))
    ensures Carried(after, rest, c)
  {
  }

  lemma CarriedWrite(s: State, step: Step)
    requires Inv(s) && AllCarried(s) && Enabled(s, step) && Subject(s, step) < |s.clients|
    requires step.WriteHeader? || step.WriteBody? || step.Register?
    ensures var t, c := Next(s, step), Subject(s, step);
            t.clients[c].worker < |t.workers| && Carried(t.clients[c], t.workers[t.clients[c].worker], c)
  {
    hide Serialize, FrameBytes, Body, Outgoing, Honest, Frames, Mine, Carried;
    var t, c := Next(s, step), Subject(s, step);
    InvStep(s, step);
    assert Wired(s, c) && Wired(t, c);
    assert Routed(s.clients, Actor(s, step), s.workers[Actor(s, step)]);
    CarriedBusy(s.clients[c], s.workers[s.clients[c].worker], c, t.clients[c], t.workers[t.clients[c].worker]);
  }

  lemma CarriedStep(s: State, step: Step)
    requires Inv(s) && AllCarried(s) && Enabled(s, step)
    ensures AllCarried(Next(s, step))
  {
    hide Serialize, FrameBytes, Body, Outgoing, Honest, Frames, Mine, Carried;
    var t := Next(s, step);
    StepFrame(s, step);
    forall c | 0 <= c < |t.clients|
      ensures t.clients[c].worker < |t.workers| && Carried(t.clients[c], t.workers[t.clients[c].worker], c)
    {
      if c == |s.clients| {
        FreshCarried(s, step);
      } else if c == Subject(s, step) {
        if step.Enqueue? || step.Take? {
          CarriedTake(s, step);
        } else if step.WriteHeader? || step.WriteBody? || step.Register? {
          CarriedWrite(s, step);
        } else {
          CarriedClient(s, step);
        }
      } else {
        CarriedOther(s, step, c);
      }
    }
  }

  lemma CarriedOther(s: State, step: Step, c: nat)
    requires Inv(s) && AllCarried(s) && Enabled(s, step) && c < |s.clients| && c != Subject(s, step)
    ensures var t := Next(s, step);
            c < |t.clients| && t.clients[c].worker < |t.workers|
            && Carried(t.clients[c], t.workers[t.clients[c].worker], c)
  {
    hide WireInv;
    StepFrame(s, step);
    assert Carried(s.clients[c], s.workers[s.clients[c].worker], c);
    assert Routed(s.clients, s.clients[c].worker, s.workers[s.clients[c].worker]);
  }

  lemma FreshCarried(s: State, step: Step)
    requires Inv(s) && Enabled(s, step) && |Next(s, step).clients| > |s.clients|
    ensures var t, c := Next(s, step), |s.clients|;
            t.clients[c].worker < |t.workers| && Carried(t.clients[c], t.workers[t.clients[c].worker], c)
  {
    assert step.Open?;
  }

  lemma {:induction false} CarriedRuns(s: State, steps: seq<Step>, t: State)
    requires Inv(s) && AllCarried(s) && Runs(s, steps, t)
    ensures AllCarried(t)
    decreases |steps|
  {
    if steps != [] {
      InvStep(s, steps[0]);
      CarriedStep(s, steps[0]);
      CarriedRuns(Next(s, steps[0]), steps[1..], t);
    }
  }

  /** No command is lost, in any run: while its job is queued or being done it is
      not registered; once done it is, unless the session was closed before its
      frame or right behind it; and a registered command waits under its own
      number, has given up, or has exactly one reply, which bears its number. */
  lemma CommandsAccounted(s: State, steps: seq<Step>, t: State, c: nat)
    requires Initial(s) && Runs(s, steps, t) && c < |t.clients|
    ensures
      var cl := t.clients[c];
      var h := cl.history;
      && cl.worker < |t.workers|
      && var done := Done(h, t.workers[cl.worker], c);
         (forall i :: 0 <= i < |h.log| && ReplyOf(h.log[i]).Some? ==>
            && (i >= done ==> ReplyOf(h.log[i]).value !in h.registered)
            && (i < done && (!cl.closed || i + 1 < h.whole) ==> ReplyOf(h.log[i]).value in h.registered))
    ensures
      var cl := t.clients[c];
      forall ch :: ch in cl.history.registered ==>
        && OneOf(Waits(cl, ch), ch in cl.history.timedOut, Replied(cl, ch))
        && (forall i, j :: 0 <= i < j < |cl.replies| ==> !(cl.replies[i].0 == cl.replies[j].0 == ch))
  {
    CorrelatedRuns(s, steps, t);
    CarriedRuns(s, steps, t);
    assert Correlated(t, c);
    hide Numbered, Runs, Inv;
  }

  /** So the device's answer to a registered command that has neither given up nor
      been answered goes to its channel, and then it has been. */
  lemma ReplyArrives(s: State, steps: seq<Step>, t: State, c: nat, ch: nat)
    requires Initial(s) && Runs(s, steps, t) && c < |t.clients|
    requires var cl := t.clients[c];
             ch in cl.history.registered && ch !in cl.history.timedOut && !Replied(cl, ch)
    ensures var cl := t.clients[c];
            && ch in cl.history.issued
            && var n := cl.history.issued[ch];
               && n in cl.waiting
               && Next(t, CmdReply(c, n)).clients[c] ==
                  cl.(waiting := cl.waiting - {n}, replies := cl.replies + [(ch, n)])
               && Replied(Next(t, CmdReply(c, n)).clients[c], ch)
  {
    CorrelatedRuns(s, steps, t);
    assert Correlated(t, c);
    hide Numbered, Queued, Runs, Inv;
  }

  /** And no command gives up unless MsgTimeout is called for its session. */
  lemma {:induction false} NobodyGivesUp(s: State, steps: seq<Step>, t: State, c: nat)
    requires Runs(s, steps, t) && (forall n :: Timeout(c, n) !in steps) && c < |t.clients|
    requires c < |s.clients| ==> s.clients[c].history.timedOut == {}
    ensures t.clients[c].history.timedOut == {}
    decreases |steps|
  {
    if steps != [] {
      assert steps[0] in steps;
      StaysWaiting(s, steps[0], c);
      NobodyGivesUp(Next(s, steps[0]), steps[1..], t, c);
    }
  }

  lemma StaysWaiting(s: State, step: Step, c: nat)
    requires Enabled(s, step) && !(step.Timeout? && step.c == c)
    requires c < |s.clients| ==> s.clients[c].history.timedOut == {}
    ensures c < |Next(s, step).clients| ==> Next(s, step).clients[c].history.timedOut == {}
  {
  }
}
