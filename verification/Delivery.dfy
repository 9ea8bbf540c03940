/** The sending side of a connection (comet/server.go, comet/job.go): jobs queued
    per worker, written to sockets that may fail, and command replies matched to
    waiting channels. A state machine whose steps are the actions that other
    goroutines can come between. */
module Delivery {
  import opened Message
  import opened Sequences
  import Decoder

  /** A queued job. SendJob copies the header it points to and puts its own
      sequence number in; every other job leaves the connection alone. */
  datatype Job =
    | Send(client: nat, header: Header, body: Option<seq<byte>>, seqNo: uint32, reply: Option<nat>)
    | Update

  function Outgoing(j: Job): Header
    requires j.Send?
  {
    j.header.(seqNo := j.seqNo)
  }

  function Body(j: Job): seq<byte>
    requires j.Send?
  {
    if j.body.Some? then j.body.value else []
  }

  function FrameBytes(j: Job): seq<byte>
    requires j.Send?
  {
    Serialize(Outgoing(j)) + Body(j)
  }

  /** SendMessage and makeHeader put the length of the body into the header. */
  ghost predicate Honest(j: Job) {
    j.Send? ==> j.header.bodyLen == |Body(j)| && j.header.msgType != 0
  }

  function Frames(jobs: seq<Job>): seq<byte>
    requires forall i :: 0 <= i < |jobs| ==> jobs[i].Send?
  {
    if jobs == [] then []
    else Frames(jobs[..|jobs| - 1]) + FrameBytes(jobs[|jobs| - 1])
  }

  /** How a socket write ends. A failed write may have put out some bytes. */
  datatype WriteOutcome = Written | Failed(sent: nat)

  datatype Client = Client(
    worker: nat,                  // whose queue jobChannel is
    closed: bool,
    open: bool,                   // the socket
    sock: seq<byte>,              // all bytes written to it
    nextSeq: uint32,
    waiting: map<uint32, nat>,    // replyChannels
    replies: seq<(nat, uint32)>,  // what was sent on which channel
    history: History)

  /** Bookkeeping that the program does not have. */
  datatype History = History(
    log: seq<Job>,                // jobs put in the queue, in order
    taken: nat,                   // how many of them a worker has taken
    whole: nat,                   // frames written completely
    cut: seq<byte>,               // bytes of a frame not (yet) complete
    allocs: nat,                  // calls of NextSeq
    issued: map<nat, uint32>,     // the sequence number each channel waits for
    ready: set<nat>,              // issued, job not yet queued
    registered: set<nat>,         // channels that were put into replyChannels
    timedOut: set<nat>)           // channels that gave up waiting there

  datatype Running = Idle | AtHeader(job: Job) | AtBody(job: Job) | AtReply(job: Job)

  datatype Worker = Worker(queue: seq<Job>, running: Running)

  datatype State = State(clients: seq<Client>, workers: seq<Worker>)

  datatype Step =
    | Open(worker: nat)
    | Allocate(c: nat, reply: Option<nat>)   // NextSeq, for a command if reply is given
    | Enqueue(c: nat, job: Job)
    | EnqueueUpdate(w: nat)
    | Take(w: nat)
    | WriteHeader(w: nat, outcome: WriteOutcome)
    | WriteBody(w: nat, outcome: WriteOutcome)
    | Register(w: nat)
    | MarkClosed(c: nat)                     // by closeClient or by a newer connection
    | CloseSocket(c: nat)
    | CmdReply(c: nat, seqNo: uint32)
    | Timeout(c: nat, seqNo: uint32)

  ghost predicate Enabled(s: State, step: Step) {
    match step
    case Open(w) => w < |s.workers|
    case Allocate(c, reply) =>
      && c < |s.clients|
      && s.clients[c].history.allocs + 1 < 0x1_0000_0000
      && (reply.Some? ==> reply.value !in s.clients[c].history.issued)
    case Enqueue(c, job) =>
      && c < |s.clients| && s.clients[c].worker < |s.workers|
      && job.Send? && job.client == c && Honest(job)
      && (job.reply.Some? ==>
            && job.reply.value in s.clients[c].history.ready
            && job.reply.value in s.clients[c].history.issued
            && job.seqNo == s.clients[c].history.issued[job.reply.value])
    case EnqueueUpdate(w) => w < |s.workers|
    case Take(w) =>
      && w < |s.workers| && s.workers[w].running.Idle? && s.workers[w].queue != []
      && (s.workers[w].queue[0].Send? ==> s.workers[w].queue[0].client < |s.clients|)
    case WriteHeader(w, outcome) =>
      && w < |s.workers| && s.workers[w].running.AtHeader?
      && CanWrite(s, s.workers[w].running.job, outcome, HEADER_SIZE)
    case WriteBody(w, outcome) =>
      && w < |s.workers| && s.workers[w].running.AtBody? && s.workers[w].running.job.Send?
      && CanWrite(s, s.workers[w].running.job, outcome, |Body(s.workers[w].running.job)|)
    case Register(w) =>
      && w < |s.workers| && s.workers[w].running.AtReply?
      && s.workers[w].running.job.Send? && s.workers[w].running.job.client < |s.clients|
    case MarkClosed(c) => c < |s.clients|
    case CloseSocket(c) => c < |s.clients| && s.clients[c].closed
    case CmdReply(c, _) => c < |s.clients|
    case Timeout(c, _) => c < |s.clients|
  }

  ghost predicate CanWrite(s: State, job: Job, outcome: WriteOutcome, size: nat) {
    && job.Send? && job.client < |s.clients|
    && (outcome.Written? ==> s.clients[job.client].open)
    && (outcome.Failed? ==> outcome.sent <= size && (!s.clients[job.client].open ==> outcome.sent == 0))
  }

  /** A write of b: on failure the session is marked closed. `frame` is the
      whole frame that is being written. */
  function AfterWrite(c: Client, b: seq<byte>, frame: seq<byte>, outcome: WriteOutcome): Client
    requires outcome.Failed? ==> outcome.sent <= |b|
  {
    var out := if outcome.Written? then b else b[..outcome.sent];
    var cut := c.history.cut + out;
    c.(sock := c.sock + out,
       closed := c.closed || outcome.Failed?,
       history := if cut == frame then c.history.(whole := c.history.whole + 1, cut := [])
                  else c.history.(cut := cut))
  }

  function AfterRegister(c: Client, job: Job): Client
    requires job.Send?
  {
    if job.reply.Some? then
      c.(waiting := c.waiting[job.seqNo := job.reply.value],
         history := c.history.(registered := c.history.registered + {job.reply.value}))
    else c
  }

  /** handleCmdReply: the channel is removed before the reply goes to it. */
  function AfterCmdReply(c: Client, seqNo: uint32): Client {
    if seqNo in c.waiting then
      c.(waiting := c.waiting - {seqNo}, replies := c.replies + [(c.waiting[seqNo], seqNo)])
    else c
  }

  /** MsgTimeout */
  function AfterTimeout(c: Client, seqNo: uint32): Client {
    c.(waiting := c.waiting - {seqNo},
       history := if seqNo in c.waiting then c.history.(timedOut := c.history.timedOut + {c.waiting[seqNo]})
                  else c.history)
  }

  function AfterAllocate(c: Client, reply: Option<nat>): Client {
    var seqNo := (c.nextSeq + 1) % 0x1_0000_0000;
    var h := c.history.(allocs := c.history.allocs + 1);
    c.(nextSeq := seqNo,
       history := if reply.Some? then h.(issued := h.issued[reply.value := seqNo], ready := h.ready + {reply.value})
                  else h)
  }

  function AfterEnqueue(c: Client, job: Job): Client
    requires job.Send?
  {
    c.(history := c.history.(log := c.history.log + [job],
                             ready := if job.reply.Some? then c.history.ready - {job.reply.value} else c.history.ready))
  }

  function NewClient(w: nat): Client {
    Client(w, false, true, [], 1, map[], [], History([], 0, 0, [], 0, map[], {}, {}, {}))
  }

  ghost function Next(s: State, step: Step): State
    requires Enabled(s, step)
  {
    match step
    case Open(w) => s.(clients := s.clients + [NewClient(w)])
    case Allocate(c, reply) => s.(clients := s.clients[c := AfterAllocate(s.clients[c], reply)])
    case Enqueue(c, job) =>
      var w := s.clients[c].worker;
      s.(clients := s.clients[c := AfterEnqueue(s.clients[c], job)],
         workers := s.workers[w := s.workers[w].(queue := s.workers[w].queue + [job])])
    case EnqueueUpdate(w) => s.(workers := s.workers[w := s.workers[w].(queue := s.workers[w].queue + [Update])])
    case Take(w) =>
      var job := s.workers[w].queue[0];
      var rest := s.workers[w].queue[1..];
      if job.Update? then s.(workers := s.workers[w := Worker(rest, Idle)])
      else
        var c := s.clients[job.client];
        s.(clients := s.clients[job.client := c.(history := c.history.(taken := c.history.taken + 1))],
           workers := s.workers[w := Worker(rest, if c.closed then Idle else AtHeader(job))])
    case WriteHeader(w, outcome) =>
      var job := s.workers[w].running.job;
      s.(clients := s.clients[job.client :=
          AfterWrite(s.clients[job.client], Serialize(Outgoing(job)), FrameBytes(job), outcome)],
         workers := s.workers[w := s.workers[w].(running :=
           if outcome.Failed? then Idle else if job.body.Some? then AtBody(job) else AtReply(job))])
    case WriteBody(w, outcome) =>
      var job := s.workers[w].running.job;
      s.(clients := s.clients[job.client := AfterWrite(s.clients[job.client], Body(job), FrameBytes(job), outcome)],
         workers := s.workers[w := s.workers[w].(running := if outcome.Failed? then Idle else AtReply(job))])
    case Register(w) =>
      var job := s.workers[w].running.job;
      s.(clients := s.clients[job.client := AfterRegister(s.clients[job.client], job)],
         workers := s.workers[w := s.workers[w].(running := Idle)])
    case MarkClosed(c) => s.(clients := s.clients[c := s.clients[c].(closed := true)])
    case CloseSocket(c) => s.(clients := s.clients[c := s.clients[c].(open := false)])
    case CmdReply(c, seqNo) => s.(clients := s.clients[c := AfterCmdReply(s.clients[c], seqNo)])
    case Timeout(c, seqNo) => s.(clients := s.clients[c := AfterTimeout(s.clients[c], seqNo)])
  }

  ghost predicate Runs(s: State, steps: seq<Step>, t: State)
    decreases |steps|
  {
    if steps == [] then s == t
    else Enabled(s, steps[0]) && Runs(Next(s, steps[0]), steps[1..], t)
  }

  ghost predicate Initial(s: State) {
    s.clients == [] && forall w :: 0 <= w < |s.workers| ==> s.workers[w] == Worker([], Idle)
  }

  /** The jobs of one client in a queue. */
  function Mine(q: seq<Job>, c: nat): (m: seq<Job>) {
    if q == [] then []
    else (if q[0].Send? && q[0].client == c then [q[0]] else []) + Mine(q[1..], c)
  }

  lemma {:induction false} MineAppend(q: seq<Job>, j: Job, c: nat)
    ensures Mine(q + [j], c) == Mine(q, c) + if j.Send? && j.client == c then [j] else []
  {
    if q != [] {
      MineAppend(q[1..], j, c);
      assert (q + [j])[1..] == q[1..] + [j];
    }
  }

  ghost predicate Busy(w: Worker, c: nat) {
    !w.running.Idle? && w.running.job.Send? && w.running.job.client == c
  }

  /** What a client's socket, log and worker have to do with each other. */
  ghost predicate WireInv(c: nat, cl: Client, w: Worker) {
    var h := cl.history;
    && (forall i :: 0 <= i < |h.log| ==> h.log[i].Send? && h.log[i].client == c && Honest(h.log[i]))
    && h.whole <= h.taken <= |h.log|
    && h.log[h.taken..] == Mine(w.queue, c)
    && cl.sock == Frames(h.log[..h.whole]) + h.cut
    && (cl.open || cl.closed)
    && (Busy(w, c) ==>
          && 0 < h.taken && w.running.job == h.log[h.taken - 1]
          && (w.running.AtHeader? ==> h.whole == h.taken - 1 && h.cut == [])
          && (w.running.AtBody? ==>
                && w.running.job.body.Some?
                && if |Body(w.running.job)| == 0 then h.whole == h.taken && h.cut == []
                   else h.whole == h.taken - 1 && h.cut == Serialize(Outgoing(w.running.job)))
          && (w.running.AtReply? ==> h.whole == h.taken && h.cut == []))
    && (!Busy(w, c) && !cl.closed ==> h.whole == h.taken && h.cut == [])
    && (h.cut != [] ==> h.whole < h.taken && h.cut < FrameBytes(h.log[h.whole]))
  }

  /** Every job a worker has belongs to a client of that worker. */
  ghost predicate RoutedJob(clients: seq<Client>, w: nat, j: Job) {
    j.Send? ==> j.client < |clients| && clients[j.client].worker == w
  }

  ghost predicate Routed(clients: seq<Client>, w: nat, worker: Worker) {
    && (forall i :: 0 <= i < |worker.queue| ==> RoutedJob(clients, w, worker.queue[i]))
    && (!worker.running.Idle? ==> worker.running.job.Send? && RoutedJob(clients, w, worker.running.job))
  }

  ghost predicate Wired(s: State, c: nat)
    requires c < |s.clients|
  {
    s.clients[c].worker < |s.workers| && WireInv(c, s.clients[c], s.workers[s.clients[c].worker])
  }

  ghost predicate Inv(s: State) {
    && (forall w :: 0 <= w < |s.workers| ==> Routed(s.clients, w, s.workers[w]))
    && (forall c :: 0 <= c < |s.clients| ==> Wired(s, c))
  }

  /** The worker a step moves, and the client. */
  ghost function Actor(s: State, step: Step): nat
    requires Enabled(s, step)
  {
    match step
    case Open(w) => w
    case Enqueue(c, _) => s.clients[c].worker
    case EnqueueUpdate(w) => w
    case Take(w) => w
    case WriteHeader(w, _) => w
    case WriteBody(w, _) => w
    case Register(w) => w
    case Allocate(c, _) => s.clients[c].worker
    case MarkClosed(c) => s.clients[c].worker
    case CloseSocket(c) => s.clients[c].worker
    case CmdReply(c, _) => s.clients[c].worker
    case Timeout(c, _) => s.clients[c].worker
  }

  ghost function Subject(s: State, step: Step): nat
    requires Enabled(s, step)
  {
    match step
    case Open(w) => |s.clients|
    case Enqueue(c, _) => c
    case EnqueueUpdate(w) => |s.clients|
    case Take(w) => if s.workers[w].queue[0].Send? then s.workers[w].queue[0].client else |s.clients|
    case WriteHeader(w, _) => s.workers[w].running.job.client
    case WriteBody(w, _) => s.workers[w].running.job.client
    case Register(w) => s.workers[w].running.job.client
    case Allocate(c, _) => c
    case MarkClosed(c) => c
    case CloseSocket(c) => c
    case CmdReply(c, _) => c
    case Timeout(c, _) => c
  }

  /** A step leaves every other client and every other worker as they are. */
  lemma StepFrame(s: State, step: Step)
    requires Enabled(s, step)
    ensures var t := Next(s, step);
            && |t.workers| == |s.workers|
            && |s.clients| <= |t.clients| <= |s.clients| + 1
            && (forall c :: 0 <= c < |s.clients| ==> t.clients[c].worker == s.clients[c].worker)
            && (forall c :: 0 <= c < |s.clients| && c != Subject(s, step) ==> t.clients[c] == s.clients[c])
            && (forall w :: 0 <= w < |s.workers| && w != Actor(s, step) ==> t.workers[w] == s.workers[w])
  {
    hide Serialize, FrameBytes, Body, Outgoing, Honest;
  }

  lemma RoutedGrows(before: seq<Client>, after: seq<Client>, w: nat, worker: Worker)
    requires Routed(before, w, worker) && |before| <= |after|
    requires forall c :: 0 <= c < |before| ==> after[c].worker == before[c].worker
    ensures Routed(after, w, worker)
  {
  }

  lemma RoutedStep(s: State, step: Step)
    requires Inv(s) && Enabled(s, step)
    ensures var t := Next(s, step);
            forall w :: 0 <= w < |t.workers| ==> Routed(t.clients, w, t.workers[w])
  {
    hide Serialize, FrameBytes, Body, Outgoing, Honest, Mine, WireInv;
    var t := Next(s, step);
    StepFrame(s, step);
    var a := Actor(s, step);
    forall w | 0 <= w < |t.workers|
      ensures Routed(t.clients, w, t.workers[w])
    {
      assert Routed(s.clients, w, s.workers[w]);
      RoutedGrows(s.clients, t.clients, w, s.workers[w]);
    }
  }

  /** The worker's move concerns no client but its subject. */
  lemma WiredOther(s: State, step: Step, c: nat)
    requires Inv(s) && Enabled(s, step) && c < |s.clients| && c != Subject(s, step)
    ensures Wired(Next(s, step), c)
  {
    hide Serialize, FrameBytes, Body, Outgoing, Honest, Frames;
    var t := Next(s, step);
    StepFrame(s, step);
    assert Wired(s, c);
    var w := s.clients[c].worker;
    var v := s.workers[w];
    assert Routed(s.clients, w, v);
    if step.Enqueue? && Actor(s, step) == w {
      MineAppend(v.queue, step.job, c);
    } else if step.EnqueueUpdate? && Actor(s, step) == w {
      MineAppend(v.queue, Update, c);
    }
  }

  /** The bytes of a write extend what is on the wire. */
  lemma WriteStep(c: nat, cl: Client, w: Worker, b: seq<byte>, outcome: WriteOutcome)
    requires WireInv(c, cl, w) && Busy(w, c)
    requires outcome.Written? ==> cl.open
    requires outcome.Failed? ==> outcome.sent <= |b|
    requires
      || (w.running.AtHeader? && b == Serialize(Outgoing(w.running.job)))
      || (w.running.AtBody? && b == Body(w.running.job))
    ensures
      var job := w.running.job;
      var next := if outcome.Failed? then Idle
                  else if w.running.AtHeader? && job.body.Some? then AtBody(job) else AtReply(job);
      WireInv(c, AfterWrite(cl, b, FrameBytes(job), outcome), w.(running := next))
  {
    hide Serialize, Outgoing, Honest, Mine, FrameBytes, Frames;
    var h, job := cl.history, w.running.job;
    var out := if outcome.Written? then b else b[..outcome.sent];
    if w.running.AtHeader? || |Body(job)| > 0 {
      CutGrows(h.cut, b, out, job, w.running.AtHeader?);
      WireGrows(h.log, h.whole, h.cut, out);
    } else {
      assert h.cut + out == [];
      assert cl.sock + out == cl.sock;
      FrameNotEmpty(job);
    }
  }

  lemma FrameNotEmpty(job: Job)
    requires job.Send?
    ensures |FrameBytes(job)| > 0
  {
  }

  lemma WireGrows(log: seq<Job>, whole: nat, cut: seq<byte>, out: seq<byte>)
    requires whole < |log| && forall i :: 0 <= i < |log| ==> log[i].Send?
    ensures Frames(log[..whole]) + cut + out == Frames(log[..whole]) + (cut + out)
    ensures cut + out == FrameBytes(log[whole]) ==>
              Frames(log[..whole]) + cut + out == Frames(log[..whole + 1]) + []
  {
    assert log[..whole + 1][..whole] == log[..whole];
    hide FrameBytes;
  }

  /** What a write adds to an unfinished frame is a prefix of the frame, and
      the whole of it only after the last byte. */
  lemma CutGrows(cut: seq<byte>, b: seq<byte>, out: seq<byte>, job: Job, first: bool)
    requires job.Send? && out <= b
    requires if first then cut == [] && b == Serialize(Outgoing(job))
             else cut == Serialize(Outgoing(job)) && b == Body(job)
    ensures cut + out <= FrameBytes(job)
    ensures !first ==> (cut + out == FrameBytes(job) <==> out == b)
    ensures first ==> (cut + out == FrameBytes(job) <==> out == b && |Body(job)| == 0)
  {
    hide Serialize, Outgoing;
  }

  lemma TakeStep(c: nat, cl: Client, w: Worker)
    requires WireInv(c, cl, w) && w.running.Idle?
    requires w.queue != [] && w.queue[0].Send? && w.queue[0].client == c
    ensures WireInv(c, cl.(history := cl.history.(taken := cl.history.taken + 1)),
                    Worker(w.queue[1..], if cl.closed then Idle else AtHeader(w.queue[0])))
  {
    hide Serialize, FrameBytes, Body, Outgoing, Honest, Frames;
    var h := cl.history;
    assert h.log[h.taken..][0] == w.queue[0];
    assert h.log[h.taken + 1..] == h.log[h.taken..][1..];
  }

  lemma LogGrows(log: seq<Job>, job: Job, whole: nat, taken: nat)
    requires whole <= taken <= |log|
    ensures (log + [job])[taken..] == log[taken..] + [job]
    ensures (log + [job])[..whole] == log[..whole]
    ensures forall i :: 0 <= i < |log| ==> (log + [job])[i] == log[i]
  {
  }

  lemma EnqueueStep(c: nat, cl: Client, w: Worker, job: Job)
    requires WireInv(c, cl, w) && job.Send? && job.client == c && Honest(job)
    ensures WireInv(c, AfterEnqueue(cl, job), w.(queue := w.queue + [job]))
  {
    hide Serialize, FrameBytes, Body, Outgoing, Honest, Frames, Mine;
    var h := cl.history;
    MineAppend(w.queue, job, c);
    LogGrows(h.log, job, h.whole, h.taken);
  }

  /** The other steps of a client do not touch its wire; `closed` stays set. */
  lemma QuietStep(c: nat, cl: Client, w: Worker, after: Client, rest: Worker)
    requires WireInv(c, cl, w) && after.sock == cl.sock
    requires after.history.(allocs := 0, issued := map[], ready := {}, registered := {}, timedOut := {})
          == cl.history.(allocs := 0, issued := map[], ready := {}, registered := {}, timedOut := {})
    requires (cl.closed ==> after.closed) && (after.open || after.closed)
    requires rest == w || (w.running.AtReply? && Busy(w, c) && rest == w.(running := Idle))
    ensures WireInv(c, after, rest)
  {
    hide Serialize, FrameBytes, Body, Outgoing, Honest, Frames, Mine;
  }

  /** A step of the client itself, not of its worker. */
  lemma WiredClient(s: State, step: Step)
    requires Inv(s) && Enabled(s, step)
    requires step.Allocate? || step.MarkClosed? || step.CloseSocket? || step.CmdReply? || step.Timeout?
    ensures Wired(Next(s, step), step.c)
  {
    var t := Next(s, step);
    var c := step.c;
    assert Wired(s, c);
    var w := s.workers[s.clients[c].worker];
    assert s.clients[c].open || s.clients[c].closed;
    hide WireInv;
    QuietStep(c, s.clients[c], w, t.clients[c], w);
  }

  lemma WiredWorker(s: State, step: Step)
    requires Inv(s) && Enabled(s, step) && Subject(s, step) < |s.clients|
    requires step.Enqueue? || step.Take? || step.WriteHeader? || step.WriteBody? || step.Register?
    ensures Wired(Next(s, step), Subject(s, step))
  {
    var t := Next(s, step);
    var c := Subject(s, step);
    assert Wired(s, c);
    var cl := s.clients[c];
    var w := s.workers[cl.worker];
    assert Routed(s.clients, Actor(s, step), s.workers[Actor(s, step)]);
    assert cl.worker == Actor(s, step);
    assert cl.open || cl.closed;
    hide Serialize, FrameBytes, Body, Outgoing, Honest, Frames, Mine, WireInv;
    match step {
      case Enqueue(_, job) => EnqueueStep(c, cl, w, job);
      case Take(_) => TakeStep(c, cl, w);
      case WriteHeader(_, outcome) => WriteStep(c, cl, w, Serialize(Outgoing(w.running.job)), outcome);
      case WriteBody(_, outcome) => WriteStep(c, cl, w, Body(w.running.job), outcome);
      case Register(_) => QuietStep(c, cl, w, t.clients[c], t.workers[cl.worker]);
    }
  }

  lemma InvStep(s: State, step: Step)
    requires Inv(s) && Enabled(s, step)
    ensures Inv(Next(s, step))
  {
    var t := Next(s, step);
    RoutedStep(s, step);
    StepFrame(s, step);
    hide Next, WireInv;
    forall c | 0 <= c < |t.clients|
      ensures Wired(t, c)
    {
      if c == |s.clients| {
        OpenWired(s, step);
      } else if c == Subject(s, step) {
        if step.Enqueue? || step.Take? || step.WriteHeader? || step.WriteBody? || step.Register? {
          WiredWorker(s, step);
        } else {
          WiredClient(s, step);
        }
      } else {
        WiredOther(s, step, c);
      }
    }
  }

  lemma OpenWired(s: State, step: Step)
    requires Inv(s) && Enabled(s, step) && |Next(s, step).clients| > |s.clients|
    ensures Wired(Next(s, step), |s.clients|)
  {
    assert step.Open?;
    NoneYet(s.clients, step.worker, s.workers[step.worker].queue);
  }

  /** A client that does not exist yet has no jobs. */
  lemma {:induction false} NoneYet(clients: seq<Client>, w: nat, q: seq<Job>)
    requires forall i :: 0 <= i < |q| ==> RoutedJob(clients, w, q[i])
    ensures Mine(q, |clients|) == []
  {
    if q != [] {
      NoneYet(clients, w, q[1..]);
    }
  }

  lemma {:induction false} InvRuns(s: State, steps: seq<Step>, t: State)
    requires Inv(s) && Runs(s, steps, t)
    ensures Inv(t)
    decreases |steps|
  {
    if steps != [] {
      InvStep(s, steps[0]);
      InvRuns(Next(s, steps[0]), steps[1..], t);
    }
  }

  const MAX_LEN: uint32 := 0xFFFF_FFFF

  /** The frame of a job as the device sees it. */
  function Sent(j: Job): Decoder.Event
    requires j.Send?
  {
    if |Body(j)| == 0 then Decoder.Empty(Outgoing(j)) else Decoder.Frame(Outgoing(j), Body(j))
  }

  function SentAll(jobs: seq<Job>): (events: seq<Decoder.Event>)
    requires forall i :: 0 <= i < |jobs| ==> jobs[i].Send?
    ensures |events| == |jobs| && forall i :: 0 <= i < |jobs| ==> events[i] == Sent(jobs[i])
  {
    seq(|jobs|, i requires 0 <= i < |jobs| => Sent(jobs[i]))
  }

  lemma SentFrame(j: Job)
    requires j.Send? && Honest(j)
    ensures Decoder.WellFormed(Sent(j), MAX_LEN) && Decoder.Encode(Sent(j)) == FrameBytes(j)
  {
    hide Serialize;
    assert Serialize(Outgoing(j)) + [] == Serialize(Outgoing(j));
  }

  lemma {:induction false} FramesEncode(jobs: seq<Job>, tail: seq<byte>)
    requires forall i :: 0 <= i < |jobs| ==> jobs[i].Send? && Honest(jobs[i])
    ensures Decoder.Decode(Frames(jobs) + tail, MAX_LEN) ==
            Decoder.After(SentAll(jobs), Decoder.Decode(tail, MAX_LEN))
    decreases |jobs|
  {
    hide Serialize, FrameBytes, Outgoing, Honest, Decoder.Decode, Decoder.Encode, Decoder.WellFormed, Sent;
    if jobs == [] {
      assert Frames(jobs) + tail == tail;
      assert SentAll(jobs) == [];
    } else {
      var last := |jobs| - 1;
      var j := jobs[last];
      assert Frames(jobs) + tail == Frames(jobs[..last]) + (FrameBytes(j) + tail);
      FramesEncode(jobs[..last], FrameBytes(j) + tail);
      SentFrame(j);
      Decoder.DecodeFrame(Sent(j), tail, MAX_LEN);
      assert SentAll(jobs) == SentAll(jobs[..last]) + [Sent(j)];
    }
  }

  /** A frame cut short is held back by the reader and yields nothing. */
  lemma CutIsHeld(cut: seq<byte>, j: Job)
    requires j.Send? && Honest(j) && cut < FrameBytes(j)
    ensures Decoder.Decode(cut, MAX_LEN) == Decoder.Parse([], cut, false)
  {
    if |cut| >= HEADER_SIZE {
      var body := cut[HEADER_SIZE..];
      assert cut == Serialize(Outgoing(j)) + body by {
        assert cut[..HEADER_SIZE] == FrameBytes(j)[..HEADER_SIZE] == Serialize(Outgoing(j));
      }
      DeserializeSerialize(Outgoing(j), body);
    } else if cut != [] {
      assert cut[0] == FrameBytes(j)[0] == j.header.msgType;
    }
  }

  /** In every run and for every client: what is on the wire is the frames of
      the first `whole` jobs queued for it, in order, then perhaps a piece of the
      next one; such a piece stays only after a failure, with `closed` set. A
      reader gets back exactly those messages, which are all of them when the
      session is open and its worker has nothing to do. */
  lemma WireIntegrity(s: State, steps: seq<Step>, t: State, c: nat)
    requires Initial(s) && Runs(s, steps, t) && c < |t.clients|
    ensures
      var cl, h := t.clients[c], t.clients[c].history;
      && cl.worker < |t.workers| && h.whole <= |h.log|
      && (forall i :: 0 <= i < |h.log| ==> h.log[i].Send? && h.log[i].client == c)
      && cl.sock == Frames(h.log[..h.whole]) + h.cut
      && (h.cut != [] ==>
            && h.whole < |h.log| && h.cut < FrameBytes(h.log[h.whole])
            && (cl.closed || t.workers[cl.worker].running == AtBody(h.log[h.whole])))
      && (!cl.closed && t.workers[cl.worker] == Worker([], Idle) ==> h.whole == |h.log|)
      && Decoder.Decode(cl.sock, MAX_LEN) == Decoder.Parse(SentAll(h.log[..h.whole]), h.cut, false)
  {
    InvRuns(s, steps, t);
    assert Wired(t, c);
    hide Serialize, FrameBytes, Outgoing, Honest, Frames, Decoder.Decode;
    var h := t.clients[c].history;
    FramesEncode(h.log[..h.whole], h.cut);
    if h.cut == [] {
      EmptyDecodes();
    } else {
      CutIsHeld(h.cut, h.log[h.whole]);
    }
    assert SentAll(h.log[..h.whole]) + [] == SentAll(h.log[..h.whole]);
  }

  lemma EmptyDecodes()
    ensures Decoder.Decode([], MAX_LEN) == Decoder.Parse([], [], false)
  {
  }

  /** At most the first k of a client's jobs get out, and it stays closed. */
  ghost predicate Stopped(s: State, c: nat, k: nat) {
    && c < |s.clients| && s.clients[c].closed && s.clients[c].history.whole <= k
    && s.clients[c].worker < |s.workers|
    && (Busy(s.workers[s.clients[c].worker], c) ==> s.clients[c].history.taken <= k)
  }

  lemma StoppedActs(s: State, step: Step, c: nat, k: nat)
    requires Enabled(s, step) && Stopped(s, c, k) && c == Subject(s, step)
    requires Routed(s.clients, Actor(s, step), s.workers[Actor(s, step)])
    requires c < |Next(s, step).clients|
    requires Next(s, step).clients[c].history.whole <= Next(s, step).clients[c].history.taken
    ensures Stopped(Next(s, step), c, k)
  {
    hide Serialize, FrameBytes, Body, Outgoing, Honest, Frames, Mine;
  }

  lemma StoppedStep(s: State, step: Step, c: nat, k: nat)
    requires Inv(s) && Enabled(s, step) && Stopped(s, c, k)
    ensures Stopped(Next(s, step), c, k)
  {
    hide Serialize, FrameBytes, Body, Outgoing, Honest, Frames, Mine, Next;
    InvStep(s, step);
    StepFrame(s, step);
    var t, w := Next(s, step), s.clients[c].worker;
    assert Wired(t, c) && Routed(s.clients, w, s.workers[w]);
    if c == Subject(s, step) {
      StoppedActs(s, step, c, k);
    } else {
      StoppedOther(s, step, c, k);
    }
  }

  lemma StoppedOther(s: State, step: Step, c: nat, k: nat)
    requires Inv(s) && Enabled(s, step) && Stopped(s, c, k) && c != Subject(s, step)
    ensures Stopped(Next(s, step), c, k)
  {
    hide WireInv, Serialize, FrameBytes, Body, Outgoing, Honest, Frames, Mine;
    StepFrame(s, step);
    assert Routed(s.clients, s.clients[c].worker, s.workers[s.clients[c].worker]);
  }

  lemma {:induction false} StoppedRuns(s: State, steps: seq<Step>, t: State, c: nat, k: nat)
    requires Inv(s) && Runs(s, steps, t) && Stopped(s, c, k)
    ensures Stopped(t, c, k)
    decreases |steps|
  {
    if steps != [] {
      StoppedStep(s, steps[0], c, k);
      InvStep(s, steps[0]);
      StoppedRuns(Next(s, steps[0]), steps[1..], t, c, k);
    }
  }

  /** Once a session is marked closed, no job gets out that was not taken before. */
  lemma MarkClosedStops(s: State, c: nat, steps: seq<Step>, t: State)
    requires Inv(s) && c < |s.clients| && Runs(Next(s, MarkClosed(c)), steps, t)
    ensures c < |t.clients| && t.clients[c].closed && t.clients[c].history.whole <= s.clients[c].history.taken
  {
    InvStep(s, MarkClosed(c));
    assert Wired(s, c);
    StoppedRuns(Next(s, MarkClosed(c)), steps, t, c, s.clients[c].history.taken);
    hide Next, Inv, WireInv;
  }

  /** Once its socket is closed, nothing gets out. */
  lemma CloseSocketStops(s: State, c: nat, steps: seq<Step>, t: State)
    requires c < |s.clients| && s.clients[c].closed && Runs(Next(s, CloseSocket(c)), steps, t)
    ensures c < |t.clients| && t.clients[c].sock == s.clients[c].sock
  {
    SilentRuns(Next(s, CloseSocket(c)), steps, t, c);
  }

  lemma SilentStep(s: State, step: Step, c: nat)
    requires Enabled(s, step) && c < |s.clients| && !s.clients[c].open
    ensures var t := Next(s, step);
            c < |t.clients| && !t.clients[c].open && t.clients[c].sock == s.clients[c].sock
  {
    hide Serialize, FrameBytes, Outgoing, Honest, Frames, Mine;
  }

  lemma {:induction false} SilentRuns(s: State, steps: seq<Step>, t: State, c: nat)
    requires c < |s.clients| && !s.clients[c].open && Runs(s, steps, t)
    ensures c < |t.clients| && t.clients[c].sock == s.clients[c].sock
    decreases |steps|
  {
    if steps != [] {
      SilentStep(s, steps[0], c);
      SilentRuns(Next(s, steps[0]), steps[1..], t, c);
    }
  }
}
