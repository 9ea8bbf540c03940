/** SendJob, SendMessage, SendMessage2 and NextSeq of comet/server.go on the
    objects they work on. Each is proved against the functions that the steps
    of Delivery are made of. */
module Sender {
  import opened Message
  import opened Sequences
  import opened Delivery

  const MAX_WAITING_MSGS := 20

  class Socket {
    var out: seq<byte>
    var open: bool
    var script: seq<WriteOutcome> // how the coming writes end

    method Write(b: seq<byte>) returns (ok: bool, ghost outcome: WriteOutcome)
      modifies this
      ensures open == old(open)
      ensures ok <==> outcome.Written?
      ensures outcome.Written? ==> open && out == old(out) + b
      ensures outcome.Failed? ==> outcome.sent <= |b| && out == old(out) + b[..outcome.sent]
      ensures outcome.Failed? && !open ==> outcome.sent == 0
    {
      var wanted := if script == [] then Written else script[0];
      if script != [] {
        script := script[1..];
      }
      if open && wanted.Written? {
        out := out + b;
        return true, Written;
      }
      var n := if open && wanted.sent <= |b| then wanted.sent else 0;
      out := out + b[..n];
      return false, Failed(n);
    }
  }

  /** What queueing a job, perhaps with a number of its own, makes of the client. */
  ghost function Queueing(c: Client, job: Job, numbered: bool): Client
    requires job.Send?
  {
    AfterEnqueue(if numbered then AfterAllocate(c, job.reply) else c, job)
  }

  class Session {
    const id: nat
    const worker: nat
    const conn: Socket
    const jobChannel: JobQueue<SendJob>
    var closed: bool
    var nextSeq: uint32
    var replyChannels: map<uint32, nat>
    ghost var replies: seq<(nat, uint32)>
    ghost var history: History

    constructor (id: nat, worker: nat, conn: Socket, jobChannel: JobQueue<SendJob>)
      requires conn.open && conn.out == []
      ensures this.id == id && this.conn == conn && this.jobChannel == jobChannel
      ensures View() == NewClient(worker)
    {
      this.id, this.worker, this.conn, this.jobChannel := id, worker, conn, jobChannel;
      closed, nextSeq, replyChannels := false, 1, map[];
      replies, history := [], History([], 0, 0, [], 0, map[], {}, {}, {});
    }

    ghost function View(): Client
      reads this, conn
    {
      Client(worker, closed, conn.open, conn.out, nextSeq, replyChannels, replies, history)
    }

    /** `reply` is the channel that will wait for this number, if any. */
    method NextSeq(ghost reply: Option<nat>) returns (seqNo: uint32)
      modifies this`nextSeq, this`history
      ensures seqNo == nextSeq && View() == AfterAllocate(old(View()), reply)
    {
      history := AfterAllocate(View(), reply).history;
      nextSeq := (nextSeq + 1) % 0x1_0000_0000;
      seqNo := nextSeq;
    }

    method Queue(job: SendJob)
      modifies this`history, jobChannel
      ensures jobChannel.jobs == old(jobChannel.jobs) + [job]
      ensures View() == AfterEnqueue(old(View()), old(job.Value()))
    {
      history := AfterEnqueue(View(), job.Value()).history;
      jobChannel.jobs := jobChannel.jobs + [job];
    }

    /** A write to the socket; a failure marks the session closed. */
    method Put(b: seq<byte>, ghost frame: seq<byte>) returns (ok: bool, ghost outcome: WriteOutcome)
      modifies this`closed, this`history, conn
      ensures ok <==> outcome.Written?
      ensures outcome.Failed? ==> outcome.sent <= |b|
      ensures View() == AfterWrite(old(View()), b, frame, outcome)
    {
      ok, outcome := conn.Write(b);
      history := AfterWrite(old(View()), b, frame, outcome).history;
      if !ok {
        closed := true;
      }
    }

    /** Queues one job with a header of its own. Nothing happens when a reply is
        wanted and too many are being waited for. */
    method SendMessage(msgType: byte, seqNo: uint32, body: Option<seq<byte>>, reply: Option<nat>)
      returns (used: uint32, ok: bool)
      modifies this`nextSeq, this`history, jobChannel
      ensures ok <==> !(reply.Some? && |replyChannels| >= MAX_WAITING_MSGS)
      ensures !ok ==> used == 0 && View() == old(View()) && jobChannel.jobs == old(jobChannel.jobs)
      ensures ok ==>
                && used == (if seqNo == 0 then nextSeq else seqNo)
                && |jobChannel.jobs| == |old(jobChannel.jobs)| + 1
                && jobChannel.jobs[..|old(jobChannel.jobs)|] == old(jobChannel.jobs)
                && var job := jobChannel.jobs[|old(jobChannel.jobs)|];
                   && fresh(job) && fresh(job.header) && job.client == this
                   && job.Value() == Send(id, job.header.value, body, used, reply)
                   && job.header.value.msgType == msgType && job.header.value.seqNo == used
                   && (msgType != 0 && (body.Some? ==> |body.value| < 0x1_0000_0000) ==> Honest(job.Value()))
                   && View() == Queueing(old(View()), job.Value(), seqNo == 0)
    {
      if reply.Some? && |replyChannels| >= MAX_WAITING_MSGS {
        return 0, false;
      }
      var bodyLen := 0;
      if body.Some? {
        bodyLen := |body.value|;
      }
      used := seqNo;
      if used == 0 {
        used := NextSeq(reply);
      }
      var header := new HeaderRef(Header(msgType, 0, used, bodyLen % 0x1_0000_0000));
      var job := new SendJob(this, header, body, used, reply);
      Queue(job);
      ok := true;
    }

    /** Queues one job that points to the caller's header. */
    method SendMessage2(header: HeaderRef, body: seq<byte>) returns (used: uint32)
      modifies this`nextSeq, this`history, jobChannel
      ensures used == nextSeq
      ensures |jobChannel.jobs| == |old(jobChannel.jobs)| + 1
      ensures jobChannel.jobs[..|old(jobChannel.jobs)|] == old(jobChannel.jobs)
      ensures var job := jobChannel.jobs[|old(jobChannel.jobs)|];
              && job.header == header && job.client == this
              && job.Value() == Send(id, header.value, Some(body), used, None)
              && View() == Queueing(old(View()), job.Value(), true)
      ensures header.value == old(header.value)
    {
      used := NextSeq(None);
      var job := new SendJob(this, header, Some(body), used, None);
      Queue(job);
    }

    /** The waiting command gives up. */
    method MsgTimeout(seqNo: uint32)
      modifies this`replyChannels, this`history
      ensures replyChannels == old(replyChannels) - {seqNo}
      ensures View() == AfterTimeout(old(View()), seqNo)
    {
      history := AfterTimeout(View(), seqNo).history;
      replyChannels := replyChannels - {seqNo};
    }

    /** The channel leaves the table before the reply is sent on it. */
    method HandleCmdReply(seqNo: uint32)
      modifies this`replyChannels, this`replies
      ensures replyChannels == old(replyChannels) - {seqNo}
      ensures replies == if seqNo in old(replyChannels) then old(replies) + [(old(replyChannels)[seqNo], seqNo)]
                         else old(replies)
      ensures View() == AfterCmdReply(old(View()), seqNo)
    {
      if seqNo in replyChannels {
        var channel := replyChannels[seqNo];
        replyChannels := replyChannels - {seqNo};
        replies := replies + [(channel, seqNo)];
      }
    }
  }

  /** What running a whole job does to its client. */
  ghost function AfterJob(c: Client, job: Job, first: WriteOutcome, second: WriteOutcome): Client
    requires job.Send?
    requires first.Failed? ==> first.sent <= HEADER_SIZE
    requires second.Failed? ==> second.sent <= |Body(job)|
  {
    var taken := c.(history := c.history.(taken := c.history.taken + 1));
    if c.closed then taken
    else
      var header := AfterWrite(taken, Serialize(Outgoing(job)), FrameBytes(job), first);
      if first.Failed? then header
      else if job.body.None? then AfterRegister(header, job)
      else
        var whole := AfterWrite(header, Body(job), FrameBytes(job), second);
        if second.Failed? then whole else AfterRegister(whole, job)
  }

  class SendJob {
    const client: Session
    const header: HeaderRef
    const body: Option<seq<byte>>
    const seqNo: uint32
    const reply: Option<nat>

    constructor (client: Session, header: HeaderRef, body: Option<seq<byte>>, seqNo: uint32, reply: Option<nat>)
      ensures this.client == client && this.header == header && this.body == body
      ensures this.seqNo == seqNo && this.reply == reply
    {
      this.client, this.header, this.body, this.seqNo, this.reply := client, header, body, seqNo, reply;
    }

    ghost function Value(): Job
      reads header
    {
      Send(client.id, header.value, body, seqNo, reply)
    }

    /** Works on a copy of the header, which other clients' jobs may share. */
    method Do() returns (ghost first: WriteOutcome, ghost second: WriteOutcome)
      modifies client, client.conn
      ensures header.value == old(header.value)
      ensures first.Failed? ==> first.sent <= HEADER_SIZE
      ensures second.Failed? ==> second.sent <= |Body(Value())|
      ensures client.View() == AfterJob(old(client.View()), old(Value()), first, second)
    {
      hide Serialize, FrameBytes, AfterWrite;
      first, second := Written, Written;
      client.history := client.history.(taken := client.history.taken + 1);
      if client.closed {
        return;
      }
      var copy := header.value.(seqNo := seqNo);
      var ok;
      ok, first := client.Put(Serialize(copy), FrameBytes(Value()));
      if !ok {
        return;
      }
      if body.Some? {
        ok, second := client.Put(body.value, FrameBytes(Value()));
        if !ok {
          return;
        }
      }
      if reply.Some? {
        client.replyChannels := client.replyChannels[copy.seqNo := reply.value];
        client.history := client.history.(registered := client.history.registered + {reply.value});
      }
    }
  }

  /** A job that was run, with the ends of its writes. */
  datatype Ran = Ran(client: Session, job: Job, first: WriteOutcome, second: WriteOutcome)

  ghost predicate Possible(r: Ran) {
    && r.job.Send?
    && (r.first.Failed? ==> r.first.sent <= HEADER_SIZE)
    && (r.second.Failed? ==> r.second.sent <= |Body(r.job)|)
  }

  ghost function AfterRan(x: Session, c: Client, r: Ran): Client
    requires Possible(r)
  {
    if r.client == x then AfterJob(c, r.job, r.first, r.second) else c
  }

  /** What became of a client after some jobs: only its own concern it. */
  ghost function AfterRuns(x: Session, c: Client, ran: seq<Ran>): Client
    requires forall i :: 0 <= i < |ran| ==> Possible(ran[i])
  {
    if ran == [] then c
    else
      var before, last := AfterRuns(x, c, ran[..|ran| - 1]), ran[|ran| - 1];
      AfterRan(x, before, last)
  }

  lemma AfterNone(x: Session, c: Client)
    ensures AfterRuns(x, c, []) == c
  {
  }

  lemma AfterOneMore(x: Session, c: Client, ran: seq<Ran>, r: Ran)
    requires Possible(r) && forall i :: 0 <= i < |ran| ==> Possible(ran[i])
    ensures AfterRuns(x, c, ran + [r]) == AfterRan(x, AfterRuns(x, c, ran), r)
  {
    hide AfterRan;
    assert (ran + [r])[..|ran|] == ran;
  }

  ghost predicate OwnConnections(clients: set<Session>) {
    forall x, y :: x in clients && y in clients && x.conn == y.conn ==> x == y
  }

  class JobWorker {
    const jobChannel: JobQueue<SendJob>
    var stops: seq<bool> // whether the coming selects see the stop

    constructor (jobChannel: JobQueue<SendJob>)
      ensures this.jobChannel == jobChannel
    {
      this.jobChannel := jobChannel;
    }

    method TakeJob(ghost clients: set<Session>) returns (ghost r: Ran)
      requires OwnConnections(clients) && jobChannel.jobs != [] && jobChannel.jobs[0].client in clients
      modifies jobChannel, jobChannel.jobs[0].client, jobChannel.jobs[0].client.conn
      ensures jobChannel.jobs == old(jobChannel.jobs)[1..]
      ensures Possible(r) && r.client == old(jobChannel.jobs)[0].client && r.job == old(jobChannel.jobs[0].Value())
      ensures forall x :: x in clients ==> x.View() == AfterRan(x, old(x.View()), r)
    {
      hide AfterJob;
      var job := jobChannel.jobs[0];
      jobChannel.jobs := jobChannel.jobs[1..];
      label before:
      ghost var first, second := job.Do();
      r := Ran(job.client, job.Value(), first, second);
      forall x | x in clients
        ensures x.View() == AfterRan(x, old(x.View()), r)
      {
        if x != job.client {
          assert x.View() == old@before(x.View());
        }
      }
    }

    /** Runs the queued jobs one after the other, from the front, until it is
        stopped or has to wait. `clients` are all clients of this worker. */
    method Run(ghost clients: set<Session>, ghost conns: set<Socket>) returns (ghost ran: seq<Ran>)
      requires OwnConnections(clients) && forall x :: x in clients ==> x.conn in conns
      requires forall j :: j in jobChannel.jobs ==> j.client in clients
      modifies this, jobChannel, clients, conns
      ensures |ran| <= |old(jobChannel.jobs)| && jobChannel.jobs == old(jobChannel.jobs)[|ran|..]
      ensures true !in old(stops) ==> jobChannel.jobs == []
      ensures forall i :: 0 <= i < |ran| ==>
                && Possible(ran[i]) && ran[i].client == old(jobChannel.jobs)[i].client
                && ran[i].job == old(jobChannel.jobs[i].Value())
      ensures forall x :: x in clients ==> x.View() == AfterRuns(x, old(x.View()), ran)
    {
      hide AfterRan, AfterRuns, Possible, Session.View, SendJob.Value, OwnConnections;
      ghost var all := jobChannel.jobs;
      ran := [];
      forall x | x in clients
        ensures AfterRuns(x, x.View(), []) == x.View()
      {
        AfterNone(x, x.View());
      }
      while jobChannel.jobs != []
        invariant |ran| <= |all| && jobChannel.jobs == all[|ran|..]
        invariant true !in old(stops) ==> true !in stops
        invariant forall i :: 0 <= i < |all| ==> all[i].Value() == old(all[i].Value())
        invariant forall i :: 0 <= i < |ran| ==>
                    Possible(ran[i]) && ran[i].client == all[i].client && ran[i].job == old(all[i].Value())
        invariant forall x :: x in clients ==> x.View() == AfterRuns(x, old(x.View()), ran)
        decreases |jobChannel.jobs|
      {
        if stops != [] {
          var stop := stops[0];
          stops := stops[1..];
          if stop {
            return;
          }
        }
        assert jobChannel.jobs[0] == all[|ran|];
        ghost var r := TakeJob(clients);
        forall x | x in clients
          ensures AfterRuns(x, old(x.View()), ran + [r]) == AfterRan(x, AfterRuns(x, old(x.View()), ran), r)
        {
          AfterOneMore(x, old(x.View()), ran, r);
        }
        ran := ran + [r];
      }
    }
  }

  ghost predicate Finished(s: State, w: nat, job: Job, after: Client, t: State)
    requires w < |s.workers| && job.Send? && job.client < |s.clients|
  {
    && t.clients == s.clients[job.client := after]
    && t.workers == s.workers[w := Worker(s.workers[w].queue, Idle)]
  }

  lemma RunBody(s: State, w: nat, second: WriteOutcome) returns (steps: seq<Step>, t: State)
    requires w < |s.workers| && s.workers[w].running.AtBody? && s.workers[w].running.job.Send?
    requires var job := s.workers[w].running.job;
             CanWrite(s, job, second, |Body(job)|)
    ensures Runs(s, steps, t)
    ensures var job := s.workers[w].running.job;
            var after := AfterWrite(s.clients[job.client], Body(job), FrameBytes(job), second);
            Finished(s, w, job, if second.Failed? then after else AfterRegister(after, job), t)
  {
    hide Serialize, FrameBytes, AfterWrite, AfterRegister, Outgoing, Runs;
    t := Next(s, WriteBody(w, second));
    RunsOne(s, WriteBody(w, second));
    steps := [WriteBody(w, second)];
    if second.Written? {
      RunsOne(t, Register(w));
      RunsCons(s, WriteBody(w, second), [Register(w)], Next(t, Register(w)));
      steps, t := steps + [Register(w)], Next(t, Register(w));
    }
  }

  lemma RunHeader(s: State, w: nat, first: WriteOutcome, second: WriteOutcome) returns (steps: seq<Step>, t: State)
    requires w < |s.workers| && s.workers[w].running.AtHeader?
    requires var job := s.workers[w].running.job;
             CanWrite(s, job, first, HEADER_SIZE) && CanWrite(s, job, second, |Body(job)|)
    ensures Runs(s, steps, t)
    ensures var job := s.workers[w].running.job;
            var header := AfterWrite(s.clients[job.client], Serialize(Outgoing(job)), FrameBytes(job), first);
            var whole := AfterWrite(header, Body(job), FrameBytes(job), second);
            Finished(s, w, job,
                     if first.Failed? then header
                     else if job.body.None? then AfterRegister(header, job)
                     else if second.Failed? then whole else AfterRegister(whole, job), t)
  {
    var job := s.workers[w].running.job;
    var next := Next(s, WriteHeader(w, first));
    assert next.clients[job.client].open == s.clients[job.client].open;
    hide Serialize, FrameBytes, AfterWrite, AfterRegister, Outgoing, Runs;
    var rest := [];
    t := next;
    if first.Written? && job.body.None? {
      rest, t := [Register(w)], Next(next, Register(w));
      RunsOne(next, Register(w));
    } else if first.Written? {
      rest, t := RunBody(next, w, second);
    } else {
      RunsNone(next);
    }
    RunsCons(s, WriteHeader(w, first), rest, t);
    steps := [WriteHeader(w, first)] + rest;
  }

  /** Running a job without interruption is a run of the machine. */
  lemma DoIsARun(s: State, w: nat, first: WriteOutcome, second: WriteOutcome) returns (steps: seq<Step>, t: State)
    requires Enabled(s, Take(w)) && s.workers[w].queue[0].Send?
    requires var job := s.workers[w].queue[0];
             && CanWrite(s, job, first, HEADER_SIZE) && CanWrite(s, job, second, |Body(job)|)
    ensures Runs(s, steps, t)
    ensures var job := s.workers[w].queue[0];
            && t.clients == s.clients[job.client := AfterJob(s.clients[job.client], job, first, second)]
            && t.workers == s.workers[w := Worker(s.workers[w].queue[1..], Idle)]
  {
    var job := s.workers[w].queue[0];
    var next := Next(s, Take(w));
    hide Serialize, FrameBytes, AfterWrite, AfterRegister, Outgoing, Runs;
    var rest := [];
    t := next;
    if s.clients[job.client].closed {
      RunsNone(next);
    } else {
      rest, t := RunHeader(next, w, first, second);
    }
    RunsCons(s, Take(w), rest, t);
    steps := [Take(w)] + rest;
  }

  /** Queueing a job with a new number is a run of the machine. */
  lemma SendIsARun(s: State, job: Job) returns (steps: seq<Step>, t: State)
    requires job.Send? && Honest(job) && job.client < |s.clients| && s.clients[job.client].worker < |s.workers|
    requires var c := s.clients[job.client];
             && job.seqNo == (c.nextSeq + 1) % 0x1_0000_0000 && c.history.allocs + 1 < 0x1_0000_0000
             && (job.reply.Some? ==> job.reply.value !in c.history.issued)
    ensures steps == [Allocate(job.client, job.reply), Enqueue(job.client, job)] && Runs(s, steps, t)
    ensures Queued(s, job, Queueing(s.clients[job.client], job, true), t)
  {
    hide Serialize, FrameBytes, Outgoing, Honest, Runs;
    var next := Next(s, Allocate(job.client, job.reply));
    t := Next(next, Enqueue(job.client, job));
    RunsOne(next, Enqueue(job.client, job));
    RunsCons(s, Allocate(job.client, job.reply), [Enqueue(job.client, job)], t);
    steps := [Allocate(job.client, job.reply)] + [Enqueue(job.client, job)];
  }

  /** So is queueing an answer, which takes the number of what it answers. */
  lemma AnswerIsARun(s: State, job: Job) returns (steps: seq<Step>, t: State)
    requires job.Send? && Honest(job) && job.client < |s.clients| && s.clients[job.client].worker < |s.workers|
    requires job.reply == None
    ensures steps == [Enqueue(job.client, job)] && Runs(s, steps, t)
    ensures Queued(s, job, Queueing(s.clients[job.client], job, false), t)
  {
    hide Serialize, FrameBytes, Outgoing, Honest, Runs;
    steps, t := [Enqueue(job.client, job)], Next(s, Enqueue(job.client, job));
    RunsOne(s, Enqueue(job.client, job));
  }

  /** The client has become `after` and the job is the last of its worker's. */
  ghost predicate Queued(s: State, job: Job, after: Client, t: State)
    requires job.Send? && job.client < |s.clients| && s.clients[job.client].worker < |s.workers|
  {
    var w := s.clients[job.client].worker;
    && t.clients == s.clients[job.client := after]
    && t.workers == s.workers[w := s.workers[w].(queue := s.workers[w].queue + [job])]
  }

  lemma RunsNone(s: State)
    ensures Runs(s, [], s)
  {
  }

  lemma RunsOne(s: State, step: Step)
    requires Enabled(s, step)
    ensures Runs(s, [step], Next(s, step))
  {
    RunsCons(s, step, [], Next(s, step));
  }

  lemma RunsCons(s: State, step: Step, rest: seq<Step>, t: State)
    requires Enabled(s, step) && Runs(Next(s, step), rest, t)
    ensures Runs(s, [step] + rest, t)
  {
    assert ([step] + rest)[1..] == rest;
    hide Enabled, Next;
  }
}
