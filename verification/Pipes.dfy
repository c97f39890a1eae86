/** A pipe shared by any number of readers and writers. The kernel runs a process from one place where
    it can sleep to the next without another running, so those stretches are the steps
    (kernel/pipe.c, kernel/fio.c). */
module Pipes {
  /** The most a pipe may hold when a write begins, and the most one write adds. */
  const PIPSIZ: nat := 4096

  datatype Job = Read(n: nat) | Write(rest: seq<int>) | Close

  /** Where a process is: outside the pipe code; waiting for the lock; waiting for data or room; or holding
      the lock and moving bytes. A process that waits is asleep until it is woken, and then runs the loop
      again. */
  datatype Pc =
    | Idle
    | Gone
    | Lock(job: Job, asleep: bool)
    | Park(job: Job, asleep: bool)
    | Reading(left: nat, at: nat)
    | Writing(todo: seq<int>, rest: seq<int>)

  datatype Proc = Proc(reader: bool, pc: Pc)

  /** The inode of the pipe and the read offset, the processes that hold an end of it, and for the record
      who has the lock and what has gone in and come out. */
  datatype Pipe = Pipe(data: seq<int>, off: nat, locked: bool, want: bool, iread: bool, iwrite: bool, ends: nat,
                       procs: seq<Proc>, holder: int, written: seq<int>, taken: seq<int>)

  datatype Channel = OnLock | OnRead | OnWrite

  function Woken(pc: Pc, c: Channel): Pc {
    match pc
    case Lock(job, true) => if c == OnLock then Lock(job, false) else pc
    case Park(Read(n), true) => if c == OnRead then Park(Read(n), false) else pc
    case Park(Write(rest), true) => if c == OnWrite then Park(Write(rest), false) else pc
    case _ => pc
  }

  /** Everyone asleep on a channel becomes ready to run. */
  function Wakeup(s: Pipe, c: Channel): Pipe {
    s.(procs := seq(|s.procs|, i requires 0 <= i < |s.procs| => s.procs[i].(pc := Woken(s.procs[i].pc, c))))
  }

  function Prele(s: Pipe): Pipe {
    var t := s.(locked := false, holder := -1);
    if t.want then Wakeup(t.(want := false), OnLock) else t
  }

  function At(s: Pipe, p: nat, pc: Pc): Pipe
    requires p < |s.procs|
  {
    s.(procs := s.procs[p := s.procs[p].(pc := pc)])
  }

  function Min(a: nat, b: nat): nat {
    if a < b then a else b
  }

  /** From the top of the loop: take the lock, or go to sleep on it. */
  function Enter(s: Pipe, p: nat, job: Job): Pipe
    requires p < |s.procs|
  {
    if s.locked then At(s.(want := true), p, Lock(job, true))
    else
      var t := s.(locked := true, holder := p);
      match job
      case Read(n) =>
        if s.data == [] then
          var u := Prele(t);
          if s.ends < 2 then At(u, p, Idle) else At(u.(iread := true), p, Park(job, true))
        else At(t, p, Reading(n, s.off))
      case Write(rest) =>
        if rest == [] || s.ends < 2 then At(Prele(t), p, Idle)
        else if |s.data| >= PIPSIZ then At(Prele(t.(iwrite := true)), p, Park(job, true))
        else var k := Min(|rest|, PIPSIZ); At(t, p, Writing(rest[..k], rest[k..]))
      case Close =>
        var u := Wakeup(Wakeup(t.(iread := false, iwrite := false), OnWrite), OnRead);
        At(Prele(u.(ends := if u.ends > 0 then u.ends - 1 else 0)), p, Gone)
  }

  /** Some other process holds the same end as `p`. */
  predicate Shared(s: Pipe, p: nat)
    requires p < |s.procs|
  {
    exists q :: 0 <= q < |s.procs| && q != p && s.procs[q].reader == s.procs[p].reader && !s.procs[q].pc.Gone?
  }

  datatype Op = Begin(p: nat, job: Job) | Fork(p: nat) | Retry(p: nat) | Advance(p: nat, k: nat) | Finish(p: nat) | Abort(p: nat)

  predicate Fits(job: Job, reader: bool) {
    match job
    case Read(_) => reader
    case Write(_) => !reader
    case Close => true
  }

  predicate Enabled(s: Pipe, op: Op) {
    && op.p < |s.procs|
    && var pc := s.procs[op.p].pc;
    match op
    case Begin(_, job) => pc.Idle? && Fits(job, s.procs[op.p].reader)
    case Fork(_) => pc.Idle?
    case Retry(_) => (pc.Lock? || pc.Park?) && !pc.asleep
    case Advance(_, k) =>
      (pc.Reading? && k <= pc.left && pc.at + k <= |s.data|) || (pc.Writing? && k <= |pc.todo|)
    case Finish(_) =>
      (pc.Reading? && (pc.left == 0 || pc.at == |s.data|)) || (pc.Writing? && pc.todo == [])
    case Abort(_) => pc.Park?
  }

  /** A read that has moved all it can: a reader that has caught up empties the pipe and lets writers in. */
  function ReadDone(s: Pipe, p: nat): Pipe
    requires p < |s.procs| && s.procs[p].pc.Reading?
  {
    var at := s.procs[p].pc.at;
    var t := if at != |s.data| then s.(off := at)
             else
               var e := s.(off := 0, data := []);
               if e.iwrite then Wakeup(e.(iwrite := false), OnWrite) else e;
    At(Prele(t), p, Idle)
  }

  function WriteDone(s: Pipe, p: nat): Pipe
    requires p < |s.procs|
  {
    var t := Prele(s);
    At(if t.iread then Wakeup(t.(iread := false), OnRead) else t, p, Idle)
  }

  function Step(s: Pipe, op: Op): Pipe
    requires Enabled(s, op)
  {
    var p := op.p;
    var pc := s.procs[p].pc;
    match op
    case Begin(_, job) => if job.Close? && Shared(s, p) then At(s, p, Gone) else Enter(s, p, job)
    case Fork(_) => s.(procs := s.procs + [s.procs[p]])
    case Retry(_) => Enter(s, p, pc.job)
    case Advance(_, k) =>
      if pc.Reading? then At(s.(taken := s.taken + s.data[pc.at..pc.at + k]), p, Reading(pc.left - k, pc.at + k))
      else At(s.(data := s.data + pc.todo[..k], written := s.written + pc.todo[..k]), p, Writing(pc.todo[k..], pc.rest))
    case Finish(_) => if pc.Reading? then ReadDone(s, p) else Enter(WriteDone(s, p), p, Write(pc.rest))
    case Abort(_) => At(s, p, Idle)
  }

  /** The lock's holder is a writer. */
  predicate WriterIn(s: Pipe) {
    0 <= s.holder < |s.procs| && s.procs[s.holder].pc.Writing?
  }

  /** What holds of each process: its flag is set and its wait is not over while it sleeps, and it moves
      bytes only with the lock. */
  ghost predicate ProcOk(s: Pipe, p: nat)
    requires p < |s.procs|
  {
    var reader, pc := s.procs[p].reader, s.procs[p].pc;
    match pc
    case Idle => p != s.holder
    case Gone => p != s.holder
    case Lock(job, asleep) =>
      p != s.holder && Fits(job, reader) && (asleep ==> s.locked && s.want) && (job.Close? ==> !Shared(s, p))
    case Park(job, asleep) =>
      && p != s.holder && Fits(job, reader) && !job.Close?
      && (asleep ==> s.ends == 2)
      && (asleep && job.Read? ==> s.iread && (s.data == [] || WriterIn(s)))
      && (asleep && job.Write? ==> s.iwrite && |s.data| >= PIPSIZ)
    case Reading(_, at) => p == s.holder && reader && s.data != [] && s.off <= at <= |s.data|
    case Writing(todo, _) => p == s.holder && !reader && |s.data| + |todo| < 2 * PIPSIZ
  }

  /** How far the data has been read. */
  function Mark(s: Pipe): nat {
    if 0 <= s.holder < |s.procs| && s.procs[s.holder].pc.Reading? then s.procs[s.holder].pc.at else s.off
  }

  /** What was written is what was read and what is left, in that order. */
  ghost predicate Flow(s: Pipe) {
    && Mark(s) <= |s.data| < 2 * PIPSIZ && s.written == s.taken + s.data[Mark(s)..]
    && (if s.data == [] then s.off == 0 else s.off < |s.data|)
  }

  ghost predicate Locking(s: Pipe) {
    && (s.locked <==> s.holder != -1)
    && (s.locked ==> 0 <= s.holder < |s.procs| && (s.procs[s.holder].pc.Reading? || s.procs[s.holder].pc.Writing?))
    && (s.want ==> s.locked)
  }

  ghost predicate Live(s: Pipe, reader: bool) {
    exists p :: 0 <= p < |s.procs| && s.procs[p].reader == reader && !s.procs[p].pc.Gone?
  }

  /** The inode counts the ends somebody still holds. */
  ghost predicate Ends(s: Pipe) {
    s.ends == (if Live(s, true) then 1 else 0) + (if Live(s, false) then 1 else 0)
  }

  ghost predicate Inv(s: Pipe) {
    Locking(s) && Flow(s) && Ends(s) && forall p :: 0 <= p < |s.procs| ==> ProcOk(s, p)
  }
}
