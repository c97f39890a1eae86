/** Every interleaving of reads, writes, forks, closes and interrupted waits on a pipe keeps its bytes in
    order and never leaves a process asleep with nothing to wake it (kernel/pipe.c, kernel/fio.c). */
module PipeRuns {
  import opened Pipes

  /** The same processes hold the same ends. */
  ghost predicate SameEnds(s: Pipe, t: Pipe) {
    && |t.procs| == |s.procs|
    && (forall q :: 0 <= q < |s.procs| ==> t.procs[q].reader == s.procs[q].reader && (t.procs[q].pc.Gone? <==> s.procs[q].pc.Gone?))
  }

  lemma SameLive(s: Pipe, t: Pipe, reader: bool)
    requires SameEnds(s, t)
    ensures Live(t, reader) <==> Live(s, reader)
  {
    if Live(s, reader) {
      var p :| 0 <= p < |s.procs| && s.procs[p].reader == reader && !s.procs[p].pc.Gone?;
      assert t.procs[p].reader == reader;
    }
    if Live(t, reader) {
      var p :| 0 <= p < |t.procs| && t.procs[p].reader == reader && !t.procs[p].pc.Gone?;
      assert s.procs[p].reader == reader;
    }
  }

  lemma SameShared(s: Pipe, t: Pipe, p: nat)
    requires SameEnds(s, t) && p < |s.procs|
    ensures Shared(t, p) <==> Shared(s, p)
  {
    if Shared(s, p) {
      var q :| 0 <= q < |s.procs| && q != p && s.procs[q].reader == s.procs[p].reader && !s.procs[q].pc.Gone?;
      assert t.procs[q].reader == t.procs[p].reader;
    }
    if Shared(t, p) {
      var q :| 0 <= q < |t.procs| && q != p && t.procs[q].reader == t.procs[p].reader && !t.procs[q].pc.Gone?;
      assert s.procs[q].reader == s.procs[p].reader;
    }
  }

  lemma Combine(s: Pipe, t: Pipe)
    requires Ends(s) && SameEnds(s, t) && t.ends == s.ends
    requires Locking(t) && Flow(t) && forall q :: 0 <= q < |t.procs| ==> ProcOk(t, q)
    ensures Inv(t)
  {
    SameLive(s, t, true);
    SameLive(s, t, false);
  }

  /** A process at the top of the loop. */
  ghost predicate Ready(s: Pipe, p: nat) {
    && p < |s.procs|
    && var pc := s.procs[p].pc;
    pc.Idle? || (pc.Lock? && !pc.asleep) || (pc.Park? && !pc.asleep)
  }

  /** A process that goes somewhere outside the lock while the pipe stays as it is. */
  lemma MoveKeeps(s: Pipe, p: nat, pc: Pc)
    requires Inv(s) && p < |s.procs| && p != s.holder
    requires !s.procs[p].pc.Gone? && !pc.Gone? && !pc.Reading? && !pc.Writing?
    requires ProcOk(At(s, p, pc), p)
    ensures Inv(At(s, p, pc))
  {
    hide Shared, Live;
    var t := At(s, p, pc);
    assert WriterIn(t) == WriterIn(s);
    forall q | 0 <= q < |t.procs| ensures ProcOk(t, q) {
      assert ProcOk(s, q);
      SameShared(s, t, q);
    }
    Combine(s, t);
  }

  /** Flags that only say that somebody may be waiting can go up at any time. */
  lemma FlagsKeep(s: Pipe, want: bool, iread: bool, iwrite: bool)
    requires Inv(s) && (s.want ==> want) && (want ==> s.locked) && (s.iread ==> iread) && (s.iwrite ==> iwrite)
    ensures Inv(s.(want := want, iread := iread, iwrite := iwrite))
  {
    hide Shared, Live;
    var t := s.(want := want, iread := iread, iwrite := iwrite);
    forall q | 0 <= q < |t.procs| ensures ProcOk(t, q) {
      assert ProcOk(s, q);
      SameShared(s, t, q);
    }
    Combine(s, t);
  }

  /** Taking the lock to read or write. */
  lemma TakeKeeps(s: Pipe, p: nat, pc: Pc)
    requires Inv(s) && Ready(s, p) && !s.locked && s.ends <= 2
    requires pc.Reading? || pc.Writing?
    requires pc.Reading? ==> s.procs[p].reader && pc.at == s.off && s.data != []
    requires pc.Writing? ==> !s.procs[p].reader && |s.data| < PIPSIZ && |pc.todo| <= PIPSIZ
    ensures Inv(At(s.(locked := true, holder := p), p, pc))
  {
    hide Shared, Live;
    var t := At(s.(locked := true, holder := p), p, pc);
    forall q | 0 <= q < |t.procs| ensures ProcOk(t, q) {
      assert ProcOk(s, q);
      SameShared(s, t, q);
    }
    Combine(s, t);
  }

  lemma SharedLess(s: Pipe, t: Pipe, p: nat, q: nat)
    requires |t.procs| == |s.procs| && p < |s.procs| && q < |s.procs|
    requires forall i :: 0 <= i < |s.procs| ==> t.procs[i].reader == s.procs[i].reader && (s.procs[i].pc.Gone? ==> t.procs[i].pc.Gone?)
    ensures Shared(t, q) ==> Shared(s, q)
  {
    if Shared(t, q) {
      var i :| 0 <= i < |t.procs| && i != q && t.procs[i].reader == t.procs[q].reader && !t.procs[i].pc.Gone?;
      assert s.procs[i].reader == s.procs[q].reader;
    }
  }

  /** A quick lock and unlock while nobody holds the lock changes nothing. */
  lemma QuickLock(s: Pipe, p: nat)
    requires Locking(s) && !s.locked
    ensures Prele(s.(locked := true, holder := p)) == s
    ensures Prele(s.(locked := true, holder := p, iwrite := true)) == s.(iwrite := true)
  {
  }

  /** Waiting for the lock, or finding it free, keeps the pipe in order. */
  lemma EnterKeeps(s: Pipe, p: nat, job: Job)
    requires Inv(s) && Ready(s, p) && Fits(job, s.procs[p].reader) && (job.Close? ==> !Shared(s, p))
    ensures Inv(Enter(s, p, job))
  {
    hide Flow, Ends, Live, Prele;
    assert ProcOk(s, p);
    EndsAtMost(s);
    if s.locked {
      var t := s.(want := true);
      FlagsKeep(s, true, s.iread, s.iwrite);
      SameShared(s, At(t, p, Lock(job, true)), p);
      MoveKeeps(t, p, Lock(job, true));
    } else {
      QuickLock(s, p);
      match job
      case Read(n) =>
        if s.data != [] {
          TakeKeeps(s, p, Reading(n, s.off));
        } else if s.ends < 2 {
          MoveKeeps(s, p, Idle);
        } else {
          FlagsKeep(s, s.want, true, s.iwrite);
          MoveKeeps(s.(iread := true), p, Park(job, true));
        }
      case Write(rest) =>
        if rest == [] || s.ends < 2 {
          MoveKeeps(s, p, Idle);
        } else if |s.data| >= PIPSIZ {
          FlagsKeep(s, s.want, s.iread, true);
          MoveKeeps(s.(iwrite := true), p, Park(job, true));
        } else {
          var k := Min(|rest|, PIPSIZ);
          TakeKeeps(s, p, Writing(rest[..k], rest[k..]));
        }
      case Close => LastClose(s, p);
    }
  }

  lemma EndsAtMost(s: Pipe)
    requires Ends(s)
    ensures s.ends <= 2
  {
  }

  /** The last holder of an end lets it go: the other end's sleepers all get to see it. */
  lemma LastClose(s: Pipe, p: nat)
    requires Inv(s) && Ready(s, p) && !s.locked && !Shared(s, p)
    ensures Inv(Enter(s, p, Close))
  {
    var t := Enter(s, p, Close);
    var side := s.procs[p].reader;
    assert Live(s, side);
    CloseEnds(s, t, p);
    forall q | 0 <= q < |t.procs| ensures ProcOk(t, q) {
      assert ProcOk(s, q);
      SharedLess(s, t, p, q);
    }
  }

  lemma OtherLive(s: Pipe, t: Pipe, p: nat)
    requires |t.procs| == |s.procs| && p < |s.procs|
    requires forall i :: 0 <= i < |s.procs| ==> t.procs[i].reader == s.procs[i].reader && (i != p ==> (s.procs[i].pc.Gone? <==> t.procs[i].pc.Gone?))
    ensures Live(t, !s.procs[p].reader) <==> Live(s, !s.procs[p].reader)
  {
    var side := !s.procs[p].reader;
    if Live(s, side) {
      var i :| 0 <= i < |s.procs| && s.procs[i].reader == side && !s.procs[i].pc.Gone?;
      assert t.procs[i].reader == side;
    }
    if Live(t, side) {
      var i :| 0 <= i < |t.procs| && t.procs[i].reader == side && !t.procs[i].pc.Gone?;
      assert s.procs[i].reader == side;
    }
  }

  lemma CloseEnds(s: Pipe, t: Pipe, p: nat)
    requires |t.procs| == |s.procs| && p < |s.procs| && !Shared(s, p) && !s.procs[p].pc.Gone? && t.procs[p].pc.Gone?
    requires forall i :: 0 <= i < |s.procs| ==> t.procs[i].reader == s.procs[i].reader && (i != p ==> (s.procs[i].pc.Gone? <==> t.procs[i].pc.Gone?))
    requires Ends(s) && t.ends == s.ends - 1
    ensures Ends(t)
  {
    var side := s.procs[p].reader;
    assert Live(s, side);
    assert !Live(t, side);
    OtherLive(s, t, p);
  }

  /** Letting go of an end that others still hold. */
  lemma SharedClose(s: Pipe, p: nat)
    requires Inv(s) && p < |s.procs| && s.procs[p].pc.Idle? && Shared(s, p)
    ensures Inv(At(s, p, Gone))
  {
    var t := At(s, p, Gone);
    var side := s.procs[p].reader;
    assert Live(s, side);
    assert Live(t, side) by {
      var q :| 0 <= q < |s.procs| && q != p && s.procs[q].reader == side && !s.procs[q].pc.Gone?;
      assert t.procs[q].reader == side;
    }
    OtherLive(s, t, p);
    assert WriterIn(t) == WriterIn(s) by { assert ProcOk(s, p); }
    forall q | 0 <= q < |t.procs| ensures ProcOk(t, q) {
      assert ProcOk(s, q);
      SharedLess(s, t, p, q);
    }
  }

  /** A fork gives one more process the same end. */
  lemma ForkKeeps(s: Pipe, p: nat)
    requires Inv(s) && p < |s.procs| && s.procs[p].pc.Idle?
    ensures Inv(s.(procs := s.procs + [s.procs[p]]))
  {
    var t := s.(procs := s.procs + [s.procs[p]]);
    ForkLive(s, p, true);
    ForkLive(s, p, false);
    assert WriterIn(t) == WriterIn(s);
    forall q | 0 <= q < |t.procs| ensures ProcOk(t, q) {
      if q < |s.procs| {
        assert ProcOk(s, q);
        if !s.procs[q].pc.Idle? { ForkShared(s, p, q); }
      }
    }
  }

  lemma ForkLive(s: Pipe, p: nat, reader: bool)
    requires p < |s.procs| && !s.procs[p].pc.Gone?
    ensures Live(s.(procs := s.procs + [s.procs[p]]), reader) <==> Live(s, reader)
  {
    var t := s.(procs := s.procs + [s.procs[p]]);
    if Live(s, reader) {
      var i :| 0 <= i < |s.procs| && s.procs[i].reader == reader && !s.procs[i].pc.Gone?;
      assert t.procs[i].reader == reader;
    }
    if Live(t, reader) {
      var i :| 0 <= i < |t.procs| && t.procs[i].reader == reader && !t.procs[i].pc.Gone?;
      var j := if i < |s.procs| then i else p;
      assert s.procs[j].reader == reader;
    }
  }

  lemma ForkShared(s: Pipe, p: nat, q: nat)
    requires p < |s.procs| && q < |s.procs| && s.procs[p].pc.Idle? && !s.procs[q].pc.Idle?
    ensures Shared(s.(procs := s.procs + [s.procs[p]]), q) ==> Shared(s, q)
  {
    var t := s.(procs := s.procs + [s.procs[p]]);
    if Shared(t, q) {
      var i :| 0 <= i < |t.procs| && i != q && t.procs[i].reader == t.procs[q].reader && !t.procs[i].pc.Gone?;
      var j := if i < |s.procs| then i else p;
      assert s.procs[j].reader == s.procs[q].reader;
    }
  }

  lemma ReadMoves(s: Pipe, p: nat, k: nat)
    requires Inv(s) && Enabled(s, Advance(p, k)) && s.procs[p].pc.Reading?
    ensures Inv(Step(s, Advance(p, k)))
  {
    hide Live, Shared;
    var pc, t := s.procs[p].pc, Step(s, Advance(p, k));
    assert ProcOk(s, p);
    assert s.data[pc.at..] == s.data[pc.at..pc.at + k] + s.data[pc.at + k..];
    forall q | 0 <= q < |t.procs| ensures ProcOk(t, q) {
      assert ProcOk(s, q);
      SameShared(s, t, q);
    }
    Combine(s, t);
  }

  lemma WriteMoves(s: Pipe, p: nat, k: nat)
    requires Inv(s) && Enabled(s, Advance(p, k)) && s.procs[p].pc.Writing?
    ensures Inv(Step(s, Advance(p, k)))
  {
    hide Live, Shared;
    var pc, t := s.procs[p].pc, Step(s, Advance(p, k));
    assert ProcOk(s, p);
    assert t.data[s.off..] == s.data[s.off..] + pc.todo[..k];
    forall q | 0 <= q < |t.procs| ensures ProcOk(t, q) {
      assert ProcOk(s, q);
      SameShared(s, t, q);
    }
    Combine(s, t);
  }

  /** After a release nobody sleeps on the lock. */
  lemma Released(s: Pipe, q: nat)
    requires q < |s.procs| && (s.procs[q].pc.Lock? && s.procs[q].pc.asleep ==> s.want)
    ensures var t := Prele(s);
      && !t.locked && t.holder == -1 && !t.want && |t.procs| == |s.procs|
      && t == s.(locked := false, holder := -1, want := false, procs := t.procs)
      && t.procs[q] == s.procs[q].(pc := Woken(s.procs[q].pc, OnLock))
  {
  }

  /** The pipe once a reader has caught up, before it lets go of the lock. */
  function Drained(s: Pipe): Pipe {
    var e := s.(off := 0, data := []);
    if e.iwrite then Wakeup(e.(iwrite := false), OnWrite) else e
  }

  lemma DrainedIs(s: Pipe, q: nat)
    requires q < |s.procs| && (s.procs[q].pc.Park? && s.procs[q].pc.asleep && s.procs[q].pc.job.Write? ==> s.iwrite)
    ensures var t := Drained(s);
      && |t.procs| == |s.procs| && t == s.(off := 0, data := [], iwrite := false, procs := t.procs)
      && t.procs[q] == s.procs[q].(pc := Woken(s.procs[q].pc, OnWrite))
  {
  }

  /** A process once the lock has been released and whoever the change concerns has been woken. */
  ghost predicate Settled(s: Pipe, t: Pipe, p: nat, q: nat, c: Channel)
    requires p < |s.procs| == |t.procs| && q < |s.procs|
  {
    && t.procs[q].reader == s.procs[q].reader
    && t.procs[q].pc == if q == p then Idle else Woken(Woken(s.procs[q].pc, c), OnLock)
  }

  lemma SettledEnds(s: Pipe, t: Pipe, p: nat, c: Channel)
    requires p < |s.procs| == |t.procs| && !s.procs[p].pc.Gone?
    requires forall q :: 0 <= q < |s.procs| ==> Settled(s, t, p, q, c)
    ensures SameEnds(s, t)
  {
    forall q | 0 <= q < |s.procs|
      ensures t.procs[q].reader == s.procs[q].reader && (t.procs[q].pc.Gone? <==> s.procs[q].pc.Gone?)
    {
      assert Settled(s, t, p, q, c);
    }
  }

  lemma ReadDoneIs(s: Pipe, p: nat, q: nat)
    requires Inv(s) && p < |s.procs| && s.procs[p].pc.Reading? && q < |s.procs|
    ensures var t, full := ReadDone(s, p), s.procs[p].pc.at == |s.data|;
      && |t.procs| == |s.procs|
      && t == s.(locked := false, holder := -1, want := false, procs := t.procs, off := if full then 0 else s.procs[p].pc.at,
                 data := if full then [] else s.data, iwrite := s.iwrite && !full)
      && Settled(s, t, p, q, if full then OnWrite else OnLock)
  {
    hide Flow, Ends, Shared, Prele, Wakeup;
    assert ProcOk(s, q);
    if s.procs[p].pc.at == |s.data| {
      DrainedIs(s, q);
      Released(Drained(s), q);
    } else {
      Released(s.(off := s.procs[p].pc.at), q);
    }
  }

  lemma ReadDoneKeeps(s: Pipe, p: nat)
    requires Inv(s) && Enabled(s, Finish(p)) && s.procs[p].pc.Reading?
    ensures Inv(ReadDone(s, p))
  {
    hide Ends, Live, Shared, ReadDone;
    var t := ReadDone(s, p);
    assert ProcOk(s, p);
    var c := if s.procs[p].pc.at == |s.data| then OnWrite else OnLock;
    ReadDoneIs(s, p, p);
    forall q | 0 <= q < |s.procs| ensures Settled(s, t, p, q, c) {
      ReadDoneIs(s, p, q);
    }
    SettledEnds(s, t, p, c);
    forall q | 0 <= q < |t.procs| ensures ProcOk(t, q) {
      assert ProcOk(s, q) && Settled(s, t, p, q, c);
      SameShared(s, t, q);
    }
    Combine(s, t);
  }

  lemma WriteDoneIs(s: Pipe, p: nat, q: nat)
    requires Inv(s) && p < |s.procs| && q < |s.procs|
    ensures var t := WriteDone(s, p);
      && |t.procs| == |s.procs|
      && t == s.(locked := false, holder := -1, want := false, procs := t.procs, iread := false)
      && Settled(s, t, p, q, OnRead)
  {
    hide Flow, Ends, Shared, Prele;
    assert ProcOk(s, q);
    Released(s, q);
  }

  lemma WriteDoneKeeps(s: Pipe, p: nat)
    requires Inv(s) && Enabled(s, Finish(p)) && s.procs[p].pc.Writing?
    ensures Inv(WriteDone(s, p)) && Ready(WriteDone(s, p), p) && WriteDone(s, p).procs[p].reader == s.procs[p].reader
  {
    hide Ends, Live, Shared, WriteDone;
    var t := WriteDone(s, p);
    assert ProcOk(s, p);
    WriteDoneIs(s, p, p);
    forall q | 0 <= q < |s.procs| ensures Settled(s, t, p, q, OnRead) {
      WriteDoneIs(s, p, q);
    }
    SettledEnds(s, t, p, OnRead);
    forall q | 0 <= q < |t.procs| ensures ProcOk(t, q) {
      assert ProcOk(s, q) && Settled(s, t, p, q, OnRead);
      SameShared(s, t, q);
    }
    Combine(s, t);
  }

  /** Every step of every process keeps the pipe in order. */
  lemma StepKeeps(s: Pipe, op: Op)
    requires Inv(s) && Enabled(s, op)
    ensures Inv(Step(s, op))
  {
    hide Flow, Ends, Live, Enter, ReadDone, WriteDone, Shared;
    var p := op.p;
    var pc := s.procs[p].pc;
    assert ProcOk(s, p);
    match op
    case Begin(_, job) =>
      if job.Close? && Shared(s, p) { SharedClose(s, p); } else { EnterKeeps(s, p, job); }
    case Fork(_) => ForkKeeps(s, p);
    case Retry(_) => EnterKeeps(s, p, pc.job);
    case Advance(_, k) =>
      if pc.Reading? { ReadMoves(s, p, k); } else { WriteMoves(s, p, k); }
    case Finish(_) =>
      if pc.Reading? {
        ReadDoneKeeps(s, p);
      } else {
        WriteDoneKeeps(s, p);
        EnterKeeps(WriteDone(s, p), p, Write(pc.rest));
      }
    case Abort(_) => MoveKeeps(s, p, Idle);
  }

  /** A new pipe: one process holds both ends, as two entries here. */
  const START := Pipe([], 0, false, false, false, false, 2, [Proc(true, Idle), Proc(false, Idle)], -1, [], [])

  ghost predicate Runs(s: Pipe, ops: seq<Op>, t: Pipe)
    decreases |ops|
  {
    if ops == [] then t == s else Enabled(s, ops[0]) && Runs(Step(s, ops[0]), ops[1..], t)
  }

  lemma {:induction false} RunKeeps(s: Pipe, ops: seq<Op>, t: Pipe)
    requires Inv(s) && Runs(s, ops, t)
    ensures Inv(t)
    decreases |ops|
  {
    if ops != [] {
      StepKeeps(s, ops[0]);
      RunKeeps(Step(s, ops[0]), ops[1..], t);
    }
  }

  lemma StartLive(s: Pipe)
    requires |s.procs| == 2 && s.procs[0] == Proc(true, Idle) && s.procs[1] == Proc(false, Idle)
    ensures Live(s, true) && Live(s, false)
  {
  }

  lemma StartInv()
    ensures Inv(START)
  {
    hide Live;
    var s := START;
    StartLive(s);
    forall p | 0 <= p < |s.procs| ensures ProcOk(s, p) {
      assert s.procs[p].pc.Idle?;
    }
  }

  /** In every run of any number of processes the bytes delivered are a prefix of the bytes written, and
      the file never grows past twice the limit. */
  lemma BytesInOrder(ops: seq<Op>, s: Pipe)
    requires Runs(START, ops, s)
    ensures s.taken <= s.written && |s.data| <= 2 * PIPSIZ - 1
  {
    StartInv();
    RunKeeps(START, ops, s);
  }

  /** A sleeper's wait is never over without somebody about to wake it: the lock it waits for is held, the
      pipe it reads is empty or being written, the pipe it writes is full, and its flag is up. */
  lemma NoLostWakeup(ops: seq<Op>, s: Pipe, p: nat)
    requires Runs(START, ops, s) && p < |s.procs|
    ensures match s.procs[p].pc
      case Lock(_, true) => s.locked && s.want && 0 <= s.holder < |s.procs| && (s.procs[s.holder].pc.Reading? || s.procs[s.holder].pc.Writing?)
      case Park(Read(_), true) => s.iread && Live(s, true) && Live(s, false) && (s.data == [] || WriterIn(s))
      case Park(Write(_), true) => s.iwrite && Live(s, true) && Live(s, false) && |s.data| >= PIPSIZ
      case _ => true
  {
    StartInv();
    RunKeeps(START, ops, s);
    assert ProcOk(s, p);
  }

  predicate Asleep(pc: Pc) {
    (pc.Lock? || pc.Park?) && pc.asleep
  }

  predicate CanRun(pc: Pc) {
    pc.Reading? || pc.Writing? || ((pc.Lock? || pc.Park?) && !pc.asleep)
  }

  /** Readers and writers never all sleep waiting for each other: when nothing can run, nobody waits for
      the lock and the sleepers are all readers of an empty pipe or all writers of a full one. */
  lemma NoDeadlock(ops: seq<Op>, s: Pipe, p: nat, q: nat)
    requires Runs(START, ops, s) && p < |s.procs| && q < |s.procs|
    requires forall i :: 0 <= i < |s.procs| ==> !CanRun(s.procs[i].pc)
    requires Asleep(s.procs[p].pc) && Asleep(s.procs[q].pc)
    ensures s.procs[p].pc.Park? && s.procs[p].reader == s.procs[q].reader
    ensures if s.procs[p].reader then s.data == [] && s.taken == s.written else |s.data| >= PIPSIZ
  {
    StartInv();
    RunKeeps(START, ops, s);
    assert ProcOk(s, p) && ProcOk(s, q);
  }

  /** A read that finds nothing and returns at once has been given everything: no writer is left and all
      they wrote was read. */
  lemma EndOfFile(ops: seq<Op>, s: Pipe, p: nat, n: nat)
    requires Runs(START, ops, s) && Ready(s, p) && s.procs[p].reader && !s.locked
    ensures Enter(s, p, Read(n)).procs[p].pc.Idle? <==> s.data == [] && !Live(s, false)
    ensures s.data == [] ==> s.taken == s.written
  {
    StartInv();
    RunKeeps(START, ops, s);
    assert Live(s, true);
  }
}
