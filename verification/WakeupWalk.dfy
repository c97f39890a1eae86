/** wakeup()'s walk along a sleep queue, step by step, whatever the wakeup of the swapper does to the
    queue meanwhile (kernel/slp.c). */
module WakeupWalk {
  import opened Chains
  import opened Sched
  import opened WakeupClash

  // ----- where the outer walk stands -----------------------------------------------------------

  /** The outer walk: nothing set off yet; the swapper woken, at the kt-th process, and the walk going on
      as it should, or about to unlink through a process on the run queue; led away along the run queue; or
      going on in torn queues. */
  datatype Walk =
    | Plain(k: nat, done: seq<nat>)
    | Calm(tb: Tab, kt: nat, k: nat, done: seq<nat>)
    | Stale(tb: Tab, kt: nat, k: nat, done: seq<nat>)
    | Away(tb: Tab, kt: nat, j: nat)
    | Ripped(front: seq<nat>, c: nat, head: seq<nat>, kept: seq<nat>, todo: seq<nat>)

  function Table(m: Mem, run: seq<nat>, slp: seq<seq<nat>>): Tab {
    Tab(m.stat, m.wchan, run, slp, m.runout)
  }

  ghost predicate Fine(m: Mem, run: seq<nat>, slp: seq<seq<nat>>, off: set<nat>) {
    Linked(m.link, m.slpque, m.runq, run, slp) && Placed(Table(m, run, slp), off)
  }

  ghost predicate Behind(t: Tab, chan: nat, k: nat)
    requires Sized(t)
  {
    exists i :: k < i < |t.slp[Hash(chan)]| && WaitsFor(t, t.slp[Hash(chan)][i], chan)
  }

  /** What is fixed for the whole walk. */
  datatype Call = Call(t: Tab, off: set<nat>, load: seq<bool>, chan: nat, swapper: nat)

  ghost predicate CallOk(a: Call) {
    Placed(a.t, a.off) && |a.load| == NPROC && a.chan != 0 && a.swapper != 0
  }

  ghost predicate PlainOk(a: Call, k: nat, done: seq<nat>, m: Mem, run: seq<nat>, slp: seq<seq<nat>>, p: int, q: int) {
    && CallOk(a) && Fine(m, run, slp, a.off)
    && Walked(a.t, a.load, a.chan, a.swapper, Table(m, run, slp), k, done) && Quiet(a.t, a.load, a.chan, k)
    && p == First(a.t.slp[Hash(a.chan)][k..]) && q == Last(done)
  }

  ghost predicate CalmOk(a: Call, tb: Tab, kt: nat, k: nat, done: seq<nat>, m: Mem, run: seq<nat>, slp: seq<seq<nat>>, p: int, q: int) {
    && CallOk(a) && Fine(m, run, slp, a.off) && Tripped(a.t, a.off, a.load, a.chan, a.swapper, kt, tb)
    && Walked(tb, a.load, a.chan, a.swapper, Table(m, run, slp), k, done)
    && p == First(tb.slp[Hash(a.chan)][k..]) && (p != NONE ==> q == Last(done))
    && !Clash(a.t, a.load, a.chan, a.swapper)
  }

  ghost predicate StaleOk(a: Call, tb: Tab, kt: nat, k: nat, done: seq<nat>, m: Mem, run: seq<nat>, slp: seq<seq<nat>>, p: int, q: int) {
    && CallOk(a) && Fine(m, run, slp, a.off) && Tripped(a.t, a.off, a.load, a.chan, a.swapper, kt, tb)
    && tb == Table(m, run, slp) && Walked(tb, a.load, a.chan, a.swapper, tb, k, done)
    && k < |tb.slp[Hash(a.chan)]| && p == tb.slp[Hash(a.chan)][k] && p < NPROC
    && q >= 0 && q in run
    && (Clash(a.t, a.load, a.chan, a.swapper) <==> tb.wchan[p] == a.chan)
  }

  ghost predicate AwayOk(a: Call, tb: Tab, kt: nat, j: nat, m: Mem, run: seq<nat>, slp: seq<seq<nat>>, p: int, q: int) {
    && CallOk(a) && Fine(m, run, slp, a.off) && Tripped(a.t, a.off, a.load, a.chan, a.swapper, kt, tb)
    && tb == Table(m, run, slp) && j <= |run| && p == First(run[j..])
    && (Clash(a.t, a.load, a.chan, a.swapper) <==> a.chan != a.swapper && Behind(a.t, a.chan, kt))
  }

  ghost predicate RippedOk(a: Call, w: Walk, m: Mem, run: seq<nat>, p: int, q: int)
    requires w.Ripped?
  {
    && CallOk(a) && Torn(m, Hash(a.chan), w.front, w.c, w.head, w.kept, w.todo, p, q) && run == w.head + w.kept + w.todo
    && Clash(a.t, a.load, a.chan, a.swapper)
  }

  ghost predicate WalkOk(a: Call, w: Walk, m: Mem, run: seq<nat>, slp: seq<seq<nat>>, p: int, q: int) {
    match w
    case Plain(k, done) => PlainOk(a, k, done, m, run, slp, p, q)
    case Calm(tb, kt, k, done) => CalmOk(a, tb, kt, k, done, m, run, slp, p, q)
    case Stale(tb, kt, k, done) => StaleOk(a, tb, kt, k, done, m, run, slp, p, q)
    case Away(tb, kt, j) => AwayOk(a, tb, kt, j, m, run, slp, p, q)
    case Ripped(_, _, _, _, _) => RippedOk(a, w, m, run, p, q)
  }

  /** What is left of the walk. */
  ghost function Left(a: Call, w: Walk, run: seq<nat>): int
    requires Sized(a.t) && (w.Calm? || w.Stale? ==> Sized(w.tb))
  {
    match w
    case Plain(k, _) => |a.t.slp[Hash(a.chan)]| - k
    case Calm(tb, _, k, _) => |tb.slp[Hash(a.chan)]| - k
    case Stale(tb, _, k, _) => |tb.slp[Hash(a.chan)]| - k
    case Away(_, _, j) => |run| - j
    case Ripped(_, _, _, _, todo) => |todo|
  }

  function Stage(w: Walk): nat {
    if w.Plain? then 2 else if w.Stale? then 1 else 0
  }

  // ----- a step of the walk --------------------------------------------------------------------

  /** The process the walk stands at, and the one before it, are in the table. */
  lemma {:induction false} Here(a: Call, w: Walk, m: Mem, run: seq<nat>, slp: seq<seq<nat>>, p: int, q: int)
    requires WalkOk(a, w, m, run, slp, p, q) && p != NONE
    ensures 0 <= p < NPROC && (q == NONE || 0 <= q < NPROC || w.Away?) && |m.link| == |m.stat| == |m.wchan| == NPROC && |m.slpque| == SQSIZE
    ensures m.wchan[p] == a.chan ==> m.stat[p] == Sleeping && !w.Away?
  {
    hide Chain, Placed, Clash, Walked, Quiet, Tripped, Path;
    match w
    case Plain(k, done) => PlainHere(a, k, done, m, run, slp, p, q);
    case Calm(tb, kt, k, done) => CalmHere(a, tb, kt, k, done, m, run, slp, p, q);
    case Stale(tb, kt, k, done) =>
      BucketWaits(tb, a.off, Hash(a.chan), p);
      RunWaits(tb, a.off, q);
    case Away(tb, kt, j) =>
      assert run[j..][0] == run[j] && run[j] in run;
      RunWaits(tb, a.off, p);
    case Ripped(front, c, head, kept, todo) =>
      assert todo[0] in todo;
      assert kept[|kept| - 1] == (head + kept + todo)[|head| + |kept| - 1];
      ProperAt(head + kept + todo, |head| + |kept| - 1);
  }

  lemma RunWaits(tb: Tab, off: set<nat>, p: nat)
    requires Placed(tb, off) && p in tb.run
    ensures p < NPROC && |tb.wchan| == |tb.stat| == NPROC && tb.wchan[p] == 0 && tb.stat[p] == Runnable
  {
    assert Proper(tb.run);
    assert At(tb, off, p);
  }

  /** The walk, begun in t, stands at the k-th process of its bucket. */
  lemma {:induction false} WalkHere(t: Tab, off: set<nat>, load: seq<bool>, chan: nat, swapper: nat, t1: Tab, k: nat, done: seq<nat>)
    requires Placed(t, off) && Placed(t1, off) && Walked(t, load, chan, swapper, t1, k, done) && Quiet(t, load, chan, k) && k < |t.slp[Hash(chan)]|
    ensures var p := t.slp[Hash(chan)][k];
      && p < NPROC && t1.wchan[p] == t.wchan[p] != 0 && t1.stat[p] == Sleeping && First(t.slp[Hash(chan)][k..]) == p
      && t1.slp[Hash(chan)] == done + [p] + t.slp[Hash(chan)][k + 1..]
      && (done != [] ==> done[|done| - 1] < NPROC)
  {
    hide Placed;
    WalkAhead(t, off, load, chan, swapper, t1, k, done);
    if done != [] {
      assert done[|done| - 1] in t1.slp[Hash(chan)];
      BucketWaits(t1, off, Hash(chan), done[|done| - 1]);
    }
  }

  lemma {:induction false} PlainHere(a: Call, k: nat, done: seq<nat>, m: Mem, run: seq<nat>, slp: seq<seq<nat>>, p: int, q: int)
    requires PlainOk(a, k, done, m, run, slp, p, q) && p != NONE
    ensures 0 <= p < NPROC && (q == NONE || 0 <= q < NPROC) && |m.link| == |m.stat| == |m.wchan| == NPROC && |m.slpque| == SQSIZE
    ensures k < |a.t.slp[Hash(a.chan)]| && p == a.t.slp[Hash(a.chan)][k]
    ensures m.stat[p] == Sleeping && m.wchan[p] == a.t.wchan[p]
    ensures slp[Hash(a.chan)] == done + [p] + a.t.slp[Hash(a.chan)][k + 1..]
  {
    hide Chain;
    WalkHere(a.t, a.off, a.load, a.chan, a.swapper, Table(m, run, slp), k, done);
  }

  lemma Calmed(a: Call, tb: Tab, kt: nat, k: nat)
    requires Tripped(a.t, a.off, a.load, a.chan, a.swapper, kt, tb) && k <= |tb.slp[Hash(a.chan)]|
    ensures Placed(tb, a.off) && Quiet(tb, a.load, a.chan, k) && !tb.runout
  {
  }

  lemma {:induction false} CalmHere(a: Call, tb: Tab, kt: nat, k: nat, done: seq<nat>, m: Mem, run: seq<nat>, slp: seq<seq<nat>>, p: int, q: int)
    requires CalmOk(a, tb, kt, k, done, m, run, slp, p, q) && p != NONE
    ensures 0 <= p < NPROC && (q == NONE || 0 <= q < NPROC) && |m.link| == |m.stat| == |m.wchan| == NPROC && |m.slpque| == SQSIZE
    ensures Sized(tb) && k < |tb.slp[Hash(a.chan)]| && p == tb.slp[Hash(a.chan)][k]
    ensures m.stat[p] == Sleeping && m.wchan[p] == tb.wchan[p]
    ensures slp[Hash(a.chan)] == done + [p] + tb.slp[Hash(a.chan)][k + 1..]
  {
    hide Chain, Clash;
    TrippedFacts(a.t, a.off, a.load, a.chan, a.swapper, kt, tb);
    Calmed(a, tb, kt, k);
    hide Tripped;
    WalkHere(tb, a.off, a.load, a.chan, a.swapper, Table(m, run, slp), k, done);
  }

  ghost predicate Less(a: Call, w': Walk, run': seq<nat>, w: Walk, run: seq<nat>) {
    && Sized(a.t) && (w.Calm? || w.Stale? ==> Sized(w.tb)) && (w'.Calm? || w'.Stale? ==> Sized(w'.tb))
    && (Stage(w') < Stage(w) || (Stage(w') == Stage(w) && 0 <= Left(a, w', run') < Left(a, w, run)))
  }

  /** The process does not wait for chan: the walk goes on to the next. */
  lemma {:induction false} Skip(a: Call, w: Walk, m: Mem, run: seq<nat>, slp: seq<seq<nat>>, p: int, q: int) returns (w': Walk)
    requires WalkOk(a, w, m, run, slp, p, q) && p != NONE && 0 <= p < NPROC && |m.wchan| == |m.link| == NPROC && m.wchan[p] != a.chan
    ensures WalkOk(a, w', m, run, slp, m.link[p], p) && Less(a, w', run, w, run)
  {
    hide Chain, Placed, Clash, Walked, Quiet, Tripped, Path, Torn;
    assert Sized(a.t) by { CallSized(a, w, m, run, slp, p, q); }
    match w
    case Plain(k, done) =>
      PlainSkip(a, k, done, m, run, slp, p, q);
      w' := Plain(k + 1, done + [p]);
    case Calm(tb, kt, k, done) =>
      CalmSkip(a, tb, kt, k, done, m, run, slp, p, q);
      w' := Calm(tb, kt, k + 1, done + [p]);
    case Stale(tb, kt, k, done) =>
      StaleSkip(a, tb, kt, k, done, m, run, slp, p, q);
      w' := Calm(tb, kt, k + 1, done + [p]);
    case Away(tb, kt, j) =>
      assert run[j..][0] == run[j];
      RunAt(m.link, m.slpque, m.runq, tb, j);
      w' := Away(tb, kt, j + 1);
    case Ripped(front, c, head, kept, todo) =>
      assert todo != [] by { RippedHere(m, Hash(a.chan), front, c, head, kept, todo, p, q); }
      TornSkip(m, Hash(a.chan), front, c, head, kept, todo, p, q);
      assert head + kept + todo == head + (kept + [p]) + todo[1..] by { RippedHere(m, Hash(a.chan), front, c, head, kept, todo, p, q); }
      w' := Ripped(front, c, head, kept + [p], todo[1..]);
  }

  lemma CallSized(a: Call, w: Walk, m: Mem, run: seq<nat>, slp: seq<seq<nat>>, p: int, q: int)
    requires WalkOk(a, w, m, run, slp, p, q)
    ensures Sized(a.t) && (w.Calm? || w.Stale? || w.Away? ==> Sized(w.tb)) && (!w.Ripped? ==> |slp| == SQSIZE)
  {
  }

  lemma RippedHere(m: Mem, h: nat, front: seq<nat>, c: nat, head: seq<nat>, kept: seq<nat>, todo: seq<nat>, p: int, q: int)
    requires Torn(m, h, front, c, head, kept, todo, p, q) && p != NONE
    ensures todo != [] && p == todo[0] && head + kept + todo == head + (kept + [todo[0]]) + todo[1..]
  {
  }

  /** The links past the process the walk stands at. */
  lemma {:induction false} LinkNext(m: Mem, run: seq<nat>, slp: seq<seq<nat>>, off: set<nat>, h: nat, done: seq<nat>, p: nat, rest: seq<nat>)
    requires Fine(m, run, slp, off) && h < SQSIZE && slp[h] == done + [p] + rest && p < NPROC
    ensures |m.link| == NPROC && m.link[p] == First(rest)
  {
    hide Placed, Chain;
    WalkChain(m.link, m.slpque[h], slp[h], done, p, rest);
  }

  lemma WalkChain(link: seq<int>, head: int, l: seq<nat>, done: seq<nat>, p: nat, rest: seq<nat>)
    requires Chain(link, head, l) && l == done + [p] + rest
    ensures p < |link| && link[p] == First(rest)
  {
    assert l[|done|] == p && l[|done| + 1..] == rest;
  }

  lemma {:induction false} PlainSkip(a: Call, k: nat, done: seq<nat>, m: Mem, run: seq<nat>, slp: seq<seq<nat>>, p: int, q: int)
    requires PlainOk(a, k, done, m, run, slp, p, q) && 0 <= p < NPROC && |m.wchan| == |m.link| == NPROC && m.wchan[p] != a.chan
    ensures k < |a.t.slp[Hash(a.chan)]| && PlainOk(a, k + 1, done + [p], m, run, slp, m.link[p], p)
  {
    hide Placed, Linked;
    var h := Hash(a.chan);
    var l := a.t.slp[h];
    PlainHere(a, k, done, m, run, slp, p, q);
    WalkSkip(a.t, a.off, a.load, a.chan, a.swapper, Table(m, run, slp), k, done);
    LinkNext(m, run, slp, a.off, h, done, p, l[k + 1..]);
    QuietNext(a.t, a.load, a.chan, k);
  }

  lemma QuietNext(t: Tab, load: seq<bool>, chan: nat, k: nat)
    requires Quiet(t, load, chan, k) && k < |t.slp[Hash(chan)]|
    requires var p := t.slp[Hash(chan)][k]; p < NPROC && (t.wchan[p] != chan || (|load| == NPROC && load[p]) || !t.runout)
    ensures Quiet(t, load, chan, k + 1)
  {
    var l := t.slp[Hash(chan)];
    assert l[..k + 1] == l[..k] + [l[k]];
  }

  lemma {:induction false} CalmSkip(a: Call, tb: Tab, kt: nat, k: nat, done: seq<nat>, m: Mem, run: seq<nat>, slp: seq<seq<nat>>, p: int, q: int)
    requires CalmOk(a, tb, kt, k, done, m, run, slp, p, q) && 0 <= p < NPROC && |m.wchan| == |m.link| == NPROC && m.wchan[p] != a.chan
    ensures Sized(tb) && k < |tb.slp[Hash(a.chan)]| && CalmOk(a, tb, kt, k + 1, done + [p], m, run, slp, m.link[p], p)
  {
    hide Placed, Linked, Clash;
    var h := Hash(a.chan);
    CalmHere(a, tb, kt, k, done, m, run, slp, p, q);
    Calmed(a, tb, kt, k);
    hide Tripped;
    WalkSkip(tb, a.off, a.load, a.chan, a.swapper, Table(m, run, slp), k, done);
    LinkNext(m, run, slp, a.off, h, done, p, tb.slp[h][k + 1..]);
  }

  lemma {:induction false} StaleSkip(a: Call, tb: Tab, kt: nat, k: nat, done: seq<nat>, m: Mem, run: seq<nat>, slp: seq<seq<nat>>, p: int, q: int)
    requires StaleOk(a, tb, kt, k, done, m, run, slp, p, q) && 0 <= p < NPROC && |m.wchan| == |m.link| == NPROC && m.wchan[p] != a.chan
    ensures Sized(tb) && k < |tb.slp[Hash(a.chan)]| && CalmOk(a, tb, kt, k + 1, done + [p], m, run, slp, m.link[p], p)
  {
    hide Placed, Linked, Clash;
    assert Sized(tb) by { TrippedFacts(a.t, a.off, a.load, a.chan, a.swapper, kt, tb); }
    var l := tb.slp[Hash(a.chan)];
    assert First(l[k..]) == p by { assert l[k..][0] == l[k]; }
    assert CalmOk(a, tb, kt, k, done, m, run, slp, p, Last(done));
    CalmSkip(a, tb, kt, k, done, m, run, slp, p, Last(done));
  }

  // ----- taking a process off the queue --------------------------------------------------------

  /** The memory after the process p is unlinked, through q or from the head of the bucket. */
  function CutMem(m: Mem, h: nat, p: nat, q: int): Mem
    requires p < |m.link| && p < |m.wchan| && h < |m.slpque| && q < |m.link|
  {
    var c := if q < 0 then m.(slpque := m.slpque[h := m.link[p]]) else m.(link := m.link[q := m.link[p]]);
    c.(wchan := m.wchan[p := 0])
  }

  /** What setrun() needs. */
  ghost predicate CutOk(a: Call, w: Walk, m: Mem, run: seq<nat>, slp: seq<seq<nat>>, p: nat) {
    && |m.link| == |m.stat| == |m.wchan| == NPROC && p < NPROC && m.stat[p] == Sleeping && m.wchan[p] == 0
    && Chain(m.link, m.runq, run) && Proper(run) && p !in run
    && if w.Plain? || w.Calm? then Fine(m, run, slp, a.off + {p}) && p !in a.off else !m.runout
  }

  /** What setrun() gives. */
  ghost predicate RunDone(a: Call, w: Walk, m: Mem, run: seq<nat>, slp: seq<seq<nat>>, p: nat, m': Mem, run': seq<nat>, slp': seq<seq<nat>>) {
    && p < |m.link| && p < |m.stat|
    && if w.Plain? || w.Calm? then
         Fine(m', run', slp', a.off) && Ran(Table(m, run, slp), a.load, p, a.swapper, Table(m', run', slp'))
         && Kept(Table(m, run, slp), Table(m', run', slp'))
       else Pushed(m, run, slp, p, m', run', slp')
  }

  /** The process has been put on the run queue, and that is all. */
  ghost predicate Pushed(m: Mem, run: seq<nat>, slp: seq<seq<nat>>, p: nat, m': Mem, run': seq<nat>, slp': seq<seq<nat>>) {
    && p < |m.link| && p < |m.stat|
    && m' == m.(stat := m.stat[p := Runnable], link := m.link[p := m.runq], runq := p)
    && run' == [p] + run && slp' == slp
  }

  /** The bucket without the process, when the walk is as it should be. */
  lemma {:induction false} CutFine(m: Mem, run: seq<nat>, slp: seq<seq<nat>>, off: set<nat>, h: nat, done: seq<nat>, p: nat, rest: seq<nat>)
    requires Fine(m, run, slp, off) && h < SQSIZE && slp[h] == done + [p] + rest && p < NPROC
    requires |m.link| == |m.stat| == |m.wchan| == NPROC && |m.slpque| == SQSIZE && m.stat[p] == Sleeping && Last(done) < NPROC
    ensures var m' := CutMem(m, h, p, Last(done));
      && Fine(m', run, slp[h := done + rest], off + {p}) && p !in off
      && Chain(m'.link, m'.runq, run) && Proper(run) && p !in run
      && Table(m', run, slp[h := done + rest]) == Unslept(Table(m, run, slp), h, done, p, rest)
  {
    hide Placed, Chain;
    var t := Table(m, run, slp);
    LinkNext(m, run, slp, off, h, done, p, rest);
    PlacedWake(t, off, p, done, rest, h);
    PlacedProper(t, off, h);
    assert p in slp[h];
    BucketWaits(t, off, h, p);
    if done != [] {
      assert done[|done| - 1] in slp[h];
      BucketWaits(t, off, h, done[|done| - 1]);
    }
    LinkedCut(m.link, m.slpque, m.runq, t, p, done, rest, h);
  }

  /** The cut, in whatever state the walk is; x is what was before q on the run queue, if that matters. */
  lemma {:induction false} Cut(a: Call, w: Walk, m: Mem, run: seq<nat>, slp: seq<seq<nat>>, p: int, q: int)
    returns (run': seq<nat>, slp': seq<seq<nat>>, x: seq<nat>)
    requires WalkOk(a, w, m, run, slp, p, q) && p != NONE
    requires 0 <= p < NPROC && -1 <= q < NPROC && |m.link| == |m.stat| == |m.wchan| == NPROC && |m.slpque| == SQSIZE && m.wchan[p] == a.chan && !w.Away?
    ensures CutOk(a, w, CutMem(m, Hash(a.chan), p, q), run', slp', p)
    ensures CutIs(a, w, m, run, slp, p, q, run', slp', x)
  {
    hide Chain, Placed, Clash, Walked, Quiet, Tripped, Path, Torn, Linked;
    var h := Hash(a.chan);
    CallSized(a, w, m, run, slp, p, q);
    run', slp', x := run, slp, [];
    match w
    case Plain(k, done) =>
      PlainHere(a, k, done, m, run, slp, p, q);
      CutFine(m, run, slp, a.off, h, done, p, a.t.slp[h][k + 1..]);
      slp' := slp[h := done + a.t.slp[h][k + 1..]];
    case Calm(tb, kt, k, done) =>
      CalmHere(a, tb, kt, k, done, m, run, slp, p, q);
      CutFine(m, run, slp, a.off, h, done, p, tb.slp[h][k + 1..]);
      slp' := slp[h := done + tb.slp[h][k + 1..]];
    case Stale(tb, kt, k, done) =>
      var rest := tb.slp[h][k + 1..];
      StaleHere(a, tb, kt, k, done, m, run, slp, p, q);
      Tear(tb, a.off, m, h, done, p, rest, q);
      x :| TearOk(m, h, done, p, rest, q, x);
      run' := x + [q] + rest;
      BucketWaits(tb, a.off, h, p);
    case Ripped(front, c, head, kept, todo) =>
      RippedHere(m, h, front, c, head, kept, todo, p, q);
      TornCut(m, h, front, c, head, kept, todo, p, q);
      run' := head + kept + todo[1..];
      assert !m.runout by { TornCalm(m, h, front, c, head, kept, todo, p, q); }
  }

  lemma TornCalm(m: Mem, h: nat, front: seq<nat>, c: nat, head: seq<nat>, kept: seq<nat>, todo: seq<nat>, p: int, q: int)
    requires Torn(m, h, front, c, head, kept, todo, p, q)
    ensures !m.runout && q != NONE
  {
  }

  lemma StaleHere(a: Call, tb: Tab, kt: nat, k: nat, done: seq<nat>, m: Mem, run: seq<nat>, slp: seq<seq<nat>>, p: int, q: int)
    requires StaleOk(a, tb, kt, k, done, m, run, slp, p, q)
    ensures Placed(tb, a.off) && Sized(tb) && !m.runout && p >= 0 && p in slp[Hash(a.chan)]
    ensures slp[Hash(a.chan)] == done + [p] + tb.slp[Hash(a.chan)][k + 1..]
  {
    hide Clash, Linked, Woken;
    assert Placed(tb, a.off) && !tb.runout by { TrippedKeeps(a, kt, tb); }
    hide Tripped, Proper;
    var l := tb.slp[Hash(a.chan)];
    assert l[k..] == [l[k]] + l[k + 1..];
  }

  /** What the cut did to the lists. */
  ghost predicate CutIs(a: Call, w: Walk, m: Mem, run: seq<nat>, slp: seq<seq<nat>>, p: nat, q: int, run': seq<nat>, slp': seq<seq<nat>>, x: seq<nat>) {
    var h := Hash(a.chan);
    match w
    case Plain(k, done) =>
      h < |a.t.slp| && k < |a.t.slp[h]| && h < |slp| && run' == run && slp' == slp[h := done + a.t.slp[h][k + 1..]]
    case Calm(tb, kt, k, done) =>
      h < |tb.slp| && k < |tb.slp[h]| && h < |slp| && run' == run && slp' == slp[h := done + tb.slp[h][k + 1..]]
    case Stale(tb, kt, k, done) =>
      && h < |tb.slp| && k < |tb.slp[h]| && q >= 0 && TearOk(m, h, done, p, tb.slp[h][k + 1..], q, x)
      && run' == x + [q] + tb.slp[h][k + 1..] && slp' == slp
    case Away(_, _, _) => true
    case Ripped(front, c, head, kept, todo) => todo != [] && run' == head + kept + todo[1..] && slp' == slp
  }

  /** The walk after setrun(). */
  lemma {:induction false} CutDone(a: Call, w: Walk, m: Mem, run: seq<nat>, slp: seq<seq<nat>>, p: int, q: int,
                                   run1: seq<nat>, slp1: seq<seq<nat>>, x: seq<nat>, m2: Mem, run2: seq<nat>, slp2: seq<seq<nat>>) returns (w': Walk)
    requires WalkOk(a, w, m, run, slp, p, q) && p != NONE
    requires 0 <= p < NPROC && -1 <= q < NPROC && |m.link| == |m.stat| == |m.wchan| == NPROC && |m.slpque| == SQSIZE && m.wchan[p] == a.chan && !w.Away?
    requires CutIs(a, w, m, run, slp, p, q, run1, slp1, x)
    requires RunDone(a, w, CutMem(m, Hash(a.chan), p, q), run1, slp1, p, m2, run2, slp2)
    ensures WalkOk(a, w', m2, run2, slp2, m.link[p], q) && Less(a, w', run2, w, run)
  {
    hide Chain, Placed, Clash, Walked, Quiet, Tripped, Path, Torn, Linked, Ran, Kept, TearOk, Fine;
    var h := Hash(a.chan);
    CallSized(a, w, m, run, slp, p, q);
    match w
    case Plain(k, done) =>
      if a.t.runout && !a.load[p] {
        w' := PlainTrip(a, k, done, m, run, slp, p, q, m2, run2, slp2);
      } else {
        PlainRun(a, k, done, m, run, slp, p, q, m2, run2, slp2);
        w' := Plain(k + 1, done);
      }
    case Calm(tb, kt, k, done) =>
      CalmRun(a, tb, kt, k, done, m, run, slp, p, q, m2, run2, slp2);
      w' := Calm(tb, kt, k + 1, done);
    case Stale(tb, kt, k, done) =>
      StaleRun(a, tb, kt, k, done, m, run, slp, p, q, x, m2, run2);
      w' := Ripped(done, p, [p] + x, [q], tb.slp[h][k + 1..]);
    case Ripped(front, c, head, kept, todo) =>
      RippedHere(m, h, front, c, head, kept, todo, p, q);
      TornCalm(m, h, front, c, head, kept, todo, p, q);
      TornCut(m, h, front, c, head, kept, todo, p, q);
      assert [p] + (head + kept + todo[1..]) == [p] + head + kept + todo[1..];
      w' := Ripped(front, c, [p] + head, kept, todo[1..]);
  }

  lemma {:induction false} StaleRun(a: Call, tb: Tab, kt: nat, k: nat, done: seq<nat>, m: Mem, run: seq<nat>, slp: seq<seq<nat>>, p: int, q: int,
                                    x: seq<nat>, m2: Mem, run2: seq<nat>)
    requires StaleOk(a, tb, kt, k, done, m, run, slp, p, q) && Sized(tb)
    requires 0 <= p < NPROC && 0 <= q < NPROC && |m.link| == |m.stat| == |m.wchan| == NPROC && |m.slpque| == SQSIZE && m.wchan[p] == a.chan
    requires TearOk(m, Hash(a.chan), done, p, tb.slp[Hash(a.chan)][k + 1..], q, x)
    requires var c := CutMem(m, Hash(a.chan), p, q); m2 == c.(stat := c.stat[p := Runnable], link := c.link[p := c.runq], runq := p)
    requires run2 == [p] + (x + [q] + tb.slp[Hash(a.chan)][k + 1..])
    ensures RippedOk(a, Ripped(done, p, [p] + x, [q], tb.slp[Hash(a.chan)][k + 1..]), m2, run2, m.link[p], q)
  {
    hide Chain, Placed, Clash, Walked, Tripped, Path, Torn, Linked;
    var todo := tb.slp[Hash(a.chan)][k + 1..];
    assert [p] + (x + [q] + todo) == [p] + x + [q] + todo;
  }

  lemma {:induction false} PlainRun(a: Call, k: nat, done: seq<nat>, m: Mem, run: seq<nat>, slp: seq<seq<nat>>, p: int, q: int,
                                    m2: Mem, run2: seq<nat>, slp2: seq<seq<nat>>)
    requires PlainOk(a, k, done, m, run, slp, p, q) && p != NONE && Sized(a.t) && !(a.t.runout && 0 <= p < NPROC && !a.load[p])
    requires 0 <= p < NPROC && -1 <= q < NPROC && |m.link| == |m.stat| == |m.wchan| == NPROC && |m.slpque| == SQSIZE && m.wchan[p] == a.chan
    requires k < |a.t.slp[Hash(a.chan)]| && |slp| == SQSIZE
    requires var h := Hash(a.chan);
      var c, slp1 := CutMem(m, h, p, q), slp[h := done + a.t.slp[h][k + 1..]];
      && Fine(m2, run2, slp2, a.off) && Ran(Table(c, run, slp1), a.load, p, a.swapper, Table(m2, run2, slp2))
      && Kept(Table(c, run, slp1), Table(m2, run2, slp2))
    ensures PlainOk(a, k + 1, done, m2, run2, slp2, m.link[p], q)
  {
    hide Chain, Placed, Linked, Ran, Kept;
    var h := Hash(a.chan);
    PlainHere(a, k, done, m, run, slp, p, q);
    LinkNext(m, run, slp, a.off, h, done, p, a.t.slp[h][k + 1..]);
    QuietNext(a.t, a.load, a.chan, k);
    hide Quiet;
    WalkStep(a.t, a.off, a.load, a.chan, a.swapper, Table(m, run, slp), k, done, Table(m2, run2, slp2));
  }

  lemma {:induction false} CalmRun(a: Call, tb: Tab, kt: nat, k: nat, done: seq<nat>, m: Mem, run: seq<nat>, slp: seq<seq<nat>>, p: int, q: int,
                                   m2: Mem, run2: seq<nat>, slp2: seq<seq<nat>>)
    requires CalmOk(a, tb, kt, k, done, m, run, slp, p, q) && p != NONE && Sized(tb)
    requires 0 <= p < NPROC && -1 <= q < NPROC && |m.link| == |m.stat| == |m.wchan| == NPROC && |m.slpque| == SQSIZE && m.wchan[p] == a.chan
    requires k < |tb.slp[Hash(a.chan)]| && |slp| == SQSIZE
    requires var h := Hash(a.chan);
      var c, slp1 := CutMem(m, h, p, q), slp[h := done + tb.slp[h][k + 1..]];
      && Fine(m2, run2, slp2, a.off) && Ran(Table(c, run, slp1), a.load, p, a.swapper, Table(m2, run2, slp2))
      && Kept(Table(c, run, slp1), Table(m2, run2, slp2))
    ensures CalmOk(a, tb, kt, k + 1, done, m2, run2, slp2, m.link[p], q)
  {
    hide Chain, Placed, Linked, Ran, Kept, Clash;
    var h := Hash(a.chan);
    CalmHere(a, tb, kt, k, done, m, run, slp, p, q);
    Calmed(a, tb, kt, k + 1);
    hide Tripped, Quiet;
    LinkNext(m, run, slp, a.off, h, done, p, tb.slp[h][k + 1..]);
    WalkStep(tb, a.off, a.load, a.chan, a.swapper, Table(m, run, slp), k, done, Table(m2, run2, slp2));
  }

  lemma {:induction false} DoneFits(a: Call, k: nat, done: seq<nat>, t1: Tab, tb: Tab)
    requires Tripped(a.t, a.off, a.load, a.chan, a.swapper, k, tb)
    requires Walked(a.t, a.load, a.chan, a.swapper, t1, k, done) && Quiet(a.t, a.load, a.chan, k)
    ensures Sized(tb) && forall y :: y in Waiting(done, tb.wchan) && y < NPROC ==> tb.wchan[y] != a.chan
  {
    hide Placed, Woken, Kept, Tripper, Walked, Quiet, Waiting;
    TrippedFacts(a.t, a.off, a.load, a.chan, a.swapper, k, tb);
    forall y: nat | y in Waiting(done, tb.wchan) && y < NPROC ensures tb.wchan[y] != a.chan {
      WaitingOf(done, tb.wchan, y);
      LeftIs(a.t, a.off, a.load, a.chan, a.swapper, t1, k, done, y);
      var i :| 0 <= i < k && a.t.slp[Hash(a.chan)][i] == y;
      StillWaits(a.t, a.off, a.load, a.chan, a.swapper, k, tb, i);
    }
  }

  /** Who of the bucket no longer waits is on the run queue. */
  lemma {:induction false} GoneRuns(a: Call, k: nat, tb: Tab, i: nat)
    requires Tripped(a.t, a.off, a.load, a.chan, a.swapper, k, tb) && i < |a.t.slp[Hash(a.chan)]|
    requires a.t.slp[Hash(a.chan)][i] < NPROC && tb.wchan[a.t.slp[Hash(a.chan)][i]] == 0
    ensures a.t.slp[Hash(a.chan)][i] in tb.run
  {
    var y := a.t.slp[Hash(a.chan)][i];
    StillWaits(a.t, a.off, a.load, a.chan, a.swapper, k, tb, i);
    assert tb.stat[y] == Runnable;
    assert At(a.t, a.off, y);
    assert At(tb, a.off, y);
    BucketWaits(a.t, a.off, Hash(a.chan), y);
  }

  /** The last one left behind no longer waits: it slept on runout and is on the run queue. */
  lemma {:induction false} StaleIn(a: Call, k: nat, done: seq<nat>, t1: Tab, tb: Tab)
    requires Tripped(a.t, a.off, a.load, a.chan, a.swapper, k, tb) && done != []
    requires Walked(a.t, a.load, a.chan, a.swapper, t1, k, done) && Quiet(a.t, a.load, a.chan, k)
    requires Last(done) < NPROC && tb.wchan[Last(done)] == 0
    ensures Last(done) >= 0 && Last(done) in tb.run && a.chan != a.swapper
  {
    hide Placed, Woken, Kept, Tripper, Walked, Quiet, Waiting;
    TrippedFacts(a.t, a.off, a.load, a.chan, a.swapper, k, tb);
    var y := Last(done);
    LeftIs(a.t, a.off, a.load, a.chan, a.swapper, t1, k, done, y);
    var i :| 0 <= i < k && a.t.slp[Hash(a.chan)][i] == y;
    StillWaits(a.t, a.off, a.load, a.chan, a.swapper, k, tb, i);
    GoneRuns(a, k, tb, i);
  }

  lemma BehindIs(t: Tab, chan: nat, k: nat, swapper: nat)
    requires Sized(t) && k + 1 < |t.slp[Hash(chan)]| && WaitsFor(t, t.slp[Hash(chan)][k + 1], swapper) && chan != swapper
    ensures Behind(t, chan, k) <==> exists m :: k + 1 < m < |t.slp[Hash(chan)]| && WaitsFor(t, t.slp[Hash(chan)][m], chan)
  {
    if Behind(t, chan, k) {
      var i :| k < i < |t.slp[Hash(chan)]| && WaitsFor(t, t.slp[Hash(chan)][i], chan);
      assert i != k + 1;
    }
  }

  lemma HeadWaits(r: seq<nat>, w: seq<nat>)
    requires r != [] && r[0] < |w| && w[r[0]] != 0
    ensures Waiting(r, w) != [] && Waiting(r, w)[0] == r[0]
  {
    assert r == [r[0]] + r[1..];
    WaitingConcat([r[0]], r[1..], w);
    EachWaiting([r[0]], w);
  }

  lemma LastWaits(done: seq<nat>, w: seq<nat>)
    requires done == [] || (done[|done| - 1] < |w| && w[done[|done| - 1]] != 0)
    ensures Last(Waiting(done, w)) == Last(done)
  {
  }

  /** The step that wakes the swapper. */
  lemma {:induction false} PlainTrip(a: Call, k: nat, done: seq<nat>, m: Mem, run: seq<nat>, slp: seq<seq<nat>>, p: int, q: int,
                                     m2: Mem, run2: seq<nat>, slp2: seq<seq<nat>>) returns (w': Walk)
    requires PlainOk(a, k, done, m, run, slp, p, q) && p != NONE && Sized(a.t) && 0 <= p < NPROC && a.t.runout && !a.load[p]
    requires -1 <= q < NPROC && |m.link| == |m.stat| == |m.wchan| == NPROC && |m.slpque| == SQSIZE && m.wchan[p] == a.chan
    requires k < |a.t.slp[Hash(a.chan)]| && |slp| == SQSIZE
    requires var h := Hash(a.chan);
      var c, slp1 := CutMem(m, h, p, q), slp[h := done + a.t.slp[h][k + 1..]];
      && Fine(m2, run2, slp2, a.off) && Ran(Table(c, run, slp1), a.load, p, a.swapper, Table(m2, run2, slp2))
      && Kept(Table(c, run, slp1), Table(m2, run2, slp2))
    ensures WalkOk(a, w', m2, run2, slp2, m.link[p], q) && !w'.Plain? && Stage(w') < 2 && (w'.Calm? || w'.Stale? ==> Sized(w'.tb))
  {
    hide Chain, Placed, Linked, Ran, Kept, Clash, Quiet, Walked;
    var h := Hash(a.chan);
    var l, tb := a.t.slp[h], Table(m2, run2, slp2);
    PlainHere(a, k, done, m, run, slp, p, q);
    LinkNext(m, run, slp, a.off, h, done, p, l[k + 1..]);
    TripStep(a.t, a.off, a.load, a.chan, a.swapper, Table(m, run, slp), k, done, tb);
    TrippedFacts(a.t, a.off, a.load, a.chan, a.swapper, k, tb);
    var done2, rest2 := Waiting(done, tb.wchan), Waiting(l[k + 1..], tb.wchan);
    DoneFits(a, k, done, Table(m, run, slp), tb);
    Calmed(a, tb, k, |done2|);
    WalkFrom(tb, a.off, a.load, a.chan, a.swapper, done2, rest2);
    assert tb.slp[h][|done2|..] == rest2;
    if k + 1 == |l| {
      Judge(a.t, a.off, a.load, a.chan, a.swapper, Table(m, run, slp), k, done, tb);
      assert rest2 == [] by { assert l[k + 1..] == []; NoneWait(tb.wchan); }
      w' := Calm(tb, k, |done2|, done2);
    } else {
      w' := TripOn(a, k, done, Table(m, run, slp), m2, run2, slp2, m.link[p], q);
    }
  }

  /** Where the walk stands after that, if it is not at its end. */
  lemma {:induction false} TripOn(a: Call, k: nat, done: seq<nat>, t1: Tab, m2: Mem, run2: seq<nat>, slp2: seq<seq<nat>>, sp: int, q: int) returns (w': Walk)
    requires CallOk(a) && Fine(m2, run2, slp2, a.off) && Sized(a.t)
    requires Tripped(a.t, a.off, a.load, a.chan, a.swapper, k, Table(m2, run2, slp2))
    requires Walked(a.t, a.load, a.chan, a.swapper, t1, k, done) && Quiet(a.t, a.load, a.chan, k) && q == Last(done) && q < NPROC
    requires k + 1 < |a.t.slp[Hash(a.chan)]| && sp == a.t.slp[Hash(a.chan)][k + 1]
    requires Sized(Table(m2, run2, slp2))
    requires var done2, rest2 := Waiting(done, m2.wchan), Waiting(a.t.slp[Hash(a.chan)][k + 1..], m2.wchan);
      slp2[Hash(a.chan)] == done2 + rest2 && Walked(Table(m2, run2, slp2), a.load, a.chan, a.swapper, Table(m2, run2, slp2), |done2|, done2)
    ensures WalkOk(a, w', m2, run2, slp2, sp, q) && !w'.Plain? && Stage(w') < 2 && (w'.Calm? || w'.Stale? ==> Sized(w'.tb))
  {
    hide Chain, Placed, Linked, Ran, Kept, Clash, Quiet, Walked, Tripped;
    var l, tb := a.t.slp[Hash(a.chan)], Table(m2, run2, slp2);
    Judge(a.t, a.off, a.load, a.chan, a.swapper, t1, k, done, tb);
    var done2, rest2 := Waiting(done, tb.wchan), Waiting(l[k + 1..], tb.wchan);
    assert l[k + 1..][0] == sp;
    StillWaits(a.t, a.off, a.load, a.chan, a.swapper, k, tb, k + 1);
    if tb.wchan[sp] == 0 {
      GoneRuns(a, k, tb, k + 1);
      var j :| 0 <= j < |run2| && run2[j] == sp;
      assert run2[j..][0] == sp;
      if a.chan != a.swapper { BehindIs(a.t, a.chan, k, a.swapper); }
      w' := Away(tb, k, j);
    } else {
      HeadWaits(l[k + 1..], tb.wchan);
      assert (done2 + rest2)[|done2|] == sp && (done2 + rest2)[|done2|..] == rest2;
      if done != [] && tb.wchan[q] == 0 {
        StaleIn(a, k, done, t1, tb);
        w' := Stale(tb, k, |done2|, done2);
      } else {
        LastWaits(done, tb.wchan);
        w' := Calm(tb, k, |done2|, done2);
      }
    }
  }

  // ----- the end of the walk -------------------------------------------------------------------

  /** wakeup(chan) does what it promises exactly when the queues did not clash. */
  lemma {:induction false} Verdict(a: Call, w: Walk, m: Mem, run: seq<nat>, slp: seq<seq<nat>>, q: int)
    requires WalkOk(a, w, m, run, slp, NONE, q)
    ensures Right(a.t, a.load, a.chan, a.swapper, a.off, m) <==> !Clash(a.t, a.load, a.chan, a.swapper)
    ensures !Clash(a.t, a.load, a.chan, a.swapper) ==>
      && Sized(a.t) && Fine(m, run, slp, a.off) && Kept(a.t, Table(m, run, slp)) && (m.runout ==> a.t.runout)
      && Woken(a.t, a.load, a.chan, a.swapper, a.t.slp[Hash(a.chan)], Table(m, run, slp))
  {
    hide Chain, Placed, Linked, Kept, Clash, Quiet, Walked, Tripped, Woken, Right, Torn;
    CallSized(a, w, m, run, slp, NONE, q);
    var h := Hash(a.chan);
    match w
    case Plain(k, done) =>
      PlainEnd(a, k, done, m, run, slp, q);
      RightIf(a, m, run, slp);
    case Calm(tb, kt, k, done) =>
      CalmEnd(a, tb, kt, k, done, m, run, slp, q);
      RightIf(a, m, run, slp);
    case Away(tb, kt, j) =>
      if Clash(a.t, a.load, a.chan, a.swapper) {
        var i :| kt < i < |a.t.slp[h]| && WaitsFor(a.t, a.t.slp[h][i], a.chan);
        LeftAsleep(a.t, a.off, a.load, a.chan, a.swapper, kt, tb, i, m);
      } else {
        LedAway(a.t, a.off, a.load, a.chan, a.swapper, kt, tb);
        TrippedKeeps(a, kt, tb);
        RightIf(a, m, run, slp);
      }
    case Stale(tb, kt, k, done) =>
    case Ripped(front, c, head, kept, todo) =>
      TornWrong(a.t, a.load, a.chan, a.swapper, a.off, m, front, c, head, kept, todo, NONE, q);
  }

  lemma TrippedKeeps(a: Call, kt: nat, tb: Tab)
    requires Tripped(a.t, a.off, a.load, a.chan, a.swapper, kt, tb)
    ensures Kept(a.t, tb) && !tb.runout && Placed(tb, a.off)
  {
  }

  lemma RightIf(a: Call, m: Mem, run: seq<nat>, slp: seq<seq<nat>>)
    requires Sized(a.t) && Fine(m, run, slp, a.off) && Woken(a.t, a.load, a.chan, a.swapper, a.t.slp[Hash(a.chan)], Table(m, run, slp))
    ensures Right(a.t, a.load, a.chan, a.swapper, a.off, m)
  {
    assert Holds(a.t, a.load, a.chan, a.swapper, a.off, m, run, slp);
  }

  lemma PlainEnd(a: Call, k: nat, done: seq<nat>, m: Mem, run: seq<nat>, slp: seq<seq<nat>>, q: int)
    requires PlainOk(a, k, done, m, run, slp, NONE, q) && Sized(a.t)
    ensures !Clash(a.t, a.load, a.chan, a.swapper) && Kept(a.t, Table(m, run, slp)) && (m.runout ==> a.t.runout)
    ensures Woken(a.t, a.load, a.chan, a.swapper, a.t.slp[Hash(a.chan)], Table(m, run, slp))
  {
    hide Chain, Placed, Linked, Kept, Clash, Woken;
    assert k == |a.t.slp[Hash(a.chan)]|;
    QuietEnd(a.t, a.load, a.chan, a.swapper);
    WalkEnd(a.t, a.load, a.chan, a.swapper, Table(m, run, slp), done);
  }

  lemma CalmEnd(a: Call, tb: Tab, kt: nat, k: nat, done: seq<nat>, m: Mem, run: seq<nat>, slp: seq<seq<nat>>, q: int)
    requires CalmOk(a, tb, kt, k, done, m, run, slp, NONE, q) && Sized(a.t) && Sized(tb)
    ensures Kept(a.t, Table(m, run, slp)) && !m.runout
    ensures Woken(a.t, a.load, a.chan, a.swapper, a.t.slp[Hash(a.chan)], Table(m, run, slp))
  {
    hide Chain, Placed, Linked, Kept, Clash, Woken, Quiet;
    assert k == |tb.slp[Hash(a.chan)]|;
    TrippedKeeps(a, kt, tb);
    hide Tripped;
    WalkEnd(tb, a.load, a.chan, a.swapper, Table(m, run, slp), done);
    WholeWalk(a.t, a.off, a.load, a.chan, a.swapper, kt, tb, Table(m, run, slp));
  }

  // ----- the ends of the steps -----------------------------------------------------------------

  /** The walk begins at the head of the bucket. */
  lemma {:induction false} Begin(a: Call, m: Mem) returns (w: Walk)
    requires Placed(a.t, a.off) && |a.load| == NPROC && a.chan != 0 && a.swapper != 0
    requires Linked(m.link, m.slpque, m.runq, a.t.run, a.t.slp) && a.t == Table(m, a.t.run, a.t.slp)
    ensures |m.slpque| == SQSIZE && WalkOk(a, w, m, a.t.run, a.t.slp, m.slpque[Hash(a.chan)], NONE)
  {
    hide Placed, Trips;
    WalkStart(a.t, a.off, a.load, a.chan, a.swapper);
    w := Plain(0, []);
    var l := a.t.slp[Hash(a.chan)];
    assert l[0..] == l && l[..0] == [];
    assert Quiet(a.t, a.load, a.chan, 0) by { NoTrip(a.t, a.load, a.chan); }
  }

  lemma NoTrip(t: Tab, load: seq<bool>, chan: nat)
    requires Sized(t)
    ensures !Trips(t, load, chan, [])
  {
  }

  lemma LeftOver(a: Call, w: Walk, m: Mem, run: seq<nat>, slp: seq<seq<nat>>, p: int, q: int)
    requires WalkOk(a, w, m, run, slp, p, q)
    ensures Sized(a.t) && (w.Calm? || w.Stale? ==> Sized(w.tb)) && Left(a, w, run) >= 0 && |m.stat| == NPROC
  {
    CallSized(a, w, m, run, slp, p, q);
  }

  lemma Handed(a: Call, w: Walk, m: Mem, run: seq<nat>, slp: seq<seq<nat>>, p: nat)
    requires CutOk(a, w, m, run, slp, p)
    ensures |m.link| == |m.stat| == |m.wchan| == NPROC && p < NPROC && m.stat[p] == Sleeping && m.wchan[p] == 0
    ensures Chain(m.link, m.runq, run) && Proper(run) && p !in run
    ensures w.Plain? || w.Calm? ==> Fine(m, run, slp, a.off + {p}) && p !in a.off
    ensures !(w.Plain? || w.Calm?) ==> !m.runout
  {
  }

  lemma Handled(a: Call, w: Walk, m: Mem, run: seq<nat>, slp: seq<seq<nat>>, p: nat, m': Mem, run': seq<nat>, slp': seq<seq<nat>>)
    requires p < |m.link| && p < |m.stat|
    requires w.Plain? || w.Calm? ==>
      && p !in a.off && Fine(m', run', slp', a.off + {p} - {p}) && Kept(Table(m, run, slp), Table(m', run', slp'))
      && Ran(Table(m, run, slp), a.load, p, a.swapper, Table(m', run', slp'))
    requires !(w.Plain? || w.Calm?) ==> Pushed(m, run, slp, p, m', run', slp')
    ensures RunDone(a, w, m, run, slp, p, m', run', slp')
  {
    if w.Plain? || w.Calm? { assert a.off + {p} - {p} == a.off; }
  }

  /** Who is on no queue goes on the run queue. */
  lemma {:induction false} PushedFine(m: Mem, run: seq<nat>, slp: seq<seq<nat>>, off: set<nat>, p: nat, m': Mem, run': seq<nat>, slp': seq<seq<nat>>)
    requires Fine(m, run, slp, off) && p in off && p < NPROC && Pushed(m, run, slp, p, m', run', slp')
    ensures Fine(m', run', slp', off - {p})
  {
    hide Chain, Placed, Linked;
    var t := Table(m, run, slp);
    NotQueued(t, off, p);
    LinkedPush(m.link, m.slpque, m.runq, t, p);
    PlacedStat(t, off, p, Runnable);
    PlacedPush(t.(stat := t.stat[p := Runnable]), off, p);
  }

  lemma Loose(m: Mem, run: seq<nat>, slp: seq<seq<nat>>, off: set<nat>, p: nat)
    requires Fine(m, run, slp, off) && p in off && p < NPROC
    ensures |m.link| == NPROC && Chain(m.link, m.runq, run) && Proper(run) && p !in run
  {
    NotQueued(Table(m, run, slp), off, p);
  }

  /** With runout clear, a wakeup sets nothing off. */
  lemma NoRunout(t: Tab, load: seq<bool>, chan: nat, swapper: nat)
    requires !t.runout
    ensures !Clash(t, load, chan, swapper)
  {
  }
}
