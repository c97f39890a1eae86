/** The address space a process runs in: estabur() and sureg() (kernel/utab.c). */
module UserMap {
  import opened Common
  import opened ResourceMap
  import opened Space
  import opened Pages
  import opened ProcMem
  import opened ProcSteps
  import opened ProcOps
  import opened ProcRun

  const NPAGE: nat := 32
  const USTKPAGE: nat := 28
  const MAXMEM: nat := NPAGE

  // ----- the map as a function -----------------------------------------------------------------

  /** The sizes pass estabur's tests. */
  predicate Fits(nt: nat, nd: nat, ns: nat, maxmem: nat) {
    nt + nd + ns <= MAXMEM && nt + nd <= USTKPAGE && ns <= NPAGE - USTKPAGE && nt + nd + ns + 1 <= maxmem
  }

  /** The physical page at virtual page v, or 0: text from page 0, data after it, stack at USTKPAGE;
      data and stack follow the u page in the image at daddr. */
  function MapAt(u: UArea, taddr: nat, daddr: nat, v: nat): nat {
    if v < u.tsize then taddr + v
    else if v < u.tsize + u.dsize then daddr + 1 + (v - u.tsize)
    else if USTKPAGE <= v < USTKPAGE + u.ssize then daddr + 1 + u.dsize + (v - USTKPAGE)
    else 0
  }

  // ----- page descriptors in a word ------------------------------------------------------------

  /** A machine word, bit 0 the least significant. */
  type Word = w: seq<bool> | |w| == 48 witness seq(48, _ => false)

  function Bits(n: nat, k: nat): (b: seq<bool>)
    ensures |b| == k
  {
    if k == 0 then [] else [n % 2 == 1] + Bits(n / 2, k - 1)
  }

  function Value(b: seq<bool>): nat {
    if b == [] then 0 else (if b[0] then 1 else 0) + 2 * Value(b[1..])
  }

  function Pow2(k: nat): nat {
    if k == 0 then 1 else 2 * Pow2(k - 1)
  }

  lemma {:induction false} ValueBits(n: nat, k: nat)
    requires n < Pow2(k)
    ensures Value(Bits(n, k)) == n
  {
    if k > 0 {
      ValueBits(n / 2, k - 1);
      assert Bits(n, k)[1..] == Bits(n / 2, k - 1);
    }
  }

  /** Where bit i of the descriptor of page k of a quartet is kept. */
  function Place(k: nat, i: nat): nat {
    if i < 5 then 5 * k + i else 28 + 4 * (i - 5) + k
  }

  /** apx: gather the descriptor of page k. */
  function Gather(w: Word, k: nat): nat
    requires k < 4
  {
    Value(seq(10, i requires 0 <= i < 10 => w[Place(k, i)]))
  }

  /** aux: the descriptor n scattered to the places of page k. */
  function Scatter(n: nat, k: nat): Word
    requires k < 4
  {
    seq(48, b requires 0 <= b < 48 =>
      if b < 20 && b / 5 == k then Bits(n, 10)[b % 5]
      else if b >= 28 && (b - 28) % 4 == k then Bits(n, 10)[5 + (b - 28) / 4]
      else false)
  }

  function Or(x: Word, y: Word): Word {
    seq(48, b requires 0 <= b < 48 => x[b] || y[b])
  }

  /** The protection bits of eight pages, in the places the descriptors leave. */
  function Guard(prot: seq<bool>, v: nat): Word
    requires v + 8 <= |prot|
  {
    seq(48, b requires 0 <= b < 48 => 20 <= b < 28 && prot[v + b - 20])
  }

  /** uptget. */
  function UptGet(upt: seq<Word>, v: nat): nat
    requires v < 32 && |upt| == 8
  {
    Gather(upt[v / 4], v % 4)
  }

  /** The protection register's bit for virtual page v. */
  predicate Closed(upt: seq<Word>, v: nat)
    requires v < 32 && |upt| == 8
  {
    upt[v / 8 * 2][20 + v % 8]
  }

  /** The word holds the descriptors pages[4i..4i+n]. */
  ghost predicate Packed(w: Word, pages: seq<nat>, i: nat, n: nat)
    requires 4 * i + 4 <= |pages|
  {
    && (forall k, j :: 0 <= k < 4 && 0 <= j < 10 ==> w[Place(k, j)] == (k < n && Bits(pages[4 * i + k], 10)[j]))
    && forall b :: 20 <= b < 28 ==> !w[b]
  }

  lemma {:induction false} PackMore(w: Word, pages: seq<nat>, i: nat, n: nat)
    requires 4 * i + 4 <= |pages| && n < 4 && Packed(w, pages, i, n)
    ensures Packed(Or(w, Scatter(pages[4 * i + n], n)), pages, i, n + 1)
  {
    var s := Scatter(pages[4 * i + n], n);
    var w' := Or(w, s);
    forall k, j | 0 <= k < 4 && 0 <= j < 10 ensures w'[Place(k, j)] == (k < n + 1 && Bits(pages[4 * i + k], 10)[j]) {
      Scattered(pages[4 * i + n], n, k, j);
      assert w'[Place(k, j)] == (w[Place(k, j)] || s[Place(k, j)]);
    }
    assert forall b :: 20 <= b < 28 ==> w'[b] == (w[b] || s[b]);
  }

  lemma Scattered(n: nat, k: nat, k': nat, j: nat)
    requires k < 4 && k' < 4 && j < 10
    ensures Place(k', j) < 48 && !(20 <= Place(k', j) < 28)
    ensures Scatter(n, k)[Place(k', j)] == (k == k' && Bits(n, 10)[j])
  {
    hide Bits;
    var b := Place(k', j);
    if j < 5 {
      assert b / 5 == k' && b % 5 == j;
    } else {
      assert (b - 28) % 4 == k' && (b - 28) / 4 == j - 5;
    }
  }

  lemma {:induction false} Unpack(w: Word, w': Word, pages: seq<nat>, i: nat, k: nat)
    requires 4 * i + 4 <= |pages| && Packed(w, pages, i, 4) && k < 4 && pages[4 * i + k] < 1024
    requires forall b :: 0 <= b < 48 && !(20 <= b < 28) ==> w'[b] == w[b]
    ensures Gather(w', k) == pages[4 * i + k]
  {
    var n := pages[4 * i + k];
    hide Bits;
    forall j | 0 <= j < 10 ensures w'[Place(k, j)] == Bits(n, 10)[j] {
      Scattered(n, k, k, j);
      assert w[Place(k, j)] == Bits(n, 10)[j];
    }
    assert seq(10, j requires 0 <= j < 10 => w'[Place(k, j)]) == Bits(n, 10);
    assert Pow2(10) == 1024;
    ValueBits(n, 10);
  }

  // ----- sureg ---------------------------------------------------------------------------------

  /** pg and prot are filled for the virtual pages below m and from USTKPAGE up to n, and empty and
      closed elsewhere. */
  predicate Filled(pg: seq<nat>, prot: seq<bool>, u: UArea, taddr: nat, daddr: nat, m: nat, n: nat) {
    && |pg| == |prot| == NPAGE
    && forall v: nat :: v < NPAGE ==>
         if v < m || USTKPAGE <= v < n then pg[v] == MapAt(u, taddr, daddr, v) && !prot[v] else pg[v] == 0 && prot[v]
  }

  method Sureg(u: UArea, taddr: nat, daddr: nat) returns (upt: seq<Word>)
    requires u.tsize + u.dsize <= USTKPAGE && u.ssize <= NPAGE - USTKPAGE
    requires 0 < taddr && 0 < daddr && taddr + u.tsize <= 1024 && daddr + 1 + u.dsize + u.ssize <= 1024
    ensures |upt| == 8
    ensures forall v: nat :: v < NPAGE ==> UptGet(upt, v) == MapAt(u, taddr, daddr, v)
    ensures forall v: nat :: v < NPAGE ==> (Closed(upt, v) <==> MapAt(u, taddr, daddr, v) == 0)
  {
    hide UptGet, Closed;
    var pg: seq<nat>, prot := seq(NPAGE, _ => 0), seq(NPAGE, _ => true);
    var v := 0;
    var a := taddr;
    while a < taddr + u.tsize
      invariant v <= u.tsize && a == taddr + v
      invariant Filled(pg, prot, u, taddr, daddr, v, 0)
    {
      pg, prot := pg[v := a], prot[v := false];
      v, a := v + 1, a + 1;
    }
    a := daddr + 1;
    while a < daddr + 1 + u.dsize
      invariant u.tsize <= v <= u.tsize + u.dsize && a == daddr + 1 + (v - u.tsize)
      invariant Filled(pg, prot, u, taddr, daddr, v, 0)
    {
      pg, prot := pg[v := a], prot[v := false];
      v, a := v + 1, a + 1;
    }
    v := USTKPAGE;
    while a < daddr + 1 + u.dsize + u.ssize
      invariant USTKPAGE <= v <= USTKPAGE + u.ssize && a == daddr + 1 + u.dsize + (v - USTKPAGE)
      invariant Filled(pg, prot, u, taddr, daddr, u.tsize + u.dsize, v)
    {
      pg, prot := pg[v := a], prot[v := false];
      v, a := v + 1, a + 1;
    }
    assert forall x: nat :: x < NPAGE ==> pg[x] == MapAt(u, taddr, daddr, x) && prot[x] == (MapAt(u, taddr, daddr, x) == 0);
    upt := Pack(pg, prot);
  }

  /** Word i holds the descriptors of its four pages and, if i is even, the protection of eight. */
  ghost predicate WordOk(w: Word, pg: seq<nat>, prot: seq<bool>, i: nat)
    requires |pg| == |prot| == NPAGE && i < 8
  {
    && (forall k: nat :: k < 4 ==> Gather(w, k) == pg[4 * i + k])
    && (i % 2 == 0 ==> forall b :: 20 <= b < 28 ==> w[b] == prot[4 * i + b - 20])
  }

  method PackWord(pg: seq<nat>, prot: seq<bool>, i: nat) returns (w: Word)
    requires |pg| == |prot| == NPAGE && i < 8 && forall v :: 0 <= v < NPAGE ==> pg[v] < 1024
    ensures WordOk(w, pg, prot, i)
  {
    hide Gather, Scatter, Bits, Packed, Or, Guard, Place;
    w := seq(48, _ => false);
    NothingPacked(w, pg, i);
    for k := 0 to 4
      invariant Packed(w, pg, i, k)
    {
      PackMore(w, pg, i, k);
      w := Or(w, Scatter(pg[4 * i + k], k));
    }
    ghost var w0 := w;
    if i % 2 == 0 {
      w := Or(w, Guard(prot, 4 * i));
    }
    ProtOnly(w0, w, pg, prot, i);
    forall k: nat | k < 4 ensures Gather(w, k) == pg[4 * i + k] {
      Unpack(w0, w, pg, i, k);
    }
  }

  /** The second half of sureg: eight words, four descriptors each, protection in the even ones. */
  method Pack(pg: seq<nat>, prot: seq<bool>) returns (upt: seq<Word>)
    requires |pg| == |prot| == NPAGE && forall v :: 0 <= v < NPAGE ==> pg[v] < 1024
    ensures |upt| == 8
    ensures forall v: nat :: v < NPAGE ==> UptGet(upt, v) == pg[v] && Closed(upt, v) == prot[v]
  {
    hide WordOk, UptGet, Closed;
    upt := [];
    for i := 0 to 8
      invariant |upt| == i
      invariant forall j :: 0 <= j < i ==> WordOk(upt[j], pg, prot, j)
    {
      var w := PackWord(pg, prot, i);
      upt := upt + [w];
    }
    forall v: nat | v < NPAGE ensures UptGet(upt, v) == pg[v] && Closed(upt, v) == prot[v] {
      FromWords(upt, pg, prot, v);
    }
  }

  lemma FromWords(upt: seq<Word>, pg: seq<nat>, prot: seq<bool>, v: nat)
    requires |pg| == |prot| == NPAGE && v < NPAGE && |upt| == 8
    requires forall j :: 0 <= j < 8 ==> WordOk(upt[j], pg, prot, j)
    ensures UptGet(upt, v) == pg[v] && Closed(upt, v) == prot[v]
  {
    hide Gather;
    assert WordOk(upt[v / 4], pg, prot, v / 4);
    assert 4 * (v / 4) + v % 4 == v;
    assert WordOk(upt[v / 8 * 2], pg, prot, v / 8 * 2);
    assert 4 * (v / 8 * 2) + (20 + v % 8) - 20 == v;
  }

  lemma NothingPacked(w: Word, pg: seq<nat>, i: nat)
    requires 4 * i + 4 <= |pg| && forall b :: 0 <= b < 48 ==> !w[b]
    ensures Packed(w, pg, i, 0)
  {
    hide Bits;
  }

  lemma ProtOnly(w0: Word, w: Word, pg: seq<nat>, prot: seq<bool>, i: nat)
    requires i < 8 && |pg| == |prot| == NPAGE && Packed(w0, pg, i, 4)
    requires w == if i % 2 == 0 then Or(w0, Guard(prot, 4 * i)) else w0
    ensures forall b :: 0 <= b < 48 && !(20 <= b < 28) ==> w[b] == w0[b]
    ensures i % 2 == 0 ==> forall b :: 20 <= b < 28 ==> w[b] == prot[4 * i + b - 20]
  {
    hide Bits;
  }

  /** estabur: the sizes are taken, and the map rebuilt, exactly when they pass the tests. */
  method Estabur(u: UArea, nt: nat, nd: nat, ns: nat, maxmem: nat, taddr: nat, daddr: nat, old_upt: seq<Word>)
    returns (u': UArea, upt: seq<Word>, err: bool)
    requires 0 < taddr && 0 < daddr && taddr + nt <= 1024 && daddr + 1 + nd + ns <= 1024
    ensures err <==> !Fits(nt, nd, ns, maxmem)
    ensures err ==> u' == u && upt == old_upt
    ensures !err ==> u' == u.(tsize := nt, dsize := nd, ssize := ns) && |upt| == 8
    ensures !err ==> forall v: nat :: v < NPAGE ==> UptGet(upt, v) == MapAt(u', taddr, daddr, v)
  {
    u', upt, err := u, old_upt, true;
    if nt + nd + ns > MAXMEM || nt + nd > USTKPAGE || ns > NPAGE - USTKPAGE || nt + nd + ns + 1 > maxmem {
      return;
    }
    u', err := u.(tsize := nt, dsize := nd, ssize := ns), false;
    upt := Sureg(u', taddr, daddr);
  }

  // ----- what two processes share --------------------------------------------------------------

  /** Process p is ready to run user code with the u-area u: its image is in core and the sizes in u
      are within the image and the text. */
  predicate Ready(s: Sys, p: nat, u: UArea) {
    && InCore(s, p) && u.tsize + u.dsize <= USTKPAGE && 1 + u.dsize + u.ssize <= s.procs[p].size
    && match s.procs[p].text
       case None => u.tsize == 0
       case Some(t) => t < |s.texts| && u.tsize <= s.texts[t].size
  }

  /** What sureg maps at virtual page v of process p. */
  function PageOf(s: Sys, p: nat, u: UArea, v: nat): nat
    requires Ready(s, p, u)
  {
    MapAt(u, if s.procs[p].text.Some? then s.texts[s.procs[p].text.value].caddr else s.procs[p].addr, s.procs[p].addr, v)
  }

  /** Every mapped page belongs to the process's text or, above the u page, to its image. */
  lemma {:induction false} PageOwner(s: Sys, p: nat, u: UArea, v: nat) returns (o: Owner)
    requires Good(s) && Ready(s, p, u) && v < NPAGE && PageOf(s, p, u, v) != 0
    ensures CoreHeld(s, o, PageOf(s, p, u, v))
    ensures if v < u.tsize then s.procs[p].text.Some? && o == Text(s.procs[p].text.value)
            else o == Image(p) && PageOf(s, p, u, v) != s.procs[p].addr
  {
    if v < u.tsize {
      UsersHaveText(s, Loaded(s), p);
      o := Text(s.procs[p].text.value);
    } else {
      o := Image(p);
    }
  }

  /** Two processes ready to run see a common page only at the same place of the same text, and no
      page they see is free or holds a u-area. */
  lemma {:induction false} SharedOnlyThroughText(s: Sys, p: nat, u: UArea, v: nat, q: nat, w: UArea, x: nat)
    requires Good(s) && p != q && Ready(s, p, u) && Ready(s, q, w) && v < NPAGE && x < NPAGE
    requires PageOf(s, p, u, v) == PageOf(s, q, w, x) != 0
    ensures s.procs[p].text.Some? && s.procs[q].text == s.procs[p].text && v == x && v < u.tsize && x < w.tsize
    ensures !Free(s.coremap, PageOf(s, p, u, v))
  {
    hide Free, Ordered, Counted, HomesKept, TextsKept, SwapShared;
    var o := PageOwner(s, p, u, v);
    var o' := PageOwner(s, q, w, x);
    var page := PageOf(s, p, u, v);
    assert CoreHolding(s)(o, page) && CoreHolding(s)(o', page);
    assert o == o';
  }

  /** Within one process every mapped page is mapped once. */
  lemma {:induction false} MappedOnce(s: Sys, p: nat, u: UArea, v: nat, x: nat)
    requires Good(s) && Ready(s, p, u) && v < x < NPAGE && PageOf(s, p, u, v) != 0
    ensures PageOf(s, p, u, v) != PageOf(s, p, u, x)
  {
    hide Free, Ordered, Counted, HomesKept, TextsKept, SwapShared;
    if PageOf(s, p, u, x) != 0 {
      var o := PageOwner(s, p, u, v);
      var o' := PageOwner(s, p, u, x);
      assert CoreHolding(s)(o, PageOf(s, p, u, v)) && CoreHolding(s)(o', PageOf(s, p, u, x));
    }
  }
}
