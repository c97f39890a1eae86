/** Core and the paging store as arrays of pages. */
module Pages {
  /** The u-area: u_procp, the three sizes sureg() maps by, and everything else. */
  datatype UArea = UArea(procp: nat, tsize: nat, dsize: nat, ssize: nat, rest: int)

  /** A page: its words as one number, or the home copy of a u-area. */
  datatype Page = Words(w: int) | Home(u: UArea)

  const CLEAR: Page := Words(0)

  /** The n pages from a on. */
  function Get(mem: seq<Page>, a: nat, n: nat): (b: seq<Page>)
    ensures |b| == n
    ensures forall k :: 0 <= k < n && a + k < |mem| ==> b[k] == mem[a + k]
  {
    seq(n, k requires 0 <= k => if a + k < |mem| then mem[a + k] else CLEAR)
  }

  /** mem with the pages b from a on. */
  function Put(mem: seq<Page>, a: nat, b: seq<Page>): (m: seq<Page>)
    ensures |m| == |mem|
    ensures forall x :: 0 <= x < |mem| ==> m[x] == if a <= x < a + |b| then b[x - a] else mem[x]
  {
    seq(|mem|, x requires 0 <= x < |mem| => if a <= x < a + |b| then b[x - a] else mem[x])
  }

  function Clear(n: nat): (b: seq<Page>)
    ensures |b| == n
    ensures forall k :: 0 <= k < n ==> b[k] == CLEAR
  {
    seq(n, k => CLEAR)
  }
}
