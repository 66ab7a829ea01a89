/** Consecutive grants of sequence numbers, on the integers and on a circle of residues. */
module Grants {

  /** The numbers start, start + 1, .., start + len - 1. */
  datatype Grant = Grant(start: int, len: int)

  function Sum(lens: seq<int>): int {
    if lens == [] then 0 else Sum(lens[..|lens| - 1]) + lens[|lens| - 1]
  }

  /** One grant for each length, each starting where the one before it ends. */
  function Tile(lens: seq<int>, from: int): (grants: seq<Grant>)
    ensures |grants| == |lens|
  {
    if lens == [] then []
    else
      var init := lens[..|lens| - 1];
      Tile(init, from) + [Grant(from + Sum(init), lens[|lens| - 1])]
  }

  lemma TileSnoc(lens: seq<int>, len: int, from: int)
    ensures Sum(lens + [len]) == Sum(lens) + len
    ensures Tile(lens + [len], from) == Tile(lens, from) + [Grant(from + Sum(lens), len)]
  {
    assert (lens + [len])[..|lens|] == lens;
  }

  lemma {:induction false} TileAt(lens: seq<int>, from: int, i: nat)
    requires i < |lens|
    ensures Tile(lens, from)[i] == Grant(from + Sum(lens[..i]), lens[i])
    ensures Sum(lens[..i + 1]) == Sum(lens[..i]) + lens[i]
    decreases |lens|
  {
    var n := |lens| - 1;
    if i < n {
      TileAt(lens[..n], from, i);
      assert lens[..n][..i] == lens[..i] && lens[..n][..i + 1] == lens[..i + 1];
    } else {
      assert lens[..i + 1] == lens && lens[..n] == lens[..i];
    }
  }

  ghost predicate NonNegative(lens: seq<int>) {
    forall i :: 0 <= i < |lens| ==> 0 <= lens[i]
  }

  lemma {:induction false} SumMonotone(lens: seq<int>, i: nat, j: nat)
    requires NonNegative(lens) && i <= j <= |lens|
    ensures 0 <= Sum(lens[..i]) <= Sum(lens[..j])
    decreases j
  {
    if j > 0 {
      assert lens[..j][..j - 1] == lens[..j - 1];
      if i < j {
        SumMonotone(lens, i, j - 1);
      } else {
        SumMonotone(lens, j - 1, j - 1);
      }
    }
  }

  predicate Contains(g: Grant, p: int) {
    g.start <= p < g.start + g.len
  }

  /** Finds the grant that holds a number. */
  lemma {:induction false} Locate(lens: seq<int>, from: int, p: int) returns (i: nat)
    requires NonNegative(lens) && from <= p < from + Sum(lens)
    ensures i < |lens| && Contains(Tile(lens, from)[i], p)
    decreases |lens|
  {
    var n := |lens| - 1;
    if p < from + Sum(lens[..n]) {
      i := Locate(lens[..n], from, p);
    } else {
      i := n;
    }
  }

  /** Later grants lie wholly after earlier ones, and all lie within the total. */
  lemma TileOrdered(lens: seq<int>, from: int, i: nat, j: nat)
    requires NonNegative(lens) && i < j < |lens|
    ensures var g := Tile(lens, from); g[i].start + g[i].len <= g[j].start
  {
    TileAt(lens, from, i);
    TileAt(lens, from, j);
    SumMonotone(lens, i + 1, j);
  }

  lemma TileBounded(lens: seq<int>, from: int, i: nat)
    requires NonNegative(lens) && i < |lens|
    ensures var g := Tile(lens, from)[i]; from <= g.start <= g.start + g.len <= from + Sum(lens)
  {
    TileAt(lens, from, i);
    SumMonotone(lens, 0, i);
    SumMonotone(lens, i + 1, |lens|);
    assert lens[..|lens|] == lens;
  }

  // Grants from a counter that wraps round.

  const MODULUS: int := 0x1_0000_0000

  type uint32 = i: int | 0 <= i < MODULUS

  function Wrap(i: int): uint32 {
    i % MODULUS
  }

  /** `r` is one of the residues start, start + 1, .., start + len - 1. */
  predicate Covers(g: Grant, r: uint32) {
    Wrap(r - g.start) < g.len
  }

  function Element(g: Grant, k: nat): uint32 {
    Wrap(g.start + k)
  }

  /** `Covers` says what it should: the residue is one of the grant's elements. */
  lemma CoversIsElement(g: Grant, r: uint32)
    requires 0 <= g.len <= MODULUS
    ensures Covers(g, r) <==> exists k: nat :: k < g.len && Element(g, k) == r
  {
    if Covers(g, r) {
      assert Element(g, Wrap(r - g.start)) == r;
    }
    if k: nat :| k < g.len && Element(g, k) == r {
      assert Wrap(r - g.start) == k;
    }
  }

  /** The same grants with their starts taken from the wrapping counter. */
  function OnCircle(grants: seq<Grant>): (wrapped: seq<Grant>)
    ensures |wrapped| == |grants|
    ensures forall i :: 0 <= i < |grants| ==> wrapped[i] == Grant(Wrap(grants[i].start), grants[i].len)
  {
    seq(|grants|, i requires 0 <= i < |grants| => Grant(Wrap(grants[i].start), grants[i].len))
  }

  lemma OnCircleSnoc(grants: seq<Grant>, g: Grant)
    ensures OnCircle(grants + [g]) == OnCircle(grants) + [Grant(Wrap(g.start), g.len)]
  {
  }

  lemma WrapAdd(i: int, j: int)
    ensures Wrap(Wrap(i) + j) == Wrap(i + j)
  {
    assert i == Wrap(i) + i / MODULUS * MODULUS;
  }

  lemma CoversWrapped(g: Grant, r: uint32)
    ensures Covers(Grant(Wrap(g.start), g.len), r) <==> Covers(g, r)
  {
    var q := g.start / MODULUS;
    assert Wrap(g.start) == g.start - q * MODULUS;
    assert Wrap(r - Wrap(g.start)) == Wrap(r - g.start);
  }

  ghost predicate PairwiseDisjoint(grants: seq<Grant>) {
    forall i, j, r: uint32 :: 0 <= i < j < |grants| ==> !(Covers(grants[i], r) && Covers(grants[j], r))
  }

  lemma CoversUnwrapped(g: Grant, r: uint32) returns (p: int)
    requires Covers(g, r)
    ensures Contains(g, p) && Wrap(p) == r
  {
    p := g.start + Wrap(r - g.start);
  }

  /** A number and one after it that share a residue are a full turn apart. */
  lemma FullTurn(p: int, q: int)
    requires p < q && Wrap(p) == Wrap(q)
    ensures p + MODULUS <= q
  {
  }

  lemma DisjointWhileTotalFits(lens: seq<int>, from: int)
    requires NonNegative(lens) && Sum(lens) <= MODULUS
    ensures PairwiseDisjoint(OnCircle(Tile(lens, from)))
  {
    var grants := Tile(lens, from);
    forall i, j, r: uint32 | 0 <= i < j < |grants|
      ensures !(Covers(OnCircle(grants)[i], r) && Covers(OnCircle(grants)[j], r))
    {
      CoversWrapped(grants[i], r);
      CoversWrapped(grants[j], r);
      if Covers(grants[i], r) && Covers(grants[j], r) {
        var p := CoversUnwrapped(grants[i], r);
        var q := CoversUnwrapped(grants[j], r);
        TileBounded(lens, from, i);
        TileBounded(lens, from, j);
        TileOrdered(lens, from, i, j);
        FullTurn(p, q);
        assert false;
      }
    }
  }

  lemma OverlapBeyondTotal(lens: seq<int>, from: int)
    requires NonNegative(lens) && MODULUS < Sum(lens)
    requires forall i :: 0 <= i < |lens| ==> lens[i] < MODULUS
    ensures !PairwiseDisjoint(OnCircle(Tile(lens, from)))
  {
    var grants := Tile(lens, from);
    var i := Locate(lens, from, from);
    var j := Locate(lens, from, from + MODULUS);
    TileAt(lens, from, i);
    TileAt(lens, from, j);
    var r := Wrap(from);
    assert Covers(grants[i], r) && Covers(grants[j], r) by {
      assert Wrap(r - grants[i].start) == from - grants[i].start;
      assert Wrap(r - grants[j].start) == from + MODULUS - grants[j].start;
    }
    CoversWrapped(grants[i], r);
    CoversWrapped(grants[j], r);
    if j < i {
      TileOrdered(lens, from, j, i);
    }
    assert i < j;
  }

  /** Grants that each fit the counter are disjoint as sets of residues exactly while their total fits it. */
  lemma DisjointIffTotalFits(lens: seq<int>, from: int)
    requires forall i :: 0 <= i < |lens| ==> 0 <= lens[i] < MODULUS
    ensures PairwiseDisjoint(OnCircle(Tile(lens, from))) <==> Sum(lens) <= MODULUS
  {
    if Sum(lens) <= MODULUS {
      DisjointWhileTotalFits(lens, from);
    } else {
      OverlapBeyondTotal(lens, from);
    }
  }
}
