/** The token breakdown bar: its cells are shared out by largest remainder. */
module BarBlocks {

  /** Tokens by kind: input, output, cache read, cache write; the counts make up the total. */
  datatype Breakdown = Breakdown(parts: seq<int>, total: int)
  {
    predicate Valid() {
      && |parts| == 4 && parts[0] >= 0 && parts[1] >= 0 && parts[2] >= 0 && parts[3] >= 0
      && total == parts[0] + parts[1] + parts[2] + parts[3] && total > 0
    }
  }

  /** The exact share of the bar. */
  function Quota(b: Breakdown, width: int, i: nat): real
    requires b.Valid() && i < 4
  {
    b.parts[i] as real / b.total as real * width as real
  }

  function Whole(b: Breakdown, width: int, i: nat): int
    requires b.Valid() && i < 4
  {
    Quota(b, width, i).Floor
  }

  function Remainder(b: Breakdown, width: int, i: nat): real
    requires b.Valid() && i < 4
  {
    Quota(b, width, i) - Whole(b, width, i) as real
  }

  datatype Rem = Rem(idx: nat, val: real)

  function Cells(b: Breakdown, width: int): int
    requires b.Valid()
  {
    Whole(b, width, 0) + Whole(b, width, 1) + Whole(b, width, 2) + Whole(b, width, 3)
  }

  /** The remainders of the four parts, in some order; they add up to the cells that are left. */
  ghost predicate AreRemainders(b: Breakdown, width: int, rems: seq<Rem>)
    requires b.Valid()
  {
    && |rems| == 4
    && rems[0].val + rems[1].val + rems[2].val + rems[3].val == (width - Cells(b, width)) as real
    && (forall k :: 0 <= k < 4 ==> rems[k].idx < 4 && rems[k].val == Remainder(b, width, rems[k].idx))
    && (forall k, l :: 0 <= k < l < 4 ==> rems[k].idx != rems[l].idx)
  }

  ghost predicate Descending(rems: seq<Rem>) {
    forall k, l :: 0 <= k < l < |rems| ==> rems[k].val >= rems[l].val
  }

  /** The shares add up to the bar, so fewer than four cells are left after rounding down. */
  lemma QuotasFill(b: Breakdown, width: int)
    requires b.Valid() && width >= 0
    ensures Quota(b, width, 0) + Quota(b, width, 1) + Quota(b, width, 2) + Quota(b, width, 3) == width as real
    ensures forall i :: 0 <= i < 4 ==> 0.0 <= Remainder(b, width, i) < 1.0
    ensures width - 4 < Cells(b, width) <= width
  {
    var t := b.total as real;
    var p0, p1, p2, p3 := b.parts[0] as real, b.parts[1] as real, b.parts[2] as real, b.parts[3] as real;
    assert p0 + p1 + p2 + p3 == t;
    assert p0 / t + p1 / t + p2 / t + p3 / t == 1.0;
    Distribute(p0 / t, p1 / t, p2 / t, p3 / t, width as real);
  }

  lemma Distribute(a: real, b: real, c: real, d: real, w: real)
    requires a + b + c + d == 1.0
    ensures a * w + b * w + c * w + d * w == w
  {
    assert (a + b + c + d) * w == w;
  }

  /** Each block is its share rounded down or up, and those rounded up have the larger remainders. */
  ghost predicate Apportions(b: Breakdown, width: int, blocks: seq<int>)
    requires b.Valid()
  {
    && |blocks| == 4
    && blocks[0] + blocks[1] + blocks[2] + blocks[3] == width
    && (forall i :: 0 <= i < 4 ==> -1.0 < blocks[i] as real - Quota(b, width, i) < 1.0)
    && (forall i :: 0 <= i < 4 ==> blocks[i] == Whole(b, width, i) || blocks[i] == Whole(b, width, i) + 1)
    && (forall i, j :: 0 <= i < 4 && 0 <= j < 4 && blocks[i] > Whole(b, width, i) && blocks[j] == Whole(b, width, j)
          ==> Remainder(b, width, i) >= Remainder(b, width, j))
  }

  /** In whole numbers: every block, times the total, is less than one total from its tokens, times the width. */
  lemma BlocksAreShares(b: Breakdown, width: int, blocks: seq<int>)
    requires b.Valid() && Apportions(b, width, blocks)
    ensures forall i :: 0 <= i < 4 ==> -b.total < blocks[i] * b.total - b.parts[i] * width < b.total
  {
    hide Quota, Whole, Remainder;
    forall i | 0 <= i < 4
      ensures -b.total < blocks[i] * b.total - b.parts[i] * width < b.total
    {
      NearShare(b, width, i, blocks[i]);
    }
  }

  lemma NearShare(b: Breakdown, width: int, i: nat, block: int)
    requires b.Valid() && i < 4 && -1.0 < block as real - Quota(b, width, i) < 1.0
    ensures -b.total < block * b.total - b.parts[i] * width < b.total
  {
    hide *;
    PositiveTotal(b);
    QuotaIs(b, width, i);
    NearProduct(b.parts[i], b.total, width, block, Quota(b, width, i));
  }

  lemma NearProduct(part: int, total: int, width: int, block: int, quota: real)
    requires total > 0 && -1.0 < block as real - quota < 1.0
    requires quota == part as real / total as real * width as real
    ensures -total < block * total - part * width < total
  {
    var product := TimesBlock(block, total);
    var share := TimesShare(part, total, width, quota);
    Near(product, share, total, block as real, quota);
  }

  lemma Near(product: int, share: int, total: int, x: real, q: real)
    requires total > 0 && -1.0 < x - q < 1.0
    requires product as real == x * total as real && share as real == q * total as real
    ensures -total < product - share < total
  {
    var d := Difference(x, q, total as real);
    assert (product - share) as real == product as real - share as real;
    Between(product - share, total, d);
  }

  lemma TimesBlock(block: int, total: int) returns (product: int)
    ensures product == block * total && product as real == block as real * total as real
  {
    product := block * total;
    Product(block, total);
  }

  lemma TimesShare(part: int, total: int, width: int, quota: real) returns (share: int)
    requires total > 0 && quota == part as real / total as real * width as real
    ensures share == part * width && share as real == quota * total as real
  {
    share := part * width;
    Product(part, width);
    ShareTimesTotal(part as real, total as real, width as real);
  }

  lemma Difference(x: real, q: real, t: real) returns (d: real)
    requires -1.0 < x - q < 1.0 && t > 0.0
    ensures d == x * t - q * t && -t < d < t
  {
    var e := x - q;
    d := Below(e, t);
    Distributes(x, q, e, t);
  }

  lemma Below(e: real, t: real) returns (d: real)
    requires -1.0 < e < 1.0 && t > 0.0
    ensures d == e * t && -t < d < t
  {
    d := e * t;
  }

  lemma Distributes(x: real, q: real, e: real, t: real)
    requires e == x - q
    ensures e * t == x * t - q * t
  {
  }

  lemma PositiveTotal(b: Breakdown)
    requires b.Valid()
    ensures b.total > 0 && |b.parts| == 4
  {
  }

  lemma QuotaIs(b: Breakdown, width: int, i: nat)
    requires b.Valid() && i < 4
    ensures Quota(b, width, i) == b.parts[i] as real / b.total as real * width as real
  {
  }

  lemma Between(x: int, t: int, r: real)
    requires x as real == r && -(t as real) < r < t as real
    ensures -t < x < t
  {
  }

  lemma Product(a: int, b: int)
    ensures (a * b) as real == a as real * b as real
  {
  }

  lemma ShareTimesTotal(part: real, t: real, width: real)
    requires t > 0.0
    ensures part / t * width * t == part * width
  {
    assert part / t * t == part;
    assert part / t * width * t == part / t * t * width;
  }

  method ShareOutBlocks(b: Breakdown, width: int) returns (blocks: array<int>)
    requires b.Valid() && width >= 0
    ensures fresh(blocks) && Apportions(b, width, blocks[..])
  {
    hide Quota, Whole, Remainder, Apportions;
    blocks := new int[4];
    var totalBlocks := RoundDown(b, width, blocks);
    var rems := new Rem[4];
    for i := 0 to 4
      invariant forall k :: 0 <= k < i ==> rems[k] == Rem(k, Remainder(b, width, k))
      invariant forall k :: 0 <= k < 4 ==> blocks[k] == Whole(b, width, k)
    {
      RemainderIs(b, width, i);
      rems[i] := Rem(i, Quota(b, width, i) - blocks[i] as real);
    }
    QuotasFill(b, width);
    StartsInOrder(b, width, rems[..]);
    SortRemainders(b, width, rems);
    HandOut(b, width, rems, width - totalBlocks, blocks);
  }

  lemma RemainderIs(b: Breakdown, width: int, k: nat)
    requires b.Valid() && k < 4
    ensures Remainder(b, width, k) == Quota(b, width, k) - Whole(b, width, k) as real
  {
  }

  method RoundDown(b: Breakdown, width: int, blocks: array<int>) returns (totalBlocks: int)
    requires b.Valid() && blocks.Length == 4
    modifies blocks
    ensures forall k :: 0 <= k < 4 ==> blocks[k] == Whole(b, width, k)
    ensures totalBlocks == Cells(b, width)
  {
    hide Quota;
    totalBlocks := 0;
    for i := 0 to 4
      invariant forall k :: 0 <= k < i ==> blocks[k] == Whole(b, width, k)
      invariant totalBlocks == (if i > 0 then Whole(b, width, 0) else 0) + (if i > 1 then Whole(b, width, 1) else 0)
                               + (if i > 2 then Whole(b, width, 2) else 0) + (if i > 3 then Whole(b, width, 3) else 0)
    {
      blocks[i] := Quota(b, width, i).Floor;
      totalBlocks := totalBlocks + blocks[i];
    }
  }

  lemma StartsInOrder(b: Breakdown, width: int, rems: seq<Rem>)
    requires b.Valid() && width >= 0
    requires |rems| == 4 && forall k :: 0 <= k < 4 ==> rems[k] == Rem(k, Remainder(b, width, k))
    ensures AreRemainders(b, width, rems)
  {
    QuotasFill(b, width);
    hide Quota;
    assert rems[0].val + rems[1].val + rems[2].val + rems[3].val
        == Quota(b, width, 0) + Quota(b, width, 1) + Quota(b, width, 2) + Quota(b, width, 3) - Cells(b, width) as real;
  }

  /** Exchange sort, largest remainder first. */
  method SortRemainders(b: Breakdown, width: int, rems: array<Rem>)
    requires b.Valid() && rems.Length == 4 && AreRemainders(b, width, rems[..])
    modifies rems
    ensures AreRemainders(b, width, rems[..]) && Descending(rems[..])
  {
    hide AreRemainders;
    for i := 0 to rems.Length - 1
      invariant AreRemainders(b, width, rems[..])
      invariant forall k, l :: 0 <= k < i && k < l < 4 ==> rems[k].val >= rems[l].val
    {
      for j := i + 1 to rems.Length
        invariant AreRemainders(b, width, rems[..])
        invariant forall k, l :: 0 <= k < i && k < l < 4 ==> rems[k].val >= rems[l].val
        invariant forall l :: i < l < j ==> rems[i].val >= rems[l].val
      {
        if rems[i].val < rems[j].val {
          ExchangeKeeps(b, width, rems[..], i, j);
          ghost var before := rems[..];
          rems[i], rems[j] := rems[j], rems[i];
          assert rems[..] == before[i := before[j]][j := before[i]];
        }
      }
    }
  }

  lemma ExchangeKeeps(b: Breakdown, width: int, s: seq<Rem>, i: int, j: int)
    requires b.Valid() && 0 <= i < j < 4 && AreRemainders(b, width, s)
    ensures AreRemainders(b, width, s[i := s[j]][j := s[i]])
  {
    hide Remainder, Cells;
  }

  /** The cells that are left go to the first of the sorted remainders. */
  method HandOut(b: Breakdown, width: int, rems: array<Rem>, extra: int, blocks: array<int>)
    requires b.Valid() && rems.Length == 4 && blocks.Length == 4 && blocks as object != rems
    requires AreRemainders(b, width, rems[..]) && Descending(rems[..])
    requires extra == width - Cells(b, width) && 0 <= extra < 4
    requires forall k :: 0 <= k < 4 ==> blocks[k] == Whole(b, width, k)
    requires forall i :: 0 <= i < 4 ==> 0.0 <= Remainder(b, width, i) < 1.0
    modifies blocks
    ensures Apportions(b, width, blocks[..])
  {
    hide Whole, Remainder, Apportions, Descending;
    ghost var order := rems[..];
    for i := 0 to extra
      invariant forall k :: 0 <= k < 4 ==>
        blocks[order[k].idx] == Whole(b, width, order[k].idx) + if k < i then 1 else 0
      invariant blocks[0] + blocks[1] + blocks[2] + blocks[3] == Cells(b, width) + i
    {
      assert rems[i] == order[i];
      blocks[rems[i].idx] := blocks[rems[i].idx] + 1;
    }
    LargestFirst(b, width, order, extra, blocks[..]);
  }

  /** Only parts with a remainder are rounded up: fewer would not make up the cells that are left. */
  lemma RoundedUpHaveRemainder(b: Breakdown, width: int, order: seq<Rem>, extra: int)
    requires b.Valid() && AreRemainders(b, width, order) && Descending(order)
    requires extra == width - Cells(b, width) && 0 <= extra < 4
    requires forall i :: 0 <= i < 4 ==> 0.0 <= Remainder(b, width, i) < 1.0
    ensures forall k :: 0 <= k < extra ==> order[k].val > 0.0
  {
    hide Remainder, Cells;
    assert forall k :: 0 <= k < 4 ==> 0.0 <= order[k].val < 1.0;
  }

  /** Handing the cells that are left to the largest remainders meets the whole description. */
  lemma LargestFirst(b: Breakdown, width: int, order: seq<Rem>, extra: int, blocks: seq<int>)
    requires b.Valid() && AreRemainders(b, width, order) && Descending(order) && |blocks| == 4
    requires extra == width - Cells(b, width) && 0 <= extra < 4
    requires forall k :: 0 <= k < 4 ==>
      blocks[order[k].idx] == Whole(b, width, order[k].idx) + if k < extra then 1 else 0
    requires forall i :: 0 <= i < 4 ==> 0.0 <= Remainder(b, width, i) < 1.0
    requires blocks[0] + blocks[1] + blocks[2] + blocks[3] == width
    ensures Apportions(b, width, blocks)
  {
    hide Quota, Whole, Remainder, AreRemainders, Descending, Cells;
    RoundedUpHaveRemainder(b, width, order, extra);
    forall i | 0 <= i < 4
      ensures -1.0 < blocks[i] as real - Quota(b, width, i) < 1.0
      ensures blocks[i] == Whole(b, width, i) || blocks[i] == Whole(b, width, i) + 1
    {
      var k := RankOf(b, width, order, i);
      NearQuota(b, width, i, blocks[i]);
    }
    forall i, j | 0 <= i < 4 && 0 <= j < 4 && blocks[i] > Whole(b, width, i) && blocks[j] == Whole(b, width, j)
      ensures Remainder(b, width, i) >= Remainder(b, width, j)
    {
      var k := RankOf(b, width, order, i);
      var l := RankOf(b, width, order, j);
      assert k < extra <= l;
      Ranked(order, k, l);
    }
  }

  /** Where a part stands among the sorted remainders. */
  lemma RankOf(b: Breakdown, width: int, order: seq<Rem>, i: nat) returns (k: nat)
    requires b.Valid() && AreRemainders(b, width, order) && i < 4
    ensures k < 4 == |order| && order[k].idx == i && order[k].val == Remainder(b, width, i)
  {
    hide Remainder, Cells;
    k := if order[0].idx == i then 0 else if order[1].idx == i then 1 else if order[2].idx == i then 2 else 3;
  }

  lemma Ranked(order: seq<Rem>, k: nat, l: nat)
    requires Descending(order) && k < l < |order|
    ensures order[k].val >= order[l].val
  {
  }

  /** Rounding down is less than one away, and so is rounding up what has a remainder. */
  lemma NearQuota(b: Breakdown, width: int, i: nat, cells: int)
    requires b.Valid() && i < 4 && 0.0 <= Remainder(b, width, i) < 1.0
    requires cells == Whole(b, width, i) || (cells == Whole(b, width, i) + 1 && Remainder(b, width, i) > 0.0)
    ensures -1.0 < cells as real - Quota(b, width, i) < 1.0
  {
    hide Quota, Whole;
  }
}
