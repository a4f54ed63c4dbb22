/** RAID0 block arithmetic: how the bytes of one file are spread over the ranks of a group.

    A file is cut into blocks of BLOCK_SIZE bytes, and block b lives on rank b % n.  The three
    index functions are closed forms; their meaning is given by counting (`CountOwned`) and by
    filtering a flat byte sequence (`Stripe`). */
module Striping {

  const BLOCK_SIZE: nat := 512

  type Byte = b: nat | b < 256

  // ------------------------------------------------------------------ index functions

  function ToLocalIndexCeiling(g: nat, rank: nat, n: nat): (l: nat)
    requires 0 < n
  {
    var globalBlock := g / BLOCK_SIZE;
    var remainderBytes := g % BLOCK_SIZE;
    var remainderBlocks := globalBlock % n;
    var blocks := globalBlock / n * BLOCK_SIZE;
    if rank < remainderBlocks then blocks + BLOCK_SIZE
    else if rank == remainderBlocks then blocks + remainderBytes
    else blocks
  }

  predicate StoresIndex(g: nat, rank: nat, n: nat)
    requires 0 < n
  {
    rank == (g / BLOCK_SIZE) % n
  }

  function ToGlobalIndex(l: nat, rank: nat, n: nat): (g: nat) {
    var stripes := l / BLOCK_SIZE;
    var remainder := l % BLOCK_SIZE;
    stripes * BLOCK_SIZE * n + rank * BLOCK_SIZE + remainder
  }

  // ------------------------------------------------------------------ what they mean

  /** Where a byte goes: its rank and its place in the block. */
  datatype Cursor = Cursor(rank: nat, within: nat)

  /** Bytes are dealt one by one: a rank gets BLOCK_SIZE of them, then it is the next rank's turn,
      and after rank n - 1 comes rank 0. */
  function Deal(g: nat, n: nat): (c: Cursor)
    requires 0 < n
    ensures c.rank < n && c.within < BLOCK_SIZE
  {
    if g == 0 then Cursor(0, 0)
    else
      var previous := Deal(g - 1, n);
      if previous.within < BLOCK_SIZE - 1 then Cursor(previous.rank, previous.within + 1)
      else if previous.rank < n - 1 then Cursor(previous.rank + 1, 0)
      else Cursor(0, 0)
  }

  predicate Owns(rank: nat, g: nat, n: nat)
    requires 0 < n
  {
    Deal(g, n).rank == rank
  }

  /** The number of indices below g that live on `rank`. */
  ghost function CountOwned(g: nat, rank: nat, n: nat): (c: nat)
    requires 0 < n
  {
    |set h: nat | h < g && Owns(rank, h, n)|
  }

  lemma CountZero(rank: nat, n: nat)
    requires 0 < n
    ensures CountOwned(0, rank, n) == 0
  {
    assert (set h: nat | h < 0 && Owns(rank, h, n)) == {};
  }

  lemma CountStep(g: nat, rank: nat, n: nat)
    requires 0 < n
    ensures CountOwned(g + 1, rank, n) == CountOwned(g, rank, n) + if Owns(rank, g, n) then 1 else 0
  {
    var below := set h: nat | h < g && Owns(rank, h, n);
    var upTo := set h: nat | h < g + 1 && Owns(rank, h, n);
    assert upTo == if Owns(rank, g, n) then below + {g} else below;
  }

  /** Euclidean division is determined by quotient and remainder. */
  lemma DivModUnique(x: nat, n: nat, q: nat, r: nat)
    requires 0 < n && r < n && x == q * n + r
    ensures x / n == q && x % n == r
  {
    var q', r' := x / n, x % n;
    assert (q' - q) * n == q' * n - q * n == r - r';
    if q' - q >= 1 {
      AtLeastFactor(q' - q, n);
      assert false;
    } else if q' - q <= -1 {
      assert (q - q') * n == -((q' - q) * n);
      AtLeastFactor(q - q', n);
      assert false;
    }
  }

  lemma AtLeastFactor(k: nat, n: nat)
    requires 1 <= k
    ensures n <= k * n
  {
    assert k * n == (k - 1) * n + n;
  }

  lemma DivModSuccessor(b: nat, n: nat)
    requires 0 < n
    ensures b % n == n - 1 ==> (b + 1) / n == b / n + 1 && (b + 1) % n == 0
    ensures b % n != n - 1 ==> (b + 1) / n == b / n && (b + 1) % n == b % n + 1
  {
    var q, r := b / n, b % n;
    assert b == q * n + r;
    if r == n - 1 {
      assert b + 1 == (q + 1) * n + 0;
      DivModUnique(b + 1, n, q + 1, 0);
    } else {
      DivModUnique(b + 1, n, q, r + 1);
    }
  }

  lemma {:induction false} DealIsDivision(g: nat, n: nat)
    requires 0 < n
    ensures Deal(g, n) == Cursor(g / BLOCK_SIZE % n, g % BLOCK_SIZE)
  {
    if g == 0 {
      DivModUnique(0, n, 0, 0);
    } else {
      DealIsDivision(g - 1, n);
      DivModSuccessor((g - 1) / BLOCK_SIZE, n);
    }
  }

  /** stores_index names the one rank that a round-robin deal gives the byte to. */
  lemma StoresIndexIsOwnership(g: nat, rank: nat, n: nat)
    requires 0 < n
    ensures StoresIndex(g, rank, n) <==> Owns(rank, g, n)
    ensures Deal(g, n).rank < n && (StoresIndex(g, rank, n) <==> rank == Deal(g, n).rank)
  {
    DealIsDivision(g, n);
  }

  /** One more byte adds one to exactly the rank that stores it. */
  lemma CeilingStep(g: nat, rank: nat, n: nat)
    requires rank < n
    ensures ToLocalIndexCeiling(g + 1, rank, n)
         == ToLocalIndexCeiling(g, rank, n) + if StoresIndex(g, rank, n) then 1 else 0
  {
    var b := g / BLOCK_SIZE;
    if g % BLOCK_SIZE == BLOCK_SIZE - 1 {
      assert (g + 1) / BLOCK_SIZE == b + 1 && (g + 1) % BLOCK_SIZE == 0;
      DivModSuccessor(b, n);
    } else {
      assert (g + 1) / BLOCK_SIZE == b && (g + 1) % BLOCK_SIZE == g % BLOCK_SIZE + 1;
    }
  }

  /** to_local_index_ceiling counts the bytes below g that live on the rank. */
  lemma {:induction false} LocalIndexCountsOwned(g: nat, rank: nat, n: nat)
    requires rank < n
    ensures ToLocalIndexCeiling(g, rank, n) == CountOwned(g, rank, n)
  {
    if g == 0 {
      CountZero(rank, n);
      DivModUnique(0, n, 0, 0);
    } else {
      CountStep(g - 1, rank, n);
      LocalIndexCountsOwned(g - 1, rank, n);
      CeilingStep(g - 1, rank, n);
      StoresIndexIsOwnership(g - 1, rank, n);
    }
  }

  lemma {:induction false} CountOwnedMonotone(g: nat, h: nat, rank: nat, n: nat)
    requires 0 < n && g <= h
    ensures CountOwned(g, rank, n) <= CountOwned(h, rank, n)
  {
    if g < h {
      CountOwnedMonotone(g, h - 1, rank, n);
      CountStep(h - 1, rank, n);
    }
  }

  /** Owned indices are ordered as their counts are. */
  lemma CountOrder(g: nat, h: nat, rank: nat, n: nat)
    requires 0 < n && Owns(rank, g, n)
    ensures CountOwned(g, rank, n) < CountOwned(h, rank, n) <==> g < h
  {
    if g < h {
      CountStep(g, rank, n);
      CountOwnedMonotone(g + 1, h, rank, n);
    } else {
      CountOwnedMonotone(h, g, rank, n);
    }
  }

  /** Bytes below g on the ranks 0..k. */
  function SumLocal(g: nat, n: nat, k: nat): (s: nat)
    requires k <= n && 0 < n
  {
    if k == 0 then 0 else SumLocal(g, n, k - 1) + ToLocalIndexCeiling(g, k - 1, n)
  }

  lemma {:induction false} SumLocalStep(g: nat, n: nat, k: nat)
    requires k <= n && 0 < n
    ensures SumLocal(g + 1, n, k) == SumLocal(g, n, k) + if Deal(g, n).rank < k then 1 else 0
  {
    if k > 0 {
      SumLocalStep(g, n, k - 1);
      CeilingStep(g, k - 1, n);
      StoresIndexIsOwnership(g, k - 1, n);
    }
  }

  lemma {:induction false} SumLocalZero(n: nat, k: nat)
    requires k <= n && 0 < n
    ensures SumLocal(0, n, k) == 0
  {
    if k > 0 {
      SumLocalZero(n, k - 1);
      DivModUnique(0, n, 0, 0);
    }
  }

  /** The per-rank lengths of a file of g bytes add up to g: no byte is lost or stored twice. */
  lemma {:induction false} LocalLengthsSum(g: nat, n: nat)
    requires 0 < n
    ensures SumLocal(g, n, n) == g
  {
    if g == 0 {
      SumLocalZero(n, n);
    } else {
      LocalLengthsSum(g - 1, n);
      SumLocalStep(g - 1, n, n);
    }
  }

  /** The block and the offset in it of a global index built from a local one. */
  lemma GlobalIndexParts(l: nat, rank: nat, n: nat)
    requires rank < n
    ensures ToGlobalIndex(l, rank, n) / BLOCK_SIZE == l / BLOCK_SIZE * n + rank
    ensures ToGlobalIndex(l, rank, n) % BLOCK_SIZE == l % BLOCK_SIZE
    ensures StoresIndex(ToGlobalIndex(l, rank, n), rank, n)
    ensures ToGlobalIndex(l, rank, n) / BLOCK_SIZE / n == l / BLOCK_SIZE
  {
    var q := l / BLOCK_SIZE;
    var b := q * n + rank;
    assert q * BLOCK_SIZE * n == q * n * BLOCK_SIZE;
    assert ToGlobalIndex(l, rank, n) == b * BLOCK_SIZE + l % BLOCK_SIZE;
    DivModUnique(b, n, q, rank);
  }

  /** A global index built from a local one is owned, and lies l owned bytes into the file. */
  lemma GlobalIndexIsOwned(l: nat, rank: nat, n: nat)
    requires rank < n
    ensures ToLocalIndexCeiling(ToGlobalIndex(l, rank, n), rank, n) == l
    ensures Owns(rank, ToGlobalIndex(l, rank, n), n)
    ensures CountOwned(ToGlobalIndex(l, rank, n), rank, n) == l
  {
    GlobalIndexParts(l, rank, n);
    LocalIndexCountsOwned(ToGlobalIndex(l, rank, n), rank, n);
    StoresIndexIsOwnership(ToGlobalIndex(l, rank, n), rank, n);
  }

  /** The l-th owned index, if the file reaches that far. */
  lemma OwnedIndexOf(l: nat, len: nat, rank: nat, n: nat) returns (g: nat)
    requires rank < n && l < CountOwned(len, rank, n)
    ensures g < len && Owns(rank, g, n) && CountOwned(g, rank, n) == l
  {
    g := ToGlobalIndex(l, rank, n);
    GlobalIndexIsOwned(l, rank, n);
    CountOrder(g, len, rank, n);
  }

  /** to_global_index inverts to_local_index_ceiling on owned indices; on any other index it
      yields the least owned index above it. */
  lemma GlobalIsNextOwned(g: nat, rank: nat, n: nat)
    requires rank < n
    ensures var next := ToGlobalIndex(ToLocalIndexCeiling(g, rank, n), rank, n);
            && g <= next
            && Owns(rank, next, n)
            && CountOwned(next, rank, n) == CountOwned(g, rank, n)
            && (forall h :: g <= h < next ==> !Owns(rank, h, n))
            && (Owns(rank, g, n) <==> next == g)
  {
    var l := ToLocalIndexCeiling(g, rank, n);
    LocalIndexCountsOwned(g, rank, n);
    GlobalIndexIsOwned(l, rank, n);
    NextOwned(g, ToGlobalIndex(l, rank, n), rank, n);
  }

  lemma NextOwned(g: nat, next: nat, rank: nat, n: nat)
    requires 0 < n && Owns(rank, next, n) && CountOwned(next, rank, n) == CountOwned(g, rank, n)
    ensures g <= next && forall h :: g <= h < next ==> !Owns(rank, h, n)
  {
    CountOrder(next, g, rank, n);
    forall h | g <= h < next
      ensures !Owns(rank, h, n)
    {
      if Owns(rank, h, n) {
        CountOwnedMonotone(g, h, rank, n);
        CountOrder(h, next, rank, n);
      }
    }
  }

  /** All indices of one block have the same owner. */
  lemma {:induction false} SameBlock(g: nat, k: nat, n: nat)
    requires 0 < n && Deal(g, n).within + k < BLOCK_SIZE
    ensures Deal(g + k, n) == Cursor(Deal(g, n).rank, Deal(g, n).within + k)
  {
    if k > 0 {
      SameBlock(g, k - 1, n);
    }
  }

  /** ... so counts grow by one per byte inside it, or not at all. */
  lemma {:induction false} CountWithinBlock(g: nat, k: nat, rank: nat, n: nat)
    requires 0 < n && Deal(g, n).within + k <= BLOCK_SIZE
    ensures CountOwned(g + k, rank, n)
         == CountOwned(g, rank, n) + if Owns(rank, g, n) then k else 0
  {
    if k > 0 {
      CountWithinBlock(g, k - 1, rank, n);
      SameBlock(g, k - 1, n);
      CountStep(g + k - 1, rank, n);
    }
  }

  /** A whole stripe of n blocks holds one block of every rank, and leaves the deal where it was. */
  lemma CountOwnedStripe(g: nat, rank: nat, n: nat)
    requires rank < n
    ensures CountOwned(g + n * BLOCK_SIZE, rank, n) == CountOwned(g, rank, n) + BLOCK_SIZE
    ensures Deal(g + n * BLOCK_SIZE, n) == Deal(g, n)
  {
    var b := g / BLOCK_SIZE;
    assert (g + n * BLOCK_SIZE) / BLOCK_SIZE == b + n;
    assert b + n == (b / n + 1) * n + b % n;
    DivModUnique(b + n, n, b / n + 1, b % n);
    DealIsDivision(g, n);
    DealIsDivision(g + n * BLOCK_SIZE, n);
    LocalIndexCountsOwned(g, rank, n);
    LocalIndexCountsOwned(g + n * BLOCK_SIZE, rank, n);
  }

  // ------------------------------------------------------------------ flat files and stripes

  function Zeros(k: nat): (z: seq<Byte>)
    ensures |z| == k && forall i :: 0 <= i < k ==> z[i] == 0
  {
    seq(k, _ => 0)
  }

  /** Byte i of a file, where everything past the end reads as zero. */
  function ByteAt(f: seq<Byte>, i: nat): Byte {
    if i < |f| then f[i] else 0
  }

  /** Set the length of a file, cutting or zero-filling it. */
  function SetLength(f: seq<Byte>, len: nat): (r: seq<Byte>)
    ensures |r| == len
    ensures forall i :: 0 <= i < len ==> r[i] == ByteAt(f, i)
    ensures len <= |f| ==> r == f[..len]
  {
    seq(len, i requires 0 <= i => ByteAt(f, i))
  }

  function Max(a: nat, b: nat): nat { if a <= b then b else a }

  /** Overwrite a file from `pos` on; a gap before `pos` is zero-filled. */
  function Patch(f: seq<Byte>, pos: nat, data: seq<Byte>): (r: seq<Byte>)
    ensures |r| == Max(|f|, pos + |data|)
    ensures forall i :: 0 <= i < |r| ==>
              r[i] == if pos <= i < pos + |data| then data[i - pos] else ByteAt(f, i)
  {
    seq(Max(|f|, pos + |data|),
        i requires 0 <= i => if pos <= i < pos + |data| then data[i - pos] else ByteAt(f, i))
  }

  /** The bytes of a flat file that `rank` stores, in order. */
  ghost function Stripe(flat: seq<Byte>, rank: nat, n: nat): (s: seq<Byte>)
    requires 0 < n
    ensures |s| == CountOwned(|flat|, rank, n)
  {
    if flat == [] then
      CountZero(rank, n);
      []
    else
      var k := |flat| - 1;
      CountStep(k, rank, n);
      Stripe(flat[..k], rank, n) + if Owns(rank, k, n) then [flat[k]] else []
  }

  lemma {:induction false} StripeAt(flat: seq<Byte>, g: nat, rank: nat, n: nat)
    requires 0 < n && g < |flat| && Owns(rank, g, n)
    ensures CountOwned(g, rank, n) < CountOwned(|flat|, rank, n)
    ensures Stripe(flat, rank, n)[CountOwned(g, rank, n)] == flat[g]
  {
    CountOrder(g, |flat|, rank, n);
    var k := |flat| - 1;
    CountStep(k, rank, n);
    if g < k {
      StripeAt(flat[..k], g, rank, n);
    }
  }

  /** A local file is the stripe of `flat` iff it has the right length and the right bytes. */
  lemma StripeExtensional(f: seq<Byte>, flat: seq<Byte>, rank: nat, n: nat)
    requires rank < n
    requires |f| == CountOwned(|flat|, rank, n)
    requires forall g: nat :: g < |flat| && Owns(rank, g, n) ==> Holds(f, g, flat[g], rank, n)
    ensures f == Stripe(flat, rank, n)
  {
    forall l | 0 <= l < |f|
      ensures f[l] == Stripe(flat, rank, n)[l]
    {
      var g := OwnedIndexOf(l, |flat|, rank, n);
      assert Holds(f, g, flat[g], rank, n);
      StripeAt(flat, g, rank, n);
    }
  }

  /** Local file f holds byte v for global index g. */
  ghost predicate Holds(f: seq<Byte>, g: nat, v: Byte, rank: nat, n: nat)
    requires 0 < n
  {
    CountOwned(g, rank, n) < |f| && f[CountOwned(g, rank, n)] == v
  }

  // ------------------------------------------------------------------ local operations refine flat ones

  /** The part of a write that belongs on `rank`: what its stripe holds from the offset on. */
  ghost function LocalPart(offset: nat, data: seq<Byte>, rank: nat, n: nat): (part: seq<Byte>)
    requires rank < n
    ensures |part| == CountOwned(offset + |data|, rank, n) - CountOwned(offset, rank, n)
  {
    CountOwnedMonotone(offset, offset + |data|, rank, n);
    Stripe(Zeros(offset) + data, rank, n)[CountOwned(offset, rank, n)..]
  }

  lemma LocalPartAt(offset: nat, data: seq<Byte>, g: nat, rank: nat, n: nat)
    requires rank < n && offset <= g < offset + |data| && Owns(rank, g, n)
    ensures 0 <= CountOwned(g, rank, n) - CountOwned(offset, rank, n) < |LocalPart(offset, data, rank, n)|
    ensures LocalPart(offset, data, rank, n)[CountOwned(g, rank, n) - CountOwned(offset, rank, n)]
         == data[g - offset]
  {
    var image := Zeros(offset) + data;
    assert |image| == offset + |data| && image[g] == data[g - offset];
    CountOwnedMonotone(offset, g, rank, n);
    CountOrder(g, |image|, rank, n);
    StripeAt(image, g, rank, n);
  }

  /** What one rank does to its local file for a write of `data` at `offset`: its part is laid over
      the file from the rank's first index at or above the offset, and a hole is zero-filled even
      when the part is empty. */
  ghost function LocalWrite(f: seq<Byte>, offset: nat, data: seq<Byte>, rank: nat, n: nat): (r: seq<Byte>)
    requires rank < n
  {
    Patch(f, CountOwned(offset, rank, n), LocalPart(offset, data, rank, n))
  }

  /** Writing locally on each rank is writing to the flat file, holes included. */
  lemma LocalWriteRefinesPatch(flat: seq<Byte>, offset: nat, data: seq<Byte>, rank: nat, n: nat)
    requires rank < n
    ensures LocalWrite(Stripe(flat, rank, n), offset, data, rank, n)
         == Stripe(Patch(flat, offset, data), rank, n)
  {
    var f, flat' := Stripe(flat, rank, n), Patch(flat, offset, data);
    LocalWriteLength(f, |flat|, offset, data, rank, n);
    forall g: nat | g < |flat'| && Owns(rank, g, n)
      ensures Holds(LocalWrite(f, offset, data, rank, n), g, flat'[g], rank, n)
    {
      if g < |flat| {
        StripeAt(flat, g, rank, n);
      }
      LocalWriteAt(f, flat, offset, data, g, rank, n);
    }
    StripeExtensional(LocalWrite(f, offset, data, rank, n), flat', rank, n);
  }

  lemma LocalWriteLength(f: seq<Byte>, len: nat, offset: nat, data: seq<Byte>, rank: nat, n: nat)
    requires rank < n && |f| == CountOwned(len, rank, n)
    ensures |LocalWrite(f, offset, data, rank, n)| == CountOwned(Max(len, offset + |data|), rank, n)
  {
    if len <= offset + |data| {
      CountOwnedMonotone(len, offset + |data|, rank, n);
    } else {
      CountOwnedMonotone(offset + |data|, len, rank, n);
    }
  }

  lemma LocalWriteAt(f: seq<Byte>, flat: seq<Byte>, offset: nat, data: seq<Byte>, g: nat, rank: nat, n: nat)
    requires rank < n && g < |Patch(flat, offset, data)| && Owns(rank, g, n)
    requires |f| == CountOwned(|flat|, rank, n) && (g < |flat| ==> Holds(f, g, flat[g], rank, n))
    ensures Holds(LocalWrite(f, offset, data, rank, n), g, Patch(flat, offset, data)[g], rank, n)
  {
    var l, start, part := CountOwned(g, rank, n), CountOwned(offset, rank, n), LocalPart(offset, data, rank, n);
    CountOrder(g, |flat|, rank, n);
    CountOrder(g, offset, rank, n);
    CountOrder(g, offset + |data|, rank, n);
    if offset <= g < offset + |data| {
      LocalPartAt(offset, data, g, rank, n);
    }
    PatchCorresponds(f, start, part, l, flat, offset, data, g);
  }

  /** Two overlays agree at corresponding places if they are cut at corresponding places. */
  lemma PatchCorresponds(f: seq<Byte>, start: nat, part: seq<Byte>, l: nat,
                         flat: seq<Byte>, offset: nat, data: seq<Byte>, g: nat)
    requires g < |Patch(flat, offset, data)|
    requires l < |f| <==> g < |flat|
    requires l < start <==> g < offset
    requires l < start + |part| <==> g < offset + |data|
    requires g < |flat| ==> f[l] == flat[g]
    requires offset <= g < offset + |data| ==> part[l - start] == data[g - offset]
    ensures l < |Patch(f, start, part)| && Patch(f, start, part)[l] == Patch(flat, offset, data)[g]
  {}

  /** Cutting or extending each local file to its share is cutting or extending the flat file. */
  lemma LocalTruncateRefinesSetLength(flat: seq<Byte>, len: nat, rank: nat, n: nat)
    requires rank < n
    ensures SetLength(Stripe(flat, rank, n), CountOwned(len, rank, n))
         == Stripe(SetLength(flat, len), rank, n)
  {
    var f' := SetLength(Stripe(flat, rank, n), CountOwned(len, rank, n));
    forall g: nat | g < len && Owns(rank, g, n)
      ensures Holds(f', g, SetLength(flat, len)[g], rank, n)
    {
      CountOrder(g, |flat|, rank, n);
      CountOrder(g, len, rank, n);
      if g < |flat| {
        StripeAt(flat, g, rank, n);
      }
    }
    StripeExtensional(f', SetLength(flat, len), rank, n);
  }

  // ------------------------------------------------------------------ reading back

  /** The bytes of a file from start up to end, as far as they exist. */
  function Clip(f: seq<Byte>, start: nat, end: nat): (r: seq<Byte>) {
    var stop := Min(end, |f|);
    if stop <= start then [] else f[start..stop]
  }

  /** What one rank returns for a read of `size` bytes at `offset`. */
  ghost function RawRead(f: seq<Byte>, offset: nat, size: nat, rank: nat, n: nat): (r: seq<Byte>)
    requires 0 < n
  {
    Clip(f, CountOwned(offset, rank, n), CountOwned(offset + size, rank, n))
  }

  function Min(a: nat, b: nat): nat { if a <= b then a else b }

  /** The end of a read that a file of length `len` can serve. */
  function ReadEnd(len: nat, offset: nat, size: nat): (e: nat)
    ensures offset <= e
  {
    if Min(offset + size, len) < offset then offset else Min(offset + size, len)
  }

  function FlatRead(flat: seq<Byte>, offset: nat, size: nat): (r: seq<Byte>) {
    if |flat| <= offset then [] else flat[offset..Min(offset + size, |flat|)]
  }

  /** A raw read of a local file returns as many bytes as the rank has between offset and end. */
  lemma RawReadLength(f: seq<Byte>, len: nat, offset: nat, size: nat, rank: nat, n: nat)
    requires 0 < n && |f| == CountOwned(len, rank, n)
    ensures |RawRead(f, offset, size, rank, n)|
         == CountOwned(ReadEnd(len, offset, size), rank, n) - CountOwned(offset, rank, n)
  {
    CountOwnedMonotone(offset, ReadEnd(len, offset, size), rank, n);
    CountOwnedMonotone(offset, offset + size, rank, n);
    if offset + size <= len {
      CountOwnedMonotone(offset + size, len, rank, n);
    } else {
      CountOwnedMonotone(len, offset + size, rank, n);
      if len < offset {
        CountOwnedMonotone(len, offset, rank, n);
      }
    }
  }

  lemma ClipAt(f: seq<Byte>, start: nat, end: nat, l: nat)
    requires 0 <= l - start < |Clip(f, start, end)|
    ensures l < |f| && Clip(f, start, end)[l - start] == f[l]
  {}

  lemma RawReadCovers(f: seq<Byte>, len: nat, offset: nat, size: nat, g: nat, rank: nat, n: nat)
    requires 0 < n && |f| == CountOwned(len, rank, n)
    requires offset <= g < ReadEnd(len, offset, size) && Owns(rank, g, n)
    ensures 0 <= CountOwned(g, rank, n) - CountOwned(offset, rank, n) < |RawRead(f, offset, size, rank, n)|
  {
    RawReadLength(f, len, offset, size, rank, n);
    CountOwnedMonotone(offset, g, rank, n);
    CountOrder(g, ReadEnd(len, offset, size), rank, n);
  }

  /** Reading a stripe returns the flat file's bytes. */
  lemma RawReadAt(flat: seq<Byte>, offset: nat, size: nat, g: nat, rank: nat, n: nat)
    requires 0 < n && offset <= g < ReadEnd(|flat|, offset, size) && Owns(rank, g, n)
    ensures var r := RawRead(Stripe(flat, rank, n), offset, size, rank, n);
            && 0 <= CountOwned(g, rank, n) - CountOwned(offset, rank, n) < |r|
            && r[CountOwned(g, rank, n) - CountOwned(offset, rank, n)] == flat[g]
  {
    var f := Stripe(flat, rank, n);
    var c := CountOwned(g, rank, n);
    RawReadCovers(f, |flat|, offset, size, g, rank, n);
    assert f[c] == flat[g] by { StripeAt(flat, g, rank, n); }
    ClipAt(f, CountOwned(offset, rank, n), CountOwned(offset + size, rank, n), c);
  }
}
