/** One rank's share of the file contents, and the gathering of a read from all ranks. */
module DataStorage {
  import opened Striping
  import opened Types
  import opened Sorting

  datatype ReadResult = Data(bytes: seq<Byte>) | Failed(error: ErrorCode)

  // ------------------------------------------------------------------ proof steps for the write loop

  /** A run of bytes inside one block that `rank` owns is contiguous in its part of the write. */
  lemma PartRun(offset: nat, data: seq<Byte>, start: nat, len: nat, rank: nat, n: nat)
    requires rank < n && Owns(rank, offset + start, n)
    requires Deal(offset + start, n).within + len <= BLOCK_SIZE && start + len <= |data|
    ensures var c := CountOwned(offset + start, rank, n) - CountOwned(offset, rank, n);
            && 0 <= c <= c + len <= |LocalPart(offset, data, rank, n)|
            && LocalPart(offset, data, rank, n)[c..c + len] == data[start..start + len]
            && CountOwned(offset + start + len, rank, n) == CountOwned(offset, rank, n) + c + len
  {
    hide CountOwned, Deal, LocalPart;
    var g := offset + start;
    CountOwnedMonotone(offset, g, rank, n);
    CountWithinBlock(g, len, rank, n);
    CountOwnedMonotone(g + len, offset + |data|, rank, n);
    var part := LocalPart(offset, data, rank, n);
    var c := CountOwned(g, rank, n) - CountOwned(offset, rank, n);
    var run, source := part[c..c + len], data[start..start + len];
    forall k | 0 <= k < len
      ensures run[k] == source[k]
    {
      CountWithinBlock(g, k, rank, n);
      SameBlock(g, k, n);
      LocalPartAt(offset, data, g + k, rank, n);
    }
  }

  /** `local` is the part of the write that lies below global index `upTo`. */
  ghost predicate PartUpTo(local: seq<Byte>, offset: nat, data: seq<Byte>, upTo: nat, rank: nat, n: nat)
    requires rank < n
  {
    && |local| == CountOwned(upTo, rank, n) - CountOwned(offset, rank, n)
    && local <= LocalPart(offset, data, rank, n)
  }

  /** Where the loop of a write stands: the next block to copy starts at g and is owned. */
  ghost predicate AtBlock(g: nat, rank: nat, n: nat)
    requires rank < n
  {
    Deal(g, n) == Cursor(rank, 0)
  }

  /** Bytes after the rank's block and before its next one add nothing to the rank's part. */
  lemma SkipStripe(local: seq<Byte>, offset: nat, data: seq<Byte>, g: nat, len: nat, rank: nat, n: nat)
    requires rank < n && AtBlock(g, rank, n) && offset <= g + len && len <= BLOCK_SIZE
    requires g + len <= offset + |data| && (len < BLOCK_SIZE ==> g + len == offset + |data|)
    requires PartUpTo(local, offset, data, g + len, rank, n)
    ensures AtBlock(g + n * BLOCK_SIZE, rank, n)
    ensures PartUpTo(local, offset, data, Min(g + n * BLOCK_SIZE, offset + |data|), rank, n)
  {
    AtLeastFactor(n, BLOCK_SIZE);
    CountOwnedStripe(g, rank, n);
    if len == BLOCK_SIZE {
      CountWithinBlock(g, BLOCK_SIZE, rank, n);
      var stop := Min(g + n * BLOCK_SIZE, offset + |data|);
      CountOwnedMonotone(g + BLOCK_SIZE, stop, rank, n);
      CountOwnedMonotone(stop, g + n * BLOCK_SIZE, rank, n);
    }
  }

  /** Appending the next run of the part. */
  lemma AppendRun(local: seq<Byte>, offset: nat, data: seq<Byte>, start: nat, len: nat, rank: nat, n: nat)
    requires rank < n && Owns(rank, offset + start, n)
    requires Deal(offset + start, n).within + len <= BLOCK_SIZE && start + len <= |data|
    requires PartUpTo(local, offset, data, offset + start, rank, n)
    ensures PartUpTo(local + data[start..start + len], offset, data, offset + start + len, rank, n)
  {
    PartRun(offset, data, start, len, rank, n);
    AppendSlice(local, LocalPart(offset, data, rank, n), |local|, len);
  }

  lemma AppendSlice(local: seq<Byte>, part: seq<Byte>, c: nat, len: nat)
    requires local <= part && c == |local| && c + len <= |part|
    ensures local + part[c..c + len] <= part
  {}

  /** An empty write still extends a file up to its offset. */
  lemma EmptyPatch(f: seq<Byte>, pos: nat)
    ensures Patch(f, pos, []) == if |f| < pos then SetLength(f, pos) else f
  {}

  /** Copying one block and skipping to the rank's next one keeps the loop invariant. */
  lemma CopyBlock(local: seq<Byte>, offset: nat, data: seq<Byte>, start: nat, rank: nat, n: nat)
    requires rank < n && start < |data| && AtBlock(offset + start, rank, n)
    requires PartUpTo(local, offset, data, offset + start, rank, n)
    ensures var end := Min(start + BLOCK_SIZE, |data|);
            var start' := start + n * BLOCK_SIZE;
            && AtBlock(offset + start', rank, n)
            && PartUpTo(local + data[start..end], offset, data, Min(offset + start', offset + |data|), rank, n)
  {
    var end := Min(start + BLOCK_SIZE, |data|);
    AppendRun(local, offset, data, start, end - start, rank, n);
    SkipStripe(local + data[start..end], offset, data, offset + start, end - start, rank, n);
    assert offset + start + n * BLOCK_SIZE == offset + (start + n * BLOCK_SIZE);
  }

  /** The loop's entry when the offset itself is owned: the rest of that block is copied first. */
  lemma FirstBlock(offset: nat, data: seq<Byte>, rank: nat, n: nat)
    requires rank < n && StoresIndex(offset, rank, n)
    ensures var partial := BLOCK_SIZE - offset % BLOCK_SIZE;
            var start := partial + (n - 1) * BLOCK_SIZE;
            && AtBlock(offset + start, rank, n)
            && PartUpTo(data[..Min(partial, |data|)], offset, data, Min(offset + start, offset + |data|), rank, n)
  {
    StoresIndexIsOwnership(offset, rank, n);
    DealIsDivision(offset, n);
    var within := offset % BLOCK_SIZE;
    var base := offset - within;
    BlockStart(offset, n);
    var len := Min(BLOCK_SIZE - within, |data|);
    AppendRun([], offset, data, 0, len, rank, n);
    assert [] + data[0..len] == data[..len];
    SkipStripe(data[..len], offset, data, base, within + len, rank, n);
    assert (n - 1) * BLOCK_SIZE + BLOCK_SIZE == n * BLOCK_SIZE;
  }

  lemma BlockStart(g: nat, n: nat)
    requires 0 < n
    ensures Deal(g - g % BLOCK_SIZE, n) == Cursor(Deal(g, n).rank, 0)
  {
    var base := g - g % BLOCK_SIZE;
    assert base / BLOCK_SIZE == g / BLOCK_SIZE && base % BLOCK_SIZE == 0;
    DealIsDivision(base, n);
    DealIsDivision(g, n);
  }

  /** The loop's entry when it is not: nothing of the write below the next owned index is local. */
  lemma SkipToOwned(offset: nat, data: seq<Byte>, rank: nat, n: nat)
    requires rank < n && !StoresIndex(offset, rank, n)
    ensures var next := ToGlobalIndex(ToLocalIndexCeiling(offset, rank, n), rank, n);
            && offset <= next
            && AtBlock(next, rank, n)
            && PartUpTo([], offset, data, Min(next, offset + |data|), rank, n)
  {
    var l := ToLocalIndexCeiling(offset, rank, n);
    var next := ToGlobalIndex(l, rank, n);
    GlobalIsNextOwned(offset, rank, n);
    assert l % BLOCK_SIZE == 0;
    GlobalIndexParts(l, rank, n);
    DealIsDivision(next, n);
    var stop := Min(next, offset + |data|);
    CountOwnedMonotone(offset, stop, rank, n);
    CountOwnedMonotone(stop, next, rank, n);
  }

  // ------------------------------------------------------------------ proof steps for the gather loop

  /** The rank blocks are what the n ranks return for a read of this flat file. */
  ghost predicate AreRawReads(blocks: seq<seq<Byte>>, flat: seq<Byte>, offset: nat, size: nat) {
    forall r :: 0 <= r < |blocks| ==>
      blocks[r] == RawRead(Stripe(flat, r, |blocks|), offset, size, r, |blocks|)
  }

  /** How far each block has been consumed when the gather has reached global index p. */
  ghost predicate ConsumedUpTo(indices: seq<nat>, offset: nat, p: nat) {
    forall r :: 0 <= r < |indices| ==>
      indices[r] == CountOwned(p, r, |indices|) - CountOwned(offset, r, |indices|)
  }

  /** How many bytes of p's block a read that ends at e takes. */
  ghost function Run(p: nat, e: nat, n: nat): nat
    requires p <= e && 0 < n
  {
    Min(BLOCK_SIZE - Deal(p, n).within, e - p)
  }

  /** One round of the gather takes exactly the bytes up to the end of p's block or of the read. */
  lemma GatherRound(flat: seq<Byte>, offset: nat, size: nat, p: nat, n: nat)
    requires 0 < n && offset <= p <= ReadEnd(|flat|, offset, size)
    ensures var w := Deal(p, n).rank;
            var block := RawRead(Stripe(flat, w, n), offset, size, w, n);
            var i := CountOwned(p, w, n) - CountOwned(offset, w, n);
            && 0 <= i <= |block|
            && Min(BLOCK_SIZE - Deal(p, n).within, |block| - i) == Run(p, ReadEnd(|flat|, offset, size), n)
  {
    hide CountOwned, Deal, Stripe, RawRead;
    var e := ReadEnd(|flat|, offset, size);
    var w := Deal(p, n).rank;
    var k := Run(p, e, n);
    RawReadLength(Stripe(flat, w, n), |flat|, offset, size, w, n);
    CountOwnedMonotone(offset, p, w, n);
    CountWithinBlock(p, k, w, n);
    CountOwnedMonotone(p + k, e, w, n);
  }

  /** ... and those are the flat file's bytes. */
  lemma GatherBytes(flat: seq<Byte>, offset: nat, size: nat, p: nat, k: nat, n: nat)
    requires 0 < n && offset <= p < ReadEnd(|flat|, offset, size) <= |flat|
    requires k == Run(p, ReadEnd(|flat|, offset, size), n)
    ensures var w := Deal(p, n).rank;
            var block := RawRead(Stripe(flat, w, n), offset, size, w, n);
            var i := CountOwned(p, w, n) - CountOwned(offset, w, n);
            && 0 <= i <= i + k <= |block|
            && block[i..i + k] == flat[p..p + k]
  {
    hide CountOwned, Deal, Stripe, RawRead;
    GatherRound(flat, offset, size, p, n);
    var w := Deal(p, n).rank;
    var block := RawRead(Stripe(flat, w, n), offset, size, w, n);
    var i := CountOwned(p, w, n) - CountOwned(offset, w, n);
    var run, source := block[i..i + k], flat[p..p + k];
    forall j | 0 <= j < k
      ensures run[j] == source[j]
    {
      CountWithinBlock(p, j, w, n);
      SameBlock(p, j, n);
      RawReadAt(flat, offset, size, p + j, w, n);
    }
  }

  /** ... and moves on to the rank that owns the next block. */
  lemma GatherAdvance(indices: seq<nat>, offset: nat, p: nat, k: nat)
    requires var n := |indices|; 0 < n && offset <= p && Deal(p, n).within + k <= BLOCK_SIZE
    requires ConsumedUpTo(indices, offset, p)
    ensures var n := |indices|;
            var w := Deal(p, n).rank;
            && ConsumedUpTo(indices[w := indices[w] + k], offset, p + k)
            && (Deal(p, n).within + k == BLOCK_SIZE ==> Deal(p + k, n) == Cursor(NextRank(w, n), 0))
  {
    var n := |indices|;
    var w := Deal(p, n).rank;
    forall r | 0 <= r < n
      ensures CountOwned(p + k, r, n) == CountOwned(p, r, n) + if r == w then k else 0
    {
      CountWithinBlock(p, k, r, n);
    }
    if Deal(p, n).within + k == BLOCK_SIZE {
      SameBlock(p, k - 1, n);
    }
  }

  function NextRank(w: nat, n: nat): nat {
    if w + 1 == n then 0 else w + 1
  }

  lemma NextRankIsModulo(w: nat, n: nat)
    requires w < n
    ensures (w + 1) % n == NextRank(w, n)
  {
    if w + 1 < n {
      DivModUnique(w + 1, n, 0, w + 1);
    } else {
      DivModUnique(w + 1, n, 1, 0);
    }
  }

  /** The bytes of the blocks that a gather has not consumed yet. */
  ghost function Remaining(blocks: seq<seq<Byte>>, indices: seq<nat>): nat
    requires WithinBlocks(indices, blocks)
  {
    if blocks == [] then 0
    else |blocks[0]| - indices[0] + Remaining(blocks[1..], indices[1..])
  }

  lemma {:induction false} RemainingShrinks(blocks: seq<seq<Byte>>, indices: seq<nat>, w: nat, k: nat)
    requires WithinBlocks(indices, blocks)
    requires w < |blocks| && indices[w] + k <= |blocks[w]|
    ensures Remaining(blocks, indices[w := indices[w] + k]) == Remaining(blocks, indices) - k
  {
    var indices' := indices[w := indices[w] + k];
    if w == 0 {
      assert indices'[1..] == indices[1..];
    } else {
      assert indices'[1..] == indices[1..][w - 1 := indices[1..][w - 1] + k];
      RemainingShrinks(blocks[1..], indices[1..], w - 1, k);
    }
  }

  /** The gather has copied `result`, and has consumed of each block what lies below. */
  ghost predicate Copied(result: seq<Byte>, indices: seq<nat>, flat: seq<Byte>, offset: nat, size: nat) {
    var p := offset + |result|;
    && p <= ReadEnd(|flat|, offset, size)
    && (result != [] ==> p <= |flat| && result == flat[offset..p])
    && ConsumedUpTo(indices, offset, p)
  }

  /** ... and is at the end of the read or at the start of a block of rank `next`. */
  ghost predicate Gathered(result: seq<Byte>, indices: seq<nat>, next: nat,
                           flat: seq<Byte>, offset: nat, size: nat)
    requires indices != []
  {
    var p := offset + |result|;
    && Copied(result, indices, flat, offset, size)
    && (p == ReadEnd(|flat|, offset, size) || Deal(p, |indices|) == Cursor(next, 0))
  }

  /** What a round reads: the flat file's bytes up to the end of p's block or of the read. */
  lemma RunRead(indices: seq<nat>, blocks: seq<seq<Byte>>, flat: seq<Byte>, offset: nat, size: nat, p: nat, w: nat)
    requires |indices| == |blocks| > 0 && w == Deal(p, |blocks|).rank
    requires offset <= p <= ReadEnd(|flat|, offset, size)
    requires AreRawReads(blocks, flat, offset, size) && ConsumedUpTo(indices, offset, p)
    ensures indices[w] <= |blocks[w]|
    ensures var e := ReadEnd(|flat|, offset, size);
            var k := Min(BLOCK_SIZE - Deal(p, |blocks|).within, |blocks[w]| - indices[w]);
            && k == Run(p, e, |blocks|)
            && (k > 0 ==> p + k <= |flat| && blocks[w][indices[w]..indices[w] + k] == flat[p..p + k])
  {
    hide CountOwned, Deal, Stripe, RawRead;
    var block := RawRead(Stripe(flat, w, |blocks|), offset, size, w, |blocks|);
    var i := CountOwned(p, w, |blocks|) - CountOwned(offset, w, |blocks|);
    assert blocks[w] == block && indices[w] == i;
    GatherRound(flat, offset, size, p, |blocks|);
    if p < ReadEnd(|flat|, offset, size) {
      var k := Run(p, ReadEnd(|flat|, offset, size), |blocks|);
      assert block[i..i + k] == flat[p..p + k] by { GatherBytes(flat, offset, size, p, k, |blocks|); }
    }
  }

  /** A round keeps the gather's state, whether it starts mid-block (the first) or at a block. */
  lemma GatherStep(result: seq<Byte>, run: seq<Byte>, indices: seq<nat>, w: nat,
                   flat: seq<Byte>, offset: nat, size: nat)
    requires indices != [] && w == Deal(offset + |result|, |indices|).rank
    requires Copied(result, indices, flat, offset, size)
    requires var p := offset + |result|;
             && |run| == Run(p, ReadEnd(|flat|, offset, size), |indices|)
             && (run != [] ==> p + |run| <= |flat| && run == flat[p..p + |run|])
    ensures Gathered(result + run, indices[w := indices[w] + |run|], NextRank(w, |indices|), flat, offset, size)
  {
    hide CountOwned, Deal, ConsumedUpTo;
    var n, p, e := |indices|, offset + |result|, ReadEnd(|flat|, offset, size);
    assert offset + |result + run| == p + |run|;
    GatherAdvance(indices, offset, p, |run|);
    CopiedAppend(result, run, indices[w := indices[w] + |run|], flat, offset, size);
    assert p + |run| == e || Deal(p, n).within + |run| == BLOCK_SIZE;
  }

  lemma CopiedAppend(result: seq<Byte>, run: seq<Byte>, indices: seq<nat>, flat: seq<Byte>, offset: nat, size: nat)
    requires var p := offset + |result|;
             && p + |run| <= ReadEnd(|flat|, offset, size)
             && (result != [] ==> p <= |flat| && result == flat[offset..p])
             && (run != [] ==> p + |run| <= |flat| && run == flat[p..p + |run|])
             && ConsumedUpTo(indices, offset, p + |run|)
    ensures Copied(result + run, indices, flat, offset, size)
  {
    assert offset + |result + run| == offset + |result| + |run|;
    if result == [] {
      assert result + run == run;
    } else if run == [] {
      assert result + run == result;
    }
  }

  /** A gather stops only at the end of the read. */
  lemma GatherDone(result: seq<Byte>, indices: seq<nat>, next: nat, blocks: seq<seq<Byte>>,
                   flat: seq<Byte>, offset: nat, size: nat)
    requires |indices| == |blocks| && next < |blocks|
    requires AreRawReads(blocks, flat, offset, size) && Gathered(result, indices, next, flat, offset, size)
    ensures indices[next] <= |blocks[next]|
    ensures indices[next] == |blocks[next]| <==> offset + |result| == ReadEnd(|flat|, offset, size)
  {
    var n := |blocks|;
    var p, e := offset + |result|, ReadEnd(|flat|, offset, size);
    RawReadLength(Stripe(flat, next, n), |flat|, offset, size, next, n);
    CountOwnedMonotone(p, e, next, n);
    if p < e {
      CountOrder(p, e, next, n);
    }
  }

  ghost predicate WithinBlocks(indices: seq<nat>, blocks: seq<seq<Byte>>) {
    |indices| == |blocks| && forall r :: 0 <= r < |blocks| ==> indices[r] <= |blocks[r]|
  }

  /** What the round-robin still appends when it stands at rank `next`. */
  ghost function Merge(blocks: seq<seq<Byte>>, indices: seq<nat>, next: nat): seq<Byte>
    requires WithinBlocks(indices, blocks) && next < |blocks|
    decreases Remaining(blocks, indices)
  {
    var i := indices[next];
    var k := Min(BLOCK_SIZE, |blocks[next]| - i);
    RemainingShrinks(blocks, indices, next, k);
    if k == 0 then []
    else blocks[next][i..i + k] + Merge(blocks, indices[next := i + k], NextRank(next, |blocks|))
  }

  lemma MergeRound(result: seq<Byte>, blocks: seq<seq<Byte>>, indices: seq<nat>, next: nat, k: nat)
    requires WithinBlocks(indices, blocks) && next < |blocks|
    requires 0 < k == Min(BLOCK_SIZE, |blocks[next]| - indices[next])
    ensures result + Merge(blocks, indices, next)
         == result + blocks[next][indices[next]..indices[next] + k]
            + Merge(blocks, indices[next := indices[next] + k], NextRank(next, |blocks|))
  {}

  /** From any state of the gather, the rounds to come complete the read. */
  lemma {:induction false} MergeCompletes(result: seq<Byte>, indices: seq<nat>, next: nat, blocks: seq<seq<Byte>>,
                                          flat: seq<Byte>, offset: nat, size: nat)
    requires WithinBlocks(indices, blocks) && next < |blocks|
    requires AreRawReads(blocks, flat, offset, size) && Gathered(result, indices, next, flat, offset, size)
    ensures result + Merge(blocks, indices, next) == FlatRead(flat, offset, size)
    decreases Remaining(blocks, indices)
  {
    hide CountOwned, Deal, Stripe, RawRead;
    var i := indices[next];
    var k := Min(BLOCK_SIZE, |blocks[next]| - i);
    var run := blocks[next][i..i + k];
    RemainingShrinks(blocks, indices, next, k);
    GatherDone(result, indices, next, blocks, flat, offset, size);
    if k > 0 {
      RunRead(indices, blocks, flat, offset, size, offset + |result|, next);
      GatherStep(result, run, indices, next, flat, offset, size);
      MergeCompletes(result + run, indices[next := i + k], NextRank(next, |blocks|), blocks, flat, offset, size);
      MergeRound(result, blocks, indices, next, k);
    }
  }

  lemma NothingCopied(indices: seq<nat>, flat: seq<Byte>, offset: nat, size: nat)
    requires forall r :: 0 <= r < |indices| ==> indices[r] == 0
    ensures Copied([], indices, flat, offset, size)
  {}

  /** The first round, which may start mid-block, and all that follow. */
  lemma FirstRound(blocks: seq<seq<Byte>>, indices: seq<nat>, first: nat, k: nat,
                   flat: seq<Byte>, offset: nat, size: nat)
    requires WithinBlocks(indices, blocks) && blocks != [] && (forall r :: 0 <= r < |indices| ==> indices[r] == 0)
    requires AreRawReads(blocks, flat, offset, size) && first == Deal(offset, |blocks|).rank
    requires k == Min(BLOCK_SIZE - Deal(offset, |blocks|).within, |blocks[first]|)
    ensures blocks[first][..k] + Merge(blocks, indices[first := k], NextRank(first, |blocks|))
         == FlatRead(flat, offset, size)
  {
    hide CountOwned, Deal, AreRawReads, FlatRead, Merge, Gathered;
    var none: seq<Byte> := [];
    var run := blocks[first][..k];
    RunRead(indices, blocks, flat, offset, size, offset, first);
    assert run == blocks[first][indices[first]..indices[first] + k];
    NothingCopied(indices, flat, offset, size);
    GatherStep(none, run, indices, first, flat, offset, size);
    assert none + run == run;
    MergeCompletes(run, indices[first := k], NextRank(first, |blocks|), blocks, flat, offset, size);
  }

  /** What the round-robin merge of the ranks' blocks makes of them. */
  ghost function GatherOf(blocks: seq<seq<Byte>>, offset: nat): seq<Byte>
    requires blocks != []
  {
    var first := Deal(offset, |blocks|).rank;
    var k := Min(BLOCK_SIZE - Deal(offset, |blocks|).within, |blocks[first]|);
    blocks[first][..k] + Merge(blocks, seq(|blocks|, _ => 0)[first := k], NextRank(first, |blocks|))
  }

  /** Of the raw reads of all ranks it makes the flat bytes. */
  lemma GatherOfFlat(blocks: seq<seq<Byte>>, offset: nat, flat: seq<Byte>, size: nat)
    requires blocks != [] && AreRawReads(blocks, flat, offset, size)
    ensures GatherOf(blocks, offset) == FlatRead(flat, offset, size)
  {
    hide Deal, AreRawReads, FlatRead, Merge;
    var first := Deal(offset, |blocks|).rank;
    FirstRound(blocks, seq(|blocks|, _ => 0), first, Min(BLOCK_SIZE - Deal(offset, |blocks|).within, |blocks[first]|),
               flat, offset, size);
  }

  /** The round-robin merge of the ranks' blocks. */
  method Gather(blocks: seq<seq<Byte>>, offset: nat, ghost flat: seq<Byte>, ghost size: nat)
    returns (result: seq<Byte>)
    requires blocks != []
    ensures result == GatherOf(blocks, offset)
    ensures AreRawReads(blocks, flat, offset, size) ==> result == FlatRead(flat, offset, size)
  {
    hide Deal, AreRawReads, FlatRead, Remaining;
    var n := |blocks|;
    var partialFirstBlock := BLOCK_SIZE - offset % BLOCK_SIZE;
    var first := offset / BLOCK_SIZE % n;
    var indices: seq<nat> := seq(n, _ => 0);
    var firstRead := Min(partialFirstBlock, |blocks[first]|);
    result := blocks[first][..firstRead];
    DealIsDivision(offset, n);
    if AreRawReads(blocks, flat, offset, size) {
      GatherOfFlat(blocks, offset, flat, size);
    }
    indices := indices[first := firstRead];
    NextRankIsModulo(first, n);
    var next: nat := (first + 1) % n;
    ghost var total := result + Merge(blocks, indices, next);
    assert total == GatherOf(blocks, offset);

    while indices[next] < |blocks[next]|
      invariant |indices| == n && next < n && WithinBlocks(indices, blocks)
      invariant result + Merge(blocks, indices, next) == total
      decreases Remaining(blocks, indices)
    {
      var index := indices[next];
      var blockRead := Min(BLOCK_SIZE, |blocks[next]| - index);
      RemainingShrinks(blocks, indices, next, blockRead);
      MergeRound(result, blocks, indices, next, blockRead);
      NextRankIsModulo(next, n);
      result := result + blocks[next][index..index + blockRead];
      indices := indices[next := index + blockRead];
      next := (next + 1) % n;
    }
  }

  /** The peers' answers come in rank order, without the local rank. */
  function RankOfAnswer(k: nat, localRank: nat): nat {
    if k < localRank then k else k + 1
  }

  ghost predicate PeersAnswered(fetched: seq<ReadResult>, localRank: nat,
                                flat: seq<Byte>, offset: nat, size: nat) {
    var n := |fetched| + 1;
    forall k :: 0 <= k < |fetched| ==>
      fetched[k] == Data(var r := RankOfAnswer(k, localRank); RawRead(Stripe(flat, r, n), offset, size, r, n))
  }

  /** Inserting the local block at the local rank puts all blocks in rank order. */
  lemma InRankOrder(fetched: seq<ReadResult>, blocks: seq<seq<Byte>>, local: seq<Byte>, localRank: nat,
                    flat: seq<Byte>, offset: nat, size: nat)
    requires |blocks| == |fetched| && localRank <= |blocks|
    requires forall j :: 0 <= j < |blocks| ==> fetched[j] == Data(blocks[j])
    requires PeersAnswered(fetched, localRank, flat, offset, size)
    requires local == RawRead(Stripe(flat, localRank, |blocks| + 1), offset, size, localRank, |blocks| + 1)
    ensures AreRawReads(blocks[..localRank] + [local] + blocks[localRank..], flat, offset, size)
  {
    var all := blocks[..localRank] + [local] + blocks[localRank..];
    forall r | 0 <= r < |all|
      ensures all[r] == RawRead(Stripe(flat, r, |all|), offset, size, r, |all|)
    {
      if r != localRank {
        var k := if r < localRank then r else r - 1;
        assert fetched[k] == Data(all[r]) && RankOfAnswer(k, localRank) == r;
      }
    }
  }

  // ------------------------------------------------------------------ one rank's storage

  class DataStorage {
    const nodeIds: seq<nat>
    const localRank: nat
    const localNodeId: nat
    var files: map<Inode, seq<Byte>>

    ghost predicate Valid() {
      localRank < |nodeIds| && nodeIds[localRank] == localNodeId && StrictlySorted(nodeIds)
    }

    /** Ranks are positions in the sorted list of the group's ids, whatever order the peers come in. */
    constructor (localNodeId: nat, peers: seq<nat>)
      ensures Valid()
      ensures this.localNodeId == localNodeId && files == map[]
      ensures forall id :: id in nodeIds <==> id in peers || id == localNodeId
    {
      var ids := Sort(peers + [localNodeId]);
      SameElements(peers + [localNodeId], ids);
      var sorted := Dedup(ids);
      nodeIds := sorted;
      localRank := Position(sorted, localNodeId);
      this.localNodeId := localNodeId;
      files := map[];
    }

    function FileOf(inode: Inode): (f: seq<Byte>)
      reads this
    {
      if inode in files then files[inode] else []
    }

    /** The portions of data that should be stored locally, cut out block by block. */
    method CutLocalBlocks(globalOffset: nat, globalData: seq<Byte>) returns (localData: seq<Byte>)
      requires Valid()
      ensures localData == LocalPart(globalOffset, globalData, localRank, |nodeIds|)
    {
      var n := |nodeIds|;
      localData := [];
      var start: nat;
      if StoresIndex(globalOffset, localRank, n) {
        FirstBlock(globalOffset, globalData, localRank, n);
        var partialFirstBlock := BLOCK_SIZE - globalOffset % BLOCK_SIZE;
        localData := globalData[..Min(partialFirstBlock, |globalData|)];
        start := partialFirstBlock + (n - 1) * BLOCK_SIZE;
      } else {
        SkipToOwned(globalOffset, globalData, localRank, n);
        var localIndex := ToLocalIndexCeiling(globalOffset, localRank, n);
        start := ToGlobalIndex(localIndex, localRank, n) - globalOffset;
      }
      while start < |globalData|
        invariant AtBlock(globalOffset + start, localRank, n)
        invariant PartUpTo(localData, globalOffset, globalData,
                           Min(globalOffset + start, globalOffset + |globalData|), localRank, n)
        decreases |globalData| - start
      {
        CopyBlock(localData, globalOffset, globalData, start, localRank, n);
        AtLeastFactor(n, BLOCK_SIZE);
        var end := Min(start + BLOCK_SIZE, |globalData|);
        localData := localData + globalData[start..end];
        start := start + n * BLOCK_SIZE;
      }
    }

    /** Stores this rank's part of a write, behind zeros if it starts past the end of the file. */
    method WriteLocalBlocks(inode: Inode, globalOffset: nat, globalData: seq<Byte>) returns (written: nat)
      requires Valid()
      modifies this`files
      ensures files
           == old(files)[inode := LocalWrite(old(FileOf(inode)), globalOffset, globalData, localRank, |nodeIds|)]
      ensures written == |LocalPart(globalOffset, globalData, localRank, |nodeIds|)|
    {
      var localIndex := ToLocalIndexCeiling(globalOffset, localRank, |nodeIds|);
      LocalIndexCountsOwned(globalOffset, localRank, |nodeIds|);
      var localData := CutLocalBlocks(globalOffset, globalData);
      var file := FileOf(inode);
      if localData == [] {
        EmptyPatch(file, localIndex);
        if |file| < localIndex {
          file := SetLength(file, localIndex);
        }
      } else {
        file := Patch(file, localIndex, localData);
      }
      files := files[inode := file];
      written := |localData|;
    }

    method ReadRaw(inode: Inode, globalOffset: nat, globalSize: nat) returns (r: ReadResult)
      requires Valid() && inode != ROOT_INODE
      ensures r == if inode !in files then Failed(DoesNotExist)
                   else Data(RawRead(files[inode], globalOffset, globalSize, localRank, |nodeIds|))
    {
      var localStart := ToLocalIndexCeiling(globalOffset, localRank, |nodeIds|);
      var localEnd := ToLocalIndexCeiling(globalOffset + globalSize, localRank, |nodeIds|);
      LocalIndexCountsOwned(globalOffset, localRank, |nodeIds|);
      LocalIndexCountsOwned(globalOffset + globalSize, localRank, |nodeIds|);
      if inode !in files {
        return Failed(DoesNotExist);
      }
      var stop := Min(localEnd, |files[inode]|);
      var size := if stop < localStart then 0 else stop - localStart;
      if size == 0 {
        return Data([]);
      }
      r := Data(files[inode][localStart..localStart + size]);
    }

    /** A read: the local share plus what the other ranks answered, in rank order without this one. */
    method Read(inode: Inode, globalOffset: nat, globalSize: nat, fetched: seq<ReadResult>,
                ghost flat: seq<Byte>) returns (r: ReadResult)
      requires Valid() && inode != ROOT_INODE && |fetched| == |nodeIds| - 1
      ensures inode !in files ==> r == Failed(DoesNotExist)
      ensures inode in files ==>
                if forall k :: 0 <= k < |fetched| ==> fetched[k].Data? then r.Data? else r.Failed? && r in fetched
      ensures inode in files && files[inode] == Stripe(flat, localRank, |nodeIds|)
              && PeersAnswered(fetched, localRank, flat, globalOffset, globalSize)
              ==> r == Data(FlatRead(flat, globalOffset, globalSize))
    {
      var local := ReadRaw(inode, globalOffset, globalSize);
      if local.Failed? {
        return local;
      }
      var blocks: seq<seq<Byte>> := [];
      for k := 0 to |fetched|
        invariant |blocks| == k
        invariant forall j :: 0 <= j < k ==> fetched[j] == Data(blocks[j])
      {
        if fetched[k].Failed? {
          r := fetched[k];
          return;
        }
        blocks := blocks + [fetched[k].bytes];
      }
      if files[inode] == Stripe(flat, localRank, |nodeIds|)
         && PeersAnswered(fetched, localRank, flat, globalOffset, globalSize) {
        InRankOrder(fetched, blocks, local.bytes, localRank, flat, globalOffset, globalSize);
      }
      blocks := blocks[..localRank] + [local.bytes] + blocks[localRank..];
      var result := Gather(blocks, globalOffset, flat, globalSize);
      r := Data(result);
    }

    method Truncate(inode: Inode, globalLength: nat)
      requires Valid()
      modifies this`files
      ensures files
           == old(files)[inode := SetLength(old(FileOf(inode)), CountOwned(globalLength, localRank, |nodeIds|))]
    {
      var localBytes := ToLocalIndexCeiling(globalLength, localRank, |nodeIds|);
      LocalIndexCountsOwned(globalLength, localRank, |nodeIds|);
      files := files[inode := SetLength(FileOf(inode), localBytes)];
    }

    /** Removing a file that is not there is an error the caller unwraps. */
    method Delete(inode: Inode) returns (ok: bool)
      requires inode != ROOT_INODE
      modifies this`files
      ensures ok == (inode in old(files))
      ensures files == old(files) - {inode}
    {
      ok := inode in files;
      files := files - {inode};
    }
  }

  /** All members of a group order the same ids, so they agree on every rank. */
  lemma RanksAgree(a: DataStorage, b: DataStorage)
    requires a.Valid() && b.Valid()
    requires forall id :: id in a.nodeIds <==> id in b.nodeIds
    ensures a.nodeIds == b.nodeIds
    ensures a.localRank == b.localRank <==> a.localNodeId == b.localNodeId
  {
    StrictlySortedUnique(a.nodeIds, b.nodeIds);
  }
}
