/** campus-rag/main.py, `chunk_text`: blocks packed greedily into chunks of at most CHUNK_SIZE characters. */
module Chunker {
  import opened PyStrings
  import opened Normalize
  import opened TextBlocks
  import opened SplitBlock
  import opened Sequences

  const PARA := "\n\n"

  /** CHUNK_SIZE and CHUNK_OVERLAP; the service reads both from its environment. */
  datatype Config = Config(size: int, overlap: int)

  /** The chunk an open group of blocks will become, if any. */
  function Shut(group: seq<string>): seq<string> {
    if group == [] then [] else [Join(group, PARA)]
  }

  /** The loop's state: the chunks written and the blocks of the open chunk. */
  datatype Packer = Packer(chunks: seq<string>, group: seq<string>) {
    function Finish(): seq<string> {
      chunks + Shut(group)
    }
  }

  predicate Fits(group: seq<string>, block: string, cfg: Config) {
    group == [] || |Join(group + [block], PARA)| <= cfg.size
  }

  function PackBlock(p: Packer, block: string, cfg: Config): Packer {
    if |block| > cfg.size then Packer(p.Finish() + SplitLongBlock(block, cfg.size, cfg.overlap), [])
    else if Fits(p.group, block, cfg) then Packer(p.chunks, p.group + [block])
    else Packer(p.Finish(), [block])
  }

  function PackBlocks(p: Packer, blocks: seq<string>, cfg: Config): Packer
    decreases |blocks|
  {
    if blocks == [] then p else PackBlocks(PackBlock(p, blocks[0], cfg), blocks[1..], cfg)
  }

  /** The chunks of a list of blocks. */
  function ChunksOf(blocks: seq<string>, cfg: Config): seq<string> {
    PackBlocks(Packer([], []), blocks, cfg).Finish()
  }

  /** `chunk_text(text)` as a value. */
  function ChunkText(text: string, isHeading: string -> bool, cfg: Config): seq<string> {
    ChunksOf(BlocksOf(NormalizeText(text), isHeading), cfg)
  }

  lemma JoinSnoc(group: seq<string>, block: string)
    requires group != []
    ensures Join(group + [block], PARA) == Join(group, PARA) + PARA + block
  {
    JoinAppend(group, [block], PARA);
  }

  /** The text the loop holds for an open group: the joined blocks, on which `strip` does nothing. */
  lemma GroupText(group: seq<string>)
    requires AllSolid(group)
    ensures Strip(Join(group, PARA)) == Join(group, PARA)
    ensures Join(group, PARA) == "" <==> group == []
  {
    if group != [] {
      JoinSolid(group, PARA);
      StripOfTrimmed(Join(group, PARA));
    }
  }

  /** What the loop does to `chunks` when it closes the chunk it has open. */
  function Closed(chunks: seq<string>, current: string): seq<string> {
    if Strip(current) != "" then chunks + [Strip(current)] else chunks
  }

  lemma ClosedIsFinish(chunks: seq<string>, group: seq<string>, current: string)
    requires AllSolid(group) && current == Join(group, PARA)
    ensures Closed(chunks, current) == Packer(chunks, group).Finish()
    ensures Strip(current) == "" ==> current == ""
  {
    GroupText(group);
    assert chunks + [] == chunks;
  }

  /** The candidate the loop builds is the open group with the block joined on. */
  lemma CandidateText(group: seq<string>, block: string, current: string, cfg: Config)
    requires AllSolid(group) && Solid(block) && current == Join(group, PARA)
    ensures var candidate := if current != "" then Strip(current + PARA + block) else block;
            && candidate == Join(group + [block], PARA)
            && (|block| <= cfg.size ==> (|candidate| <= cfg.size <==> Fits(group, block, cfg)))
  {
    GroupText(group);
    GroupText(group + [block]);
    if group != [] {
      JoinSnoc(group, block);
    }
  }

  method PackBlockLoop(blocks: seq<string>, cfg: Config) returns (chunks: seq<string>)
    requires AllSolid(blocks)
    ensures chunks == ChunksOf(blocks, cfg)
  {
    chunks := [];
    var current := "";
    ghost var group: seq<string> := [];
    assert blocks[0..] == blocks;
    for i := 0 to |blocks|
      invariant AllSolid(group) && current == Join(group, PARA)
      invariant PackBlocks(Packer(chunks, group), blocks[i..], cfg) == PackBlocks(Packer([], []), blocks, cfg)
    {
      var block := blocks[i];
      assert blocks[i..][1..] == blocks[i + 1..];
      ghost var next := PackBlock(Packer(chunks, group), block, cfg);
      ClosedIsFinish(chunks, group, current);
      if |block| > cfg.size {
        if Strip(current) != "" {
          chunks := chunks + [Strip(current)];
          current := "";
        }
        var parts := SplitBlockLoop(block, cfg.size, cfg.overlap);
        chunks := chunks + parts;
        group := [];
      } else {
        CandidateText(group, block, current, cfg);
        var candidate := if current != "" then Strip(current + PARA + block) else block;
        if |candidate| <= cfg.size {
          current := candidate;
          group := group + [block];
        } else {
          if Strip(current) != "" {
            chunks := chunks + [Strip(current)];
          }
          current := block;
          group := [block];
        }
      }
      assert Packer(chunks, group) == next;
    }
    assert blocks[|blocks|..] == [];
    ClosedIsFinish(chunks, group, current);
    if Strip(current) != "" {
      chunks := chunks + [Strip(current)];
    }
  }

  method ChunkTextLoop(text: string, isHeading: string -> bool, cfg: Config) returns (chunks: seq<string>)
    ensures chunks == ChunkText(text, isHeading, cfg)
  {
    var normal := NormalizeText(text);
    if normal == "" {
      EmptyTextHasNoBlocks(isHeading);
      return [];
    }
    var blocks := BuildTextBlocks(normal, isHeading);
    if |blocks| == 0 {
      return [];
    }
    BlocksSolid(normal, isHeading);
    chunks := PackBlockLoop(blocks, cfg);
  }

  lemma EmptyTextHasNoBlocks(isHeading: string -> bool)
    ensures BlocksOf("", isHeading) == []
  {
    assert NormalizeText("") == "";
    assert LinesOf("") == [""];
  }

  // ----- Blocks that all fit -----

  predicate AllFit(blocks: seq<string>, cfg: Config) {
    forall i | 0 <= i < |blocks| :: |blocks[i]| <= cfg.size
  }

  /** The groups of blocks the chunks are made of, when no block is oversize. */
  function GreedyGroups(group: seq<string>, blocks: seq<string>, cfg: Config): seq<seq<string>>
    decreases |blocks|
  {
    if blocks == [] then (if group == [] then [] else [group])
    else if Fits(group, blocks[0], cfg) then GreedyGroups(group + [blocks[0]], blocks[1..], cfg)
    else [group] + GreedyGroups([blocks[0]], blocks[1..], cfg)
  }

  function JoinEach(groups: seq<seq<string>>): seq<string> {
    if groups == [] then [] else [Join(groups[0], PARA)] + JoinEach(groups[1..])
  }

  lemma {:induction false} ChunksAreGreedyGroups(p: Packer, blocks: seq<string>, cfg: Config)
    requires AllFit(blocks, cfg)
    ensures PackBlocks(p, blocks, cfg).Finish() == p.chunks + JoinEach(GreedyGroups(p.group, blocks, cfg))
    decreases |blocks|
  {
    if blocks == [] {
      assert p.group != [] ==> [p.group][1..] == [];
    } else {
      ChunksAreGreedyGroups(PackBlock(p, blocks[0], cfg), blocks[1..], cfg);
      if !Fits(p.group, blocks[0], cfg) {
        var tail := GreedyGroups([blocks[0]], blocks[1..], cfg);
        assert ([p.group] + tail)[1..] == tail;
        assert p.chunks + Shut(p.group) + JoinEach(tail) == p.chunks + ([Join(p.group, PARA)] + JoinEach(tail));
      }
    }
  }

  /** A way to deal blocks out to chunks: in order, none lost, every chunk within the limit. */
  ghost predicate ValidGrouping(groups: seq<seq<string>>, blocks: seq<string>, cfg: Config) {
    && Flatten(groups) == blocks
    && forall k | 0 <= k < |groups| :: |Join(groups[k], PARA)| <= cfg.size
  }

  lemma {:induction false} GreedyIsValid(group: seq<string>, blocks: seq<string>, cfg: Config)
    requires AllFit(blocks, cfg) && (group == [] || |Join(group, PARA)| <= cfg.size)
    ensures ValidGrouping(GreedyGroups(group, blocks, cfg), group + blocks, cfg)
    ensures forall k | 0 <= k < |GreedyGroups(group, blocks, cfg)| :: GreedyGroups(group, blocks, cfg)[k] != []
    decreases |blocks|
  {
    if blocks == [] {
      assert group != [] ==> Flatten([group]) == group + Flatten([]);
    } else if Fits(group, blocks[0], cfg) {
      assert group == [] ==> group + [blocks[0]] == [blocks[0]];
      GreedyIsValid(group + [blocks[0]], blocks[1..], cfg);
      assert group + [blocks[0]] + blocks[1..] == group + blocks;
    } else {
      GreedyIsValid([blocks[0]], blocks[1..], cfg);
      var tail := GreedyGroups([blocks[0]], blocks[1..], cfg);
      assert ([group] + tail)[1..] == tail;
      assert [blocks[0]] + blocks[1..] == blocks;
    }
  }

  // ----- Optimality: counting groups by the length of the open one -----

  /** How many chunks greedy packing ends with, from an open chunk of `open` characters. */
  function GreedyCount(open: nat, lengths: seq<nat>, size: int): nat
    decreases |lengths|
  {
    if lengths == [] then 1
    else if open + 2 + lengths[0] <= size then GreedyCount(open + 2 + lengths[0], lengths[1..], size)
    else 1 + GreedyCount(lengths[0], lengths[1..], size)
  }

  /** A fuller open chunk never helps, and costs at most one chunk more. */
  lemma {:induction false} GreedyStaysAhead(open: nat, open': nat, lengths: seq<nat>, size: int)
    requires open <= open'
    ensures GreedyCount(open, lengths, size) <= GreedyCount(open', lengths, size) <= 1 + GreedyCount(open, lengths, size)
    decreases |lengths|
  {
    if lengths != [] {
      var n := lengths[0];
      if open' + 2 + n <= size {
        GreedyStaysAhead(open + 2 + n, open' + 2 + n, lengths[1..], size);
      } else if open + 2 + n <= size {
        GreedyStaysAhead(n, open + 2 + n, lengths[1..], size);
      }
    }
  }

  function Lengths(blocks: seq<string>): (r: seq<nat>)
    ensures |r| == |blocks|
    ensures forall i | 0 <= i < |r| :: r[i] == |blocks[i]|
  {
    seq(|blocks|, i requires 0 <= i < |blocks| => |blocks[i]|)
  }

  lemma {:induction false} GreedyGroupsCount(group: seq<string>, blocks: seq<string>, cfg: Config)
    requires group != []
    ensures |GreedyGroups(group, blocks, cfg)| == GreedyCount(|Join(group, PARA)|, Lengths(blocks), cfg.size)
    decreases |blocks|
  {
    if blocks != [] {
      JoinSnoc(group, blocks[0]);
      assert Lengths(blocks)[1..] == Lengths(blocks[1..]);
      if Fits(group, blocks[0], cfg) {
        GreedyGroupsCount(group + [blocks[0]], blocks[1..], cfg);
      } else {
        GreedyGroupsCount([blocks[0]], blocks[1..], cfg);
      }
    }
  }

  /** Blocks that fit in the open chunk together are all added to it. */
  lemma {:induction false} GreedyTakesWhatFits(group: seq<string>, more: seq<string>, blocks: seq<string>, cfg: Config)
    requires group != [] && |Join(group + more, PARA)| <= cfg.size
    ensures GreedyCount(|Join(group, PARA)|, Lengths(more + blocks), cfg.size)
         == GreedyCount(|Join(group + more, PARA)|, Lengths(blocks), cfg.size)
    decreases |more|
  {
    if more == [] {
      assert more + blocks == blocks && group + more == group;
    } else {
      var grown := group + [more[0]];
      assert group + more == grown + more[1..];
      JoinSnoc(group, more[0]);
      if more[1..] == [] {
        assert grown + more[1..] == grown;
      } else {
        JoinAppend(grown, more[1..], PARA);
      }
      assert Lengths(more + blocks)[1..] == Lengths(more[1..] + blocks);
      GreedyTakesWhatFits(grown, more[1..], blocks, cfg);
    }
  }

  /** How many chunks greedy packing makes of `blocks` starting afresh. */
  function FreshCount(blocks: seq<string>, cfg: Config): nat {
    if blocks == [] then 0 else GreedyCount(|blocks[0]|, Lengths(blocks[1..]), cfg.size)
  }

  lemma FreshCountIsGreedy(blocks: seq<string>, cfg: Config)
    ensures |GreedyGroups([], blocks, cfg)| == FreshCount(blocks, cfg)
  {
    if blocks != [] {
      assert [] + [blocks[0]] == [blocks[0]];
      GreedyGroupsCount([blocks[0]], blocks[1..], cfg);
    }
  }

  lemma OpenCostsAtMostOne(open: nat, blocks: seq<string>, cfg: Config)
    ensures GreedyCount(open, Lengths(blocks), cfg.size) <= 1 + FreshCount(blocks, cfg)
  {
    if blocks != [] {
      var n := |blocks[0]|;
      assert Lengths(blocks)[1..] == Lengths(blocks[1..]);
      if open + 2 + n <= cfg.size {
        GreedyStaysAhead(n, open + 2 + n, Lengths(blocks[1..]), cfg.size);
      }
    }
  }

  /** No valid grouping has fewer groups than the greedy one. */
  lemma {:induction false} GreedyMinimal(groups: seq<seq<string>>, blocks: seq<string>, cfg: Config)
    requires ValidGrouping(groups, blocks, cfg)
    ensures FreshCount(blocks, cfg) <= |groups|
    decreases |groups|
  {
    if groups != [] {
      var g, rest := groups[0], Flatten(groups[1..]);
      GreedyMinimal(groups[1..], rest, cfg);
      if g == [] {
        assert blocks == rest;
      } else {
        assert blocks[1..] == g[1..] + rest && [g[0]] + g[1..] == g;
        GreedyTakesWhatFits([g[0]], g[1..], rest, cfg);
        OpenCostsAtMostOne(|Join(g, PARA)|, rest, cfg);
      }
    }
  }

  lemma {:induction false} JoinOfJoins(groups: seq<seq<string>>)
    requires forall k | 0 <= k < |groups| :: groups[k] != []
    ensures Join(JoinEach(groups), PARA) == Join(Flatten(groups), PARA)
    ensures groups != [] ==> Flatten(groups) != [] && JoinEach(groups) != []
  {
    if groups != [] {
      JoinOfJoins(groups[1..]);
      if groups[1..] == [] {
        assert groups[0] + [] == groups[0];
        assert JoinEach(groups) == [Join(groups[0], PARA)];
      } else {
        JoinAppend(groups[0], Flatten(groups[1..]), PARA);
        JoinAppend([Join(groups[0], PARA)], JoinEach(groups[1..]), PARA);
      }
    }
  }

  lemma {:induction false} JoinEachIndex(groups: seq<seq<string>>)
    ensures |JoinEach(groups)| == |groups|
    ensures forall k | 0 <= k < |groups| :: JoinEach(groups)[k] == Join(groups[k], PARA)
  {
    if groups != [] {
      JoinEachIndex(groups[1..]);
    }
  }

  lemma ChunksAreJoinedGroups(blocks: seq<string>, cfg: Config) returns (greedy: seq<seq<string>>)
    requires AllFit(blocks, cfg)
    ensures ChunksOf(blocks, cfg) == JoinEach(greedy) && |greedy| == FreshCount(blocks, cfg)
    ensures ValidGrouping(greedy, blocks, cfg) && forall k | 0 <= k < |greedy| :: greedy[k] != []
  {
    greedy := GreedyGroups([], blocks, cfg);
    ChunksAreGreedyGroups(Packer([], []), blocks, cfg);
    GreedyIsValid([], blocks, cfg);
    assert [] + blocks == blocks;
    FreshCountIsGreedy(blocks, cfg);
  }

  /**
   The packing theorem. When every block fits in a chunk, each chunk is within the limit, the chunks
   joined by blank lines are the blocks joined by blank lines, and no way to deal the blocks out in
   order, within the limit, makes fewer chunks.
   */
  lemma PackingIsOptimal(blocks: seq<string>, cfg: Config)
    requires AllFit(blocks, cfg)
    ensures AllWithin(ChunksOf(blocks, cfg), cfg.size)
    ensures Join(ChunksOf(blocks, cfg), "\n\n") == Join(blocks, "\n\n")
    ensures forall groups | ValidGrouping(groups, blocks, cfg) :: |ChunksOf(blocks, cfg)| <= |groups|
  {
    var chunks := ChunksOf(blocks, cfg);
    var greedy := ChunksAreJoinedGroups(blocks, cfg);
    JoinEachIndex(greedy);
    JoinOfJoins(greedy);
    assert AllWithin(chunks, cfg.size);
    forall groups | ValidGrouping(groups, blocks, cfg) ensures |chunks| <= |groups| {
      GreedyMinimal(groups, blocks, cfg);
    }
  }

  // ----- Any blocks -----

  lemma {:induction false} PackBlocksAppend(p: Packer, a: seq<string>, b: seq<string>, cfg: Config)
    ensures PackBlocks(p, a + b, cfg) == PackBlocks(PackBlocks(p, a, cfg), b, cfg)
    decreases |a|
  {
    if a == [] {
      assert a + b == b;
    } else {
      assert (a + b)[1..] == a[1..] + b;
      PackBlocksAppend(PackBlock(p, a[0], cfg), a[1..], b, cfg);
    }
  }

  lemma PackBlockExtends(p: Packer, prefix: seq<string>, block: string, cfg: Config)
    ensures var q := PackBlock(p, block, cfg);
            PackBlock(Packer(prefix + p.chunks, p.group), block, cfg) == Packer(prefix + q.chunks, q.group)
  {
    var parts := SplitLongBlock(block, cfg.size, cfg.overlap);
    assert prefix + p.chunks + Shut(p.group) == prefix + (p.chunks + Shut(p.group));
    assert prefix + p.Finish() + parts == prefix + (p.Finish() + parts);
  }

  lemma {:induction false} PackBlocksExtends(p: Packer, prefix: seq<string>, blocks: seq<string>, cfg: Config)
    ensures var q := PackBlocks(p, blocks, cfg);
            PackBlocks(Packer(prefix + p.chunks, p.group), blocks, cfg) == Packer(prefix + q.chunks, q.group)
    decreases |blocks|
  {
    if blocks != [] {
      var q := PackBlock(p, blocks[0], cfg);
      PackBlockExtends(p, prefix, blocks[0], cfg);
      PackBlocksExtends(q, prefix, blocks[1..], cfg);
    }
  }

  lemma PackFirst(p: Packer, block: string, after: seq<string>, cfg: Config)
    ensures PackBlocks(p, [block] + after, cfg) == PackBlocks(PackBlock(p, block, cfg), after, cfg)
  {
    assert ([block] + after)[1..] == after;
  }

  lemma FinishPrefixed(prefix: seq<string>, p: Packer)
    ensures Packer(prefix + p.chunks, p.group).Finish() == prefix + p.Finish()
  {
    Regroup(prefix, p.chunks, Shut(p.group));
  }

  /** An oversize block cuts the packing in two: what is before it and what is after it are chunked apart. */
  lemma OversizeBlockCuts(before: seq<string>, block: string, after: seq<string>, cfg: Config)
    requires |block| > cfg.size
    ensures ChunksOf(before + [block] + after, cfg)
         == ChunksOf(before, cfg) + SplitLongBlock(block, cfg.size, cfg.overlap) + ChunksOf(after, cfg)
  {
    var start := Packer([], []);
    var p := PackBlocks(start, before, cfg);
    var cut := p.Finish() + SplitLongBlock(block, cfg.size, cfg.overlap);
    assert before + [block] + after == before + ([block] + after);
    PackBlocksAppend(start, before, [block] + after, cfg);
    PackFirst(p, block, after, cfg);
    assert Packer(cut + [], []) == Packer(cut, []);
    PackBlocksExtends(start, cut, after, cfg);
    FinishPrefixed(cut, PackBlocks(start, after, cfg));
  }

  /** The chunks written are within the bound, and the open one within the limit. */
  predicate PackerWithin(p: Packer, cfg: Config, bound: int) {
    AllWithin(p.chunks, bound) && (p.group == [] || |Join(p.group, PARA)| <= cfg.size)
  }

  lemma WithinAppend(a: seq<string>, b: seq<string>, bound: int)
    requires AllWithin(a, bound) && AllWithin(b, bound)
    ensures AllWithin(a + b, bound)
  {
  }

  lemma FinishWithin(p: Packer, cfg: Config, bound: int)
    requires PackerWithin(p, cfg, bound) && cfg.size <= bound
    ensures AllWithin(p.Finish(), bound)
  {
    WithinAppend(p.chunks, Shut(p.group), bound);
  }

  lemma PackBlockBounded(p: Packer, block: string, cfg: Config, longest: nat, bound: int)
    requires cfg.size >= 0 && bound == Max(cfg.size, Max(cfg.overlap, 0) + 1 + longest)
    requires AllWithin(Sentences(Strip(block)), longest) && PackerWithin(p, cfg, bound)
    ensures PackerWithin(PackBlock(p, block, cfg), cfg, bound)
  {
    FinishWithin(p, cfg, bound);
    if |block| > cfg.size {
      SplitBounded(block, cfg.size, cfg.overlap, longest);
      WithinAppend(p.Finish(), SplitLongBlock(block, cfg.size, cfg.overlap), bound);
    } else if p.group == [] {
      assert [] + [block] == [block];
    }
  }

  /** Every chunk of any text is within the limit, or one sentence and its carry over it. */
  lemma {:induction false} PackBlocksBounded(p: Packer, blocks: seq<string>, cfg: Config, longest: nat, bound: int)
    requires cfg.size >= 0 && bound == Max(cfg.size, Max(cfg.overlap, 0) + 1 + longest)
    requires forall i | 0 <= i < |blocks| :: AllWithin(Sentences(Strip(blocks[i])), longest)
    requires PackerWithin(p, cfg, bound)
    ensures PackerWithin(PackBlocks(p, blocks, cfg), cfg, bound)
    decreases |blocks|
  {
    if blocks != [] {
      PackBlockBounded(p, blocks[0], cfg, longest, bound);
      PackBlocksBounded(PackBlock(p, blocks[0], cfg), blocks[1..], cfg, longest, bound);
    }
  }

  lemma ChunkTextBounded(text: string, isHeading: string -> bool, cfg: Config, longest: nat)
    requires cfg.size >= 0
    requires var blocks := BlocksOf(NormalizeText(text), isHeading);
             forall i | 0 <= i < |blocks| :: AllWithin(Sentences(Strip(blocks[i])), longest)
    ensures AllWithin(ChunkText(text, isHeading, cfg), Max(cfg.size, Max(cfg.overlap, 0) + 1 + longest))
  {
    var bound := Max(cfg.size, Max(cfg.overlap, 0) + 1 + longest);
    var blocks := BlocksOf(NormalizeText(text), isHeading);
    PackBlocksBounded(Packer([], []), blocks, cfg, longest, bound);
    FinishWithin(PackBlocks(Packer([], []), blocks, cfg), cfg, bound);
  }

  /** The indexing path normalises up to three times; once would do. */
  lemma IndexPathNormalizesOnce(content: string, isHeading: string -> bool, cfg: Config)
    ensures ChunkText(NormalizeText(content), isHeading, cfg) == ChunksOf(BlocksOf(content, isHeading), cfg)
  {
    NormalizeIdempotent(content);
    NormalizeIdempotent(NormalizeText(content));
  }

  // ----- From the text to its chunks nothing is lost -----

  lemma ShutInk(group: seq<string>)
    ensures Ink(Concat(Shut(group))) == Ink(Concat(group))
  {
    if group != [] {
      InkOfJoin(group, PARA);
      InkOfCons(Join(group, PARA), []);
      assert [Join(group, PARA)] + [] == [Join(group, PARA)];
    }
  }

  /** What a packer holds: the chunks written and the blocks of the open one. */
  lemma FinishInk(p: Packer)
    ensures Ink(Concat(p.Finish())) == Ink(Concat(p.chunks)) + Ink(Concat(p.group))
  {
    InkOfConcat(p.chunks, Shut(p.group));
    ShutInk(p.group);
  }

  lemma PackBlockKeepsInk(p: Packer, block: string, cfg: Config)
    requires cfg.size >= 1 && cfg.overlap >= 0
    ensures Subsequence(Ink(Concat(p.Finish())) + Ink(block), Ink(Concat(PackBlock(p, block, cfg).Finish())))
  {
    var q := PackBlock(p, block, cfg);
    var held := Ink(Concat(p.Finish()));
    FinishInk(p);
    FinishInk(q);
    InkOfCons(block, []);
    assert [block] + [] == [block] && Ink(block) + "" == Ink(block);
    SubsequenceOfSelf(held);
    SubsequenceOfSelf(Ink(block));
    SubsequenceAppend(held, held, Ink(block), Ink(block));
    if |block| > cfg.size {
      var parts := SplitLongBlock(block, cfg.size, cfg.overlap);
      SplitKeepsInk(block, cfg.size, cfg.overlap);
      InkOfConcat(p.Finish(), parts);
      assert Ink(Concat(q.Finish())) == held + Ink(Concat(parts)) + "" == held + Ink(Concat(parts));
      SubsequenceAppend(held, held, Ink(block), Ink(Concat(parts)));
    } else if Fits(p.group, block, cfg) {
      InkOfConcat(p.group, [block]);
      Regroup(Ink(Concat(p.chunks)), Ink(Concat(p.group)), Ink(block));
    }
  }

  lemma {:induction false} PackBlocksKeepInk(p: Packer, blocks: seq<string>, cfg: Config)
    requires cfg.size >= 1 && cfg.overlap >= 0
    ensures Subsequence(Ink(Concat(p.Finish())) + Ink(Concat(blocks)), Ink(Concat(PackBlocks(p, blocks, cfg).Finish())))
    decreases |blocks|
  {
    var held := Ink(Concat(p.Finish()));
    if blocks == [] {
      assert held + "" == held;
      SubsequenceOfSelf(held);
    } else {
      var q, rest := PackBlock(p, blocks[0], cfg), Ink(Concat(blocks[1..]));
      PackBlockKeepsInk(p, blocks[0], cfg);
      PackBlocksKeepInk(q, blocks[1..], cfg);
      InkAppend(blocks[0], Concat(blocks[1..]));
      Regroup(held, Ink(blocks[0]), rest);
      SubsequenceOfSelf(rest);
      SubsequenceAppend(held + Ink(blocks[0]), Ink(Concat(q.Finish())), rest, rest);
      SubsequenceTransitive(held + Ink(blocks[0]) + rest, Ink(Concat(q.Finish())) + rest, Ink(Concat(PackBlocks(q, blocks[1..], cfg).Finish())));
    }
  }

  /**
   The end-to-end theorem: for any text, any heading recogniser, any size of at least one and any
   overlap that is not negative, every character of the text that is not a space is in the chunks, in
   order. What the chunks hold besides are injected headings and overlaps.
   */
  lemma ChunksKeepInk(text: string, isHeading: string -> bool, cfg: Config)
    requires cfg.size >= 1 && cfg.overlap >= 0
    ensures Subsequence(Ink(text), Ink(Concat(ChunkText(text, isHeading, cfg))))
  {
    var blocks := BlocksOf(NormalizeText(text), isHeading);
    NormalizeKeepsInk(text);
    BlocksKeepInk(NormalizeText(text), isHeading);
    PackBlocksKeepInk(Packer([], []), blocks, cfg);
    assert Ink(Concat(Packer([], []).Finish())) + Ink(Concat(blocks)) == Ink(Concat(blocks));
    SubsequenceTransitive(Ink(text), Ink(Concat(blocks)), Ink(Concat(ChunkText(text, isHeading, cfg))));
  }
}
