/** How the sending client cuts a file into blocks. */
module Blocks {
  import opened Division

  datatype Block = Block(offset: nat, bs: nat)

  /** The file from `offset` on: one block at most each time, until nothing is left. */
  function Split(offset: nat, filesize: nat, blockSize: nat): seq<Block>
    requires blockSize > 0
    decreases filesize - offset
  {
    if offset >= filesize then []
    else
      var rest := filesize - offset;
      [Block(offset, if rest < blockSize then rest else blockSize)] + Split(offset + blockSize, filesize, blockSize)
  }

  /** The sender's `count`: the whole blocks and a short one if the file does not divide evenly. */
  lemma {:induction false} SplitCount(offset: nat, filesize: nat, blockSize: nat)
    requires blockSize > 0 && offset <= filesize
    ensures var rest := filesize - offset;
      |Split(offset, filesize, blockSize)| == rest / blockSize + (if rest % blockSize == 0 then 0 else 1)
    decreases filesize - offset
  {
    var rest := filesize - offset;
    if rest >= blockSize {
      DivStep(rest, blockSize);
      SplitCount(offset + blockSize, filesize, blockSize);
    } else {
      DivUnique(rest, blockSize, 0, rest);
    }
  }

  /** A whole block is left ... */
  lemma SplitWhole(offset: nat, filesize: nat, blockSize: nat)
    requires blockSize > 0 && offset <= filesize && (filesize - offset) / blockSize > 0
    ensures var next := offset + blockSize;
      && next <= filesize
      && Split(offset, filesize, blockSize) == [Block(offset, blockSize)] + Split(next, filesize, blockSize)
      && (filesize - next) / blockSize == (filesize - offset) / blockSize - 1
      && (filesize - next) % blockSize == (filesize - offset) % blockSize
  {
    WholeLeft(filesize - offset, blockSize);
    DivStep(filesize - offset, blockSize);
  }

  /** ... or only a short one, or nothing. */
  lemma SplitRest(offset: nat, filesize: nat, blockSize: nat)
    requires blockSize > 0 && offset <= filesize && (filesize - offset) / blockSize == 0
    ensures var rest := (filesize - offset) % blockSize;
      Split(offset, filesize, blockSize) == if rest == 0 then [] else [Block(offset, rest)]
  {
    PartialLeft(filesize - offset, blockSize);
    if offset < filesize {
      assert Split(offset + blockSize, filesize, blockSize) == [];
    }
  }

  /** What does not fill whole blocks. */
  lemma Remainder(x: nat, d: nat)
    requires d > 0
    ensures x - d * (x / d) == x % d
  {
  }

  /** `send_file` once the id has arrived: standard blocks through `new_fb_head`, then one
      short block if the file does not divide evenly. */
  method SplitFile(filesize: nat, blockSize: nat) returns (blocks: seq<Block>, count: nat)
    requires blockSize > 0
    ensures blocks == Split(0, filesize, blockSize) && count == |blocks|
  {
    hide Split;
    count := filesize / blockSize;
    var lastBs := 0;
    if filesize % blockSize != 0 {
      Remainder(filesize, blockSize);
      lastBs := filesize - blockSize * count;
      count := count + 1;
    }
    SplitCount(0, filesize, blockSize);
    var standard := if lastBs == 0 then count else count - 1;
    var offset := 0;
    blocks := [];
    var i := 0;
    while i < standard
      invariant i <= standard && offset <= filesize
      invariant (filesize - offset) / blockSize == standard - i && (filesize - offset) % blockSize == lastBs
      invariant blocks + Split(offset, filesize, blockSize) == Split(0, filesize, blockSize)
    {
      SplitWhole(offset, filesize, blockSize);
      blocks := blocks + [Block(offset, blockSize)];
      offset := offset + blockSize;
      i := i + 1;
    }
    SplitRest(offset, filesize, blockSize);
    if lastBs != 0 {
      blocks := blocks + [Block(offset, lastBs)];
    }
  }

  predicate InBlock(b: Block, x: int) {
    b.offset <= x < b.offset + b.bs
  }

  ghost predicate Covered(blocks: seq<Block>, x: int) {
    exists i :: 0 <= i < |blocks| && InBlock(blocks[i], x)
  }

  /** The blocks are nonempty, in increasing order, disjoint, and cover exactly [from, size). */
  ghost predicate Tiles(blocks: seq<Block>, from: nat, size: nat) {
    && (forall i :: 0 <= i < |blocks| ==> blocks[i].bs > 0 && from <= blocks[i].offset <= size - blocks[i].bs)
    && (forall i, j :: 0 <= i < j < |blocks| ==> blocks[i].offset + blocks[i].bs <= blocks[j].offset)
    && (forall x {:trigger Covered(blocks, x)} :: from <= x < size ==> Covered(blocks, x))
  }

  /** For every file size and block size the blocks tile the file. */
  lemma {:induction false} SplitTiles(offset: nat, filesize: nat, blockSize: nat)
    requires blockSize > 0
    ensures Tiles(Split(offset, filesize, blockSize), offset, filesize)
    decreases filesize - offset
  {
    if offset < filesize {
      var blocks := Split(offset, filesize, blockSize);
      var rest := Split(offset + blockSize, filesize, blockSize);
      SplitTiles(offset + blockSize, filesize, blockSize);
      forall x | offset <= x < filesize ensures Covered(blocks, x) {
        if InBlock(blocks[0], x) {
        } else {
          assert Covered(rest, x);
          var i :| 0 <= i < |rest| && InBlock(rest[i], x);
          assert blocks[i + 1] == rest[i];
        }
      }
    }
  }
}
