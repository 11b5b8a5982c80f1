/**
 * 2024 day 9, Disk Fragmenter: a disk map is a line of digits that
 * alternately give the size of a file and the size of the free space after
 * it; files are numbered 0, 1, 2, ... in order. Expanded into blocks, part 1
 * moves file blocks one at a time from the end into the leftmost free block,
 * part 2 moves whole files, highest number first, into the leftmost free
 * span that holds them. The answer is the checksum: the sum over occupied
 * blocks of position times file number.
 */
module Day9 {
  import opened Wrappers
  import opened Text
  import opened Sums

  /** `FileId`, an `i64` in the source. */
  type FileId = int

  /** A block holds a file's number or is free. */
  type Block = Option<FileId>

  datatype Allocation = File(id: FileId, size: nat) | FreeSpace(size: nat)

  datatype DiskMap = DiskMap(allocations: seq<Allocation>, blockCount: int)

  /* ---------------------------------------------------------------------
     Parsing
     --------------------------------------------------------------------- */

  /** `parse_digit`: None stands for the panic on any other character. */
  function ParseDigit(c: char): (r: Option<nat>)
    ensures r.Some? <==> '0' <= c <= '9'
    ensures r.Some? ==> r.value < 10 && r.value == c as int - '0' as int
  {
    match c
    case '0' => Some(0)
    case '1' => Some(1)
    case '2' => Some(2)
    case '3' => Some(3)
    case '4' => Some(4)
    case '5' => Some(5)
    case '6' => Some(6)
    case '7' => Some(7)
    case '8' => Some(8)
    case '9' => Some(9)
    case _ => None
  }

  /** The digits of a line, None when one character is not a digit. */
  function Digits(line: string): (r: Option<seq<nat>>)
    ensures r.Some? <==> AllDigits(line)
    ensures r.Some? ==> |r.value| == |line| && forall i :: 0 <= i < |line| ==> r.value[i] == DigitValue(line[i])
  {
    if |line| == 0 then Some([])
    else
      match (Digits(line[..|line| - 1]), ParseDigit(line[|line| - 1]))
      case (Some(init), Some(d)) => Some(init + [d])
      case _ => None
  }

  /** The allocations of a disk map, files numbered from `id` on. */
  function Allocations(digits: seq<nat>, id: FileId): seq<Allocation>
    decreases |digits|
  {
    if |digits| == 0 then []
    else if |digits| == 1 then [File(id, digits[0])]
    else [File(id, digits[0]), FreeSpace(digits[1])] + Allocations(digits[2..], id + 1)
  }

  /** The digits alternate between files and free space, and the files are
      numbered consecutively in order. */
  lemma {:induction false} AllocationsAt(digits: seq<nat>, id: FileId, i: nat)
    requires i < |digits|
    ensures |Allocations(digits, id)| == |digits|
    ensures Allocations(digits, id)[i] == if i % 2 == 0 then File(id + i / 2, digits[i]) else FreeSpace(digits[i])
    decreases |digits|
  {
    if |digits| > 2 {
      AllocationsAt(digits[2..], id + 1, if i >= 2 then i - 2 else 0);
    }
  }

  /** The disk map of the input's first line; None when there is no line or
      a character is not a digit (both panics). */
  function DiskMapOf(input: string): Option<DiskMap> {
    var lines := Lines(input);
    if |lines| == 0 then None
    else
      match Digits(lines[0])
      case None => None
      case Some(digits) => Some(DiskMap(Allocations(digits, 0), SeqSum(digits)))
  }

  /** `parse_input_file` on the file's contents: alternately push a file,
      numbered in order, and the free space after it. */
  method ParseInput(input: string) returns (r: Option<DiskMap>)
    ensures r == DiskMapOf(input)
  {
    var lines := Lines(input);
    if |lines| == 0 {
      return None;
    }
    var parsed := Digits(lines[0]);
    if parsed.None? {
      return None;
    }
    var digits := parsed.value;
    var blockCount := SeqSum(digits);
    var allocations := [];
    var fileId := 0;
    var i := 0;
    while i < |digits|
      invariant 0 <= i <= |digits|
      invariant i < |digits| ==> i == 2 * fileId
      invariant allocations + Allocations(digits[i..], fileId) == Allocations(digits, 0)
    {
      allocations := allocations + [File(fileId, digits[i])];
      fileId := fileId + 1;
      i := i + 1;
      if i < |digits| {
        allocations := allocations + [FreeSpace(digits[i])];
        i := i + 1;
      }
    }
    assert digits[i..] == [];
    assert allocations == Allocations(digits, 0);
    assert DiskMapOf(input) == Some(DiskMap(Allocations(digits, 0), SeqSum(digits)));
    return Some(DiskMap(allocations, blockCount));
  }

  /* ---------------------------------------------------------------------
     Blocks
     --------------------------------------------------------------------- */

  function Repeat(b: Block, n: nat): seq<Block> {
    seq(n, _ => b)
  }

  /** The blocks of one allocation. */
  function Expand(a: Allocation): seq<Block> {
    match a
    case File(id, size) => Repeat(Some(id), size)
    case FreeSpace(size) => Repeat(None, size)
  }

  /** The blocks of the allocations, in order. */
  function BlocksOf(allocations: seq<Allocation>): seq<Block> {
    if |allocations| == 0 then []
    else BlocksOf(allocations[..|allocations| - 1]) + Expand(allocations[|allocations| - 1])
  }

  /** `DiskMap::blocks`: each file's number as often as its size, then as
      many free blocks as the free space's size. */
  method Blocks(disk: DiskMap) returns (blocks: seq<Block>)
    ensures blocks == BlocksOf(disk.allocations)
  {
    var allocations := disk.allocations;
    blocks := [];
    for k := 0 to |allocations|
      invariant blocks == BlocksOf(allocations[..k])
    {
      assert allocations[..k + 1][..k] == allocations[..k];
      match allocations[k]
      case File(id, size) =>
        for j := 0 to size
          invariant blocks == BlocksOf(allocations[..k]) + Repeat(Some(id), j)
        {
          blocks := blocks + [Some(id)];
        }
      case FreeSpace(size) =>
        for j := 0 to size
          invariant blocks == BlocksOf(allocations[..k]) + Repeat(None, j)
        {
          blocks := blocks + [None];
        }
    }
    assert allocations[..|allocations|] == allocations;
  }

  lemma BlocksOfPair(a: Allocation, b: Allocation)
    ensures BlocksOf([a]) == Expand(a)
    ensures BlocksOf([a, b]) == Expand(a) + Expand(b)
  {
    assert [a, b][..1] == [a];
    assert [a][..0] == [];
  }

  lemma {:induction false} BlocksOfAppend(a: seq<Allocation>, b: seq<Allocation>)
    ensures BlocksOf(a + b) == BlocksOf(a) + BlocksOf(b)
    decreases |b|
  {
    if |b| == 0 {
      assert a + b == a;
    } else {
      var front, last := b[..|b| - 1], b[|b| - 1];
      assert BlocksOf(a + b) == BlocksOf(a + front) + Expand(last) by {
        assert (a + b)[..|a + b| - 1] == a + front;
        assert (a + b)[|a + b| - 1] == last;
      }
      assert BlocksOf(a + front) == BlocksOf(a) + BlocksOf(front) by {
        BlocksOfAppend(a, front);
      }
      assert BlocksOf(b) == BlocksOf(front) + Expand(last);
      assert BlocksOf(a) + BlocksOf(front) + Expand(last) == BlocksOf(a) + (BlocksOf(front) + Expand(last));
    }
  }

  /** A file and the free space after it come first, then the rest. */
  lemma AllocationsBlocks(digits: seq<nat>, id: FileId)
    requires |digits| >= 1
    ensures BlocksOf(Allocations(digits, id)) ==
      if |digits| == 1 then Repeat(Some(id), digits[0])
      else Repeat(Some(id), digits[0]) + Repeat(None, digits[1]) + BlocksOf(Allocations(digits[2..], id + 1))
  {
    var file := File(id, digits[0]);
    BlocksOfPair(file, file);
    if |digits| >= 2 {
      var head := [file, FreeSpace(digits[1])];
      BlocksOfAppend(head, Allocations(digits[2..], id + 1));
      BlocksOfPair(file, head[1]);
    }
  }

  lemma SeqSumFront(digits: seq<nat>)
    requires |digits| >= 2
    ensures SeqSum(digits) == digits[0] + digits[1] + SeqSum(digits[2..])
  {
    SeqSumAppend(digits[..2], digits[2..]);
    assert digits[..2] + digits[2..] == digits;
    assert digits[..2][..1] == [digits[0]] && [digits[0]][..0] == [];
  }

  /** There are as many blocks as the digits add up to: the `block_count`. */
  lemma {:induction false} BlockCount(digits: seq<nat>, id: FileId)
    ensures |BlocksOf(Allocations(digits, id))| == SeqSum(digits)
    decreases |digits|
  {
    if |digits| == 1 {
      AllocationsBlocks(digits, id);
      assert digits[..0] == [];
    } else if |digits| >= 2 {
      AllocationsBlocks(digits, id);
      BlockCount(digits[2..], id + 1);
      SeqSumFront(digits);
    }
  }

  lemma {:induction false} RepeatCount(b: Block, n: nat, x: Block)
    ensures multiset(Repeat(b, n))[x] == if x == b then n else 0
  {
    if n > 0 {
      RepeatCount(b, n - 1, x);
      assert Repeat(b, n) == Repeat(b, n - 1) + [b];
    }
  }

  /** File `x` occupies as many blocks as its digit says; numbers outside
      the files do not occur. */
  lemma {:induction false} FileBlockCount(digits: seq<nat>, id: FileId, x: FileId)
    ensures multiset(BlocksOf(Allocations(digits, id)))[Some(x)] ==
      if id <= x < id + (|digits| + 1) / 2 then digits[2 * (x - id)] else 0
    decreases |digits|
  {
    if |digits| == 1 {
      var first := Repeat(Some(id), digits[0]);
      assert multiset(first)[Some(x)] == if x == id then digits[0] else 0 by {
        RepeatCount(Some(id), digits[0], Some(x));
      }
      assert multiset(BlocksOf(Allocations(digits, id)))[Some(x)] == multiset(first)[Some(x)] by {
        AllocationsBlocks(digits, id);
      }
    } else if |digits| >= 2 {
      FileBlockCount(digits[2..], id + 1, x);
      FileBlockCountPair(digits, id, x);
    }
  }

  /** The step of `FileBlockCount`: the first file, its free space, then the
      rest of the files. */
  lemma FileBlockCountPair(digits: seq<nat>, id: FileId, x: FileId)
    requires |digits| >= 2
    requires multiset(BlocksOf(Allocations(digits[2..], id + 1)))[Some(x)] ==
      if id + 1 <= x < id + 1 + (|digits[2..]| + 1) / 2 then digits[2..][2 * (x - (id + 1))] else 0
    ensures multiset(BlocksOf(Allocations(digits, id)))[Some(x)] ==
      if id <= x < id + (|digits| + 1) / 2 then digits[2 * (x - id)] else 0
  {
    var files := (|digits| + 1) / 2;
    var blocks := BlocksOf(Allocations(digits, id));
    var first := Repeat(Some(id), digits[0]);
    var gap, rest := Repeat(None, digits[1]), BlocksOf(Allocations(digits[2..], id + 1));
    var ownCount, gapCount, restCount := multiset(first)[Some(x)], multiset(gap)[Some(x)], multiset(rest)[Some(x)];
    assert ownCount == if x == id then digits[0] else 0 by {
      RepeatCount(Some(id), digits[0], Some(x));
    }
    assert multiset(blocks)[Some(x)] == ownCount + gapCount + restCount by {
      AllocationsBlocks(digits, id);
      assert blocks == first + gap + rest;
    }
    assert gapCount == 0 by {
      RepeatCount(None, digits[1], Some(x));
    }
    assert files == (|digits[2..]| + 1) / 2 + 1;
    if id + 1 <= x < id + files {
      var k := x - (id + 1);
      assert 2 * k + 2 < |digits| by {
        assert 2 * files <= |digits| + 1;
      }
      assert digits[2..][2 * k] == digits[2 * k + 2];
      assert 2 * k + 2 == 2 * (x - id);
    }
  }

  /** Each allocation's blocks sit together, right after those of the
      allocations before it. */
  lemma BlocksLayout(allocations: seq<Allocation>, i: nat)
    requires i < |allocations|
    ensures var start := |BlocksOf(allocations[..i])|;
      start + |Expand(allocations[i])| <= |BlocksOf(allocations)| &&
      BlocksOf(allocations)[start..start + |Expand(allocations[i])|] == Expand(allocations[i])
  {
    var before, after := allocations[..i], allocations[i + 1..];
    assert allocations == before + [allocations[i]] + after;
    BlocksOfAppend(before + [allocations[i]], after);
    BlocksOfAppend(before, [allocations[i]]);
    BlocksOfPair(allocations[i], allocations[i]);
  }

  /* ---------------------------------------------------------------------
     Checksum
     --------------------------------------------------------------------- */

  function Weight(i: nat, b: Block): int {
    if b.Some? then i * b.value else 0
  }

  /** `compute_checksum`: position times file number, summed over occupied
      blocks. */
  function Checksum(blocks: seq<Block>): int {
    if |blocks| == 0 then 0 else Checksum(blocks[..|blocks| - 1]) + Weight(|blocks| - 1, blocks[|blocks| - 1])
  }

  /** Changing one block changes the checksum by that block's weight only. */
  lemma {:induction false} ChecksumUpdate(blocks: seq<Block>, i: nat, b: Block)
    requires i < |blocks|
    ensures Checksum(blocks[i := b]) == Checksum(blocks) - Weight(i, blocks[i]) + Weight(i, b)
  {
    var n := |blocks|;
    if i < n - 1 {
      assert blocks[i := b][..n - 1] == blocks[..n - 1][i := b];
      ChecksumUpdate(blocks[..n - 1], i, b);
    } else {
      assert blocks[i := b][..n - 1] == blocks[..n - 1];
    }
  }

  function Swap(s: seq<Block>, i: nat, j: nat): seq<Block>
    requires i < |s| && j < |s|
  {
    s[i := s[j]][j := s[i]]
  }

  /** Moving file block `x` left from `r` into the free block `l` lowers the
      checksum by `(r - l) * x`. */
  lemma ChecksumMoveLeft(blocks: seq<Block>, l: nat, r: nat)
    requires l < r < |blocks| && blocks[l].None? && blocks[r].Some?
    ensures Checksum(Swap(blocks, l, r)) == Checksum(blocks) - (r - l) * blocks[r].value
  {
    var x := blocks[r].value;
    var t := blocks[l := blocks[r]];
    ChecksumUpdate(blocks, l, blocks[r]);
    assert Checksum(t) == Checksum(blocks) + l * x;
    ChecksumUpdate(t, r, None);
    assert Checksum(t[r := None]) == Checksum(t) - r * x;
    assert (r - l) * x == r * x - l * x;
  }

  /* ---------------------------------------------------------------------
     Part 1: moving single blocks
     --------------------------------------------------------------------- */

  /** The first free block from `i` on, or `|s|` when there is none. */
  function NextFree(s: seq<Block>, i: nat): (r: nat)
    requires i <= |s|
    decreases |s| - i
    ensures i <= r <= |s|
  {
    if i == |s| then |s| else if s[i].None? then i else NextFree(s, i + 1)
  }

  lemma {:induction false} NextFreeFirst(s: seq<Block>, i: nat)
    requires i <= |s|
    decreases |s| - i
    ensures var r := NextFree(s, i);
      (r < |s| ==> s[r].None?) && forall k :: i <= k < r ==> s[k].Some?
  {
    if i < |s| && s[i].Some? {
      NextFreeFirst(s, i + 1);
    }
  }

  /** The last occupied block up to `j`, or -1 when there is none. */
  function LastUsed(s: seq<Block>, j: int): (r: int)
    requires -1 <= j < |s|
    decreases j + 1
    ensures -1 <= r <= j
  {
    if j < 0 then -1 else if s[j].Some? then j else LastUsed(s, j - 1)
  }

  lemma {:induction false} LastUsedLast(s: seq<Block>, j: int)
    requires -1 <= j < |s|
    decreases j + 1
    ensures var r := LastUsed(s, j);
      (r >= 0 ==> s[r].Some?) && forall k :: r < k <= j ==> s[k].None?
  {
    if j >= 0 && s[j].None? {
      LastUsedLast(s, j - 1);
    }
  }

  /** The two-cursor compaction from `left` and `right` on: None when a
      cursor runs off the disk (a panic). */
  function FragmentsFrom(s: seq<Block>, left: nat, right: int): Option<seq<Block>>
    requires left <= |s| && -1 <= right < |s|
    decreases |s| - left
  {
    var l := NextFree(s, left);
    var r := LastUsed(s, right);
    if l == |s| || r < 0 then None
    else if l >= r then Some(s)
    else FragmentsFrom(Swap(s, l, r), l + 1, r - 1)
  }

  /** The compaction of part 1; an empty disk underflows the right cursor. */
  function CompactFragments(s: seq<Block>): Option<seq<Block>> {
    if |s| == 0 then None else FragmentsFrom(s, 0, |s| - 1)
  }

  /** No free block before an occupied one. */
  predicate Compacted(s: seq<Block>) {
    forall i, j :: 0 <= i < j < |s| && s[i].None? ==> s[j].None?
  }

  /** Where the cursors meet, the compaction is done. */
  lemma FragmentsFromDone(s: seq<Block>, left: nat, right: int)
    requires left <= |s| && -1 <= right < |s|
    requires NextFree(s, left) < |s| && 0 <= LastUsed(s, right) <= NextFree(s, left)
    ensures FragmentsFrom(s, left, right) == Some(s)
  {
  }

  lemma FragmentsFromSkip(t: seq<Block>, l: nat, r: nat)
    requires l < r < |t| && t[l].Some? && t[r].None?
    ensures FragmentsFrom(t, l, r) == FragmentsFrom(t, l + 1, r - 1)
  {
    var l', r' := NextFree(t, l + 1), LastUsed(t, r - 1);
    assert NextFree(t, l) == l';
    assert LastUsed(t, r) == r';
  }

  /** One swap, after which the cursors stay where they stopped. */
  lemma FragmentsFromStep(s: seq<Block>, left: nat, right: int)
    requires left <= |s| && -1 <= right < |s|
    requires NextFree(s, left) < |s| && 0 <= LastUsed(s, right)
    requires NextFree(s, left) < LastUsed(s, right)
    ensures var l, r := NextFree(s, left), LastUsed(s, right);
      FragmentsFrom(s, left, right) == FragmentsFrom(Swap(s, l, r), l, r)
  {
    var l, r := NextFree(s, left), LastUsed(s, right);
    NextFreeFirst(s, left);
    LastUsedLast(s, right);
    FragmentsFromSkip(Swap(s, l, r), l, r);
  }

  /** What the compaction keeps true from one swap to the next: occupied up
      to the left cursor, free beyond the right one, unmoved where still
      possibly occupied, and the same blocks overall. */
  predicate FragmentsInvariant(o: seq<Block>, s: seq<Block>, left: nat, right: int) {
    left <= |s| && -1 <= right < |s| && |o| == |s| &&
    (forall i :: 0 <= i < left ==> s[i].Some?) &&
    (forall i :: right < i < |s| ==> s[i].None?) &&
    (forall i :: 0 <= i <= right && o[i].Some? ==> s[i] == o[i]) &&
    multiset(s) == multiset(o)
  }

  lemma FragmentsInvariantStep(o: seq<Block>, s: seq<Block>, left: nat, right: int)
    requires FragmentsInvariant(o, s, left, right)
    requires NextFree(s, left) < |s| && 0 <= LastUsed(s, right)
    requires NextFree(s, left) < LastUsed(s, right)
    ensures var l, r := NextFree(s, left), LastUsed(s, right);
      FragmentsInvariant(o, Swap(s, l, r), l + 1, r - 1)
  {
    var l, r := NextFree(s, left), LastUsed(s, right);
    NextFreeFirst(s, left);
    LastUsedLast(s, right);
    var t := Swap(s, l, r);
    assert multiset(t) == multiset(s);
  }

  lemma FragmentsInvariantDone(o: seq<Block>, s: seq<Block>, left: nat, right: int)
    requires FragmentsInvariant(o, s, left, right)
    requires NextFree(s, left) < |s| && 0 <= LastUsed(s, right) <= NextFree(s, left)
    ensures Compacted(s) && forall i :: 0 <= i < |s| && o[i].Some? && s[i].Some? ==> s[i] == o[i]
  {
    NextFreeFirst(s, left);
    LastUsedLast(s, right);
  }

  lemma {:induction false} FragmentsFromCompacts(o: seq<Block>, s: seq<Block>, left: nat, right: int)
    requires FragmentsInvariant(o, s, left, right)
    requires FragmentsFrom(s, left, right).Some?
    ensures var r := FragmentsFrom(s, left, right).value;
      |r| == |o| && multiset(r) == multiset(o) && Compacted(r) &&
      forall i :: 0 <= i < |r| && o[i].Some? && r[i].Some? ==> r[i] == o[i]
    decreases |s| - left
  {
    var l, r := NextFree(s, left), LastUsed(s, right);
    if l < r {
      FragmentsInvariantStep(o, s, left, right);
      FragmentsFromCompacts(o, Swap(s, l, r), l + 1, r - 1);
    } else {
      FragmentsInvariantDone(o, s, left, right);
    }
  }

  lemma {:induction false} FragmentsFromDefined(s: seq<Block>, left: nat, right: int)
    requires left <= |s| && -1 <= right < |s|
    requires exists i :: left <= i < |s| && s[i].None?
    requires exists i :: 0 <= i <= right && s[i].Some?
    ensures FragmentsFrom(s, left, right).Some?
    decreases |s| - left
  {
    var l := NextFree(s, left);
    var r := LastUsed(s, right);
    NextFreeFirst(s, left);
    LastUsedLast(s, right);
    if l < r {
      var t := Swap(s, l, r);
      assert t[r].None? && t[l].Some?;
      FragmentsFromDefined(t, l + 1, r - 1);
    }
  }

  /** Part 1 compaction: defined exactly when the disk has a free and an
      occupied block; then it permutes the blocks, leaves no free block
      before an occupied one, and never moves a block that stays occupied
      where it was. */
  lemma CompactFragmentsSpec(s: seq<Block>)
    ensures CompactFragments(s).Some? <==>
      (exists i :: 0 <= i < |s| && s[i].None?) && (exists i :: 0 <= i < |s| && s[i].Some?)
    ensures CompactFragments(s).Some? ==>
      var r := CompactFragments(s).value;
      |r| == |s| && multiset(r) == multiset(s) && Compacted(r) &&
      forall i :: 0 <= i < |r| && s[i].Some? && r[i].Some? ==> r[i] == s[i]
  {
    if |s| > 0 {
      if CompactFragments(s).Some? {
        assert FragmentsInvariant(s, s, 0, |s| - 1);
        FragmentsFromCompacts(s, s, 0, |s| - 1);
        NextFreeFirst(s, 0);
        LastUsedLast(s, |s| - 1);
      }
      if (exists i :: 0 <= i < |s| && s[i].None?) && (exists i :: 0 <= i < |s| && s[i].Some?) {
        FragmentsFromDefined(s, 0, |s| - 1);
      }
    }
  }

  /** `compact_file_fragments`: the left cursor seeks the first free block,
      the right cursor the last occupied one, and they swap until they
      meet. False stands for a panic, when a cursor runs off the disk. */
  method CompactFileFragments(blocks: array<Block>) returns (ok: bool)
    modifies blocks
    ensures ok == CompactFragments(old(blocks[..])).Some?
    ensures ok ==> blocks[..] == CompactFragments(old(blocks[..])).value
  {
    if blocks.Length == 0 {
      return false;
    }
    var left: nat := 0;
    var right: nat := blocks.Length - 1;
    while true
      invariant left <= right < blocks.Length
      invariant FragmentsFrom(blocks[..], left, right) == CompactFragments(old(blocks[..]))
      decreases right - left + (if blocks[left].Some? then 0 else 1) + (if blocks[right].None? then 0 else 1)
    {
      ghost var s, left0, right0 := blocks[..], left, right;
      while left < blocks.Length && blocks[left].Some?
        invariant left0 <= left <= blocks.Length
        invariant NextFree(s, left) == NextFree(s, left0)
        decreases blocks.Length - left
      {
        left := left + 1;
      }
      if left == blocks.Length {
        return false;
      }
      while blocks[right].None?
        invariant right <= right0
        invariant LastUsed(s, right) == LastUsed(s, right0)
        decreases right
      {
        if right == 0 {
          return false;
        }
        right := right - 1;
      }
      if left >= right {
        FragmentsFromDone(s, left0, right0);
        return true;
      }
      FragmentsFromStep(s, left0, right0);
      blocks[left], blocks[right] := blocks[right], blocks[left];
      assert blocks[..] == Swap(s, left, right);
    }
  }

  /* ---------------------------------------------------------------------
     Part 2: moving whole files
     --------------------------------------------------------------------- */

  /** From `c` down, past free blocks, stopping at block 0. */
  function SkipFree(s: seq<Block>, c: nat): (r: nat)
    requires c < |s|
    ensures r <= c && (forall k :: r < k <= c ==> s[k].None?) && (s[r].None? ==> r == 0)
  {
    if s[c].None? && c > 0 then SkipFree(s, c - 1) else c
  }

  /** From `c` down, past blocks equal to `b`, stopping at block 0. */
  function SkipRun(s: seq<Block>, c: nat, b: Block): (r: nat)
    requires c < |s|
    ensures r <= c && (forall k :: r < k <= c ==> s[k] == b) && (s[r] == b ==> r == 0)
  {
    if s[c] == b && c > 0 then SkipRun(s, c - 1, b) else c
  }

  datatype Span = Span(start: nat, length: nat)

  /** What `seek_file` gives back, with the new values of the cursor and of
      the last file number that it updates through its `&mut` arguments. */
  datatype Seek = Seek(file: Option<Span>, cursor: nat, last: Option<FileId>)

  /** `seek_file`: the next file down from the cursor, skipped (no span) when
      its number is not below the last one handled. None stands for the
      panic when the search ends on a free block 0. */
  function SeekFrom(s: seq<Block>, cursor: nat, last: Option<FileId>): (r: Option<Seek>)
    requires cursor < |s|
    ensures r.Some? ==> r.value.cursor <= cursor && (r.value.cursor == 0 || r.value.cursor < cursor)
    ensures r.Some? && r.value.file.Some? ==>
      r.value.file.value.start == r.value.cursor + 1 &&
      r.value.file.value.start + r.value.file.value.length <= |s|
  {
    var end := SkipFree(s, cursor);
    var id := s[end];
    var c := SkipRun(s, end, id);
    if last.Some? && id.None? then None
    else if last.Some? && id.value >= last.value then Some(Seek(None, c, last))
    else if id.None? then None
    else Some(Seek(Some(Span(c + 1, end - c)), c, id))
  }

  /** A file found lies below the cursor with only free blocks above it, all
      its blocks hold its number, and that number is below the last one
      handled and becomes the new last one. A file not below the last one is
      passed over, leaving the last number as it was. */
  lemma SeekFileFound(s: seq<Block>, cursor: nat, last: Option<FileId>)
    requires cursor < |s|
    requires SeekFrom(s, cursor, last).Some?
    ensures var r := SeekFrom(s, cursor, last).value;
      match r.file
      case Some(span) =>
        r.last.Some? && (last.Some? ==> r.last.value < last.value) &&
        (forall k :: span.start <= k < span.start + span.length ==> s[k] == r.last) &&
        (forall k :: span.start + span.length <= k <= cursor ==> s[k].None?)
      case None =>
        r.last == last && last.Some? &&
        exists k :: r.cursor <= k <= cursor && s[k].Some? && s[k].value >= last.value
  {
    var end := SkipFree(s, cursor);
    if SeekFrom(s, cursor, last).value.file.None? {
      assert s[end].Some? && s[end].value >= last.value;
    }
  }

  predicate AllFree(s: seq<Block>, a: nat, length: nat)
    requires a + length <= |s|
  {
    forall k :: a <= k < a + length ==> s[k].None?
  }

  /** The first start in `[f, hi)` of `length` free blocks. */
  function FirstFreeSpan(s: seq<Block>, length: nat, f: nat, hi: nat): (r: Option<nat>)
    requires hi + length <= |s| + 1
    decreases hi - f
    ensures r.Some? ==> (f <= r.value < hi && AllFree(s, r.value, length) &&
      forall g :: f <= g < r.value ==> !AllFree(s, g, length))
    ensures r.None? ==> forall g :: f <= g < hi ==> !AllFree(s, g, length)
  {
    if f >= hi then None else if AllFree(s, f, length) then Some(f) else FirstFreeSpan(s, length, f + 1, hi)
  }

  /** `swap_with_slice` of the spans of `length` blocks at `a` and `b`. */
  function SwappedSpans(s: seq<Block>, a: nat, b: nat, length: nat): (r: seq<Block>)
    requires a + length <= b && b + length <= |s|
    ensures |r| == |s|
  {
    seq(|s|, i requires 0 <= i < |s| =>
      if a <= i < a + length then s[i - a + b] else if b <= i < b + length then s[i - b + a] else s[i])
  }

  /** Exchanging two spans moves blocks around and loses none. */
  lemma {:induction false} SwappedSpansPermutation(s: seq<Block>, a: nat, b: nat, length: nat)
    requires a + length <= b && b + length <= |s|
    ensures multiset(SwappedSpans(s, a, b, length)) == multiset(s)
  {
    if length > 0 {
      var shorter := SwappedSpans(s, a, b, length - 1);
      SwappedSpansPermutation(s, a, b, length - 1);
      assert SwappedSpans(s, a, b, length) == Swap(shorter, a + length - 1, b + length - 1);
    } else {
      assert SwappedSpans(s, a, b, length) == s;
    }
  }

  /** The blocks after trying to move `file` into the leftmost span of free
      blocks before it. `inclusive` says whether the span ending right
      before the file is tried: the source does not try it (false); as
      intended it is tried (true). */
  function MoveFile(s: seq<Block>, file: Option<Span>, inclusive: bool): (r: seq<Block>)
    requires file.Some? ==> file.value.start + file.value.length <= |s|
    ensures |r| == |s| && multiset(r) == multiset(s)
  {
    match file
    case None => s
    case Some(Span(start, length)) =>
      if start < length then s
      else
        match FirstFreeSpan(s, length, 0, start - length + (if inclusive then 1 else 0))
        case None => s
        case Some(f) =>
          SwappedSpansPermutation(s, f, start, length);
          SwappedSpans(s, f, start, length)
  }

  /** A file moves only into a span of free blocks wholly before it, the
      leftmost one that the search tries. */
  lemma MoveFileTarget(s: seq<Block>, file: Option<Span>, inclusive: bool)
    requires file.Some? ==> file.value.start + file.value.length <= |s|
    ensures MoveFile(s, file, inclusive) == s || (
      var Span(start, length) := file.value;
      exists f: nat :: f + length <= start && (inclusive || f + length < start) &&
        AllFree(s, f, length) && (forall g :: 0 <= g < f ==> !AllFree(s, g, length)) &&
        MoveFile(s, file, inclusive) == SwappedSpans(s, f, start, length))
  {
  }

  /** The whole-file compaction from `cursor` on: None when the source
      panics. */
  function WholeFrom(s: seq<Block>, cursor: nat, last: Option<FileId>, inclusive: bool): Option<seq<Block>>
    requires cursor < |s|
    decreases cursor
  {
    match SeekFrom(s, cursor, last)
    case None => None
    case Some(Seek(file, c, l)) =>
      if c == 0 then Some(s) else WholeFrom(MoveFile(s, file, inclusive), c, l, inclusive)
  }

  /** The compaction of part 2; an empty disk underflows the cursor. */
  function CompactWhole(s: seq<Block>, inclusive: bool): Option<seq<Block>> {
    if |s| == 0 then None else WholeFrom(s, |s| - 1, None, inclusive)
  }

  lemma {:induction false} WholeFromPermutation(s: seq<Block>, cursor: nat, last: Option<FileId>, inclusive: bool)
    requires cursor < |s| && WholeFrom(s, cursor, last, inclusive).Some?
    ensures |WholeFrom(s, cursor, last, inclusive).value| == |s|
    ensures multiset(WholeFrom(s, cursor, last, inclusive).value) == multiset(s)
    decreases cursor
  {
    var seek := SeekFrom(s, cursor, last).value;
    if seek.cursor > 0 {
      WholeFromPermutation(MoveFile(s, seek.file, inclusive), seek.cursor, seek.last, inclusive);
    }
  }

  /** Part 2 compaction permutes the blocks. */
  lemma CompactWholePermutation(s: seq<Block>, inclusive: bool)
    requires CompactWhole(s, inclusive).Some?
    ensures |CompactWhole(s, inclusive).value| == |s|
    ensures multiset(CompactWhole(s, inclusive).value) == multiset(s)
  {
    WholeFromPermutation(s, |s| - 1, None, inclusive);
  }

  /** A file sits right after one free block, with file 0 before that. */
  const AdjacentGap: seq<Block> := [Some(0), None, Some(1)]

  /** As written, the one-block file 1 is not moved into the free block right
      before it, and the checksum is 2. */
  lemma WholeFilesMissesAdjacentSpan()
    ensures CompactWhole(AdjacentGap, false) == Some(AdjacentGap)
    ensures Checksum(AdjacentGap) == 2
  {
    var s := AdjacentGap;
    assert s[0] == Some(0) && s[1] == None && s[2] == Some(1);
    assert SkipFree(s, 2) == 2 && SkipRun(s, 2, Some(1)) == 1;
    assert SeekFrom(s, 2, None) == Some(Seek(Some(Span(2, 1)), 1, Some(1)));
    assert !AllFree(s, 0, 1) && AllFree(s, 1, 1);
    assert FirstFreeSpan(s, 1, 0, 1) == None;
    assert MoveFile(s, Some(Span(2, 1)), false) == s;
    assert SkipFree(s, 1) == 0 && SkipRun(s, 0, Some(0)) == 0;
    assert SeekFrom(s, 1, Some(1)) == Some(Seek(Some(Span(1, 0)), 0, Some(0)));
    assert s[..2] == [Some(0), None] && s[..2][..1] == [Some(0)] && s[..2][..1][..0] == [];
    assert Checksum([Some(0)]) == 0;
    assert Checksum([Some(0), None]) == 0;
  }

  /** As intended, file 1 moves into the free block before it, and the
      checksum is 1. */
  lemma AdjacentSpanIntended()
    ensures CompactWhole(AdjacentGap, true) == Some([Some(0), Some(1), None])
    ensures Checksum([Some(0), Some(1), None]) == 1
  {
    var s := AdjacentGap;
    var t: seq<Block> := [Some(0), Some(1), None];
    assert SeekFrom(s, 2, None) == Some(Seek(Some(Span(2, 1)), 1, Some(1))) by {
      assert s[0] == Some(0) && s[1] == None && s[2] == Some(1);
      assert SkipFree(s, 2) == 2 && SkipRun(s, 2, Some(1)) == 1;
    }
    assert MoveFile(s, Some(Span(2, 1)), true) == t by {
      AdjacentSpanMoved();
    }
    assert SeekFrom(t, 1, Some(1)) == Some(Seek(None, 0, Some(1))) by {
      assert SkipFree(t, 1) == 1 && SkipRun(t, 1, Some(1)) == 0;
    }
    assert Checksum(t) == 1 by {
      assert t[..2] == [Some(0), Some(1)] && t[..2][..1] == [Some(0)] && t[..2][..1][..0] == [];
      assert Checksum([Some(0)]) == 0;
      assert Checksum([Some(0), Some(1)]) == 1;
    }
  }

  /** The corrected search finds the free block right before file 1. */
  lemma AdjacentSpanMoved()
    ensures MoveFile(AdjacentGap, Some(Span(2, 1)), true) == [Some(0), Some(1), None]
  {
    var s := AdjacentGap;
    assert s[0] == Some(0) && s[1] == None && s[2] == Some(1);
    assert !AllFree(s, 0, 1) && AllFree(s, 1, 1);
    assert FirstFreeSpan(s, 1, 0, 2) == Some(1);
    assert SwappedSpans(s, 1, 2, 1) == [Some(0), Some(1), None];
  }

  /** `seek_file` over the blocks: both `while` loops walk the cursor down;
      the new cursor and last number come back in the result. */
  method SeekFile(blocks: array<Block>, cursor: nat, last: Option<FileId>) returns (r: Option<Seek>)
    requires cursor < blocks.Length
    ensures r == SeekFrom(blocks[..], cursor, last)
  {
    var c: nat := cursor;
    while blocks[c].None? && c > 0
      invariant c <= cursor && SkipFree(blocks[..], c) == SkipFree(blocks[..], cursor)
      decreases c
    {
      c := c - 1;
    }
    var end := c;
    var id := blocks[end];
    while blocks[c] == id && c > 0
      invariant c <= end && SkipRun(blocks[..], c, id) == SkipRun(blocks[..], end, id)
      decreases c
    {
      c := c - 1;
    }
    if last.Some? && id.None? {
      return None;
    }
    if last.Some? && id.value >= last.value {
      return Some(Seek(None, c, last));
    }
    if id.None? {
      return None;
    }
    return Some(Seek(Some(Span(c + 1, end - c)), c, id));
  }

  /** `swap_with_slice` on the spans at `a` and `b`. */
  method SwapSpans(blocks: array<Block>, a: nat, b: nat, length: nat)
    requires a + length <= b && b + length <= blocks.Length
    modifies blocks
    ensures blocks[..] == SwappedSpans(old(blocks[..]), a, b, length)
  {
    for k := 0 to length
      invariant forall i :: 0 <= i < blocks.Length ==> (blocks[i] ==
        if a <= i < a + k then old(blocks[i - a + b]) else if b <= i < b + k then old(blocks[i - b + a]) else old(blocks[i]))
    {
      blocks[a + k], blocks[b + k] := blocks[b + k], blocks[a + k];
    }
  }

  /** The search for free space of `compact_whole_files` and the swap,
      trying every start up to the one whose span ends right before the
      file. */
  method MoveFileLeft(blocks: array<Block>, start: nat, length: nat)
    requires length <= start && start + length <= blocks.Length
    modifies blocks
    ensures blocks[..] == MoveFile(old(blocks[..]), Some(Span(start, length)), true)
  {
    ghost var s := blocks[..];
    var hi := start - length + 1;
    for f := 0 to hi
      invariant blocks[..] == s
      invariant FirstFreeSpan(s, length, f, hi) == FirstFreeSpan(s, length, 0, hi)
    {
      if forall k :: f <= k < f + length ==> blocks[k].None? {
        assert FirstFreeSpan(s, length, 0, hi) == Some(f) by {
          assert AllFree(s, f, length);
        }
        MoveFileFound(s, start, length, f);
        SwapSpans(blocks, f, start, length);
        return;
      }
      assert FirstFreeSpan(s, length, f + 1, hi) == FirstFreeSpan(s, length, f, hi) by {
        assert !AllFree(s, f, length);
      }
    }
  }

  /** The corrected search moves the file into the first free span it finds. */
  lemma MoveFileFound(s: seq<Block>, start: nat, length: nat, f: nat)
    requires length <= start && start + length <= |s|
    requires FirstFreeSpan(s, length, 0, start - length + 1) == Some(f)
    ensures f + length <= start
    ensures MoveFile(s, Some(Span(start, length)), true) == SwappedSpans(s, f, start, length)
  {
    var file := Some(Span(start, length));
    assert file.value.start == start && file.value.length == length;
    assert start - length + (if true then 1 else 0) == start - length + 1;
  }

  /** `compact_whole_files`, with the free span right before a file tried
      too. False stands for a panic. */
  method CompactWholeFiles(blocks: array<Block>) returns (ok: bool)
    modifies blocks
    ensures ok == CompactWhole(old(blocks[..]), true).Some?
    ensures ok ==> blocks[..] == CompactWhole(old(blocks[..]), true).value
  {
    if blocks.Length == 0 {
      return false;
    }
    var cursor: nat := blocks.Length - 1;
    var last: Option<FileId> := None;
    while true
      invariant cursor < blocks.Length
      invariant WholeFrom(blocks[..], cursor, last, true) == CompactWhole(old(blocks[..]), true)
      decreases cursor
    {
      var sought := SeekFile(blocks, cursor, last);
      if sought.None? {
        return false;
      }
      var file := sought.value.file;
      cursor, last := sought.value.cursor, sought.value.last;
      if cursor == 0 {
        return true;
      }
      if file.None? {
        continue;
      }
      var start, length := file.value.start, file.value.length;
      if start < length {
        continue;
      }
      MoveFileLeft(blocks, start, length);
    }
  }

  /* ---------------------------------------------------------------------
     Parts
     --------------------------------------------------------------------- */

  /** The answer of part 1: None when the source panics. */
  function Part1Answer(input: string): Option<int> {
    match DiskMapOf(input)
    case None => None
    case Some(disk) =>
      match CompactFragments(BlocksOf(disk.allocations))
      case None => None
      case Some(blocks) => Some(Checksum(blocks))
  }

  /** The answer of part 2, the free span right before a file tried too. */
  function Part2Answer(input: string): Option<int> {
    match DiskMapOf(input)
    case None => None
    case Some(disk) =>
      match CompactWhole(BlocksOf(disk.allocations), true)
      case None => None
      case Some(blocks) => Some(Checksum(blocks))
  }

  method Part1(input: string) returns (r: Option<int>)
    ensures r == Part1Answer(input)
  {
    var disk := ParseInput(input);
    if disk.None? {
      return None;
    }
    var contents := Blocks(disk.value);
    var blocks := new Block[|contents|](i requires 0 <= i < |contents| => contents[i]);
    assert blocks[..] == contents;
    var ok := CompactFileFragments(blocks);
    if !ok {
      return None;
    }
    return Some(Checksum(blocks[..]));
  }

  method Part2(input: string) returns (r: Option<int>)
    ensures r == Part2Answer(input)
  {
    var disk := ParseInput(input);
    if disk.None? {
      return None;
    }
    var contents := Blocks(disk.value);
    var blocks := new Block[|contents|](i requires 0 <= i < |contents| => contents[i]);
    assert blocks[..] == contents;
    var ok := CompactWholeFiles(blocks);
    if !ok {
      return None;
    }
    return Some(Checksum(blocks[..]));
  }
}
