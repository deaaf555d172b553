/** Chunk arithmetic: the window of combinations one step materialises, the
    progress it reports, and the sequence of windows a product goes through. */
module Chunks {

  /** Combinations materialised per step. */
  const ChunkSize: nat := 20

  function Min(a: int, b: int): int
  {
    if a <= b then a else b
  }

  /** The slice of at most `len` elements of `s` starting at `start`; empty
      when `start` is at or past the end. */
  function Slice<T>(s: seq<T>, start: nat, len: nat): (r: seq<T>)
    ensures |r| == ChunkLengthOf(start, len, |s|)
    ensures forall i :: 0 <= i < |r| ==> start + i < |s| && r[i] == s[start + i]
  {
    if start >= |s| then [] else s[start .. Min(start + len, |s|)]
  }

  function ChunkLengthOf(start: nat, len: nat, total: nat): nat
  {
    if start >= total then 0 else Min(start + len, total) - start
  }

  /** Number of combinations the chunk starting at `start` holds. */
  function ChunkLength(start: nat, total: nat): (n: nat)
    ensures n <= ChunkSize
    ensures start + n <= total || n == 0
    ensures start < total ==> n > 0
  {
    ChunkLengthOf(start, ChunkSize, total)
  }

  /** What a step reports after the chunk at `start` of `total` combinations:
      the offset after the chunk, whether combinations remain, and the
      variation offset to send next (0 once the product is finished). */
  datatype Progress = Progress(nextOffset: nat, hasMore: bool, nextVariationOffset: nat)

  function ChunkProgress(start: nat, total: nat): (p: Progress)
    ensures p.hasMore <==> start + ChunkSize < total
    ensures p.hasMore ==> p.nextOffset == p.nextVariationOffset == start + ChunkSize
    ensures !p.hasMore ==> p.nextVariationOffset == 0
    ensures !p.hasMore ==> p.nextOffset == if start < total then total else start
  {
    var next := start + ChunkLength(start, total);
    var more := next < total;
    Progress(next, more, if more then next else 0)
  }

  /** The variation offsets a product goes through when every step is sent
      the `next_variation_offset` of the one before, from `start` on. */
  function Starts(start: nat, total: nat): (ss: seq<nat>)
    ensures |ss| >= 1 && ss[0] == start
    decreases total - start
  {
    var p := ChunkProgress(start, total);
    if p.hasMore then [start] + Starts(p.nextVariationOffset, total) else [start]
  }

  /** The chunks at `ss`, one after the other. */
  function Gather<T>(s: seq<T>, ss: seq<nat>): seq<T>
  {
    if ss == [] then [] else Slice(s, ss[0], ChunkSize) + Gather(s, ss[1..])
  }

  /** The offsets go up by ChunkSize; there are ceil((total - start) / ChunkSize)
      of them, and one when nothing is left. */
  lemma {:induction false} StartsShape(start: nat, total: nat)
    ensures |Starts(start, total)| ==
            if total <= start then 1 else (total - start + ChunkSize - 1) / ChunkSize
    ensures forall j :: 0 <= j < |Starts(start, total)| ==>
              Starts(start, total)[j] == start + ChunkSize * j
    decreases total - start
  {
    var p := ChunkProgress(start, total);
    if p.hasMore {
      StartsShape(start + ChunkSize, total);
      var ss := Starts(start, total);
      assert ss == [start] + Starts(start + ChunkSize, total);
      forall j | 1 <= j < |ss| ensures ss[j] == start + ChunkSize * j {
        assert ss[j] == Starts(start + ChunkSize, total)[j - 1];
      }
    }
  }

  /** Every step but the last reports that variations remain; the last does not. */
  lemma {:induction false} OnlyLastStepFinishes(start: nat, total: nat)
    ensures forall j :: 0 <= j < |Starts(start, total)| ==>
              (ChunkProgress(Starts(start, total)[j], total).hasMore <==> j < |Starts(start, total)| - 1)
    decreases total - start
  {
    var p := ChunkProgress(start, total);
    if p.hasMore {
      var rest := Starts(p.nextVariationOffset, total);
      OnlyLastStepFinishes(p.nextVariationOffset, total);
      assert Starts(start, total) == [start] + rest;
      assert forall j :: 1 <= j < |rest| + 1 ==> Starts(start, total)[j] == rest[j - 1];
    }
  }

  /** The chunks of a pass, glued together, are the rest of the sequence:
      no combination is skipped or repeated, and the order is kept. */
  lemma {:induction false} ChunksCover<T>(s: seq<T>, start: nat)
    requires start <= |s|
    ensures Gather(s, Starts(start, |s|)) == s[start..]
    decreases |s| - start
  {
    var p := ChunkProgress(start, |s|);
    var here := Slice(s, start, ChunkSize);
    if p.hasMore {
      ChunksCover(s, start + ChunkSize);
      assert Starts(start, |s|)[1..] == Starts(start + ChunkSize, |s|);
      assert here == s[start .. start + ChunkSize];
      assert s[start..] == s[start .. start + ChunkSize] + s[start + ChunkSize ..];
    } else {
      assert Starts(start, |s|)[1..] == [];
      assert here == s[start..];
    }
  }

  /** A pass from offset 0 covers the whole combination list. */
  lemma PassCoversAll<T>(s: seq<T>)
    ensures Gather(s, Starts(0, |s|)) == s
  {
    ChunksCover(s, 0);
  }

  /** Index i of the combination list falls in chunk i / ChunkSize of a pass
      from 0, and in no other. */
  lemma ChunkOfIndex(total: nat, i: nat, j: nat)
    requires i < total && j < |Starts(0, total)|
    ensures var ss := Starts(0, total);
            ss[j] <= i < ss[j] + ChunkLength(ss[j], total) <==> j == i / ChunkSize
  {
    StartsShape(0, total);
  }
}
