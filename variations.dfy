/** Variation materialisation, as a function of the children a product had
    before a step: the first chunk (variation offset 0) wipes them, every
    chunk appends one variation per combination in its window. */
module Variations {
  import opened Combinations
  import opened Chunks
  import opened Options

  /** A variation child of a product: its attribute assignment (slug to term)
      and its regular price. */
  datatype Variation = Variation(attributes: map<string, string>, regularPrice: int)

  /** The combinations of a product's options, in generator order. They are
      recomputed from the option map on every step, never stored. */
  function CombosOf(om: OptionMap): (combos: seq<seq<string>>)
    ensures forall k :: 0 <= k < |combos| ==> |combos[k]| == |om|
  {
    CartesianArity(ValueLists(om));
    Cartesian(ValueLists(om))
  }

  /** The variation created for one combination. */
  function MakeVariation(om: OptionMap, slugOf: string -> string, base: int, combo: seq<string>): Variation
    requires |combo| == |om|
  {
    Variation(AttrsOf(om, slugOf, combo), PriceOf(base, om, combo))
  }

  /** The variations for combinations lo .. hi-1, in order. */
  function Materialised(om: OptionMap, slugOf: string -> string, base: int, lo: nat, hi: nat): (vs: seq<Variation>)
    requires lo <= hi <= |CombosOf(om)|
    ensures |vs| == hi - lo
    ensures forall j :: 0 <= j < hi - lo ==> vs[j] == MakeVariation(om, slugOf, base, CombosOf(om)[lo + j])
  {
    var combos := CombosOf(om);
    seq(hi - lo, j requires 0 <= j < hi - lo => MakeVariation(om, slugOf, base, combos[lo + j]))
  }

  /** The children of the product after the step at variation offset `vo`:
      offset 0 deletes every existing child first; every step then appends
      one variation per combination of its chunk. */
  function AfterChunk(kids: seq<Variation>, om: OptionMap, slugOf: string -> string, base: int, vo: nat): seq<Variation>
  {
    (if vo == 0 then [] else kids) + ChunkVariations(om, slugOf, base, vo)
  }

  /** After a step the product holds none of its old children when the
      variation offset is 0 and all of them, in order, otherwise; the
      variations of the chunk follow, one per combination of the window
      [vo, vo + ChunkLength). */
  lemma AfterChunkShape(kids: seq<Variation>, om: OptionMap, slugOf: string -> string, base: int, vo: nat)
    ensures var r, n := AfterChunk(kids, om, slugOf, base, vo), ChunkLength(vo, |CombosOf(om)|);
            && |r| == (if vo == 0 then 0 else |kids|) + n
            && (vo != 0 ==> r[..|kids|] == kids)
            && (n > 0 ==> vo + n <= |CombosOf(om)| && r[|r| - n..] == Materialised(om, slugOf, base, vo, vo + n))
  {
  }

  /** Running the step at an offset past 0 a second time, as a client does
      when the answer to a step that completed was lost, appends the chunk's
      variations again: the children then hold that window twice. */
  lemma RetriedChunkDuplicates(kids: seq<Variation>, om: OptionMap, slugOf: string -> string, base: int, vo: nat)
    requires vo != 0 && ChunkLength(vo, |CombosOf(om)|) > 0
    ensures var once := AfterChunk(kids, om, slugOf, base, vo);
            && AfterChunk(once, om, slugOf, base, vo) == once + ChunkVariations(om, slugOf, base, vo)
            && AfterChunk(once, om, slugOf, base, vo) != once
  {
    var once := AfterChunk(kids, om, slugOf, base, vo);
    assert |AfterChunk(once, om, slugOf, base, vo)| == |once| + ChunkLength(vo, |CombosOf(om)|);
  }

  /** Running the first step of a product a second time leaves the same
      children as running it once, since it wipes them before appending. */
  lemma RetriedFirstChunkHarmless(kids: seq<Variation>, om: OptionMap, slugOf: string -> string, base: int)
    ensures AfterChunk(AfterChunk(kids, om, slugOf, base, 0), om, slugOf, base, 0) == AfterChunk(kids, om, slugOf, base, 0)
  {
  }

  /** The variations the chunk at variation offset `vo` creates. */
  function ChunkVariations(om: OptionMap, slugOf: string -> string, base: int, vo: nat): seq<Variation>
  {
    var total := |CombosOf(om)|;
    var lo := Min(vo, total);
    Materialised(om, slugOf, base, lo, lo + ChunkLength(vo, total))
  }

  /** The children after a pass of steps that starts at `vo` and keeps
      feeding back the reported next variation offset until no variations
      remain (with the base price unchanged during the pass). */
  function Pass(kids: seq<Variation>, om: OptionMap, slugOf: string -> string, base: int, vo: nat): (r: seq<Variation>)
    ensures |r| == (if vo == 0 then 0 else |kids|) + (|CombosOf(om)| - Min(vo, |CombosOf(om)|))
    ensures vo != 0 ==> r[..|kids|] == kids
    decreases |CombosOf(om)| - vo
  {
    var after := AfterChunk(kids, om, slugOf, base, vo);
    var p := ChunkProgress(vo, |CombosOf(om)|);
    if p.hasMore then Pass(after, om, slugOf, base, p.nextVariationOffset) else after
  }

  /** The price table of an option holds every value the generator selects
      for it, so a variation's price never falls back to a missing delta. */
  lemma DeltaNeverDefaults(rows: seq<OptionRow>)
    ensures var om := OptionMapOf(rows);
            forall k, i :: 0 <= k < |CombosOf(om)| && 0 <= i < |om| ==> CombosOf(om)[k][i] in om[i].data.prices
  {
    var om := OptionMapOf(rows);
    OptionMapPriced(rows);
    CartesianAt(ValueLists(om));
    forall k, i | 0 <= k < |CombosOf(om)| && 0 <= i < |om|
      ensures CombosOf(om)[k][i] in om[i].data.prices
    {
      assert CombosOf(om)[k] == Decode(ValueLists(om), k);
      assert CombosOf(om)[k][i] in om[i].data.values;
    }
  }

  lemma MaterialisedSplit(om: OptionMap, slugOf: string -> string, base: int, lo: nat, mid: nat, hi: nat)
    requires lo <= mid <= hi <= |CombosOf(om)|
    ensures Materialised(om, slugOf, base, lo, hi)
         == Materialised(om, slugOf, base, lo, mid) + Materialised(om, slugOf, base, mid, hi)
  {
  }

  /** A pass resumed at an offset past 0 keeps the children it finds and
      appends the variations from that offset to the end: an interrupted pass
      is repaired only by a pass from offset 0. */
  lemma {:induction false} ResumedPass(kids: seq<Variation>, om: OptionMap, slugOf: string -> string, base: int, vo: nat)
    requires 0 < vo <= |CombosOf(om)|
    ensures Pass(kids, om, slugOf, base, vo) == kids + Materialised(om, slugOf, base, vo, |CombosOf(om)|)
    decreases |CombosOf(om)| - vo
  {
    var total := |CombosOf(om)|;
    var p := ChunkProgress(vo, total);
    var e := vo + ChunkLength(vo, total);
    var after := AfterChunk(kids, om, slugOf, base, vo);
    assert after == kids + Materialised(om, slugOf, base, vo, e);
    if p.hasMore {
      ResumedPass(after, om, slugOf, base, e);
      MaterialisedSplit(om, slugOf, base, vo, e, total);
    }
  }

  /** A full pass from offset 0 leaves exactly one variation per combination,
      in generator order, and nothing else, whatever the product had before. */
  lemma FullPass(kids: seq<Variation>, om: OptionMap, slugOf: string -> string, base: int)
    ensures Pass(kids, om, slugOf, base, 0) == Materialised(om, slugOf, base, 0, |CombosOf(om)|)
  {
    var total := |CombosOf(om)|;
    var p := ChunkProgress(0, total);
    var e := ChunkLength(0, total);
    var after := AfterChunk(kids, om, slugOf, base, 0);
    assert after == Materialised(om, slugOf, base, 0, e);
    if p.hasMore {
      ResumedPass(after, om, slugOf, base, e);
      MaterialisedSplit(om, slugOf, base, 0, e, total);
    }
  }

  /** Running the full pass twice gives the same children as running it once. */
  lemma FullPassIdempotent(kids: seq<Variation>, om: OptionMap, slugOf: string -> string, base: int)
    ensures Pass(Pass(kids, om, slugOf, base, 0), om, slugOf, base, 0) == Pass(kids, om, slugOf, base, 0)
  {
    FullPass(kids, om, slugOf, base);
    FullPass(Pass(kids, om, slugOf, base, 0), om, slugOf, base);
  }

  /** After a full pass the k-th child carries the k-th combination (the
      mixed-radix decomposition of k), priced from the base price, and there
      is one child per combination. */
  lemma FullPassContents(kids: seq<Variation>, om: OptionMap, slugOf: string -> string, base: int)
    ensures |Pass(kids, om, slugOf, base, 0)| == Count(ValueLists(om))
    ensures forall k :: 0 <= k < Count(ValueLists(om)) ==>
              var combo := Decode(ValueLists(om), k);
              Pass(kids, om, slugOf, base, 0)[k] == Variation(AttrsOf(om, slugOf, combo), PriceOf(base, om, combo))
  {
    FullPass(kids, om, slugOf, base);
    CartesianAt(ValueLists(om));
  }

  /** When no option repeats a value and the option names have distinct
      slugs, no two children of a full pass share an attribute assignment. */
  lemma FullPassDistinctAssignments(kids: seq<Variation>, om: OptionMap, slugOf: string -> string, base: int)
    requires forall i :: 0 <= i < |om| ==> NoRepeats(om[i].data.values)
    requires forall i, j :: 0 <= i < j < |om| ==> slugOf(om[i].name) != slugOf(om[j].name)
    ensures forall k1, k2 :: 0 <= k1 < k2 < |Pass(kids, om, slugOf, base, 0)| ==>
              Pass(kids, om, slugOf, base, 0)[k1].attributes != Pass(kids, om, slugOf, base, 0)[k2].attributes
  {
    var vs := Pass(kids, om, slugOf, base, 0);
    var lists := ValueLists(om);
    FullPassContents(kids, om, slugOf, base);
    forall k1, k2 | 0 <= k1 < k2 < |vs| ensures vs[k1].attributes != vs[k2].attributes {
      var c1, c2 := Decode(lists, k1), Decode(lists, k2);
      if vs[k1].attributes == vs[k2].attributes {
        AttrsRecordSelection(om, slugOf, c1);
        AttrsRecordSelection(om, slugOf, c2);
        assert forall i :: 0 <= i < |om| ==> c1[i] == c2[i];
        assert c1 == c2;
        DecodeInjective(lists, k1, k2);
      }
    }
  }
}
