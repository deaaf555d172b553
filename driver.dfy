/** The client loop that drives a whole sync, one step at a time, as a pure
    state machine: the cursor it posts, and what it does with the outcome. */
module Driver {
  import opened Chunks
  import opened Protocol

  /** What came back for a posted cursor: a response, or a failed transport. */
  datatype Outcome = Delivered(response: StepResponse) | TransportFailed

  /** The client: about to post a cursor, stopped on an error response, or done. */
  datatype Client = Posting(offset: int, variationOffset: int) | Halted(error: Message) | AllDone

  /** One transition: a transport failure resends the same cursor, an error
      response stops the run, a success advances to the reported cursor or
      finishes. */
  function Next(offset: int, vo: int, outcome: Outcome): (c: Client)
    ensures outcome.TransportFailed? ==> c == Posting(offset, vo)
    ensures c.Halted? <==> outcome.Delivered? && outcome.response.Failure?
    ensures c.Halted? ==> c.error == outcome.response.message
    ensures c.AllDone? <==>
              outcome.Delivered? && outcome.response.Success? &&
              !outcome.response.hasMoreVariations && !outcome.response.hasMoreProducts
    ensures c.Posting? && outcome.Delivered? ==>
              c.offset == outcome.response.offset &&
              c.variationOffset == (if outcome.response.hasMoreVariations then outcome.response.variationOffset else 0)
  {
    match outcome
    case TransportFailed => Posting(offset, vo)
    case Delivered(Failure(m)) => Halted(m)
    case Delivered(Success(_, moreVariations, nextVo, nextOffset, moreProducts)) =>
      if moreVariations then Posting(nextOffset, nextVo)
      else if moreProducts then Posting(nextOffset, 0)
      else AllDone
  }

  /** The client after `n` transport failures in a row on the same cursor. */
  function AfterFailures(offset: int, vo: int, n: nat): Client
  {
    if n == 0 then Posting(offset, vo)
    else
      match AfterFailures(offset, vo, n - 1)
      case Posting(o, v) => Next(o, v, TransportFailed)
      case c => c
  }

  /** However many transport failures occur, the same cursor is posted again:
      a cursor is never skipped. */
  lemma {:induction false} RetryKeepsCursor(offset: int, vo: int, n: nat)
    ensures AfterFailures(offset, vo, n) == Posting(offset, vo)
  {
    if n > 0 {
      RetryKeepsCursor(offset, vo, n - 1);
    }
  }

  /** An error response stops the run whatever cursor was posted. */
  lemma ErrorHalts(offset: int, vo: int, m: Message)
    ensures Next(offset, vo, Delivered(Failure(m))) == Halted(m)
  {
  }

  /** Measure for the run against the pure server: products left, then
      combinations left in the current product. */
  function ProductsLeft(catalogue: seq<Listed>, off: nat): nat
  {
    if off < |catalogue| then |catalogue| - off else 0
  }

  function CombinationsLeft(catalogue: seq<Listed>, off: nat, vo: nat): nat
  {
    if off < |catalogue| && catalogue[off].kind.Combinations? && vo < catalogue[off].kind.total
    then catalogue[off].kind.total - vo else 0
  }

  /** The cursor the client posts after `(off, vo)` when the transport never
      fails, or nothing when the run ends. */
  lemma NextCursorDecreases(catalogue: seq<Listed>, total: TotalCount, off: nat, vo: nat)
    ensures var c := Next(off, vo, Delivered(Respond(catalogue, total, off, vo)));
            c.Posting? ==>
              c.offset >= 0 && c.variationOffset >= 0 &&
              (ProductsLeft(catalogue, c.offset) < ProductsLeft(catalogue, off) ||
               (c.offset == off && CombinationsLeft(catalogue, off, c.variationOffset) < CombinationsLeft(catalogue, off, vo)))
  {
  }

  /** The cursors the client posts, in order, from `(off, vo)` on, when the
      transport never fails. */
  function Visits(catalogue: seq<Listed>, total: TotalCount, off: nat, vo: nat): seq<(nat, nat)>
    decreases ProductsLeft(catalogue, off), CombinationsLeft(catalogue, off, vo)
  {
    var c := Next(off, vo, Delivered(Respond(catalogue, total, off, vo)));
    NextCursorDecreases(catalogue, total, off, vo);
    [(off, vo)] + if c.Posting? then Visits(catalogue, total, c.offset, c.variationOffset) else []
  }

  /** Visits, one step unfolded: a product with variations left is posted
      again at the next chunk. */
  lemma VisitsInProgress(catalogue: seq<Listed>, total: TotalCount, off: nat, vo: nat)
    requires off < |catalogue| && Respond(catalogue, total, off, vo).hasMoreVariations
    ensures Visits(catalogue, total, off, vo) == [(off, vo)] + Visits(catalogue, total, off, vo + ChunkSize)
  {
    var r := Respond(catalogue, total, off, vo);
    assert r == Advance(off, total, ProductStep(catalogue[off].kind, catalogue[off].ocId, vo));
    assert Next(off, vo, Delivered(r)) == Posting(off, vo + ChunkSize);
  }

  /** Visits, one step unfolded: a finished product moves the run to the
      next product, or ends it. */
  lemma VisitsFinished(catalogue: seq<Listed>, total: TotalCount, off: nat, vo: nat)
    requires off < |catalogue| && !Respond(catalogue, total, off, vo).hasMoreVariations
    ensures Visits(catalogue, total, off, vo)
         == [(off, vo)] + if MoreProducts(off + 1, total) then Visits(catalogue, total, off + 1, 0) else []
  {
    var r := Respond(catalogue, total, off, vo);
    assert r == Advance(off, total, ProductStep(catalogue[off].kind, catalogue[off].ocId, vo));
    assert Next(off, vo, Delivered(r)) == if MoreProducts(off + 1, total) then Posting(off + 1, 0) else AllDone;
  }

  /** The variation offsets a product goes through from `vo`. */
  function StartsOf(kind: ProductKind, vo: nat): seq<nat>
  {
    if kind.Combinations? then Starts(vo, kind.total) else [vo]
  }

  function Pairs(off: nat, ss: seq<nat>): (ps: seq<(nat, nat)>)
    ensures |ps| == |ss| && forall j :: 0 <= j < |ss| ==> ps[j] == (off, ss[j])
  {
    seq(|ss|, j requires 0 <= j < |ss| => (off, ss[j]))
  }

  /** The intended schedule from product `i` on: every product in rank order,
      each through all its chunks from variation offset 0. */
  function Schedule(catalogue: seq<Listed>, i: nat): seq<(nat, nat)>
    decreases |catalogue| - i
  {
    if i >= |catalogue| then [] else Pairs(i, StartsOf(catalogue[i].kind, 0)) + Schedule(catalogue, i + 1)
  }

  /** With the ranked-product count as the total, the run from a cursor
      finishes the current product and then follows the schedule. */
  lemma {:induction false} VisitsFrom(catalogue: seq<Listed>, off: nat, vo: nat)
    requires off < |catalogue|
    ensures Visits(catalogue, Counted(|catalogue|), off, vo)
         == Pairs(off, StartsOf(catalogue[off].kind, vo)) + Schedule(catalogue, off + 1)
    decreases ProductsLeft(catalogue, off), CombinationsLeft(catalogue, off, vo)
  {
    var total := Counted(|catalogue|);
    if Respond(catalogue, total, off, vo).hasMoreVariations {
      InProgressStep(catalogue, total, off, vo);
      VisitsFrom(catalogue, off, vo + ChunkSize);
      InProgressCase(catalogue, off, vo);
    } else {
      if off + 1 < |catalogue| {
        VisitsFrom(catalogue, off + 1, 0);
      }
      FinishedCase(catalogue, off, vo);
    }
  }

  /** The induction step of VisitsFrom for a product with variations left. */
  lemma InProgressCase(catalogue: seq<Listed>, off: nat, vo: nat)
    requires off < |catalogue| && Respond(catalogue, Counted(|catalogue|), off, vo).hasMoreVariations
    requires Visits(catalogue, Counted(|catalogue|), off, vo + ChunkSize)
          == Pairs(off, StartsOf(catalogue[off].kind, vo + ChunkSize)) + Schedule(catalogue, off + 1)
    ensures Visits(catalogue, Counted(|catalogue|), off, vo)
         == Pairs(off, StartsOf(catalogue[off].kind, vo)) + Schedule(catalogue, off + 1)
  {
    var total := Counted(|catalogue|);
    var rest := Pairs(off, StartsOf(catalogue[off].kind, vo + ChunkSize));
    var later := Schedule(catalogue, off + 1);
    InProgressStep(catalogue, total, off, vo);
    calc {
      Visits(catalogue, total, off, vo);
      [(off, vo)] + Visits(catalogue, total, off, vo + ChunkSize);
      [(off, vo)] + (rest + later);
      { AppendAssociative([(off, vo)], rest, later); }
      ([(off, vo)] + rest) + later;
      Pairs(off, StartsOf(catalogue[off].kind, vo)) + later;
    }
  }

  /** Associativity of concatenation, proved apart from the facts about
      runs so that the solver does not search through them for it. */
  lemma AppendAssociative<T>(a: seq<T>, b: seq<T>, c: seq<T>)
    ensures a + (b + c) == (a + b) + c
  {
  }

  /** The induction step of VisitsFrom for a product that finishes. */
  lemma FinishedCase(catalogue: seq<Listed>, off: nat, vo: nat)
    requires off < |catalogue| && !Respond(catalogue, Counted(|catalogue|), off, vo).hasMoreVariations
    requires off + 1 < |catalogue| ==>
               (Visits(catalogue, Counted(|catalogue|), off + 1, 0)
                == Pairs(off + 1, StartsOf(catalogue[off + 1].kind, 0)) + Schedule(catalogue, off + 2))
    ensures Visits(catalogue, Counted(|catalogue|), off, vo)
         == Pairs(off, StartsOf(catalogue[off].kind, vo)) + Schedule(catalogue, off + 1)
  {
    FinishedStep(catalogue, Counted(|catalogue|), off, vo);
    assert [(off, vo)] + [] == [(off, vo)];
  }

  /** A step with variations left: the offsets of the product and the visits
      both take one step and continue at the next chunk. */
  lemma InProgressStep(catalogue: seq<Listed>, total: TotalCount, off: nat, vo: nat)
    requires off < |catalogue| && Respond(catalogue, total, off, vo).hasMoreVariations
    ensures CombinationsLeft(catalogue, off, vo + ChunkSize) < CombinationsLeft(catalogue, off, vo)
    ensures Pairs(off, StartsOf(catalogue[off].kind, vo))
         == [(off, vo)] + Pairs(off, StartsOf(catalogue[off].kind, vo + ChunkSize))
    ensures Visits(catalogue, total, off, vo) == [(off, vo)] + Visits(catalogue, total, off, vo + ChunkSize)
  {
    var kind := catalogue[off].kind;
    assert ProductStep(kind, catalogue[off].ocId, vo).hasMoreVariations;
    VisitsInProgress(catalogue, total, off, vo);
    StartsOfStep(kind, vo);
    PairsCons(off, vo, StartsOf(kind, vo + ChunkSize));
  }

  /** A product with combinations left after the chunk at `vo` goes on at
      `vo + ChunkSize`. */
  lemma StartsOfStep(kind: ProductKind, vo: nat)
    requires kind.Combinations? && vo + ChunkSize < kind.total
    ensures StartsOf(kind, vo) == [vo] + StartsOf(kind, vo + ChunkSize)
  {
  }

  lemma PairsCons(off: nat, v: nat, ss: seq<nat>)
    ensures Pairs(off, [v] + ss) == [(off, v)] + Pairs(off, ss)
  {
  }

  /** A step that finishes its product: the offsets of the product end here,
      and the visits continue at the next product or stop. */
  lemma FinishedStep(catalogue: seq<Listed>, total: TotalCount, off: nat, vo: nat)
    requires off < |catalogue| && !Respond(catalogue, total, off, vo).hasMoreVariations
    ensures Pairs(off, StartsOf(catalogue[off].kind, vo)) == [(off, vo)]
    ensures Visits(catalogue, total, off, vo)
         == [(off, vo)] + if MoreProducts(off + 1, total) then Visits(catalogue, total, off + 1, 0) else []
    ensures Schedule(catalogue, off + 1)
         == if off + 1 < |catalogue| then Pairs(off + 1, StartsOf(catalogue[off + 1].kind, 0)) + Schedule(catalogue, off + 2)
            else []
  {
    VisitsFinished(catalogue, total, off, vo);
    var kind := catalogue[off].kind;
    assert ProductStep(kind, catalogue[off].ocId, vo).hasMoreVariations
        == Respond(catalogue, total, off, vo).hasMoreVariations;
    assert StartsOf(kind, vo) == [vo];
  }

  /** With the ranked-product count as the total, a run from cursor (0, 0)
      visits every product in rank order, each through all its chunks, and
      then stops; an empty catalogue takes one step. */
  lemma VisitsEveryProduct(catalogue: seq<Listed>)
    ensures |catalogue| > 0 ==> Visits(catalogue, Counted(|catalogue|), 0, 0) == Schedule(catalogue, 0)
    ensures |catalogue| == 0 ==> Visits(catalogue, Counted(0), 0, 0) == [(0, 0)]
  {
    if |catalogue| > 0 {
      VisitsFrom(catalogue, 0, 0);
    } else {
      assert Next(0, 0, Delivered(Respond(catalogue, Counted(0), 0, 0))) == AllDone;
    }
  }

  /** With the total never assigned, the run ends when the product it is on
      finishes: it never moves past that product. */
  lemma {:induction false} VisitsStopAfterFirstProduct(catalogue: seq<Listed>, off: nat, vo: nat)
    requires off < |catalogue|
    ensures Visits(catalogue, Unset, off, vo) == Pairs(off, StartsOf(catalogue[off].kind, vo))
    decreases CombinationsLeft(catalogue, off, vo)
  {
    if Respond(catalogue, Unset, off, vo).hasMoreVariations {
      InProgressStep(catalogue, Unset, off, vo);
      VisitsStopAfterFirstProduct(catalogue, off, vo + ChunkSize);
    } else {
      FinishedStep(catalogue, Unset, off, vo);
    }
  }

  /** Two products without options: with the total unset the run stops after
      the first; with the count it visits both. */
  lemma UnsetTotalCounterexample()
    ensures var catalogue := [Listed(1, Optionless), Listed(2, Optionless)];
            Visits(catalogue, Unset, 0, 0) == [(0, 0)] &&
            Visits(catalogue, Counted(2), 0, 0) == [(0, 0), (1, 0)]
  {
    var catalogue := [Listed(1, Optionless), Listed(2, Optionless)];
    VisitsStopAfterFirstProduct(catalogue, 0, 0);
    VisitsEveryProduct(catalogue);
  }

  /** A product of 45 combinations takes three steps, at variation offsets
      0, 20 and 40; only the last reports that no variations remain. */
  lemma ThreeChunkProduct()
    ensures var catalogue := [Listed(7, Combinations(45))];
            Visits(catalogue, Counted(1), 0, 0) == [(0, 0), (0, 20), (0, 40)] &&
            Respond(catalogue, Counted(1), 0, 20).hasMoreVariations &&
            !Respond(catalogue, Counted(1), 0, 40).hasMoreVariations
  {
    var catalogue := [Listed(7, Combinations(45))];
    VisitsEveryProduct(catalogue);
    assert Starts(0, 45) == [0, 20, 40];
  }
}
