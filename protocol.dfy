/** The server side of one step: what processing a product reports, and how
    the step turns that report and the incoming cursor into its response. */
module Protocol {
  import opened Chunks

  /** The progress message of a step, kept structured rather than formatted. */
  datatype Message =
    | VariationsDone(first: nat, last: nat, total: nat, ocId: int)
    | AllVariationsDone(total: nat, ocId: int)
    | NoOptions(ocId: int)
    | NotFound(ocId: int)
    | NoMoreProducts
    | MissingCredentials

  /** What processing one product reports to the step. */
  datatype ProductResult = ProductResult(message: Message, hasMoreVariations: bool, nextVariationOffset: nat)

  /** How a ranked source product presents itself to a step: gone from the
      source before it was ever linked, without options, or with `total`
      combinations. */
  datatype ProductKind = Missing | Optionless | Combinations(total: nat)

  /** The report for one product at variation offset `vo`. */
  function ProductStep(kind: ProductKind, ocId: int, vo: nat): (r: ProductResult)
    ensures !kind.Combinations? ==> !r.hasMoreVariations && r.nextVariationOffset == 0
    ensures kind.Combinations? ==> (r.hasMoreVariations <==> vo + ChunkSize < kind.total)
    ensures r.hasMoreVariations ==> r.nextVariationOffset == vo + ChunkSize
    ensures !r.hasMoreVariations ==> r.nextVariationOffset == 0
    ensures kind.Combinations? && r.hasMoreVariations ==>
              r.message == VariationsDone(vo, vo + ChunkSize - 1, kind.total, ocId)
  {
    match kind
    case Missing => ProductResult(NotFound(ocId), false, 0)
    case Optionless => ProductResult(NoOptions(ocId), false, 0)
    case Combinations(total) =>
      var p := ChunkProgress(vo, total);
      var msg := if p.hasMore then VariationsDone(vo, p.nextOffset - 1, total, ocId)
                 else AllVariationsDone(total, ocId);
      ProductResult(msg, p.hasMore, p.nextVariationOffset)
  }

  /** The response of a step. */
  datatype StepResponse =
    | Success(message: Message, hasMoreVariations: bool, variationOffset: nat, offset: nat, hasMoreProducts: bool)
    | Failure(message: Message)

  /** The product count a step compares the next offset against: counted, or
      never assigned (the value it has on the step's own request). */
  datatype TotalCount = Counted(n: nat) | Unset

  /** Whether a product remains after the one at offset next - 1. Against an
      unset count the comparison is a loose comparison with null, which reads
      both sides as booleans and is always false. */
  function MoreProducts(next: nat, total: TotalCount): (more: bool)
    ensures more ==> total.Counted?
    ensures total.Counted? ==> (more <==> next < total.n)
  {
    match total
    case Counted(n) => next < n
    case Unset => false
  }

  /** Negative offsets are read as 0. */
  function Clamp(raw: int): (n: nat)
    ensures n >= raw && (n == raw || n == 0)
  {
    if raw < 0 then 0 else raw
  }

  /** The cursor advance: a finished product moves to (off + 1, 0); a product
      with variations left stays at off with the reported variation offset. */
  function Advance(off: nat, total: TotalCount, res: ProductResult): (r: StepResponse)
    ensures r.Success? && r.message == res.message && r.hasMoreVariations == res.hasMoreVariations
    ensures !res.hasMoreVariations ==>
              r.offset == off + 1 && r.variationOffset == 0 && r.hasMoreProducts == MoreProducts(off + 1, total)
    ensures res.hasMoreVariations ==>
              r.offset == off && r.variationOffset == res.nextVariationOffset && r.hasMoreProducts
  {
    if !res.hasMoreVariations then Success(res.message, false, 0, off + 1, MoreProducts(off + 1, total))
    else Success(res.message, true, res.nextVariationOffset, off, true)
  }

  /** A ranked source product: its external id and how it presents itself. */
  datatype Listed = Listed(ocId: int, kind: ProductKind)

  /** The step as a function of the ranked catalogue and the raw cursor. */
  function Respond(catalogue: seq<Listed>, total: TotalCount, rawOffset: int, rawVo: int): (r: StepResponse)
    ensures r.Success?
    ensures r.hasMoreVariations ==>
              Clamp(rawOffset) < |catalogue| && r.hasMoreProducts &&
              r.offset == Clamp(rawOffset) && r.variationOffset == Clamp(rawVo) + ChunkSize
    ensures !r.hasMoreVariations ==> r.variationOffset == 0
    ensures Clamp(rawOffset) < |catalogue| && !r.hasMoreVariations ==>
              r.offset == Clamp(rawOffset) + 1 && r.hasMoreProducts == MoreProducts(r.offset, total)
  {
    var off, vo := Clamp(rawOffset), Clamp(rawVo);
    if off >= |catalogue| then Success(NoMoreProducts, false, 0, 0, false)
    else Advance(off, total, ProductStep(catalogue[off].kind, catalogue[off].ocId, vo))
  }

  /** The cursor rules of a step: clamping, the end of the catalogue, a
      product still in progress and a finished product. */
  lemma CursorAdvance(catalogue: seq<Listed>, n: nat, rawOffset: int, rawVo: int)
    ensures var r := Respond(catalogue, Counted(n), rawOffset, rawVo);
            var off, vo := Clamp(rawOffset), Clamp(rawVo);
            && r == Respond(catalogue, Counted(n), off, vo)
            && r.Success?
            && (off >= |catalogue| ==> r == Success(NoMoreProducts, false, 0, 0, false))
            && (off < |catalogue| && r.hasMoreVariations ==>
                  catalogue[off].kind.Combinations? && vo + ChunkSize < catalogue[off].kind.total &&
                  r.offset == off && r.variationOffset == vo + ChunkSize && r.hasMoreProducts)
            && (off < |catalogue| && !r.hasMoreVariations ==>
                  r.offset == off + 1 && r.variationOffset == 0 && (r.hasMoreProducts <==> off + 1 < n))
  {
  }

  /** With the count of ranked products as the total, a step reports that no
      product remains exactly when it finishes the last product or finds none. */
  lemma CompletionSignal(catalogue: seq<Listed>, off: nat, vo: nat)
    ensures var r := Respond(catalogue, Counted(|catalogue|), off, vo);
            !r.hasMoreProducts <==> off >= |catalogue| || (off == |catalogue| - 1 && !r.hasMoreVariations)
  {
  }

  /** A step reports that no variations remain exactly when the chunk reached
      the product's last combination, or the product had no options or was
      not found. */
  lemma VariationsFinished(kind: ProductKind, ocId: int, vo: nat)
    ensures var r := ProductStep(kind, ocId, vo);
            !r.hasMoreVariations <==>
              (kind.Combinations? && ChunkProgress(vo, kind.total).nextOffset >= kind.total) || !kind.Combinations?
  {
  }
}
