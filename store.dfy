/** The WooCommerce store as the sync engine sees it, and the server side of
    one step against it: locating or creating the target product, registering
    attributes and terms, resetting the variable product on the first chunk,
    and creating one variation per combination of the chunk. */
module Store {
  import opened Combinations
  import opened Chunks
  import opened Options
  import opened Variations
  import opened Protocol

  datatype Option<T> = None | Some(value: T)

  /** A source product row: its model name and its price in cents. */
  datatype SourceProduct = SourceProduct(model: string, price: int)

  /** The source catalogue: the ids of the products that have options, in
      ascending order; the product rows by id; and each product's option
      rows, in the order the source returns them. */
  datatype Source = Source(ranked: seq<int>, products: map<int, SourceProduct>, options: map<int, seq<OptionRow>>)

  function OptionRowsOf(src: Source, ocId: int): seq<OptionRow>
  {
    if ocId in src.options then src.options[ocId] else []
  }

  function OptionsOf(src: Source, ocId: int): OptionMap
  {
    OptionMapOf(OptionRowsOf(src, ocId))
  }

  /** How a source product presents itself to a step, given whether the store
      already holds a product linked to it: missing when it is neither linked
      nor in the source, optionless when it has no option rows, otherwise the
      number of combinations of its options. */
  function Kind(src: Source, ocId: int, linked: bool): ProductKind
  {
    if !linked && ocId !in src.products then Missing
    else if OptionRowsOf(src, ocId) == [] then Optionless
    else Combinations(|CombosOf(OptionsOf(src, ocId))|)
  }

  /** The ranked catalogue as the steps see it, against the store's links. */
  function CatalogueOf(src: Source, links: map<int, nat>): seq<Listed>
  {
    seq(|src.ranked|, i requires 0 <= i < |src.ranked| =>
          Listed(src.ranked[i], Kind(src, src.ranked[i], src.ranked[i] in links)))
  }

  /** Linking a product that exists in the source does not change how any
      product presents itself, so a run sees the same catalogue at every step. */
  lemma LinkingKeepsCatalogue(src: Source, links: map<int, nat>, links': map<int, nat>)
    requires forall oc :: oc in links ==> oc in links'
    requires forall oc :: oc in links' && oc !in links ==> oc in src.products
    ensures CatalogueOf(src, links') == CatalogueOf(src, links)
  {
    var c, c' := CatalogueOf(src, links), CatalogueOf(src, links');
    forall i | 0 <= i < |src.ranked| ensures c'[i] == c[i] {
      var oc := src.ranked[i];
      var k, k' := Kind(src, oc, oc in links), Kind(src, oc, oc in links');
      assert k.Missing? == k'.Missing? && k.Optionless? == k'.Optionless?;
    }
  }

  /** The global attributes (slug to label), the terms of each attribute
      taxonomy, and the (product, taxonomy, term) assignments. */
  datatype Registry = Registry(attributes: map<string, string>, terms: set<(string, string)>,
                               assignments: set<(nat, string, string)>)

  /** The taxonomy of the attribute with slug `slug`. */
  function Taxonomy(slug: string): string
  {
    "pa_" + slug
  }

  /** Registering a global attribute: created with its label only when no
      attribute with that slug exists. */
  function WithAttribute(attributes: map<string, string>, slug: string, display: string): (r: map<string, string>)
    ensures slug in r && r.Keys == attributes.Keys + {slug}
    ensures forall s :: s in attributes ==> r[s] == attributes[s]
    ensures slug !in attributes ==> r[slug] == display
  {
    if slug in attributes then attributes else attributes[slug := display]
  }

  /** Creating each value as a term of `tax` when absent, and assigning it to
      the product. */
  function WithTerms(r: Registry, post: nat, tax: string, values: seq<string>): Registry
    decreases |values|
  {
    if values == [] then r
    else
      var r' := WithTerms(r, post, tax, values[..|values| - 1]);
      var v := values[|values| - 1];
      Registry(r'.attributes, r'.terms + {(tax, v)}, r'.assignments + {(post, tax, v)})
  }

  /** The registration of one option: its attribute, then its values. */
  function WithOption(r: Registry, post: nat, e: OptionEntry, slugOf: string -> string): Registry
  {
    var slug := slugOf(e.name);
    WithTerms(Registry(WithAttribute(r.attributes, slug, e.name), r.terms, r.assignments),
              post, Taxonomy(slug), e.data.values)
  }

  /** The registration of every option of the map, in map order. */
  function Registered(r: Registry, post: nat, om: OptionMap, slugOf: string -> string): Registry
    decreases |om|
  {
    if om == [] then r
    else WithOption(Registered(r, post, om[..|om| - 1], slugOf), post, om[|om| - 1], slugOf)
  }

  /** `r'` keeps every attribute of `r` with its label, every term and every
      assignment. */
  ghost predicate Grows(r: Registry, r': Registry)
  {
    && (forall s :: s in r.attributes ==> s in r'.attributes && r'.attributes[s] == r.attributes[s])
    && r.terms <= r'.terms
    && r.assignments <= r'.assignments
  }

  ghost predicate TermsCovered(r: Registry, post: nat, tax: string, values: seq<string>)
  {
    forall v :: v in values ==> (tax, v) in r.terms && (post, tax, v) in r.assignments
  }

  ghost predicate OptionCovered(r: Registry, post: nat, e: OptionEntry, slugOf: string -> string)
  {
    slugOf(e.name) in r.attributes && TermsCovered(r, post, Taxonomy(slugOf(e.name)), e.data.values)
  }

  /** Every option of the map has its attribute, and every value its term and
      its assignment to the product. */
  ghost predicate Covers(r: Registry, post: nat, om: OptionMap, slugOf: string -> string)
  {
    forall i :: 0 <= i < |om| ==> OptionCovered(r, post, om[i], slugOf)
  }

  lemma {:induction false} WithTermsGrows(r: Registry, post: nat, tax: string, values: seq<string>)
    ensures Grows(r, WithTerms(r, post, tax, values))
    ensures WithTerms(r, post, tax, values).attributes == r.attributes
    ensures TermsCovered(WithTerms(r, post, tax, values), post, tax, values)
    decreases |values|
  {
    if values != [] {
      var front := values[..|values| - 1];
      WithTermsGrows(r, post, tax, front);
      assert forall v :: v in values ==> v in front || v == values[|values| - 1];
    }
  }

  lemma {:induction false} WithTermsNoop(r: Registry, post: nat, tax: string, values: seq<string>)
    requires TermsCovered(r, post, tax, values)
    ensures WithTerms(r, post, tax, values) == r
    decreases |values|
  {
    if values != [] {
      var front := values[..|values| - 1];
      assert forall v :: v in front ==> v in values;
      WithTermsNoop(r, post, tax, front);
      var v := values[|values| - 1];
      assert (tax, v) in r.terms && (post, tax, v) in r.assignments;
      assert r.terms + {(tax, v)} == r.terms;
      assert r.assignments + {(post, tax, v)} == r.assignments;
    }
  }

  /** Registration only adds: no attribute is relabelled and no term or
      assignment is lost; afterwards every option, value and assignment of
      the map is present. */
  lemma {:induction false} RegisteredGrowsAndCovers(r: Registry, post: nat, om: OptionMap, slugOf: string -> string)
    ensures Grows(r, Registered(r, post, om, slugOf))
    ensures Covers(Registered(r, post, om, slugOf), post, om, slugOf)
    decreases |om|
  {
    if om != [] {
      var n := |om| - 1;
      var front := om[..n];
      var r0 := Registered(r, post, front, slugOf);
      RegisteredGrowsAndCovers(r, post, front, slugOf);
      var e := om[n];
      var slug := slugOf(e.name);
      var mid := Registry(WithAttribute(r0.attributes, slug, e.name), r0.terms, r0.assignments);
      WithTermsGrows(mid, post, Taxonomy(slug), e.data.values);
      var r1 := Registered(r, post, om, slugOf);
      assert r1 == WithTerms(mid, post, Taxonomy(slug), e.data.values);
      assert Grows(r0, r1);
      forall i | 0 <= i < |om| ensures OptionCovered(r1, post, om[i], slugOf) {
        if i < n {
          assert om[i] == front[i];
          assert OptionCovered(r0, post, om[i], slugOf);
        }
      }
    }
  }

  /** Registration of a map whose options are all present changes nothing. */
  lemma {:induction false} RegisteredNoop(r: Registry, post: nat, om: OptionMap, slugOf: string -> string)
    requires Covers(r, post, om, slugOf)
    ensures Registered(r, post, om, slugOf) == r
    decreases |om|
  {
    if om != [] {
      var n := |om| - 1;
      var front := om[..n];
      assert forall i :: 0 <= i < n ==> front[i] == om[i];
      RegisteredNoop(r, post, front, slugOf);
      var e := om[n];
      assert OptionCovered(r, post, e, slugOf);
      var slug := slugOf(e.name);
      assert WithAttribute(r.attributes, slug, e.name) == r.attributes;
      WithTermsNoop(r, post, Taxonomy(slug), e.data.values);
    }
  }

  /** Registering the same options twice gives the same store as once. */
  lemma RegistrationIdempotent(r: Registry, post: nat, om: OptionMap, slugOf: string -> string)
    ensures Registered(Registered(r, post, om, slugOf), post, om, slugOf) == Registered(r, post, om, slugOf)
  {
    RegisteredGrowsAndCovers(r, post, om, slugOf);
    RegisteredNoop(Registered(r, post, om, slugOf), post, om, slugOf);
  }

  /** A global attribute, once registered, keeps its first label. */
  lemma AttributeRegistrationIdempotent(attributes: map<string, string>, slug: string, display: string, display': string)
    ensures WithAttribute(WithAttribute(attributes, slug, display), slug, display') == WithAttribute(attributes, slug, display)
  {
  }

  /** The attribute declaration set on a variable product. */
  datatype AttributeDecl = AttributeDecl(taxonomy: string, options: seq<string>, visible: bool, variation: bool)

  /** One declaration per option, in option-map order, each visible and used
      for variations. */
  function SchemaOf(om: OptionMap, slugOf: string -> string): seq<AttributeDecl>
  {
    seq(|om|, i requires 0 <= i < |om| => AttributeDecl(Taxonomy(slugOf(om[i].name)), om[i].data.values, true, true))
  }

  /** The loop that builds the declarations of a variable product. */
  method BuildSchema(om: OptionMap, slugOf: string -> string) returns (decls: seq<AttributeDecl>)
    ensures |decls| == |om|
    ensures forall i :: 0 <= i < |om| ==>
              decls[i] == AttributeDecl(Taxonomy(slugOf(om[i].name)), om[i].data.values, true, true)
    ensures decls == SchemaOf(om, slugOf)
  {
    decls := [];
    for i := 0 to |om|
      invariant decls == SchemaOf(om[..i], slugOf)
    {
      var slug := slugOf(om[i].name);
      decls := decls + [AttributeDecl(Taxonomy(slug), om[i].data.values, true, true)];
    }
    assert om[..|om|] == om;
  }

  /** When option names have distinct slugs, every variation's value for an
      attribute is one of the options declared for that attribute. The key
      differs, though: the parent declares the attribute under its taxonomy
      `pa_<slug>`, while the variation records its value under the bare slug. */
  lemma VariationsMatchSchema(om: OptionMap, slugOf: string -> string, base: int, k: nat)
    requires forall i, j :: 0 <= i < j < |om| ==> slugOf(om[i].name) != slugOf(om[j].name)
    requires k < |CombosOf(om)|
    ensures var v := MakeVariation(om, slugOf, base, CombosOf(om)[k]);
            var decls := SchemaOf(om, slugOf);
            forall i :: 0 <= i < |decls| ==>
              decls[i].taxonomy == Taxonomy(slugOf(om[i].name)) &&
              decls[i].taxonomy != slugOf(om[i].name) &&
              slugOf(om[i].name) in v.attributes && v.attributes[slugOf(om[i].name)] in decls[i].options
  {
    var combo := CombosOf(om)[k];
    CartesianAt(ValueLists(om));
    assert combo == Decode(ValueLists(om), k);
    AttrsRecordSelection(om, slugOf, combo);
  }

  /** Everything the store holds, as one value: the links from source
      products to store products, the next store product id, the titles and
      regular prices, the attribute registry, the products made variable
      with their declarations, and each product's variation children. */
  datatype Snapshot = Snapshot(links: map<int, nat>, nextPost: nat, titles: map<nat, string>,
                               regularPrice: map<nat, int>, reg: Registry, variable: set<nat>,
                               schema: map<nat, seq<AttributeDecl>>, children: map<nat, seq<Variation>>)

  /** Linked products are distinct, already created, and each has a list of
      children; no data is held for a product not yet created. */
  ghost predicate Consistent(s: Snapshot)
  {
    && (forall oc :: oc in s.links ==> s.links[oc] < s.nextPost && s.links[oc] in s.children)
    && (forall a, b :: a in s.links && b in s.links && a != b ==> s.links[a] != s.links[b])
    && (forall p :: p in s.children ==> p < s.nextPost)
    && (forall p :: p in s.regularPrice ==> p < s.nextPost)
  }

  /** The regular price of a product; a product without one reads as 0. */
  function PriceIn(s: Snapshot, post: nat): int
  {
    if post in s.regularPrice then s.regularPrice[post] else 0
  }

  /** The children of a product; none when it has no list. */
  function KidsIn(s: Snapshot, post: nat): seq<Variation>
  {
    if post in s.children then s.children[post] else []
  }

  /** Locating the store product linked to a source product, or creating one
      from the source row (title, regular price, no children) under the next
      id; nothing when the source has no such row. */
  function Resolve(s: Snapshot, ocId: int, src: Source): (r: (Snapshot, Option<nat>))
    ensures r.1.Some? <==> ocId in r.0.links
    ensures r.1.Some? ==> r.0.links[ocId] == r.1.value
    ensures ocId in s.links || ocId !in src.products ==> r.0 == s
    ensures ocId !in s.links && ocId in src.products ==>
              && r.1 == Some(s.nextPost)
              && s.nextPost in r.0.titles && r.0.titles[s.nextPost] == src.products[ocId].model
              && PriceIn(r.0, s.nextPost) == src.products[ocId].price
              && KidsIn(r.0, s.nextPost) == []
  {
    if ocId in s.links then (s, Some(s.links[ocId]))
    else if ocId !in src.products then (s, None)
    else
      var id := s.nextPost;
      var p := src.products[ocId];
      (s.(links := s.links[ocId := id], nextPost := id + 1, titles := s.titles[id := p.model],
          regularPrice := s.regularPrice[id := p.price], children := s.children[id := []]),
       Some(id))
  }

  /** The registration of the options of `om` for product `post`. */
  function Registering(s: Snapshot, post: nat, om: OptionMap, slugOf: string -> string): Snapshot
  {
    s.(reg := Registered(s.reg, post, om, slugOf))
  }

  /** The first-chunk reset: the product becomes variable with one
      declaration per option, and its children are deleted. */
  function Resetting(s: Snapshot, post: nat, om: OptionMap, slugOf: string -> string): Snapshot
  {
    s.(variable := s.variable + {post}, schema := s.schema[post := SchemaOf(om, slugOf)],
       children := s.children[post := []])
  }

  /** The chunk at `vo` appended to the product's children, priced from the
      product's regular price. */
  function Appending(s: Snapshot, post: nat, om: OptionMap, slugOf: string -> string, vo: nat): Snapshot
  {
    s.(children := s.children[post := KidsIn(s, post) + ChunkVariations(om, slugOf, PriceIn(s, post), vo)])
  }

  /** One step on the located product `post` with option map `om`: nothing
      without options; otherwise registration, the reset on the first chunk,
      and the chunk's variations. */
  function Chunked(s: Snapshot, post: nat, om: OptionMap, slugOf: string -> string, vo: nat): Snapshot
  {
    if om == [] then s
    else
      var r := Registering(s, post, om, slugOf);
      Appending(if vo == 0 then Resetting(r, post, om, slugOf) else r, post, om, slugOf, vo)
  }

  /** The store after processing the chunk at variation offset `vo` of the
      source product `ocId`. */
  function Step(s: Snapshot, ocId: int, vo: nat, src: Source, slugOf: string -> string): Snapshot
  {
    var r := Resolve(s, ocId, src);
    if r.1.None? then s else Chunked(r.0, r.1.value, OptionsOf(src, ocId), slugOf, vo)
  }

  /** Resolution keeps every link; a source product already linked keeps its
      store product, one in the source and not yet linked is linked to a
      fresh product, and nothing else is linked. */
  lemma ResolveLinks(s: Snapshot, ocId: int, src: Source)
    requires Consistent(s)
    ensures var r := Resolve(s, ocId, src);
            && Consistent(r.0)
            && (forall oc :: oc in s.links ==> oc in r.0.links && r.0.links[oc] == s.links[oc])
            && (forall oc :: oc in r.0.links ==> oc in s.links || oc == ocId)
            && (ocId in r.0.links <==> ocId in s.links || ocId in src.products)
            && (ocId !in s.links && ocId in src.products ==>
                  r.1 == Some(s.nextPost) && r.0.nextPost == s.nextPost + 1 &&
                  (forall oc :: oc in s.links ==> s.links[oc] != s.nextPost))
            && (r.1.Some? ==> KidsIn(r.0, r.1.value) == KidsIn(s, r.1.value))
  {
  }

  /** A step on a product with options, field by field: links, titles and
      prices are kept; the options are registered; the first chunk makes the
      product variable with one declaration per option; the product's
      children become AfterChunk of the ones it had, and no other product's
      children change. */
  lemma ChunkedShape(s: Snapshot, post: nat, om: OptionMap, slugOf: string -> string, vo: nat)
    requires om != []
    ensures var s' := Chunked(s, post, om, slugOf, vo);
            && s'.links == s.links && s'.nextPost == s.nextPost
            && s'.titles == s.titles && s'.regularPrice == s.regularPrice
            && s'.reg == Registered(s.reg, post, om, slugOf)
            && s'.variable == (if vo == 0 then s.variable + {post} else s.variable)
            && s'.schema == (if vo == 0 then s.schema[post := SchemaOf(om, slugOf)] else s.schema)
            && s'.children == s.children[post := AfterChunk(KidsIn(s, post), om, slugOf, PriceIn(s, post), vo)]
  {
    var r := Registering(s, post, om, slugOf);
    if vo == 0 {
      var z := Resetting(r, post, om, slugOf);
      assert KidsIn(z, post) == [] && PriceIn(z, post) == PriceIn(s, post);
      assert z.children[post := KidsIn(z, post) + ChunkVariations(om, slugOf, PriceIn(s, post), 0)]
          == s.children[post := AfterChunk(KidsIn(s, post), om, slugOf, PriceIn(s, post), 0)];
    }
  }

  /** A step keeps the store consistent. */
  lemma StepKeepsConsistent(s: Snapshot, ocId: int, vo: nat, src: Source, slugOf: string -> string)
    requires Consistent(s)
    ensures Consistent(Step(s, ocId, vo, src, slugOf))
    ensures Step(s, ocId, vo, src, slugOf).links == Resolve(s, ocId, src).0.links
  {
    ResolveLinks(s, ocId, src);
    var r := Resolve(s, ocId, src);
    if r.1.Some? {
      ChunkedKeepsConsistent(r.0, r.1.value, OptionsOf(src, ocId), slugOf, vo);
    }
  }

  /** A step on a product that has a list of children keeps the store
      consistent and the links as they are. */
  lemma ChunkedKeepsConsistent(s: Snapshot, post: nat, om: OptionMap, slugOf: string -> string, vo: nat)
    requires Consistent(s) && post in s.children
    ensures Consistent(Chunked(s, post, om, slugOf, vo))
    ensures Chunked(s, post, om, slugOf, vo).links == s.links
  {
    if om != [] {
      ChunkedShape(s, post, om, slugOf, vo);
      var s' := Chunked(s, post, om, slugOf, vo);
      assert s'.children.Keys == s.children.Keys;
      ConsistentFrame(s, s');
    }
  }

  /** Consistency depends only on the links, the next id, and which products
      hold children and prices. */
  lemma ConsistentFrame(s: Snapshot, s': Snapshot)
    requires Consistent(s)
    requires s'.links == s.links && s'.nextPost == s.nextPost
    requires s'.children.Keys == s.children.Keys && s'.regularPrice.Keys == s.regularPrice.Keys
    ensures Consistent(s')
  {
  }

  /** The effect of a step on a product with options: the registry grows and
      covers every option, value and assignment; the first chunk makes the
      product variable with one declaration per option; its children are the
      ones it had (none on the first chunk) followed by the chunk's variations;
      links, titles and prices are those of the resolution. */
  lemma StepWithOptions(s: Snapshot, ocId: int, vo: nat, src: Source, slugOf: string -> string)
    requires Resolve(s, ocId, src).1.Some? && OptionsOf(src, ocId) != []
    ensures var (s1, post) := (Resolve(s, ocId, src).0, Resolve(s, ocId, src).1.value);
            var om, s' := OptionsOf(src, ocId), Step(s, ocId, vo, src, slugOf);
            && s'.links == s1.links && s'.nextPost == s1.nextPost
            && s'.titles == s1.titles && s'.regularPrice == s1.regularPrice
            && Grows(s.reg, s'.reg) && Covers(s'.reg, post, om, slugOf)
            && (vo == 0 ==> post in s'.variable && s'.schema[post] == SchemaOf(om, slugOf))
            && (vo != 0 ==> s'.variable == s.variable && s'.schema == s.schema)
            && KidsIn(s', post) == AfterChunk(KidsIn(s1, post), om, slugOf, PriceIn(s1, post), vo)
  {
    var r := Resolve(s, ocId, src);
    ChunkedShape(r.0, r.1.value, OptionsOf(src, ocId), slugOf, vo);
    RegisteredGrowsAndCovers(r.0.reg, r.1.value, OptionsOf(src, ocId), slugOf);
  }

  /** A step on a product without options, or on a source product that is
      neither linked nor in the source, changes nothing but the links. */
  lemma StepWithoutOptions(s: Snapshot, ocId: int, vo: nat, src: Source, slugOf: string -> string)
    requires Resolve(s, ocId, src).1.None? || OptionsOf(src, ocId) == []
    ensures Step(s, ocId, vo, src, slugOf) == Resolve(s, ocId, src).0
  {
  }

  /** The store after the steps a run posts for one source product from
      variation offset `vo` on: each step is sent the next variation offset
      the one before reported, until no variations remain. */
  function StepsFrom(s: Snapshot, ocId: int, vo: nat, src: Source, slugOf: string -> string): Snapshot
    decreases |CombosOf(OptionsOf(src, ocId))| - vo
  {
    var s' := Step(s, ocId, vo, src, slugOf);
    var p := ChunkProgress(vo, |CombosOf(OptionsOf(src, ocId))|);
    if p.hasMore then StepsFrom(s', ocId, p.nextVariationOffset, src, slugOf) else s'
  }

  /** The steps of one linked product with options keep its link and its
      regular price, and leave it the children of `Pass` over the ones it
      had, priced from that regular price. */
  lemma {:induction false} StoreSteps(s: Snapshot, ocId: int, vo: nat, src: Source, slugOf: string -> string)
    requires ocId in s.links && OptionsOf(src, ocId) != []
    ensures var post, s' := s.links[ocId], StepsFrom(s, ocId, vo, src, slugOf);
            && s'.links == s.links
            && PriceIn(s', post) == PriceIn(s, post)
            && KidsIn(s', post) == Pass(KidsIn(s, post), OptionsOf(src, ocId), slugOf, PriceIn(s, post), vo)
    decreases |CombosOf(OptionsOf(src, ocId))| - vo
  {
    var post, om := s.links[ocId], OptionsOf(src, ocId);
    var s1 := Step(s, ocId, vo, src, slugOf);
    ChunkedShape(s, post, om, slugOf, vo);
    assert KidsIn(s1, post) == AfterChunk(KidsIn(s, post), om, slugOf, PriceIn(s, post), vo);
    var p := ChunkProgress(vo, |CombosOf(om)|);
    if p.hasMore {
      StoreSteps(s1, ocId, p.nextVariationOffset, src, slugOf);
    }
  }

  /** A run of the steps of one product with options from variation offset
      0, on a product that is linked or in the source, leaves it exactly one
      variation per combination, in generator order, priced from the regular
      price it was resolved with: the source price when the run creates it. */
  lemma StoreFullPass(s: Snapshot, ocId: int, src: Source, slugOf: string -> string)
    requires Resolve(s, ocId, src).1.Some? && OptionsOf(src, ocId) != []
    ensures var (s1, post) := (Resolve(s, ocId, src).0, Resolve(s, ocId, src).1.value);
            var om := OptionsOf(src, ocId);
            && KidsIn(StepsFrom(s, ocId, 0, src, slugOf), post) == Materialised(om, slugOf, PriceIn(s1, post), 0, |CombosOf(om)|)
            && (ocId !in s.links ==> PriceIn(s1, post) == src.products[ocId].price)
  {
    var r := Resolve(s, ocId, src);
    var s1, post, om := r.0, r.1.value, OptionsOf(src, ocId);
    ResolveThenSteps(s, ocId, src, slugOf);
    StoreSteps(s1, ocId, 0, src, slugOf);
    FullPass(KidsIn(s1, post), om, slugOf, PriceIn(s1, post));
  }

  /** Steps from a product not yet linked are the steps from the store in
      which it has been resolved. */
  lemma ResolveThenSteps(s: Snapshot, ocId: int, src: Source, slugOf: string -> string)
    requires Resolve(s, ocId, src).1.Some?
    ensures StepsFrom(s, ocId, 0, src, slugOf) == StepsFrom(Resolve(s, ocId, src).0, ocId, 0, src, slugOf)
  {
  }

  /** A step of a linked product with options posted again at an offset
      past 0 after it completed, as the client does when the answer was lost,
      leaves the product the children it had followed by the chunk's
      variations twice. */
  lemma StoreRetryDuplicates(s: Snapshot, ocId: int, vo: nat, src: Source, slugOf: string -> string)
    requires ocId in s.links && OptionsOf(src, ocId) != [] && vo != 0
    ensures var post, om := s.links[ocId], OptionsOf(src, ocId);
            var c := ChunkVariations(om, slugOf, PriceIn(s, post), vo);
            KidsIn(Step(Step(s, ocId, vo, src, slugOf), ocId, vo, src, slugOf), post) == KidsIn(s, post) + c + c
  {
  }

  /** A step links at most the source product it processes, and only when
      the source has it, so the catalogue the run sees stays the same. */
  lemma StepKeepsCatalogue(s: Snapshot, ocId: int, vo: nat, src: Source, slugOf: string -> string)
    requires Consistent(s)
    ensures CatalogueOf(src, Step(s, ocId, vo, src, slugOf).links) == CatalogueOf(src, s.links)
  {
    ResolveLinks(s, ocId, src);
    StepKeepsConsistent(s, ocId, vo, src, slugOf);
    LinkingKeepsCatalogue(src, s.links, Step(s, ocId, vo, src, slugOf).links);
  }

  /** The response to a cursor inside the catalogue is the cursor advance
      over the report for the product at the clamped offset. */
  lemma RespondAt(src: Source, links: map<int, nat>, rawOffset: int, rawVo: int, res: ProductResult)
    requires Clamp(rawOffset) < |src.ranked|
    requires var ocId := src.ranked[Clamp(rawOffset)];
             res == ProductStep(Kind(src, ocId, ocId in links), ocId, Clamp(rawVo))
    ensures Respond(CatalogueOf(src, links), Counted(|src.ranked|), rawOffset, rawVo)
         == Advance(Clamp(rawOffset), Counted(|src.ranked|), res)
  {
    var off := Clamp(rawOffset);
    assert CatalogueOf(src, links)[off] == Listed(src.ranked[off], Kind(src, src.ranked[off], src.ranked[off] in links));
  }

  /** The store: the products linked to source products, their titles and
      regular prices, the attribute registry, the products made variable with
      their declarations, and each product's variation children. */
  class TargetCatalog {
    var links: map<int, nat>
    var nextPost: nat
    var titles: map<nat, string>
    var regularPrice: map<nat, int>
    var attributes: map<string, string>
    var terms: set<(string, string)>
    var assignments: set<(nat, string, string)>
    var variable: set<nat>
    var schema: map<nat, seq<AttributeDecl>>
    var children: map<nat, seq<Variation>>

    /** An empty store: no product linked or created, no attribute, term or
        assignment registered. */
    constructor()
      ensures Valid()
      ensures State() == Snapshot(map[], 0, map[], map[], Registry(map[], {}, {}), {}, map[], map[])
    {
      links, nextPost, titles, regularPrice := map[], 0, map[], map[];
      attributes, terms, assignments := map[], {}, {};
      variable, schema, children := {}, map[], map[];
    }

    /** The store as one value. */
    function State(): Snapshot
      reads this
    {
      Snapshot(links, nextPost, titles, regularPrice, Reg(), variable, schema, children)
    }

    ghost predicate Valid()
      reads this
    {
      Consistent(State())
    }

    function Reg(): Registry
      reads this`attributes, this`terms, this`assignments
    {
      Registry(attributes, terms, assignments)
    }

    method RegisterGlobalAttribute(slug: string, display: string)
      modifies this`attributes
      ensures attributes == WithAttribute(old(attributes), slug, display)
    {
      if slug !in attributes {
        attributes := attributes[slug := display];
      }
    }

    /** The loop over the option map that registers each option's attribute
        and creates and assigns its terms. */
    method RegisterOptions(post: nat, om: OptionMap, slugOf: string -> string)
      modifies this`attributes, this`terms, this`assignments
      ensures Reg() == Registered(old(Reg()), post, om, slugOf)
      ensures State() == Registering(old(State()), post, om, slugOf)
    {
      for i := 0 to |om|
        invariant Reg() == Registered(old(Reg()), post, om[..i], slugOf)
      {
        var slug := slugOf(om[i].name);
        var tax := Taxonomy(slug);
        RegisterGlobalAttribute(slug, om[i].name);
        RegisterTerms(post, tax, om[i].data.values);
        assert om[..i + 1][..i] == om[..i];
      }
      assert om[..|om|] == om;
    }

    /** The loop over an option's values: each value is created as a term of
        the taxonomy when absent, and assigned to the product. */
    method RegisterTerms(post: nat, tax: string, values: seq<string>)
      modifies this`terms, this`assignments
      ensures Reg() == WithTerms(old(Reg()), post, tax, values)
    {
      for j := 0 to |values|
        invariant Reg() == WithTerms(old(Reg()), post, tax, values[..j])
      {
        var term := values[j];
        ghost var before := Reg();
        if (tax, term) !in terms {
          terms := terms + {(tax, term)};
        }
        assert terms == before.terms + {(tax, term)};
        assignments := assignments + {(post, tax, term)};
        assert values[..j + 1][..j] == values[..j];
        assert Reg() == Registry(before.attributes, before.terms + {(tax, term)}, before.assignments + {(post, tax, term)});
      }
      assert values[..|values|] == values;
    }

    /** Locating the store product linked to a source product, or creating
        one from the source row; nothing when the source has no such row. */
    method ResolveProduct(ocId: int, src: Source) returns (post: Option<nat>)
      modifies this`links, this`nextPost, this`titles, this`regularPrice, this`children
      ensures (State(), post) == Resolve(old(State()), ocId, src)
    {
      if ocId in links {
        return Some(links[ocId]);
      }
      if ocId !in src.products {
        return None;
      }
      var p := src.products[ocId];
      var id := nextPost;
      nextPost := nextPost + 1;
      links := links[ocId := id];
      titles := titles[id := p.model];
      regularPrice := regularPrice[id := p.price];
      children := children[id := []];
      post := Some(id);
    }

    /** First chunk: the product becomes variable with one declaration per
        option, and every existing child is deleted. */
    method ResetVariable(post: nat, om: OptionMap, slugOf: string -> string)
      requires post in children
      modifies this`variable, this`schema, this`children
      ensures State() == Resetting(old(State()), post, om, slugOf)
    {
      variable := variable + {post};
      var decls := BuildSchema(om, slugOf);
      schema := schema[post := decls];
      var kids := children[post];
      for i := 0 to |kids|
        invariant variable == old(variable) + {post}
        invariant schema == old(schema)[post := SchemaOf(om, slugOf)]
        invariant children == old(children)[post := kids[i..]]
      {
        children := children[post := kids[i + 1..]];
      }
      assert kids[|kids|..] == [];
      assert children == old(children)[post := []];
    }

    /** The loop over a chunk: one variation per combination, appended to
        the product's children in chunk order. */
    method CreateVariations(post: nat, om: OptionMap, slugOf: string -> string, base: int,
                            chunk: seq<seq<string>>, ghost lo: nat, ghost hi: nat)
      requires post in children
      requires lo <= hi <= |CombosOf(om)| && chunk == CombosOf(om)[lo..hi]
      modifies this`children
      ensures children == old(children)[post := old(children[post]) + Materialised(om, slugOf, base, lo, hi)]
    {
      ghost var before := children[post];
      assert before + Materialised(om, slugOf, base, lo, lo) == before;
      assert old(children)[post := before] == old(children);
      for j := 0 to |chunk|
        invariant children == old(children)[post := before + Materialised(om, slugOf, base, lo, lo + j)]
      {
        var attrs, price := ComputeVariation(om, slugOf, base, chunk[j]);
        ghost var made := Materialised(om, slugOf, base, lo, lo + j);
        assert children[post] == before + made;
        children := children[post := children[post] + [Variation(attrs, price)]];
        MaterialisedSplit(om, slugOf, base, lo, lo + j, lo + j + 1);
        assert Materialised(om, slugOf, base, lo + j, lo + j + 1) == [Variation(attrs, price)];
        assert before + made + [Variation(attrs, price)] == before + Materialised(om, slugOf, base, lo, lo + j + 1);
      }
    }

    /** Processing one chunk of one source product. */
    method ProcessProduct(ocId: int, vo: nat, src: Source, slugOf: string -> string) returns (res: ProductResult)
      requires Valid()
      modifies this
      ensures Valid()
      ensures res == ProductStep(Kind(src, ocId, ocId in old(links)), ocId, vo)
      ensures State() == Step(old(State()), ocId, vo, src, slugOf)
    {
      ghost var s0 := State();
      ResolveLinks(s0, ocId, src);
      StepKeepsConsistent(s0, ocId, vo, src, slugOf);
      var found := ResolveProduct(ocId, src);
      if found.None? {
        res := ProductResult(NotFound(ocId), false, 0);
      } else {
        res := ProcessLinked(found.value, ocId, vo, src, slugOf);
      }
    }

    /** Processing one chunk of a located product: no options ends the
        product; otherwise the options are registered and the chunk built. */
    method ProcessLinked(post: nat, ocId: int, vo: nat, src: Source, slugOf: string -> string)
      returns (res: ProductResult)
      requires post in children
      modifies this`attributes, this`terms, this`assignments, this`variable, this`schema, this`children
      ensures res == ProductStep(Kind(src, ocId, true), ocId, vo)
      ensures State() == Chunked(old(State()), post, OptionsOf(src, ocId), slugOf, vo)
    {
      var om := BuildOptionMap(OptionRowsOf(src, ocId));
      OptionMapEmpty(OptionRowsOf(src, ocId));
      if |om| == 0 {
        res := ProductResult(NoOptions(ocId), false, 0);
      } else {
        res := ProcessOptions(post, ocId, vo, om, slugOf);
      }
    }

    /** Processing one chunk of a located product with a non-empty option
        map: registration, the first-chunk reset, the chunk's variations and
        the progress report. */
    method ProcessOptions(post: nat, ocId: int, vo: nat, om: OptionMap, slugOf: string -> string)
      returns (res: ProductResult)
      requires post in children && om != []
      modifies this`attributes, this`terms, this`assignments, this`variable, this`schema, this`children
      ensures res == ProductStep(Combinations(|CombosOf(om)|), ocId, vo)
      ensures State() == Chunked(old(State()), post, om, slugOf, vo)
    {
      RegisterOptions(post, om, slugOf);
      if vo == 0 {
        ResetVariable(post, om, slugOf);
      }
      res := ProcessChunk(post, ocId, vo, om, slugOf);
    }

    /** Generating the combinations, slicing the chunk at `vo`, creating its
        variations at the product's current regular price, and reporting the
        progress. */
    method ProcessChunk(post: nat, ocId: int, vo: nat, om: OptionMap, slugOf: string -> string)
      returns (res: ProductResult)
      requires post in children
      modifies this`children
      ensures res == ProductStep(Combinations(|CombosOf(om)|), ocId, vo)
      ensures State() == Appending(old(State()), post, om, slugOf, vo)
    {
      var combos := CartesianOf(ValueLists(om));
      var total := |combos|;
      var chunk := Slice(combos, vo, ChunkSize);
      var base := PriceIn(State(), post);
      ghost var lo, hi := Min(vo, total), Min(vo, total) + ChunkLength(vo, total);
      assert chunk == CombosOf(om)[lo .. hi];
      CreateVariations(post, om, slugOf, base, chunk, lo, hi);
      var nextOffset := vo + |chunk|;
      var hasMore := nextOffset < total;
      var message := if hasMore then VariationsDone(vo, nextOffset - 1, total, ocId) else AllVariationsDone(total, ocId);
      res := ProductResult(message, hasMore, if hasMore then nextOffset else 0);
    }

    /** One step: clamp the cursor, take the product at the offset, process
        its chunk and advance the cursor, against the count of ranked
        products. A store without credentials answers with an error and does
        nothing. */
    method AjaxProcessOne(credentials: bool, rawOffset: int, rawVo: int, src: Source, slugOf: string -> string)
      returns (resp: StepResponse)
      requires Valid()
      modifies this
      ensures Valid()
      ensures !credentials ==> resp == Failure(MissingCredentials) && unchanged(this)
      ensures credentials ==> resp == Respond(CatalogueOf(src, old(links)), Counted(|src.ranked|), rawOffset, rawVo)
      ensures CatalogueOf(src, links) == CatalogueOf(src, old(links))
      ensures credentials && Clamp(rawOffset) < |src.ranked| ==>
                State() == Step(old(State()), src.ranked[Clamp(rawOffset)], Clamp(rawVo), src, slugOf)
      ensures credentials && Clamp(rawOffset) >= |src.ranked| ==> unchanged(this)
    {
      if !credentials {
        return Failure(MissingCredentials);
      }
      var off := if rawOffset < 0 then 0 else rawOffset;
      var vo := if rawVo < 0 then 0 else rawVo;
      if off >= |src.ranked| {
        return Success(NoMoreProducts, false, 0, 0, false);
      }
      var ocId := src.ranked[off];
      ghost var before := State();
      StepKeepsCatalogue(before, ocId, vo, src, slugOf);
      var res := ProcessProduct(ocId, vo, src, slugOf);
      RespondAt(src, before.links, rawOffset, rawVo, res);
      var hasVar := res.hasMoreVariations;
      var moreProd, nextOff, nextVo;
      if !hasVar {
        moreProd := off + 1 < |src.ranked|;
        nextOff := off + 1;
        nextVo := 0;
      } else {
        moreProd := true;
        nextOff := off;
        nextVo := res.nextVariationOffset;
      }
      resp := Success(res.message, hasVar, nextVo, nextOff, moreProd);
    }
  }
}
