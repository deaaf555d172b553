# OpenCart to WooCommerce variation sync, modelled in Dafny

This project models the resumable, chunked variation-sync engine of the
`OC_Variations_Sync` WordPress plugin (`octowpfinal.php`). The plugin copies
products that have options from an OpenCart catalogue into WooCommerce as
variable products. A sync is a sequence of small AJAX steps driven by a
browser loop. Each step receives a cursor `(offset, variation_offset)`,
takes the source product at rank `offset`, and does the following:

- it locates or creates the linked WooCommerce product;
- it builds the product's option map from the source option rows;
- it registers one global attribute per option and one term per value, and
  assigns the terms to the product;
- on the first chunk (variation offset 0) it makes the product variable and
  deletes all of its existing variations;
- it creates one variation for each combination in a window of at most 20
  combinations. A variation's price is the product's regular price plus the
  signed delta of every selected value;
- it answers with the next cursor and the `has_more_variations` /
  `has_more_products` flags.

The browser loop resends the same cursor after a transport failure, stops
on an error response, and otherwise follows the returned cursor. A
transport failure does not mean the step did not run: the server ignores
client aborts (octowpfinal.php:212-213), so a step whose answer was lost
still completes. Its retry then runs the same chunk again. At variation
offset 0 this is harmless, because the chunk wipes the children first. At
any later offset the chunk's variations are appended a second time
(`Store.StoreRetryDuplicates`).

Modules, one per part of the engine:

- `Combinations` (combinations.dfy): the Cartesian-product generator, and
  its mixed-radix reading (combination k is the digits of k, last option
  fastest).
- `Chunks` (chunks.dfy): the chunk window, the progress report, and the
  sequence of variation offsets one product goes through.
- `Options` (options.dfy): the option map, signed value deltas, the
  attribute assignment and the price of one combination.
- `Variations` (variations.dfy): the variations one chunk creates, the
  wipe-then-append rule, and a full pass over a product.
- `Protocol` (protocol.dfy): the step's messages, the per-product result,
  and the cursor advance.
- `Driver` (driver.dfy): the browser loop as a pure state machine, and the
  cursors a whole run visits.
- `Store` (store.dfy): the WooCommerce store as the class `TargetCatalog`,
  whose methods perform one step in place. The store is also described as a
  value (`Snapshot`) whose transition functions (`Resolve`, `Chunked`,
  `Step`) specify those methods.

Prices are integers (cents). `sanitize_title` is an opaque parameter
`slugOf`, and variation attributes are keyed by its result. The source
catalogue (`Source`) is an input value: the ranked product ids, the product
rows and the option rows of each product.

Two places where the model follows the code rather than the evident
intent:

- A product's base price could have been captured once, on the first chunk.
  The code instead reads the product's regular price again on every chunk
  (octowpfinal.php:468), and `Store.TargetCatalog.ProcessChunk` does the
  same (`PriceIn`).
- `has_more_products` is evidently meant to compare the next offset with the
  number of ranked products. On the AJAX path the code compares it with a
  field that is never assigned (see Findings).

The parent product declares each option's attribute under the taxonomy
name `pa_<slug>` (octowpfinal.php:445). Each variation records its value
under the bare slug (octowpfinal.php:478). `Store.VariationsMatchSchema`
states both keys.

## Model

| member | source | states |
|---|---|---|
| Combinations.CartesianOf | octowpfinal.php:532-544 | The nested-loop generator returns exactly `Cartesian(arrays)`, the specification of the combination list |
| Combinations.CartesianAt | octowpfinal.php:532-544 | The generator yields the product of the list lengths as its number of tuples, and tuple k is the mixed-radix decoding of k, with the last list as the fastest digit |
| Combinations.CartesianArity | octowpfinal.php:534-541 | Every tuple has one element per input list |
| Combinations.Decode | octowpfinal.php:534-541 | The decoded tuple has one element per list, and its i-th element is drawn from list i |
| Combinations.ExtendLength | octowpfinal.php:535-541 | One pass of the outer loop multiplies the number of tuples by the number of values |
| Combinations.ExtendAt | octowpfinal.php:536-539 | After one pass, tuple j*n+m is old tuple j followed by value m |
| Combinations.DecodeEncode | octowpfinal.php:532-544 | Every combination (one value from each list) has an index whose decoding gives it back |
| Combinations.CartesianIsExactlyTheCombinations | octowpfinal.php:532-544 | A tuple is in the output iff it is a combination of one value per list, in list order |
| Combinations.DecodeInjective | octowpfinal.php:532-544 | If no list repeats a value, distinct indices give distinct tuples: no combination is produced twice |
| Combinations.CartesianEdgeCases | octowpfinal.php:533 | No lists gives the single empty tuple, and any empty list gives no tuples |
| Combinations.CountWithEmpty | octowpfinal.php:537 | A list with no values makes the combination count 0 |
| Combinations.OdometerExample | octowpfinal.php:534-541 | `[[A,B],[X,Y,Z]]` yields AX, AY, AZ, BX, BY, BZ in that order |
| Chunks.Slice | octowpfinal.php:466 | The slice at `start` holds min(len, rest) elements, and each is the source element at `start + i` |
| Chunks.ChunkLength | octowpfinal.php:466 | A chunk holds at most 20 combinations, stays inside the range, and is non-empty when the start is inside the range |
| Chunks.ChunkProgress | octowpfinal.php:489-498 | More remain iff start + 20 < total; the next offset is start + 20 when more remain; otherwise the next variation offset is 0 |
| Chunks.StartsShape | octowpfinal.php:489-498 | Feeding back the next variation offset visits start, start+20, …, and makes max(1, ⌈(total − start)/20⌉) steps |
| Chunks.OnlyLastStepFinishes | octowpfinal.php:489-490 | Every step of a product but the last reports more variations; the last does not |
| Chunks.ChunksCover | octowpfinal.php:465-466 | The chunks of the steps from `start`, concatenated, are exactly the rest of the combination list, in order |
| Chunks.PassCoversAll | octowpfinal.php:465-466 | The chunks of a pass from offset 0 are exactly the whole combination list |
| Chunks.ChunkOfIndex | octowpfinal.php:465-466 | Combination i belongs to chunk j iff j = i / 20, so it is covered exactly once |
| Options.SignedDelta | octowpfinal.php:408 | A value's delta is negated exactly when its prefix is "-" |
| Options.DataOf | octowpfinal.php:403-409 | The value list keeps every row's label, in row order |
| Options.DataOfKeys | octowpfinal.php:403-409 | The price table has a key for exactly the labels in the value list |
| Options.DataOfPrices | octowpfinal.php:405-409 | A label's price is the signed delta of its last row (later duplicates overwrite earlier ones) |
| Options.BuildOptionData | octowpfinal.php:403-409 | The row loop builds exactly `DataOf(rows)` |
| Options.Put | octowpfinal.php:410-413 | Storing under a new name appends it; storing under an existing name replaces that entry's data in place and keeps every other entry |
| Options.OptionMapOf | octowpfinal.php:393-414 | The option map never holds two entries with the same name |
| Options.OptionMapNames | octowpfinal.php:393-414 | The map's names are the option names in order of first appearance |
| Options.OptionMapData | octowpfinal.php:393-414 | The data under a name is the data of the last option row with that name |
| Options.OptionMapPriced | octowpfinal.php:403-413 | Every label of every option in the map has an entry in that option's price table |
| Options.OptionMapEmpty | octowpfinal.php:415 | The map is empty exactly when the product has no option rows |
| Options.BuildOptionMap | octowpfinal.php:384-414 | The loop over option rows builds exactly `OptionMapOf(rows)` |
| Options.ComputeVariation | octowpfinal.php:472-480 | The inner loop computes the base plus the sum of the selected deltas, and maps each option's slug to its selected value |
| Options.AttrsKeys | octowpfinal.php:475-478 | A variation's attribute keys are exactly the option slugs |
| Options.AttrsRecordSelection | octowpfinal.php:475-478 | With distinct slugs, each option's slug maps to the value the combination selects for it |
| Options.NoDiscountNeverCheaper | octowpfinal.php:468-480 | When no value has prefix "-" and every price is non-negative, no variation is priced below the base |
| Options.ExampleOptionMap | octowpfinal.php:393-414 | The Size and Color rows give the map [Size, Color] with each row's data |
| Options.PriceExample | octowpfinal.php:468-480 | At base 10.00 with Size {S: 0, M: +2, L: +4} and Color {Red: 0, Blue: +5}, (L, Blue) is priced 19.00 |
| Variations.CombosOf | octowpfinal.php:462-463 | Every combination of a product has one value per option |
| Variations.Materialised | octowpfinal.php:469-484 | The variations for combinations lo..hi are one per combination, in order, each with that combination's attributes and price |
| Variations.DeltaNeverDefaults | octowpfinal.php:462-479 | Every value a generated combination selects has a price entry, so the price lookup never reads a missing key |
| Variations.AfterChunkShape | octowpfinal.php:437-484 | One chunk wipes the children at offset 0 and keeps them otherwise, then appends the variations of exactly the chunk's combinations |
| Variations.Pass | octowpfinal.php:437-499 | Stepping chunk by chunk from `vo` to the end adds one variation per remaining combination; a pass from a later offset keeps the existing children as a prefix, and one from 0 starts from none |
| Variations.RetriedChunkDuplicates | octowpfinal.php:178-180 | Running the chunk at an offset past 0 a second time appends its variations again, so the children differ from one run |
| Variations.RetriedFirstChunkHarmless | octowpfinal.php:437-457 | Running the first chunk a second time leaves the same children as running it once |
| Variations.MaterialisedSplit | octowpfinal.php:469-484 | Materialising two adjacent ranges is materialising their union |
| Variations.ResumedPass | octowpfinal.php:457-484 | Resuming at a later offset keeps the existing children and appends the variations of the remaining combinations |
| Variations.FullPass | octowpfinal.php:437-484 | A pass from offset 0 leaves exactly one variation per combination, in generator order, and nothing else |
| Variations.FullPassIdempotent | octowpfinal.php:437-484 | Repeating a full pass leaves the same children |
| Variations.FullPassContents | octowpfinal.php:469-484 | After a full pass, child k is the variation of combination k: its attributes and base plus deltas |
| Variations.FullPassDistinctAssignments | octowpfinal.php:469-484 | With no repeated values and distinct slugs, no two children carry the same attribute assignment |
| Protocol.Clamp | octowpfinal.php:216-217 | The posted offset becomes max(0, raw) |
| Protocol.MoreProducts | octowpfinal.php:243 | True only against a counted total, and then exactly when the next offset is below it |
| Protocol.Respond | octowpfinal.php:216-258 | Always a success answer. With more variations, the product exists and the answer keeps its offset, adds 20 to the variation offset and reports more products; otherwise the variation offset is 0, and for an existing product the offset moves to the next one with `has_more_products` from `MoreProducts` |
| Protocol.ProductStep | octowpfinal.php:489-498 | A missing or optionless product finishes at once; otherwise more remain iff vo + 20 < total, with next offset vo + 20, and the in-progress message names the window |
| Protocol.Advance | octowpfinal.php:241-250 | A finished product moves to (off + 1, 0) with has_more_products = off + 1 < total; otherwise the cursor stays on off with the reported offset and has_more_products true |
| Protocol.CursorAdvance | octowpfinal.php:216-250 | Negative inputs are clamped to 0; past the catalogue the answer is "No more products" at (0, 0) with both flags false; otherwise the advance rules above hold |
| Protocol.CompletionSignal | octowpfinal.php:227-250 | has_more_products is false exactly past the catalogue, or when the last product's last chunk is done |
| Protocol.VariationsFinished | octowpfinal.php:489-490 | has_more_variations is false exactly when the chunk reaches the end of the combinations, or the product has no combinations to step through |
| Driver.Next | octowpfinal.php:164-181 | A transport failure reposts the same cursor; an error response halts with its message; the run is done exactly on a success with both flags false; otherwise it posts the returned offset, with the returned variation offset only when more variations remain |
| Driver.RetryKeepsCursor | octowpfinal.php:178-181 | Any number of transport failures leaves the client posting the identical cursor |
| Driver.ErrorHalts | octowpfinal.php:165-167 | An error response stops the client with that message |
| Driver.NextCursorDecreases | octowpfinal.php:164-177 | Every successful step moves to a later product, or keeps the product with fewer combinations left, so a run ends |
| Driver.VisitsInProgress | octowpfinal.php:170-171 | A step with more variations is followed by the same product at the next variation offset |
| Driver.VisitsFinished | octowpfinal.php:172-176 | A finished product is followed by the next product at offset 0 when has_more_products holds, and by the end of the run otherwise |
| Driver.VisitsFrom | octowpfinal.php:157-182 | Against the product count, a run from (off, vo) visits the remaining chunks of that product, then every chunk of every later product |
| Driver.VisitsEveryProduct | octowpfinal.php:155-182 | A run from (0, 0) with the product count visits every chunk of every product, in order, and nothing else |
| Driver.VisitsStopAfterFirstProduct | octowpfinal.php:243 | Against the unassigned count, a run stops after the product it started on |
| Driver.UnsetTotalCounterexample | octowpfinal.php:243 | Two optionless products: the unassigned count visits only (0, 0); the product count visits (0, 0) and (1, 0) |
| Driver.ThreeChunkProduct | octowpfinal.php:489-498 | A product with 45 combinations takes the steps at 0, 20 and 40, and only the third finishes |
| Store.LinkingKeepsCatalogue | octowpfinal.php:297-333 | Linking products that exist in the source changes no product's kind, so every step sees the same catalogue |
| Store.WithAttribute | octowpfinal.php:505-527 | Registering an attribute adds its slug with the label only when absent, and keeps every existing attribute and label |
| Store.WithTermsGrows | octowpfinal.php:428-433 | Term registration keeps every attribute, term and assignment, and afterwards every value is a term of the taxonomy assigned to the product |
| Store.WithTermsNoop | octowpfinal.php:429-432 | When every value is already a term and already assigned, term registration changes nothing |
| Store.RegisteredGrowsAndCovers | octowpfinal.php:423-434 | Registration keeps everything already registered, and afterwards every option's attribute, terms and assignments are present |
| Store.RegisteredNoop | octowpfinal.php:423-434 | Registration on a registry that already covers the option map changes nothing |
| Store.RegistrationIdempotent | octowpfinal.php:423-434 | Registering the same option map twice equals registering it once |
| Store.AttributeRegistrationIdempotent | octowpfinal.php:505-507 | A second registration of a slug keeps the first label |
| Store.BuildSchema | octowpfinal.php:441-451 | One declaration per option, in map order: taxonomy `pa_<slug>`, the option's values, visible and used for variations |
| Store.VariationsMatchSchema | octowpfinal.php:441-478 | The parent declares `pa_<slug>`, which is not the bare slug; every variation records under the bare slug one of the values declared for that option |
| Store.Resolve | octowpfinal.php:297-333 | The product is found exactly when it ends up linked, and the link names the post returned; a linked or missing product leaves the store unchanged; a created product gets the next post id, the source model as its title, the source price as its regular price, and no children |
| Store.ResolveLinks | octowpfinal.php:297-333 | Locating keeps every link and consistency; it adds a link only for this product and only when the source has it, and a new product gets a fresh post id with no children |
| Store.ChunkedShape | octowpfinal.php:423-484 | With options: links, titles and prices are unchanged; registration is applied; offset 0 makes the product variable with its schema; the children become `AfterChunk` of the old children |
| Store.StepKeepsConsistent | octowpfinal.php:294-500 | A step keeps the store consistent and changes links only by locating the product |
| Store.ChunkedKeepsConsistent | octowpfinal.php:423-484 | Registration, reset and chunk creation keep the store consistent and leave the links alone |
| Store.StepWithOptions | octowpfinal.php:294-484 | A step on a located product with options keeps what was registered, covers its options, resets on offset 0 only, and sets the product's children to `AfterChunk` of the old ones |
| Store.StepWithoutOptions | octowpfinal.php:311-317 | A missing product or one without options changes nothing beyond locating it |
| Store.StoreSteps | octowpfinal.php:461-499 | The steps of a linked product with options, each posted the next variation offset the one before reported, keep its link and regular price and leave it `Pass` of its children at that price |
| Store.StoreFullPass | octowpfinal.php:294-499 | A run of one product's steps from variation offset 0 leaves it exactly one variation per combination, in generator order, priced from its regular price (the source price when the run creates the product) |
| Store.StoreRetryDuplicates | octowpfinal.php:178-180 | A step of a linked product posted again at an offset past 0 leaves its old children followed by the chunk's variations twice |
| Store.StepKeepsCatalogue | octowpfinal.php:294-500 | A step does not change how any ranked product presents itself to later steps |
| Store.RespondAt | octowpfinal.php:239-258 | The step's answer for the product at the clamped offset is the cursor advance of that product's result |
| Store.TargetCatalog.constructor | octowpfinal.php:297-304 | The store starts consistent and empty: no source product is linked (so the lookup finds none), no post, attribute, term, assignment, declaration or child exists, and the next post id is 0 |
| Store.TargetCatalog.RegisterGlobalAttribute | octowpfinal.php:505-527 | Creates the attribute with its label only when the slug is absent |
| Store.TargetCatalog.RegisterOptions | octowpfinal.php:423-434 | The loop over options leaves the registry equal to `Registered` of the old one, and changes nothing else |
| Store.TargetCatalog.RegisterTerms | octowpfinal.php:428-433 | The loop over an option's values leaves the registry equal to `WithTerms` of the old one |
| Store.TargetCatalog.ResolveProduct | octowpfinal.php:297-333 | Finds the linked post, or creates one from the source row (title, regular price, no children), or reports a missing product, as `Resolve` does |
| Store.TargetCatalog.ResetVariable | octowpfinal.php:436-459 | Makes the product variable, stores its declarations and deletes every existing child |
| Store.TargetCatalog.CreateVariations | octowpfinal.php:469-484 | Appends one variation per combination of the chunk, in chunk order, to the product's children |
| Store.TargetCatalog.ProcessChunk | octowpfinal.php:461-499 | Appends the variations of the chunk at `vo`, priced from the product's current regular price, and reports the progress of `ProductStep` |
| Store.TargetCatalog.ProcessOptions | octowpfinal.php:423-499 | Registration, the first-chunk reset and the chunk together give the store `Chunked` of the old one |
| Store.TargetCatalog.ProcessLinked | octowpfinal.php:383-499 | No options reports "No options" and changes nothing; otherwise the store becomes `Chunked` of the old one |
| Store.TargetCatalog.ProcessProduct | octowpfinal.php:294-500 | Keeps the store consistent, reports `ProductStep` of the product's kind, and leaves the store at `Step` of the old one |
| Store.TargetCatalog.AjaxProcessOne | octowpfinal.php:204-264 | Without credentials: an error and no change. Otherwise: the answer is `Respond` on the ranked catalogue against the product count, the store becomes `Step` for the product at the clamped offset (no change past the end), and the catalogue later steps see is unchanged |

## Left out

- Descriptions, categories, the brand and the image are not modelled (octowpfinal.php:326-381). Descriptions are overwritten on every step (octowpfinal.php:342-346). Categories are replaced only when the product has at least one (octowpfinal.php:365-367). The brand term is appended to `pa_brand` (octowpfinal.php:381). The image is fetched only when the product is created (octowpfinal.php:326-332 inside :304). None of these feeds the option map, the combinations, the prices or the cursor.
- The WordPress wiring is left out: hooks, settings, menu pages and page markup. So are the mysqli connection and its queries, which are replaced by the `Source` value.
- The WooCommerce and WordPress object calls are modelled as updates of `TargetCatalog` fields: post insertion, meta updates, `WC_Product_Variable`, term assignment and attribute creation. Their persistence and save hooks are not modelled.
- Prices are integer cents, not `floatval` floats, so sums are exact.
- `Options.Delta` reads a label missing from an option's price table as 0, as PHP reads the missing key as null. This default never fires for a generated combination (`Variations.DeltaNeverDefaults`).
- `sanitize_title` is the opaque parameter `slugOf`. `sanitize_text_field` is the identity on titles (octowpfinal.php:320). `wp_kses_post` applies only to the description and excerpt, which are not modelled.
- Messages are a datatype; their text formatting is not modelled.
- `intval` of the POST fields is modelled as an integer input, which is then clamped. Parsing of non-numeric strings is not modelled.
- Timing is not modelled: `setTimeout` delays and `set_time_limit`. `ignore_user_abort` is modelled only in what it implies: a step runs to its end whether or not its answer arrives.
- Driver.Next: a transport failure carries no record of whether the server completed the step, so the client state machine cannot tell a lost request from a lost answer. The store-side effect of a retry after a completed step is stated separately by `Store.StoreRetryDuplicates`.
- Concurrent runs are not modelled, and neither are thrown exceptions (`Throwable`, octowpfinal.php:260-263) or partial failure inside a step.
- Store.TargetCatalog.AjaxProcessOne: it compares against the number of ranked products, which is the evidently intended count, not the unassigned field of the code as written. `Driver.VisitsStopAfterFirstProduct` models the code as written.
- Store.PriceIn: it takes the base price to be the `_regular_price` meta written when the product was created (octowpfinal.php:325). The code reads it through `WC_Product_Variable::get_regular_price()` (octowpfinal.php:468). WooCommerce's lookup of that meta is not part of this model.
- Store.TargetCatalog.ProcessLinked: the brand attribute registered on every step (octowpfinal.php:380) is part of the attribute registry in the code, but not in the model.

## Findings

| source | as written | input that shows it | evidently intended | confidence | as-written member | corrected member |
|---|---|---|---|---|---|---|
| octowpfinal.php:243 | `has_more_products` compares `off + 1` with `$this->total`. That field is assigned only when the sync page renders (octowpfinal.php:128), never on the AJAX request, so the comparison is with null and is always false. A run therefore stops after the product it starts on | Two ranked products without options, run from (0, 0): the first step answers `has_more_products = false` and product 2 is never visited | `has_more_products = off + 1 < number of ranked products` | high; not executed | Driver.UnsetTotalCounterexample | Driver.VisitsEveryProduct |
