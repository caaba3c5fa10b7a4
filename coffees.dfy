/**
 * The in-memory logic of the coffee catalog collection: turning a stored,
 * possibly sparse document into a full product with defaults, the
 * catalog's filter-then-sort query, the field patch an update writes, and
 * the active/total count. Database reads and writes are parameters: a
 * query's result is passed in as a sequence, the collection as a map from
 * document id to fields, and the server clock as a number.
 */
module Coffees {
  import opened Wrappers
  import opened JsStrings
  import opened Seqs

  // ---------------------------------------------------------------- products

  /** The three warehouses a lot can be priced at. */
  const AddisAbaba := "addis_ababa"
  const Trieste := "trieste"
  const Genoa := "genoa"
  const Locations: set<string> := {AddisAbaba, Trieste, Genoa}

  const OutOfStock := "out_of_stock"
  const DefaultPaymentTerms := "LC/CAD"
  const DefaultBagSize := "60 KG GrainPro"

  /** The delivery terms a location gets when its document gives none. */
  function DefaultTerms(location: string): string {
    if location == AddisAbaba then "FOB Djibouti" else "EXW"
  }

  /** One location's price entry as stored: any field may be missing. */
  datatype PricingDoc = PricingDoc(
    pricePerLb: Option<real>,
    availability: Option<string>,
    availabilityPeriod: Option<string>,
    terms: Option<string>,
    paymentTerms: Option<string>,
    updatedAt: Option<int>)

  const NoPricing := PricingDoc(None, None, None, None, None, None)

  /** A stored coffee document; a missing `pricing` object is the empty map. */
  datatype CoffeeDoc = CoffeeDoc(
    name: string,
    station: string,
    region: string,
    grade: string,
    preparation: string,
    cropYear: string,
    certification: string,
    scaScore: string,
    tastingNotes: Option<seq<string>>,
    bagSize: Option<string>,
    referenceCode: string,
    isTopLot: Option<bool>,
    imageUrl: Option<string>,
    images: Option<seq<string>>,
    videos: Option<seq<string>>,
    isActive: Option<bool>,
    displayOrder: Option<int>,
    pricing: map<string, PricingDoc>,
    createdAt: Option<int>,
    updatedAt: Option<int>)

  datatype Pricing = Pricing(
    location: string,
    pricePerLb: real,
    availability: string,
    availabilityPeriod: string,
    terms: string,
    paymentTerms: string,
    updatedAt: int)

  datatype CoffeeProduct = CoffeeProduct(
    id: string,
    name: string,
    station: string,
    region: string,
    grade: string,
    preparation: string,
    cropYear: string,
    certification: string,
    scaScore: string,
    tastingNotes: seq<string>,
    bagSize: string,
    referenceCode: string,
    isTopLot: bool,
    imageUrl: Option<string>,
    images: seq<string>,
    videos: seq<string>,
    isActive: bool,
    displayOrder: int,
    pricing: map<string, Pricing>,
    createdAt: int,
    updatedAt: int)

  /** `value || fallback` on a string: missing and empty both give the fallback. */
  function OrText(value: Option<string>, fallback: string): string {
    if value.Some? && value.value != "" then value.value else fallback
  }

  /** `value || 0` on a number (0 itself is falsy, so it gives 0 either way). */
  function OrZero(value: Option<real>): real {
    if value.Some? && value.value != 0.0 then value.value else 0.0
  }

  /** The stored entry for `location`, all fields missing when there is none. */
  function PricingDocAt(d: CoffeeDoc, location: string): PricingDoc {
    if location in d.pricing then d.pricing[location] else NoPricing
  }

  /** One entry of the pricing record `docToCoffee` builds. */
  function PricingAt(d: CoffeeDoc, location: string, now: int): Pricing {
    var p := PricingDocAt(d, location);
    Pricing(
      location,
      OrZero(p.pricePerLb),
      OrText(p.availability, OutOfStock),
      OrText(p.availabilityPeriod, ""),
      OrText(p.terms, DefaultTerms(location)),
      OrText(p.paymentTerms, DefaultPaymentTerms),
      p.updatedAt.GetOr(now))
  }

  /**
   * What every product read from the database satisfies: priced at exactly
   * the three locations, each entry naming its own location, and no empty
   * text where a default exists.
   */
  predicate WellFormed(c: CoffeeProduct) {
    && c.pricing.Keys == Locations
    && c.bagSize != ""
    && forall loc :: loc in c.pricing ==>
         && c.pricing[loc].location == loc
         && c.pricing[loc].availability != ""
         && c.pricing[loc].terms != ""
         && c.pricing[loc].paymentTerms != ""
  }

  /** `docToCoffee`: a full product from a sparse document; `now` is the clock's reading. */
  function DocToCoffee(id: string, d: CoffeeDoc, now: int): (c: CoffeeProduct)
    ensures c.id == id
    ensures WellFormed(c)
  {
    CoffeeProduct(
      id, d.name, d.station, d.region, d.grade, d.preparation, d.cropYear,
      d.certification, d.scaScore,
      d.tastingNotes.GetOr([]),
      OrText(d.bagSize, DefaultBagSize),
      d.referenceCode,
      d.isTopLot.Some? && d.isTopLot.value,
      d.imageUrl,
      d.images.GetOr([]),
      d.videos.GetOr([]),
      d.isActive.GetOr(true),
      if d.displayOrder.Some? && d.displayOrder.value != 0 then d.displayOrder.value else 0,
      map loc | loc in Locations :: PricingAt(d, loc, now),
      d.createdAt.GetOr(now),
      d.updatedAt.GetOr(now))
  }

  /** The document a product is stored as: every field written. */
  function ToDoc(c: CoffeeProduct): CoffeeDoc {
    CoffeeDoc(
      c.name, c.station, c.region, c.grade, c.preparation, c.cropYear,
      c.certification, c.scaScore, Some(c.tastingNotes), Some(c.bagSize),
      c.referenceCode, Some(c.isTopLot), c.imageUrl, Some(c.images), Some(c.videos),
      Some(c.isActive), Some(c.displayOrder),
      map loc | loc in c.pricing :: PricingToDoc(c.pricing[loc]),
      Some(c.createdAt), Some(c.updatedAt))
  }

  function PricingToDoc(p: Pricing): PricingDoc {
    PricingDoc(Some(p.pricePerLb), Some(p.availability), Some(p.availabilityPeriod),
      Some(p.terms), Some(p.paymentTerms), Some(p.updatedAt))
  }

  /** A well-formed product that is stored and read back comes back unchanged, whatever the clock says. */
  lemma ReadBackStored(c: CoffeeProduct, now: int)
    requires WellFormed(c)
    ensures DocToCoffee(c.id, ToDoc(c), now) == c
  {
    var d := ToDoc(c);
    var r := DocToCoffee(c.id, d, now);
    forall loc | loc in Locations
      ensures PricingAt(d, loc, now) == c.pricing[loc]
    {
      assert PricingDocAt(d, loc) == PricingToDoc(c.pricing[loc]);
    }
    assert r.pricing == c.pricing;
  }

  /** Reading is a normalisation: storing a product that was read and reading it again changes nothing. */
  lemma ReadIsIdempotent(id: string, d: CoffeeDoc, now: int, later: int)
    ensures DocToCoffee(id, ToDoc(DocToCoffee(id, d, now)), later) == DocToCoffee(id, d, now)
  {
    ReadBackStored(DocToCoffee(id, d, now), later);
  }

  /** A location the document does not price gets every default. */
  lemma UnpricedLocationDefaults(id: string, d: CoffeeDoc, now: int, loc: string)
    requires loc in Locations && loc !in d.pricing
    ensures DocToCoffee(id, d, now).pricing[loc] ==
      Pricing(loc, 0.0, "out_of_stock", "", DefaultTerms(loc), "LC/CAD", now)
    ensures DefaultTerms(AddisAbaba) == "FOB Djibouti"
    ensures DefaultTerms(Trieste) == "EXW" && DefaultTerms(Genoa) == "EXW"
  {
  }

  /** Each pricing field falls back to its default when missing or falsy and is kept otherwise. */
  lemma PricingFieldDefaults(id: string, d: CoffeeDoc, now: int, loc: string)
    requires loc in Locations
    ensures var p := PricingDocAt(d, loc);
      var r := DocToCoffee(id, d, now).pricing[loc];
      && r.location == loc
      && (p.pricePerLb.Some? ==> r.pricePerLb == p.pricePerLb.value)
      && (p.pricePerLb.None? ==> r.pricePerLb == 0.0)
      && (p.availability.Some? && p.availability.value != "" ==> r.availability == p.availability.value)
      && (p.availability.None? || p.availability == Some("") ==> r.availability == OutOfStock)
      && (p.terms.Some? && p.terms.value != "" ==> r.terms == p.terms.value)
      && (p.terms.None? || p.terms == Some("") ==> r.terms == DefaultTerms(loc))
      && (p.paymentTerms.Some? && p.paymentTerms.value != "" ==> r.paymentTerms == p.paymentTerms.value)
      && (p.paymentTerms.None? || p.paymentTerms == Some("") ==> r.paymentTerms == DefaultPaymentTerms)
      && (p.availabilityPeriod.Some? ==> r.availabilityPeriod == p.availabilityPeriod.value)
      && (p.availabilityPeriod.None? ==> r.availabilityPeriod == "")
      && (p.updatedAt.Some? ==> r.updatedAt == p.updatedAt.value)
      && (p.updatedAt.None? ==> r.updatedAt == now)
  {
  }

  /**
   * The product-level fields: the pass-through fields are copied, each
   * defaulted field keeps a present value and falls back when missing, and
   * an explicit `false` survives for `isActive` while a missing one means active.
   */
  lemma ProductFieldDefaults(id: string, d: CoffeeDoc, now: int)
    ensures var c := DocToCoffee(id, d, now);
      && c.name == d.name && c.station == d.station && c.region == d.region
      && c.grade == d.grade && c.preparation == d.preparation && c.cropYear == d.cropYear
      && c.certification == d.certification && c.scaScore == d.scaScore
      && c.referenceCode == d.referenceCode && c.imageUrl == d.imageUrl
      && (c.isActive <==> d.isActive != Some(false))
      && (c.isTopLot <==> d.isTopLot == Some(true))
      && (d.tastingNotes.Some? ==> c.tastingNotes == d.tastingNotes.value)
      && (d.tastingNotes.None? ==> c.tastingNotes == [])
      && (d.images.Some? ==> c.images == d.images.value) && (d.images.None? ==> c.images == [])
      && (d.videos.Some? ==> c.videos == d.videos.value) && (d.videos.None? ==> c.videos == [])
      && (d.bagSize.None? || d.bagSize == Some("") ==> c.bagSize == DefaultBagSize)
      && (d.bagSize.Some? && d.bagSize.value != "" ==> c.bagSize == d.bagSize.value)
      && c.displayOrder == d.displayOrder.GetOr(0)
      && (d.createdAt.Some? ==> c.createdAt == d.createdAt.value)
      && (d.createdAt.None? ==> c.createdAt == now)
      && (d.updatedAt.Some? ==> c.updatedAt == d.updatedAt.value)
      && (d.updatedAt.None? ==> c.updatedAt == now)
  {
  }

  // ---------------------------------------------------------------- catalog query

  /** The catalog's criteria; an absent list is the empty list. */
  datatype Filters = Filters(
    regions: seq<string>,
    grades: seq<string>,
    preparations: seq<string>,
    certifications: seq<string>,
    flavors: seq<string>,
    availability: seq<string>,
    locations: seq<string>)

  /** The sort orders the model covers; the default is `Position`. */
  datatype SortOption = Position | ScaScore | PriceAsc | PriceDesc

  /** Case-insensitive substring match, as `a.toLowerCase().includes(b.toLowerCase())`. */
  predicate Mentions(text: string, term: string) {
    Contains(Lower(text), Lower(term))
  }

  predicate RegionMatches(c: CoffeeProduct, regions: seq<string>) {
    exists r :: r in regions && Mentions(c.region, r)
  }

  predicate CertificationMatches(c: CoffeeProduct, certifications: seq<string>) {
    exists cert :: cert in certifications && Mentions(c.certification, cert)
  }

  predicate FlavorMatches(c: CoffeeProduct, flavors: seq<string>) {
    exists note, flavor :: note in c.tastingNotes && flavor in flavors && Mentions(note, flavor)
  }

  predicate AvailabilityMatches(c: CoffeeProduct, availability: seq<string>) {
    exists loc :: loc in c.pricing && c.pricing[loc].availability in availability
  }

  /** Some selected location is not out of stock; a location without an entry counts as in stock. */
  predicate LocationMatches(c: CoffeeProduct, locations: seq<string>) {
    exists loc :: loc in locations && (loc !in c.pricing || c.pricing[loc].availability != OutOfStock)
  }

  /**
   * Everything the query keeps: a coffee passes each criterion that is
   * given (non-empty), and an empty criterion passes everything.
   */
  predicate Admits(f: Filters, c: CoffeeProduct) {
    && (|f.regions| == 0 || RegionMatches(c, f.regions))
    && (|f.grades| == 0 || c.grade in f.grades)
    && (|f.preparations| == 0 || c.preparation in f.preparations)
    && (|f.certifications| == 0 || CertificationMatches(c, f.certifications))
    && (|f.flavors| == 0 || FlavorMatches(c, f.flavors))
    && (|f.availability| == 0 || AvailabilityMatches(c, f.availability))
    && (|f.locations| == 0 || LocationMatches(c, f.locations))
  }

  /** The coffees the query keeps, in their original order. */
  function Selected(coffees: seq<CoffeeProduct>, f: Filters): seq<CoffeeProduct> {
    Filter(coffees, c => Admits(f, c))
  }

  function ByRegion(regions: seq<string>): CoffeeProduct -> bool {
    c => RegionMatches(c, regions)
  }

  function ByGrade(grades: seq<string>): CoffeeProduct -> bool {
    (c: CoffeeProduct) => c.grade in grades
  }

  function ByPreparation(preparations: seq<string>): CoffeeProduct -> bool {
    (c: CoffeeProduct) => c.preparation in preparations
  }

  function ByCertification(certifications: seq<string>): CoffeeProduct -> bool {
    c => CertificationMatches(c, certifications)
  }

  function ByFlavor(flavors: seq<string>): CoffeeProduct -> bool {
    c => FlavorMatches(c, flavors)
  }

  function ByAvailability(availability: seq<string>): CoffeeProduct -> bool {
    c => AvailabilityMatches(c, availability)
  }

  function ByLocation(locations: seq<string>): CoffeeProduct -> bool {
    c => LocationMatches(c, locations)
  }

  /** The query's seven filter steps, in the order it applies them. */
  function Stages(f: Filters): seq<Stage<CoffeeProduct>> {
    [ Stage(|f.regions| > 0, ByRegion(f.regions)),
      Stage(|f.grades| > 0, ByGrade(f.grades)),
      Stage(|f.preparations| > 0, ByPreparation(f.preparations)),
      Stage(|f.certifications| > 0, ByCertification(f.certifications)),
      Stage(|f.flavors| > 0, ByFlavor(f.flavors)),
      Stage(|f.availability| > 0, ByAvailability(f.availability)),
      Stage(|f.locations| > 0, ByLocation(f.locations)) ]
  }

  /** Passing every step is being admitted. */
  lemma StagesAdmit(f: Filters, c: CoffeeProduct)
    ensures PassesAll(Stages(f), c) <==> Admits(f, c)
  {
    var st := Stages(f);
    assert st[0].test(c) == RegionMatches(c, f.regions);
    assert st[1].test(c) == (c.grade in f.grades);
    assert st[2].test(c) == (c.preparation in f.preparations);
    assert st[3].test(c) == CertificationMatches(c, f.certifications);
    assert st[4].test(c) == FlavorMatches(c, f.flavors);
    assert st[5].test(c) == AvailabilityMatches(c, f.availability);
    assert st[6].test(c) == LocationMatches(c, f.locations);
    if Admits(f, c) {
      forall i | 0 <= i < |st| ensures !st[i].on || st[i].test(c) {
      }
    }
  }

  /** Keeping what passes every step is keeping exactly the admitted coffees. */
  lemma StagesSelect(coffees: seq<CoffeeProduct>, f: Filters)
    ensures Filter(coffees, c => PassesAll(Stages(f), c)) == Selected(coffees, f)
  {
    forall c ensures PassesAll(Stages(f), c) <==> Admits(f, c) {
      StagesAdmit(f, c);
    }
    FilterAgree(coffees, c => PassesAll(Stages(f), c), c => Admits(f, c));
  }

  /** The sort key each option orders by, ascending. */
  function SortKey(sortBy: SortOption): CoffeeProduct -> real {
    match sortBy
    case Position => (c: CoffeeProduct) => c.displayOrder as real
    case ScaScore => (c: CoffeeProduct) => -(ScoreOf(c.scaScore) as real)
    case PriceAsc => c => AddisPrice(c)
    case PriceDesc => c => -AddisPrice(c)
  }

  /** The Addis Ababa price the price sorts compare. */
  function AddisPrice(c: CoffeeProduct): real {
    if AddisAbaba in c.pricing then c.pricing[AddisAbaba].pricePerLb else 0.0
  }

  /** The filtering half of `filterCoffees`: each given criterion narrows the list in turn. */
  method ApplyFilters(activeCoffees: seq<CoffeeProduct>, filters: Filters)
    returns (filtered: seq<CoffeeProduct>)
    ensures filtered == Selected(activeCoffees, filters)
  {
    filtered := activeCoffees;
    // y1 .. y7 record the list after each step, for the proof.
    ghost var stages := Stages(filters);
    ghost var y0 := filtered;
    if |filters.regions| > 0 {
      filtered := Filter(filtered, ByRegion(filters.regions));
    }
    ghost var y1 := filtered;
    assert y1 == Narrow(y0, stages[0]);
    if |filters.grades| > 0 {
      filtered := Filter(filtered, ByGrade(filters.grades));
    }
    ghost var y2 := filtered;
    assert y2 == Narrow(y1, stages[1]);
    if |filters.preparations| > 0 {
      filtered := Filter(filtered, ByPreparation(filters.preparations));
    }
    ghost var y3 := filtered;
    assert y3 == Narrow(y2, stages[2]);
    if |filters.certifications| > 0 {
      filtered := Filter(filtered, ByCertification(filters.certifications));
    }
    ghost var y4 := filtered;
    assert y4 == Narrow(y3, stages[3]);
    if |filters.flavors| > 0 {
      filtered := Filter(filtered, ByFlavor(filters.flavors));
    }
    ghost var y5 := filtered;
    assert y5 == Narrow(y4, stages[4]);
    if |filters.availability| > 0 {
      filtered := Filter(filtered, ByAvailability(filters.availability));
    }
    ghost var y6 := filtered;
    assert y6 == Narrow(y5, stages[5]);
    if |filters.locations| > 0 {
      filtered := Filter(filtered, ByLocation(filters.locations));
    }
    ghost var y7 := filtered;
    assert y7 == Narrow(y6, stages[6]);
    CascadeOfSeven(activeCoffees, stages, y1, y2, y3, y4, y5, y6, y7);
    StagesSelect(activeCoffees, filters);
  }

  /**
   * `filterCoffees` over the active coffees the database returned: each
   * given criterion narrows the list in turn, then the list is sorted
   * stably by the chosen order.
   */
  method FilterCoffees(activeCoffees: seq<CoffeeProduct>, filters: Filters, sortBy: SortOption)
    returns (result: seq<CoffeeProduct>)
    ensures forall c :: c in result <==> c in activeCoffees && Admits(filters, c)
    ensures multiset(result) == multiset(Selected(activeCoffees, filters))
    ensures sortBy == Position ==>
      forall i, j :: 0 <= i < j < |result| ==> result[i].displayOrder <= result[j].displayOrder
    ensures sortBy == ScaScore ==>
      forall i, j :: 0 <= i < j < |result| ==> ScoreOf(result[i].scaScore) >= ScoreOf(result[j].scaScore)
    ensures sortBy == PriceAsc ==>
      forall i, j :: 0 <= i < j < |result| ==> AddisPrice(result[i]) <= AddisPrice(result[j])
    ensures sortBy == PriceDesc ==>
      forall i, j :: 0 <= i < j < |result| ==> AddisPrice(result[i]) >= AddisPrice(result[j])
    ensures forall k :: Filter(result, KeyIs(SortKey(sortBy), k))
                        == Filter(Selected(activeCoffees, filters), KeyIs(SortKey(sortBy), k))
  {
    var filtered := ApplyFilters(activeCoffees, filters);
    result := SortBy(filtered, SortKey(sortBy));
    QueryResult(activeCoffees, filters, sortBy);
  }

  /** What the query returns: the admitted coffees, each once, in the chosen order, ties in input order. */
  lemma QueryResult(coffees: seq<CoffeeProduct>, f: Filters, sortBy: SortOption)
    ensures var result := SortBy(Selected(coffees, f), SortKey(sortBy));
      && (forall c :: c in result <==> c in coffees && Admits(f, c))
      && multiset(result) == multiset(Selected(coffees, f))
      && (sortBy == Position ==>
           forall i, j :: 0 <= i < j < |result| ==> result[i].displayOrder <= result[j].displayOrder)
      && (sortBy == ScaScore ==>
           forall i, j :: 0 <= i < j < |result| ==> ScoreOf(result[i].scaScore) >= ScoreOf(result[j].scaScore))
      && (sortBy == PriceAsc ==>
           forall i, j :: 0 <= i < j < |result| ==> AddisPrice(result[i]) <= AddisPrice(result[j]))
      && (sortBy == PriceDesc ==>
           forall i, j :: 0 <= i < j < |result| ==> AddisPrice(result[i]) >= AddisPrice(result[j]))
      && (forall k :: Filter(result, KeyIs(SortKey(sortBy), k))
                      == Filter(Selected(coffees, f), KeyIs(SortKey(sortBy), k)))
  {
    SortedSelection(Selected(coffees, f), sortBy);
    FilterMembers(coffees, c => Admits(f, c));
  }

  /** What sorting by an option's key gives: the same coffees, in that option's order, ties in input order. */
  lemma SortedSelection(xs: seq<CoffeeProduct>, sortBy: SortOption)
    ensures var r := SortBy(xs, SortKey(sortBy));
      && multiset(r) == multiset(xs)
      && (forall c :: c in r <==> c in xs)
      && (forall k :: Filter(r, KeyIs(SortKey(sortBy), k)) == Filter(xs, KeyIs(SortKey(sortBy), k)))
      && (sortBy == Position ==>
           forall i, j :: 0 <= i < j < |r| ==> r[i].displayOrder <= r[j].displayOrder)
      && (sortBy == ScaScore ==>
           forall i, j :: 0 <= i < j < |r| ==> ScoreOf(r[i].scaScore) >= ScoreOf(r[j].scaScore))
      && (sortBy == PriceAsc ==>
           forall i, j :: 0 <= i < j < |r| ==> AddisPrice(r[i]) <= AddisPrice(r[j]))
      && (sortBy == PriceDesc ==>
           forall i, j :: 0 <= i < j < |r| ==> AddisPrice(r[i]) >= AddisPrice(r[j]))
  {
    var key := SortKey(sortBy);
    var r := SortBy(xs, key);
    forall k ensures Filter(r, KeyIs(key, k)) == Filter(xs, KeyIs(key, k)) {
      SortByStable(xs, key, k);
    }
    forall c ensures c in r <==> c in xs {
      assert c in r <==> c in multiset(r);
    }
    forall i, j | 0 <= i < j < |r| ensures key(r[i]) <= key(r[j]) {
    }
  }

  /** An empty criterion list never removes anything. */
  lemma NoCriteriaKeepsAll(coffees: seq<CoffeeProduct>)
    ensures Selected(coffees, Filters([], [], [], [], [], [], [])) == coffees
  {
    FilterKeepsAll(coffees, c => Admits(Filters([], [], [], [], [], [], []), c));
  }

  /** The query only removes coffees and keeps the rest in their original order. */
  lemma SelectionKeepsOrder(coffees: seq<CoffeeProduct>, f: Filters)
    ensures SubseqOf(Selected(coffees, f), coffees)
    ensures |Selected(coffees, f)| <= |coffees|
  {
    FilterIsSubseq(coffees, c => Admits(f, c));
  }

  /** A case-sensitive match already counts: the text filters only ever widen by ignoring case. */
  lemma ExactRegionMatches(c: CoffeeProduct, r: string, regions: seq<string>)
    requires r in regions && Contains(c.region, r)
    ensures RegionMatches(c, regions)
  {
    ContainsLower(c.region, r);
  }

  /** A product read from the database passes any location filter naming a location it holds in stock. */
  lemma InStockPassesLocation(c: CoffeeProduct, locations: seq<string>, loc: string)
    requires loc in locations && loc in c.pricing && c.pricing[loc].availability != OutOfStock
    ensures LocationMatches(c, locations)
  {
  }

  /** Once read, every product is priced at all three locations, so `AddisPrice` is its real price. */
  lemma ReadProductsArePriced(id: string, d: CoffeeDoc, now: int)
    ensures AddisAbaba in DocToCoffee(id, d, now).pricing
    ensures AddisPrice(DocToCoffee(id, d, now)) == OrZero(PricingDocAt(d, AddisAbaba).pricePerLb)
  {
  }

  // ---------------------------------------------------------------- updates and counts

  /** The message the database gives when the document to update does not exist. */
  const NoDocumentToUpdate := "No document to update"

  /** The fields `updateCoffee` writes: the patch without `id` and `createdAt`, stamped with `updatedAt`. */
  function UpdatePayload<V>(patch: map<string, V>, stamp: V): (r: map<string, V>)
    ensures "id" !in r && "createdAt" !in r
    ensures r.Keys == patch.Keys - {"id", "createdAt"} + {"updatedAt"}
    ensures r["updatedAt"] == stamp
    ensures forall k :: k in r && k != "updatedAt" ==> r[k] == patch[k]
  {
    (map k | k in patch && k != "id" && k != "createdAt" :: patch[k])["updatedAt" := stamp]
  }

  /**
   * `updateCoffee` on a collection held as a map from document id to its
   * fields: the payload's fields are merged into the document, which must
   * already exist.
   */
  function UpdateCoffee<V>(db: map<string, map<string, V>>, coffeeId: string, patch: map<string, V>, stamp: V)
    : (r: Result<map<string, map<string, V>>>)
    ensures r.Failure? <==> coffeeId !in db
    ensures r.Success? ==> r.value.Keys == db.Keys
    ensures r.Success? ==> forall id :: id in db && id != coffeeId ==> r.value[id] == db[id]
    ensures r.Success? ==>
      r.value[coffeeId].Keys == db[coffeeId].Keys + (patch.Keys - {"id", "createdAt"}) + {"updatedAt"}
    ensures r.Success? ==>
      var before, after := db[coffeeId], r.value[coffeeId];
      && "updatedAt" in after && after["updatedAt"] == stamp
      && ("createdAt" in after <==> "createdAt" in before)
      && ("createdAt" in before ==> after["createdAt"] == before["createdAt"])
      && ("id" in after <==> "id" in before)
      && ("id" in before ==> after["id"] == before["id"])
      && (forall k :: k in patch && k != "id" && k != "createdAt" && k != "updatedAt" ==> k in after && after[k] == patch[k])
      && (forall k :: k in before && k !in patch && k != "updatedAt" ==> k in after && after[k] == before[k])
  {
    if coffeeId !in db then Failure(NoDocumentToUpdate)
    else Success(db[coffeeId := db[coffeeId] + UpdatePayload(patch, stamp)])
  }

  /** `toggleCoffeeActive` writes only the flag and the stamp. */
  lemma ToggleActiveWritesFlag<V>(db: map<string, map<string, V>>, coffeeId: string, flag: V, stamp: V)
    requires coffeeId in db
    ensures var r := UpdateCoffee(db, coffeeId, map["isActive" := flag], stamp);
      r.Success? && r.value[coffeeId]["isActive"] == flag
      && r.value[coffeeId].Keys == db[coffeeId].Keys + {"isActive", "updatedAt"}
  {
  }

  /** `updateCoffeeOrder` likewise writes only the display position and the stamp. */
  lemma UpdateOrderWritesPosition<V>(db: map<string, map<string, V>>, coffeeId: string, order: V, stamp: V)
    requires coffeeId in db
    ensures var r := UpdateCoffee(db, coffeeId, map["displayOrder" := order], stamp);
      r.Success? && r.value[coffeeId]["displayOrder"] == order
      && r.value[coffeeId].Keys == db[coffeeId].Keys + {"displayOrder", "updatedAt"}
  {
  }

  datatype CoffeeCount = CoffeeCount(total: nat, active: nat)

  function IsActive(c: CoffeeProduct): bool { c.isActive }

  /** The number of active coffees, counted one by one. */
  function ActiveCount(all: seq<CoffeeProduct>): nat {
    if all == [] then 0 else (if all[0].isActive then 1 else 0) + ActiveCount(all[1..])
  }

  /** Filtering by the flag and taking the length counts the active coffees. */
  lemma {:induction false} FilterCountsActive(all: seq<CoffeeProduct>)
    ensures |Filter(all, IsActive)| == ActiveCount(all)
    decreases |all|
  {
    if all != [] {
      FilterCountsActive(all[1..]);
    }
  }

  /** `getCoffeeCount` over every coffee the database holds. */
  function CountCoffees(all: seq<CoffeeProduct>): (r: CoffeeCount)
    ensures r.total == |all|
    ensures r.active == ActiveCount(all)
    ensures r.active <= r.total
    ensures r.active == r.total <==> forall c :: c in all ==> c.isActive
    ensures r.active == 0 <==> forall c :: c in all ==> !c.isActive
  {
    FilterKeepsAll(all, IsActive);
    FilterMembers(all, IsActive);
    FilterCountsActive(all);
    var active := Filter(all, IsActive);
    assert active != [] ==> active[0] in active;
    CoffeeCount(|all|, |active|)
  }
}
