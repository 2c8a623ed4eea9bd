/**
  The writers for LinkedIn companies: the headquarters location, the company fact, and the
  list-valued attributes (updates, similar companies, specialties, locations).

  Updates and similar companies build all their rows first and append them with one insert, so
  an element that raises leaves the warehouse untouched. Specialties and locations resolve a
  dimension row per element and then append the company relationship only when the identical
  pair is absent; the first element that raises ends the writer with the earlier elements written.
 */
module CompanyWriters {
  import opened Wrappers
  import opened Documents
  import opened Warehouse
  import CompanyConvert

  // ---------------------------------------------------------------- headquarters and company

  /**
    The headquarters: nothing for a falsy `hq`, otherwise get-or-create on the four location
    columns. A conversion that raises does so before any lookup.
   */
  function HqLocationSpec(db: Db, doc: Doc): Result<Option<Resolved>> {
    var hq := Get(doc, "hq");
    if !Truthy(hq) then Success(None)
    else match CompanyConvert.Location(hq)
      case Failure(e) => Failure(e)
      case Success(key) => Success(Some(Resolve(db, DIM_LIN_Location, key, key)))
  }

  method HqLocation(dwh: Engine, doc: Doc) returns (r: Result<Option<int>>)
    modifies dwh
    ensures match HqLocationSpec(old(dwh.State()), doc)
      case Failure(e) => r == Failure(e) && dwh.State() == old(dwh.State())
      case Success(None) => r == Success(None) && dwh.State() == old(dwh.State())
      case Success(Some(res)) => r == Success(Some(res.id)) && dwh.State() == res.db
  {
    var hq := Get(doc, "hq");
    if !Truthy(hq) {
      return Success(None);
    }
    var key := CompanyConvert.Location(hq);
    if key.Failure? {
      return Failure(key.error);
    }
    var id := GetOrCreate(dwh, DIM_LIN_Location, key.value, key.value);
    return Success(Some(id));
  }

  /**
    The lookup can never match: one of the two country columns of a converted key is NULL and
    `=` never holds on NULL, so a truthy `hq` always appends a new location row and returns its id.
   */
  lemma HqAlwaysAppends(db: Db, doc: Doc)
    requires Truthy(Get(doc, "hq")) && CompanyConvert.Location(Get(doc, "hq")).Success?
    ensures var key := CompanyConvert.Location(Get(doc, "hq")).value;
      && HqLocationSpec(db, doc) == Success(Some(Resolved(Insert(db, DIM_LIN_Location, key), TableOf(db, DIM_LIN_Location).autoIncrement)))
      && Rows(Insert(db, DIM_LIN_Location, key), DIM_LIN_Location) == Rows(db, DIM_LIN_Location) + [Entry(TableOf(db, DIM_LIN_Location).autoIncrement, key)]
  {
    var key := CompanyConvert.Location(Get(doc, "hq")).value;
    KeyNeverMatches(db, Get(doc, "hq"));
  }

  /** Get-or-create on a converted company location always takes the insert branch. */
  lemma KeyNeverMatches(db: Db, v: Value)
    requires CompanyConvert.Location(v).Success?
    ensures var key := CompanyConvert.Location(v).value;
      && SelectId(db, DIM_LIN_Location, key) == None
      && Resolve(db, DIM_LIN_Location, key, key) == Resolved(Insert(db, DIM_LIN_Location, key), TableOf(db, DIM_LIN_Location).autoIncrement)
  {
    var key := CompanyConvert.Location(v).value;
    CompanyConvert.LocationKeyHasNull(v);
    if key["countryLetters"] == Null {
      NullKeyAlwaysAppends(db, DIM_LIN_Location, key, key, "countryLetters");
    } else {
      NullKeyAlwaysAppends(db, DIM_LIN_Location, key, key, "countryName");
    }
  }

  /** The company insert: one fact row, no lookup; the new id is returned. */
  function CompanySpec(db: Db, doc: Doc, hqId: Value, originId: int): Outcome {
    match CompanyConvert.Company(doc, hqId, Int(originId))
    case Failure(e) => Outcome(db, Some(e))
    case Success(row) => Outcome(Insert(db, FACT_CMP_Company, row), None)
  }

  method WriteCompany(dwh: Engine, doc: Doc, hqId: Value, originId: int) returns (r: Result<int>)
    modifies dwh
    ensures var o := CompanySpec(old(dwh.State()), doc, hqId, originId);
      dwh.State() == o.db && (r.Failure? <==> o.error.Some?) && (r.Failure? ==> r.error == o.error.value)
    ensures r.Success? ==>
      && Rows(dwh.State(), FACT_CMP_Company) == Rows(old(dwh.State()), FACT_CMP_Company)
           + [Entry(r.value, CompanyConvert.Company(doc, hqId, Int(originId)).value)]
      && r.value == TableOf(old(dwh.State()), FACT_CMP_Company).autoIncrement
  {
    var row := CompanyConvert.Company(doc, hqId, Int(originId));
    if row.Failure? {
      return Failure(row.error);
    }
    dwh.ToSql(FACT_CMP_Company, row.value);
    var id := dwh.LastInsertId();
    return Success(id);
  }

  /** The company row always gets a new id: writing the same document twice gives two rows. */
  lemma CompanyNeverDeduplicated(db: Db, doc: Doc, hqId: Value, originId: int)
    requires CompanyConvert.Company(doc, hqId, Int(originId)).Success?
    ensures var once := CompanySpec(db, doc, hqId, originId).db;
      var twice := CompanySpec(once, doc, hqId, originId).db;
      && |Rows(twice, FACT_CMP_Company)| == |Rows(db, FACT_CMP_Company)| + 2
      && Rows(twice, FACT_CMP_Company)[|Rows(db, FACT_CMP_Company)|].row
         == Rows(twice, FACT_CMP_Company)[|Rows(db, FACT_CMP_Company)| + 1].row
  {
  }

  // ---------------------------------------------------------------- updates and similar companies

  /** The attributes whose rows are collected first and appended with one insert. */
  datatype Listing = Updates | SimilarCompanies

  function ListingAttribute(l: Listing): string {
    match l
    case Updates => "updates"
    case SimilarCompanies => "similar_companies"
  }

  function ListingTable(l: Listing): TableName {
    match l
    case Updates => FACT_CMP_Update
    case SimilarCompanies => FACT_CMP_Similar
  }

  /** The row built from one element; the element must be a mapping. */
  function ListingRow(l: Listing, companyId: int, item: Value): Row {
    match l
    case Updates => UpdateRow(companyId, item)
    case SimilarCompanies =>
      map["idCompany" := Int(companyId), "name" := Field(item, "name"),
          "industry" := Field(item, "industry"), "location" := Field(item, "location")]
  }

  function UpdateRow(companyId: int, item: Value): (r: Row)
    ensures "idCompany" in r && r["idCompany"] == Int(companyId)
    ensures "image" in r && (r["image"] == Int(1) <==> Truthy(Field(item, "image")))
    ensures "postedOn" in r && r["postedOn"] == ConvertDate(Field(item, "posted_on"))
  {
    map["idCompany" := Int(companyId), "image" := Flag(Field(item, "image")),
        "postedOn" := ConvertDate(Field(item, "posted_on")), "likes" := Field(item, "total_likes"),
        "text" := Field(item, "text")]
  }

  function ListingRows(l: Listing, companyId: int, xs: seq<Value>): (r: seq<Row>)
    ensures |r| == |xs| && forall k :: 0 <= k < |xs| ==> r[k] == ListingRow(l, companyId, xs[k])
  {
    seq(|xs|, k requires 0 <= k < |xs| => ListingRow(l, companyId, xs[k]))
  }

  /** Collect one row per element, then append them all; an element that is not a mapping raises first. */
  function ListingSpec(l: Listing, db: Db, doc: Doc, companyId: int): Outcome {
    match Guarded(Get(doc, ListingAttribute(l)))
    case Failure(e) => Outcome(db, Some(e))
    case Success(xs) =>
      if AllMappings(xs) then Outcome(InsertAll(db, ListingTable(l), ListingRows(l, companyId, xs)), None)
      else Outcome(db, Some("AttributeError"))
  }

  method WriteListing(dwh: Engine, l: Listing, doc: Doc, companyId: int) returns (error: Option<string>)
    modifies dwh
    ensures Outcome(dwh.State(), error) == ListingSpec(l, old(dwh.State()), doc, companyId)
  {
    var items := Guarded(Get(doc, ListingAttribute(l)));
    if items.Failure? {
      return Some(items.error);
    }
    var xs := items.value;
    var data: seq<Row> := [];
    var i := 0;
    while i < |xs|
      invariant 0 <= i <= |xs|
      invariant AllMappings(xs[..i])
      invariant data == ListingRows(l, companyId, xs[..i])
    {
      if !xs[i].Obj? {
        assert !AllMappings(xs);
        return Some("AttributeError");
      }
      assert xs[..i + 1] == xs[..i] + [xs[i]];
      data := data + [ListingRow(l, companyId, xs[i])];
      i := i + 1;
    }
    assert xs[..i] == xs;
    if data != [] {
      dwh.ToSqlAll(ListingTable(l), data);
    }
    return None;
  }

  /** The table grows by one row per element, in list order, and keeps its earlier rows. */
  lemma ListingAppendsInOrder(l: Listing, db: Db, doc: Doc, companyId: int)
    requires Guarded(Get(doc, ListingAttribute(l))).Success?
    requires AllMappings(Guarded(Get(doc, ListingAttribute(l))).value)
    ensures var xs := Guarded(Get(doc, ListingAttribute(l))).value;
      var before := Rows(db, ListingTable(l));
      var after := Rows(ListingSpec(l, db, doc, companyId).db, ListingTable(l));
      && |after| == |before| + |xs|
      && after[..|before|] == before
      && forall k :: 0 <= k < |xs| ==> after[|before| + k].row == ListingRow(l, companyId, xs[k])
  {
    var xs := Guarded(Get(doc, ListingAttribute(l))).value;
    var t := ListingTable(l);
    var rows := ListingRows(l, companyId, xs);
    assert ListingSpec(l, db, doc, companyId).db == InsertAll(db, t, rows);
    InsertAllAppendsInOrder(db, t, rows);
  }

  /** A falsy list of updates (missing, None or empty) writes nothing and raises nothing. */
  lemma FalsyUpdatesWriteNothing(db: Db, doc: Doc, companyId: int)
    requires !Truthy(Get(doc, "updates"))
    ensures ListingSpec(Updates, db, doc, companyId) == Outcome(db, None)
  {
    assert Guarded(Get(doc, "updates")) == Success([]);
  }

  /** Similar companies are never deduplicated: writing the same list twice appends it twice. */
  lemma SimilarCompaniesNotDeduplicated(db: Db, doc: Doc, companyId: int)
    requires Guarded(Get(doc, "similar_companies")).Success?
    requires AllMappings(Guarded(Get(doc, "similar_companies")).value)
    ensures var xs := Guarded(Get(doc, "similar_companies")).value;
      var once := ListingSpec(SimilarCompanies, db, doc, companyId).db;
      var twice := ListingSpec(SimilarCompanies, once, doc, companyId).db;
      && |Rows(twice, FACT_CMP_Similar)| == |Rows(db, FACT_CMP_Similar)| + 2 * |xs|
      && Rows(twice, FACT_CMP_Similar)[..|Rows(once, FACT_CMP_Similar)|] == Rows(once, FACT_CMP_Similar)
  {
  }

  /** One element that is not a mapping makes the whole list raise before anything is written. */
  lemma ListingAllOrNothing(l: Listing, db: Db, doc: Doc, companyId: int)
    requires Guarded(Get(doc, ListingAttribute(l))).Success?
    ensures var o := ListingSpec(l, db, doc, companyId);
      o.error.Some? <==> !AllMappings(Guarded(Get(doc, ListingAttribute(l))).value)
    ensures var o := ListingSpec(l, db, doc, companyId);
      o.error.Some? ==> o.db == db
  {
  }

  // ---------------------------------------------------------------- specialties and locations

  /** The attributes resolved element by element, each followed by a checked relationship insert. */
  datatype Linked = Specialties | Locations

  function LinkedAttribute(l: Linked): string {
    match l
    case Specialties => "specialities"
    case Locations => "locations"
  }

  /** The specialty key: the stripped name, used both for the lookup and for the insert. */
  function SpecialtyKey(name: string): Row {
    map["name" := Str(Strip(name))]
  }

  function SpecialtyLink(companyId: int, specialtyId: int): Row {
    map["idCompany" := Int(companyId), "idSpecialty" := Int(specialtyId)]
  }

  function LocationLink(companyId: int, locationId: int): Row {
    map["idCompany" := Int(companyId), "idLocation" := Int(locationId)]
  }

  /** One specialty: get-or-create on the stripped name, then link it unless already linked. */
  function SpecialtyStep(db: Db, companyId: int, name: string): Db {
    var r := Resolve(db, DIM_CMP_Specialty, SpecialtyKey(name), SpecialtyKey(name));
    InsertIfAbsent(r.db, REL_CMP_Company_Specialty, SpecialtyLink(companyId, r.id))
  }

  /** One location: get-or-create on the converted key, then link it unless already linked. */
  function LocationStep(db: Db, companyId: int, key: Row): Db {
    var r := Resolve(db, DIM_LIN_Location, key, key);
    InsertIfAbsent(r.db, REL_CMP_Company_Location, LocationLink(companyId, r.id))
  }

  /** One element; `.strip()` on a specialty that is not a string, or `.get` on a location that is not a mapping, raises. */
  function LinkStep(l: Linked, db: Db, companyId: int, item: Value): Outcome {
    match l
    case Specialties =>
      if !item.Str? then Outcome(db, Some("AttributeError"))
      else Outcome(SpecialtyStep(db, companyId, item.s), None)
    case Locations =>
      match CompanyConvert.Location(item)
      case Failure(e) => Outcome(db, Some(e))
      case Success(key) => Outcome(LocationStep(db, companyId, key), None)
  }

  /** The loop over the elements, stopping at the first exception. */
  function LinkRun(l: Linked, db: Db, companyId: int, items: seq<Value>): Outcome
    decreases |items|
  {
    if items == [] then Outcome(db, None)
    else
      var o := LinkRun(l, db, companyId, items[..|items| - 1]);
      if o.error.Some? then o else LinkStep(l, o.db, companyId, items[|items| - 1])
  }

  function LinkSpec(l: Linked, db: Db, doc: Doc, companyId: int): Outcome {
    match Guarded(Get(doc, LinkedAttribute(l)))
    case Failure(e) => Outcome(db, Some(e))
    case Success(xs) => LinkRun(l, db, companyId, xs)
  }

  method WriteLinked(dwh: Engine, l: Linked, companyId: int, item: Value) returns (error: Option<string>)
    modifies dwh
    ensures Outcome(dwh.State(), error) == LinkStep(l, old(dwh.State()), companyId, item)
  {
    match l
    case Specialties =>
      if !item.Str? {
        return Some("AttributeError");
      }
      var key := SpecialtyKey(item.s);
      var id := GetOrCreate(dwh, DIM_CMP_Specialty, key, key);
      InsertUnlessPresent(dwh, REL_CMP_Company_Specialty, SpecialtyLink(companyId, id));
      return None;
    case Locations =>
      var key := CompanyConvert.Location(item);
      if key.Failure? {
        return Some(key.error);
      }
      var id := GetOrCreate(dwh, DIM_LIN_Location, key.value, key.value);
      InsertUnlessPresent(dwh, REL_CMP_Company_Location, LocationLink(companyId, id));
      return None;
  }

  lemma {:induction false} LinkRunStopsAtError(l: Linked, db: Db, companyId: int, items: seq<Value>, k: nat)
    requires k <= |items|
    requires LinkRun(l, db, companyId, items[..k]).error.Some?
    ensures LinkRun(l, db, companyId, items) == LinkRun(l, db, companyId, items[..k])
    decreases |items|
  {
    if k < |items| {
      var init := items[..|items| - 1];
      assert init[..k] == items[..k];
      LinkRunStopsAtError(l, db, companyId, init, k);
    } else {
      assert items[..k] == items;
    }
  }

  method LinkNext(dwh: Engine, l: Linked, companyId: int, xs: seq<Value>, i: nat, ghost db0: Db) returns (error: Option<string>)
    requires i < |xs| && LinkRun(l, db0, companyId, xs[..i]) == Outcome(dwh.State(), None)
    modifies dwh
    ensures LinkRun(l, db0, companyId, xs[..i + 1]) == Outcome(dwh.State(), error)
  {
    assert xs[..i + 1][..i] == xs[..i];
    error := WriteLinked(dwh, l, companyId, xs[i]);
  }

  method WriteLinks(dwh: Engine, l: Linked, doc: Doc, companyId: int) returns (error: Option<string>)
    modifies dwh
    ensures Outcome(dwh.State(), error) == LinkSpec(l, old(dwh.State()), doc, companyId)
  {
    var items := Guarded(Get(doc, LinkedAttribute(l)));
    if items.Failure? {
      return Some(items.error);
    }
    error := WriteLinkedItems(dwh, l, items.value, companyId);
  }

  /** The loop of a link writer over the attribute's elements, stopping at the first exception. */
  method WriteLinkedItems(dwh: Engine, l: Linked, xs: seq<Value>, companyId: int) returns (error: Option<string>)
    modifies dwh
    ensures Outcome(dwh.State(), error) == LinkRun(l, old(dwh.State()), companyId, xs)
  {
    ghost var db0 := dwh.State();
    assert LinkRun(l, db0, companyId, xs[..0]) == Outcome(db0, None);
    var i := 0;
    while i < |xs|
      invariant 0 <= i <= |xs|
      invariant LinkRun(l, db0, companyId, xs[..i]) == Outcome(dwh.State(), None)
    {
      error := LinkNext(dwh, l, companyId, xs, i, db0);
      if error.Some? {
        LinkRunStopsAtError(l, db0, companyId, xs, i + 1);
        return;
      }
      i := i + 1;
    }
    assert xs[..|xs|] == xs;
    return None;
  }

  /**
    Names are stripped before the lookup: a specialty whose stripped name equals one already
    written (" Cloud " after "Cloud") adds no specialty row and no second relationship row.
   */
  lemma {:induction false} SpecialtyNamesAreStripped(db: Db, companyId: int, a: string, b: string)
    requires Strip(a) == Strip(b)
    ensures var once := SpecialtyStep(db, companyId, a);
      SpecialtyStep(once, companyId, b) == once
  {
    var key := SpecialtyKey(a);
    assert SpecialtyKey(b) == key;
    var r := Resolve(db, DIM_CMP_Specialty, key, key);
    var link := SpecialtyLink(companyId, r.id);
    var once := InsertIfAbsent(r.db, REL_CMP_Company_Specialty, link);
    assert SpecialtyStep(db, companyId, a) == once;
    assert Resolve(once, DIM_CMP_Specialty, key, key) == Resolved(once, r.id) by {
      assert NoNulls(key) && Agrees(key, key);
      ResolveSurvivesOtherInsert(db, DIM_CMP_Specialty, key, key, REL_CMP_Company_Specialty, link);
    }
    assert SpecialtyStep(once, companyId, b) == InsertIfAbsent(once, REL_CMP_Company_Specialty, link);
    assert InsertIfAbsent(once, REL_CMP_Company_Specialty, link) == once by {
      InsertIfAbsentIdempotent(r.db, REL_CMP_Company_Specialty, link);
    }
  }

  /**
    Each location element appends a new location row (the lookup can never match) and links it
    to the company; the new link is always absent, since its location id is new.
   */
  lemma LocationAlwaysAppends(db: Db, companyId: int, item: Value)
    requires CompanyConvert.Location(item).Success?
    ensures var key := CompanyConvert.Location(item).value;
      var o := LinkStep(Locations, db, companyId, item);
      && o.error.None?
      && Rows(o.db, DIM_LIN_Location) == Rows(db, DIM_LIN_Location) + [Entry(TableOf(db, DIM_LIN_Location).autoIncrement, key)]
  {
    var key := CompanyConvert.Location(item).value;
    KeyNeverMatches(db, item);
    var r := Resolve(db, DIM_LIN_Location, key, key);
    var link := LocationLink(companyId, r.id);
    InsertIfAbsentFrame(r.db, REL_CMP_Company_Location, link, DIM_LIN_Location, key);
  }

  /** The writers only append: every table keeps its earlier rows as a prefix. */
  lemma LinkStepExtends(l: Linked, db: Db, companyId: int, item: Value)
    ensures Extends(db, LinkStep(l, db, companyId, item).db)
  {
    match l
    case Specialties =>
      if item.Str? {
        var key := SpecialtyKey(item.s);
        var r := Resolve(db, DIM_CMP_Specialty, key, key);
        WritesExtend(db, DIM_CMP_Specialty, key, key, []);
        WritesExtend(r.db, REL_CMP_Company_Specialty, map[], SpecialtyLink(companyId, r.id), []);
        ExtendsTransitive(db, r.db, LinkStep(l, db, companyId, item).db);
      }
    case Locations =>
      if CompanyConvert.Location(item).Success? {
        var key := CompanyConvert.Location(item).value;
        var r := Resolve(db, DIM_LIN_Location, key, key);
        WritesExtend(db, DIM_LIN_Location, key, key, []);
        WritesExtend(r.db, REL_CMP_Company_Location, map[], LocationLink(companyId, r.id), []);
        ExtendsTransitive(db, r.db, LinkStep(l, db, companyId, item).db);
      }
  }

  lemma {:induction false} LinkRunExtends(l: Linked, db: Db, companyId: int, items: seq<Value>)
    ensures Extends(db, LinkRun(l, db, companyId, items).db)
    decreases |items|
  {
    if items != [] {
      var o := LinkRun(l, db, companyId, items[..|items| - 1]);
      LinkRunExtends(l, db, companyId, items[..|items| - 1]);
      if o.error.None? {
        LinkStepExtends(l, o.db, companyId, items[|items| - 1]);
        ExtendsTransitive(db, o.db, LinkStep(l, o.db, companyId, items[|items| - 1]).db);
      }
    }
  }
}
