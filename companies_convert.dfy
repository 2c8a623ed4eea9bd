/**
  The converters from a LinkedIn company document to warehouse rows: a company location and
  the company fact.
 */
module CompanyConvert {
  import opened Wrappers
  import opened Documents
  import opened Warehouse

  /**
    The country as the location converter splits it: a truthy country is stripped, and a
    stripped value of at most two characters is a country code, a longer one a country name.
   */
  datatype Country = NoCountry | Letters(code: string) | Name(name: string)

  function SplitCountry(country: Value): (r: Result<Country>)
    ensures !Truthy(country) ==> r == Success(NoCountry)
    ensures r.Failure? <==> Truthy(country) && !country.Str?
    ensures Truthy(country) && country.Str? && |Strip(country.s)| <= 2 ==> r == Success(Letters(Strip(country.s)))
    ensures Truthy(country) && country.Str? && |Strip(country.s)| > 2 ==> r == Success(Name(Strip(country.s)))
  {
    if !Truthy(country) then Success(NoCountry)
    else if !country.Str? then Failure("AttributeError")
    else
      var stripped := Strip(country.s);
      if |stripped| <= 2 then Success(Letters(stripped)) else Success(Name(stripped))
  }

  /**
    The location key. The value must be a mapping (`.get` is called on it) and a truthy country
    must be a string (`.strip()` is called on it); the state falls back to the postal code when
    it is falsy.
   */
  function Location(v: Value): (r: Result<Row>)
    ensures r.Failure? <==> !v.Obj? || (Truthy(Field(v, "country")) && !Field(v, "country").Str?)
    ensures r.Success? ==> r.value.Keys == {"countryLetters", "countryName", "state", "city"}
    ensures r.Success? ==>
      var c := SplitCountry(Field(v, "country")).value;
      && r.value["countryLetters"] == (if c.Letters? then Str(c.code) else Null)
      && r.value["countryName"] == (if c.Name? then Str(c.name) else Null)
    ensures r.Success? ==>
      && r.value["state"] == (if Truthy(Field(v, "state")) then Field(v, "state") else Field(v, "postal_code"))
      && r.value["city"] == Field(v, "city")
  {
    if !v.Obj? then Failure("AttributeError")
    else match SplitCountry(Field(v, "country"))
      case Failure(e) => Failure(e)
      case Success(c) =>
        var state := if Truthy(Field(v, "state")) then Field(v, "state") else Field(v, "postal_code");
        Success(LocationRow(c, state, Field(v, "city")))
  }

  /** The four columns of a company location row. */
  function LocationRow(c: Country, state: Value, city: Value): (r: Row)
    ensures r.Keys == {"countryLetters", "countryName", "state", "city"}
    ensures r["countryLetters"] == (if c.Letters? then Str(c.code) else Null)
    ensures r["countryName"] == (if c.Name? then Str(c.name) else Null)
    ensures r["state"] == state && r["city"] == city
  {
    map[
      "countryLetters" := if c.Letters? then Str(c.code) else Null,
      "countryName" := if c.Name? then Str(c.name) else Null,
      "state" := state,
      "city" := city]
  }

  /** At most one of the two country columns is set: a converted location key always holds a NULL. */
  lemma LocationKeyHasNull(v: Value)
    requires Location(v).Success?
    ensures Location(v).value["countryLetters"] == Null || Location(v).value["countryName"] == Null
    ensures "countryLetters" in Location(v).value && "countryName" in Location(v).value
  {
  }

  /**
    A stripped country of at most two characters is a code, a longer one a name; an empty one is
    neither, but one of whitespace only is truthy and becomes the empty country code.
   */
  lemma CountryByStrippedLength(v: Value, s: string)
    requires v.Obj? && Field(v, "country") == Str(s)
    ensures var r := Location(v).value;
      && (s == [] ==> r["countryLetters"] == Null && r["countryName"] == Null)
      && (0 < |s| && |Strip(s)| <= 2 ==> r["countryLetters"] == Str(Strip(s)) && r["countryName"] == Null)
      && (|Strip(s)| > 2 ==> r["countryName"] == Str(Strip(s)) && r["countryLetters"] == Null)
  {
  }

  /**
    `document.get('company_size')[k]` when the size is truthy, kept only when truthy itself. The
    index raises when the size is not a list or string long enough (IndexError) or is a mapping
    (KeyError) or a scalar (TypeError).
   */
  function SizePart(size: Value, k: nat): (r: Result<Value>)
    ensures r.Failure? <==> Index(size, k).Failure?
    ensures r.Success? ==> r.value == (if Truthy(Index(size, k).value) then Index(size, k).value else Null)
  {
    match Index(size, k)
    case Failure(e) => Failure(e)
    case Success(x) => if Truthy(x) then Success(x) else Success(Null)
  }

  /** The two size bounds: both NULL for a falsy size, else the truthy first and second elements. */
  function Sizes(size: Value): (r: Result<(Value, Value)>)
    ensures !Truthy(size) ==> r == Success((Null, Null))
    ensures Truthy(size) ==> (r.Failure? <==> SizePart(size, 0).Failure? || SizePart(size, 1).Failure?)
    ensures Truthy(size) && r.Success? ==> r.value == (SizePart(size, 0).value, SizePart(size, 1).value)
  {
    if !Truthy(size) then Success((Null, Null))
    else match SizePart(size, 0)
      case Failure(e) => Failure(e)
      case Success(a) =>
        match SizePart(size, 1)
        case Failure(e) => Failure(e)
        case Success(b) => Success((a, b))
  }

  /** The sizes of a list of at least two elements are its first two truthy elements; a one-element list raises. */
  lemma SizesOfList(xs: seq<Value>)
    ensures |xs| >= 2 ==>
      Sizes(List(xs)) == Success((if Truthy(xs[0]) then xs[0] else Null, if Truthy(xs[1]) then xs[1] else Null))
    ensures |xs| == 1 ==> Sizes(List(xs)) == Failure("IndexError")
    ensures xs == [] ==> Sizes(List(xs)) == Success((Null, Null))
  {
  }

  /** The company fact row, given the size bounds already read. */
  function CompanyRow(doc: Doc, hqId: Value, originId: Value, sizeA: Value, sizeB: Value): (r: Row)
    ensures "sizeA" in r && "sizeB" in r && r["sizeA"] == sizeA && r["sizeB"] == sizeB
    ensures "website" in r && (r["website"] == Int(1) <==> Truthy(Get(doc, "website")))
    ensures "profilePicture" in r && (r["profilePicture"] == Int(1) <==> Truthy(Get(doc, "profile_pic_url")))
    ensures "backgroundPicture" in r
      && (r["backgroundPicture"] == Int(1) <==> Truthy(Get(doc, "background_cover_image_url")))
    ensures "idHqLocation" in r && r["idHqLocation"] == hqId
    ensures "idOrigin" in r && r["idOrigin"] == originId
    ensures "mongoCollectionId" in r && r["mongoCollectionId"] == Get(doc, "_id")
  {
    map[
      "idHqLocation" := hqId,
      "industry" := Get(doc, "industry"),
      "type" := Get(doc, "company_type"),
      "founded" := Get(doc, "founded_year"),
      "name" := Get(doc, "name"),
      "tagline" := Get(doc, "tagline"),
      "sizeA" := sizeA,
      "sizeB" := sizeB,
      "sizeLinkedIn" := Get(doc, "company_size_on_linkedin"),
      "followers" := Get(doc, "follower_count"),
      "website" := Flag(Get(doc, "website")),
      "profilePicture" := Flag(Get(doc, "profile_pic_url")),
      "backgroundPicture" := Flag(Get(doc, "background_cover_image_url")),
      "description" := Get(doc, "description"),
      "mongoCollectionId" := Get(doc, "_id"),
      "idOrigin" := originId]
  }

  /** The company fact; it fails exactly when reading the size bounds raises. */
  function Company(doc: Doc, hqId: Value, originId: Value): (r: Result<Row>)
    ensures r.Failure? <==> Sizes(Get(doc, "company_size")).Failure?
    ensures r.Success? ==>
      var sizes := Sizes(Get(doc, "company_size")).value;
      r.value == CompanyRow(doc, hqId, originId, sizes.0, sizes.1)
  {
    match Sizes(Get(doc, "company_size"))
    case Failure(e) => Failure(e)
    case Success(sizes) => Success(CompanyRow(doc, hqId, originId, sizes.0, sizes.1))
  }
}
