/**
  The converters from a LinkedIn profile document to warehouse rows used by the
  profile writers: the person fact, the location key and the qualification facts.
 */
module ProfileConvert {
  import opened Wrappers
  import opened Documents
  import opened Warehouse

  /** The columns of a person row. */
  const PersonColumns: set<string> := {
    "idLocation", "name", "occupation", "headline", "summary", "connections",
    "inferredSalaryMin", "inferredSalaryMax", "gender", "industry",
    "profilePicture", "backgroundPicture", "mongoCollectionId", "idOrigin"}

  /** The columns the person row copies from the profile unchanged, each read with `document.get`. */
  predicate CopiesProfileFields(row: Row, doc: Doc) {
    && "name" in row && row["name"] == Get(doc, "full_name")
    && "occupation" in row && row["occupation"] == Get(doc, "occupation")
    && "headline" in row && row["headline"] == Get(doc, "headline")
    && "summary" in row && row["summary"] == Get(doc, "summary")
    && "connections" in row && row["connections"] == Get(doc, "connections")
    && "gender" in row && row["gender"] == Get(doc, "gender")
    && "industry" in row && row["industry"] == Get(doc, "industry")
  }

  /**
    The person row. The salary bounds are read from `inferred_salary` only when it is truthy;
    a truthy value that is not a mapping raises AttributeError.
   */
  function Person(doc: Doc, idLocation: Value, idOrigin: Value): (r: Result<Row>)
    ensures r.Failure? <==> Truthy(Get(doc, "inferred_salary")) && !Get(doc, "inferred_salary").Obj?
    ensures r.Success? ==> PersonColumns <= r.value.Keys && CopiesProfileFields(r.value, doc)
    ensures r.Success? ==>
      var salary := Get(doc, "inferred_salary");
      && r.value["inferredSalaryMin"] == (if Truthy(salary) then Field(salary, "min") else Null)
      && r.value["inferredSalaryMax"] == (if Truthy(salary) then Field(salary, "max") else Null)
    ensures r.Success? ==>
      && (r.value["profilePicture"] == Int(1) <==> Truthy(Get(doc, "profile_pic_url")))
      && (r.value["backgroundPicture"] == Int(1) <==> Truthy(Get(doc, "background_cover_image_url")))
    ensures r.Success? ==>
      r.value["idLocation"] == idLocation && r.value["idOrigin"] == idOrigin
      && r.value["mongoCollectionId"] == Get(doc, "_id")
  {
    var salary := Get(doc, "inferred_salary");
    if Truthy(salary) && !salary.Obj? then Failure("AttributeError")
    else
      var low := if Truthy(salary) then Field(salary, "min") else Null;
      var high := if Truthy(salary) then Field(salary, "max") else Null;
      PersonRowCopiesProfileFields(doc, idLocation, idOrigin, low, high);
      Success(PersonRow(doc, idLocation, idOrigin, low, high))
  }

  /** The person columns, given the salary bounds already read. */
  function PersonRow(doc: Doc, idLocation: Value, idOrigin: Value, low: Value, high: Value): (r: Row)
    ensures PersonColumns <= r.Keys
    ensures "inferredSalaryMin" in r && r["inferredSalaryMin"] == low
    ensures "inferredSalaryMax" in r && r["inferredSalaryMax"] == high
    ensures "profilePicture" in r && r["profilePicture"] == Flag(Get(doc, "profile_pic_url"))
    ensures "backgroundPicture" in r && r["backgroundPicture"] == Flag(Get(doc, "background_cover_image_url"))
    ensures "idLocation" in r && r["idLocation"] == idLocation
    ensures "idOrigin" in r && r["idOrigin"] == idOrigin
    ensures "mongoCollectionId" in r && r["mongoCollectionId"] == Get(doc, "_id")
  {
    map[
      "idLocation" := idLocation,
      "name" := Get(doc, "full_name"),
      "occupation" := Get(doc, "occupation"),
      "headline" := Get(doc, "headline"),
      "summary" := Get(doc, "summary"),
      "connections" := Get(doc, "connections"),
      "inferredSalaryMin" := low,
      "inferredSalaryMax" := high,
      "gender" := Get(doc, "gender"),
      "industry" := Get(doc, "industry"),
      "profilePicture" := Flag(Get(doc, "profile_pic_url")),
      "backgroundPicture" := Flag(Get(doc, "background_cover_image_url")),
      "mongoCollectionId" := Get(doc, "_id"),
      "idOrigin" := idOrigin]
  }

  /** The person row copies the seven profile fields unchanged. */
  lemma PersonRowCopiesProfileFields(doc: Doc, idLocation: Value, idOrigin: Value, low: Value, high: Value)
    ensures CopiesProfileFields(PersonRow(doc, idLocation, idOrigin, low, high), doc)
  {
  }

  /** The location key: the four document fields, copied unchanged. */
  function Location(doc: Doc): (r: Row)
    ensures r.Keys == {"countryLetters", "countryName", "state", "city"}
    ensures r["countryLetters"] == Get(doc, "country") && r["countryName"] == Get(doc, "country_full_name")
    ensures r["state"] == Get(doc, "state") && r["city"] == Get(doc, "city")
  {
    map["countryLetters" := Get(doc, "country"), "countryName" := Get(doc, "country_full_name"),
        "state" := Get(doc, "state"), "city" := Get(doc, "city")]
  }

  /** The columns of a qualification row. */
  const QualificationColumns: set<string> := {"idPerson", "idDuration", "type", "name", "institution", "description"}

  function Qualification(idPerson: Value, idDuration: Value, kind: string, name: Value, institution: Value, description: Value): (r: Row)
    ensures r.Keys == QualificationColumns
    ensures r["idPerson"] == idPerson && r["idDuration"] == idDuration && r["type"] == Str(kind)
    ensures r["name"] == name && r["institution"] == institution && r["description"] == description
  {
    map["idPerson" := idPerson, "idDuration" := idDuration, "type" := Str(kind),
        "name" := name, "institution" := institution, "description" := description]
  }

  /**
    "Both, one or neither": NULL when both parts are None, the present part when only one is,
    and the combined text when both are. Only None counts as absent.
   */
  function EitherOrBoth(a: Value, b: Value, both: string): (r: Value)
    ensures a == Null && b == Null ==> r == Null
    ensures a == Null && b != Null ==> r == b
    ensures a != Null && b == Null ==> r == a
    ensures a != Null && b != Null ==> r == Str(both)
  {
    match (a, b)
    case (Null, Null) => Null
    case (Null, _) => b
    case (_, Null) => a
    case _ => Str(both)
  }

  function Experience(obj: Doc, idPerson: Value, idDuration: Value): (r: Row)
    ensures r.Keys == QualificationColumns
    ensures r["type"] == Str("experience") && r["idPerson"] == idPerson && r["idDuration"] == idDuration
    ensures r["name"] == Get(obj, "title") && r["institution"] == Get(obj, "company")
    ensures r["description"] == Get(obj, "description")
  {
    Qualification(idPerson, idDuration, "experience", Get(obj, "title"), Get(obj, "company"), Get(obj, "description"))
  }

  /** The education name: "<degree> in <field>", or whichever of the two is not None. */
  function EducationName(degree: Value, field: Value): (r: Value)
  {
    EitherOrBoth(degree, field, Format(degree) + " in " + Format(field))
  }

  function Education(obj: Doc, idPerson: Value, idDuration: Value): (r: Row)
    ensures r.Keys == QualificationColumns
    ensures r["type"] == Str("education") && r["idPerson"] == idPerson && r["idDuration"] == idDuration
    ensures r["institution"] == Get(obj, "school") && r["description"] == Get(obj, "description")
    ensures var d := Get(obj, "degree_name"); var f := Get(obj, "field_of_study");
      && (r["name"] == Null <==> d == Null && f == Null)
      && (d != Null && f != Null ==> r["name"] == Str(Format(d) + " in " + Format(f)))
      && (d == Null ==> r["name"] == f)
      && (f == Null ==> r["name"] == d)
  {
    Qualification(idPerson, idDuration, "education",
      EducationName(Get(obj, "degree_name"), Get(obj, "field_of_study")), Get(obj, "school"), Get(obj, "description"))
  }

  /** The labelled description shared by volunteer work and certifications. */
  function Labelled(first: Value, second: Value): (r: Value)
  {
    EitherOrBoth(first, second, "Cause: " + Format(first) + " | Description:" + Format(second))
  }

  function VolunteerWork(obj: Doc, idPerson: Value, idDuration: Value): (r: Row)
    ensures r.Keys == QualificationColumns
    ensures r["type"] == Str("volunteer") && r["idPerson"] == idPerson && r["idDuration"] == idDuration
    ensures r["name"] == Get(obj, "title") && r["institution"] == Get(obj, "company")
    ensures var c := Get(obj, "cause"); var d := Get(obj, "description");
      && (r["description"] == Null <==> c == Null && d == Null)
      && (c != Null && d != Null ==> r["description"] == Str("Cause: " + Format(c) + " | Description:" + Format(d)))
      && (c == Null ==> r["description"] == d)
      && (d == Null ==> r["description"] == c)
  {
    Qualification(idPerson, idDuration, "volunteer", Get(obj, "title"), Get(obj, "company"),
      Labelled(Get(obj, "cause"), Get(obj, "description")))
  }

  function Certification(obj: Doc, idPerson: Value, idDuration: Value): (r: Row)
    ensures r.Keys == QualificationColumns
    ensures r["type"] == Str("certification") && r["idPerson"] == idPerson && r["idDuration"] == idDuration
    ensures r["name"] == Get(obj, "name") && r["institution"] == Get(obj, "authority")
    ensures var n := Get(obj, "license_number"); var s := Get(obj, "display_source");
      && (r["description"] == Null <==> n == Null && s == Null)
      && (n != Null && s != Null ==> r["description"] == Str("Cause: " + Format(n) + " | Description:" + Format(s)))
      && (n == Null ==> r["description"] == s)
      && (s == Null ==> r["description"] == n)
  {
    Qualification(idPerson, idDuration, "certification", Get(obj, "name"), Get(obj, "authority"),
      Labelled(Get(obj, "license_number"), Get(obj, "display_source")))
  }

  function AccomplishmentProject(obj: Doc, idPerson: Value, idDuration: Value): (r: Row)
    ensures r.Keys == QualificationColumns
    ensures r["type"] == Str("project") && r["idPerson"] == idPerson && r["idDuration"] == idDuration
    ensures r["name"] == Get(obj, "title") && r["institution"] == Null && r["description"] == Get(obj, "description")
  {
    Qualification(idPerson, idDuration, "project", Get(obj, "title"), Null, Get(obj, "description"))
  }

  /** An empty string is a present part: only None falls back to the other part. */
  lemma EmptyStringIsPresent(degree: Value)
    requires degree != Null
    ensures EducationName(degree, Str("")) == Str(Format(degree) + " in ")
    ensures EducationName(Null, Str("")) == Str("")
  {
  }
}
