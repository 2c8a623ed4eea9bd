/**
  The older profile converter the legacy LinkedIn import script uses: only a person converter
  and a location converter. It differs from the current converter in how it reads the salary:
  `document.get('inferred_salary', {})` defaults to an empty mapping only when the key is
  missing, so a salary that is present but None (or anything else that is not a mapping) raises
  AttributeError on `.get('min')`.

  Its location converter copies the same four fields as the current one; the model uses
  `ProfileConvert.Location` for both.
 */
module LegacyProfileConvert {
  import opened Wrappers
  import opened Documents
  import opened Warehouse
  import ProfileConvert

  /** The two salary bounds: NULL for a missing salary, the mapping's fields for a mapping, else an exception. */
  function Salary(doc: Doc): (r: Result<(Value, Value)>)
    ensures "inferred_salary" !in doc ==> r == Success((Null, Null))
    ensures r.Failure? <==> "inferred_salary" in doc && !doc["inferred_salary"].Obj?
    ensures r.Success? && "inferred_salary" in doc ==>
      r.value == (Field(doc["inferred_salary"], "min"), Field(doc["inferred_salary"], "max"))
  {
    if "inferred_salary" !in doc then Success((Null, Null))
    else
      var salary := doc["inferred_salary"];
      if !salary.Obj? then Failure("AttributeError")
      else Success((Field(salary, "min"), Field(salary, "max")))
  }

  /** The person row: the same columns as the current converter, with the legacy salary reading. */
  function Person(doc: Doc, idLocation: Value, idOrigin: Value): (r: Result<Row>)
    ensures r.Failure? <==> "inferred_salary" in doc && !doc["inferred_salary"].Obj?
    ensures r.Success? ==> ProfileConvert.PersonColumns <= r.value.Keys && ProfileConvert.CopiesProfileFields(r.value, doc)
    ensures r.Success? ==>
      && r.value["inferredSalaryMin"] == Field(Get(doc, "inferred_salary"), "min")
      && r.value["inferredSalaryMax"] == Field(Get(doc, "inferred_salary"), "max")
    ensures r.Success? ==>
      && (r.value["profilePicture"] == Int(1) <==> Truthy(Get(doc, "profile_pic_url")))
      && (r.value["backgroundPicture"] == Int(1) <==> Truthy(Get(doc, "background_cover_image_url")))
    ensures r.Success? ==>
      r.value["idLocation"] == idLocation && r.value["idOrigin"] == idOrigin
      && r.value["mongoCollectionId"] == Get(doc, "_id")
  {
    match Salary(doc)
    case Failure(e) => Failure(e)
    case Success(bounds) =>
      ProfileConvert.PersonRowCopiesProfileFields(doc, idLocation, idOrigin, bounds.0, bounds.1);
      Success(ProfileConvert.PersonRow(doc, idLocation, idOrigin, bounds.0, bounds.1))
  }

  /** The legacy and the current person converters agree on every document whose salary is missing or a mapping. */
  lemma AgreesWithCurrentConverter(doc: Doc, idLocation: Value, idOrigin: Value)
    requires "inferred_salary" !in doc || doc["inferred_salary"].Obj?
    ensures Person(doc, idLocation, idOrigin) == ProfileConvert.Person(doc, idLocation, idOrigin)
  {
    var salary := Get(doc, "inferred_salary");
    assert Salary(doc).value.0 == if Truthy(salary) then Field(salary, "min") else Null;
    assert Salary(doc).value.1 == if Truthy(salary) then Field(salary, "max") else Null;
  }

  /** A salary of None makes the legacy converter raise where the current one writes NULL bounds. */
  lemma NoneSalaryRaises(doc: Doc, idLocation: Value, idOrigin: Value)
    requires "inferred_salary" in doc && doc["inferred_salary"] == Null
    ensures Person(doc, idLocation, idOrigin).Failure?
    ensures ProfileConvert.Person(doc, idLocation, idOrigin) ==
      Success(ProfileConvert.PersonRow(doc, idLocation, idOrigin, Null, Null))
  {
  }
}
