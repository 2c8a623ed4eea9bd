/**
  The per-attribute writers for LinkedIn profiles: each reads one attribute of a profile
  document and appends dimension, fact and relationship rows for the person.

  Every list-valued attribute is handled the same way: the writer iterates the list and runs one
  step per element, and the first exception ends the writer (and, since nothing catches it, the
  whole import) with the rows written so far kept. `Run` is that loop as a function; `Write` is
  the loop itself, proved equal to it.
 */
module ProfileWriters {
  import opened Wrappers
  import opened Documents
  import opened Warehouse
  import ProfileConvert

  // ---------------------------------------------------------------- location and person

  /** The location lookup: `SELECT id FROM DIM_PRF_Location` on all four columns, else insert. */
  function LocationSpec(db: Db, doc: Doc): Resolved {
    var key := ProfileConvert.Location(doc);
    Resolve(db, DIM_PRF_Location, key, key)
  }

  method WriteLocation(dwh: Engine, doc: Doc) returns (id: int)
    modifies dwh
    ensures dwh.State() == LocationSpec(old(dwh.State()), doc).db && id == LocationSpec(old(dwh.State()), doc).id
  {
    var key := ProfileConvert.Location(doc);
    id := GetOrCreate(dwh, DIM_PRF_Location, key, key);
  }

  /** The person insert: one row, no lookup; the new id is returned. */
  function PersonSpec(db: Db, doc: Doc, locationId: int, originId: int): Outcome {
    match ProfileConvert.Person(doc, Int(locationId), Int(originId))
    case Failure(e) => Outcome(db, Some(e))
    case Success(row) => Outcome(Insert(db, DIM_PRF_Person, row), None)
  }

  method WritePerson(dwh: Engine, doc: Doc, locationId: int, originId: int) returns (r: Result<int>)
    modifies dwh
    ensures var o := PersonSpec(old(dwh.State()), doc, locationId, originId);
      dwh.State() == o.db && (r.Failure? <==> o.error.Some?) && (r.Failure? ==> r.error == o.error.value)
    ensures r.Success? ==>
      && Rows(dwh.State(), DIM_PRF_Person) == Rows(old(dwh.State()), DIM_PRF_Person) + [Entry(r.value, ProfileConvert.Person(doc, Int(locationId), Int(originId)).value)]
      && r.value == TableOf(old(dwh.State()), DIM_PRF_Person).autoIncrement
  {
    var row := ProfileConvert.Person(doc, Int(locationId), Int(originId));
    if row.Failure? {
      return Failure(row.error);
    }
    dwh.ToSql(DIM_PRF_Person, row.value);
    var id := dwh.LastInsertId();
    return Success(id);
  }

  // ---------------------------------------------------------------- recommendations

  function Recommendation(personId: int, text: Value): Row {
    map["idPerson" := Int(personId), "recommendationText" := text]
  }

  /** One recommendation row per entry, in order, written as one multi-row insert when there is any. */
  function RecommendationsSpec(db: Db, doc: Doc, personId: int): Outcome {
    match Guarded(Get(doc, "recommendations"))
    case Failure(e) => Outcome(db, Some(e))
    case Success(xs) =>
      Outcome(InsertAll(db, FACT_PRF_Recommendation, seq(|xs|, k requires 0 <= k < |xs| => Recommendation(personId, xs[k]))), None)
  }

  method WriteRecommendations(dwh: Engine, doc: Doc, personId: int) returns (error: Option<string>)
    modifies dwh
    ensures Outcome(dwh.State(), error) == RecommendationsSpec(old(dwh.State()), doc, personId)
  {
    var items := Guarded(Get(doc, "recommendations"));
    if items.Failure? {
      return Some(items.error);
    }
    var xs := items.value;
    var data: seq<Row> := [];
    var i := 0;
    while i < |xs|
      invariant 0 <= i <= |xs|
      invariant |data| == i
      invariant forall k :: 0 <= k < i ==> data[k] == Recommendation(personId, xs[k])
    {
      data := data + [Recommendation(personId, xs[i])];
      i := i + 1;
    }
    assert data == seq(|xs|, k requires 0 <= k < |xs| => Recommendation(personId, xs[k]));
    if data != [] {
      dwh.ToSqlAll(FACT_PRF_Recommendation, data);
    }
    return None;
  }

  /** The recommendations table grows by exactly one row per entry, in list order, each carrying the person id. */
  lemma RecommendationsAppendInOrder(db: Db, doc: Doc, personId: int)
    requires Guarded(Get(doc, "recommendations")).Success?
    ensures var xs := Guarded(Get(doc, "recommendations")).value;
      var after := Rows(RecommendationsSpec(db, doc, personId).db, FACT_PRF_Recommendation);
      var before := Rows(db, FACT_PRF_Recommendation);
      && |after| == |before| + |xs|
      && after[..|before|] == before
      && forall k :: 0 <= k < |xs| ==>
           after[|before| + k].row == map["idPerson" := Int(personId), "recommendationText" := xs[k]]
  {
    var xs := Guarded(Get(doc, "recommendations")).value;
    var rows := seq(|xs|, k requires 0 <= k < |xs| => Recommendation(personId, xs[k]));
    assert RecommendationsSpec(db, doc, personId).db == InsertAll(db, FACT_PRF_Recommendation, rows);
    InsertAllAppends(db, FACT_PRF_Recommendation, rows);
    var before := Rows(db, FACT_PRF_Recommendation);
    var added: seq<Entry> := Numbered(rows, TableOf(db, FACT_PRF_Recommendation).autoIncrement);
    var after: seq<Entry> := before + added;
    forall k | 0 <= k < |xs|
      ensures after[|before| + k].row == map["idPerson" := Int(personId), "recommendationText" := xs[k]]
    {
      assert after[|before| + k] == added[k];
    }
  }

  // ---------------------------------------------------------------- list-valued attributes

  /** The writers that resolve a duration and then build a qualification row. */
  datatype QualificationKind = Experiences | Education | VolunteerWork | Certifications | AccomplishmentProjects

  /** The writers that append an accomplishment fact per element. */
  datatype AccomplishmentKind =
    | Activities | Articles | Organisations | Publications | HonorsAwards | Patents | TestScores | Courses

  /** The writers of list-valued attributes. */
  datatype Writer =
    | PeopleAlsoViewed | SimilarlyNamedProfiles | Languages | Skills | Interests | Groups
    | Qualification(q: QualificationKind)
    | Accomplishment(a: AccomplishmentKind)

  /** The document field each writer reads. */
  function Attribute(w: Writer): string {
    match w
    case PeopleAlsoViewed => "people_also_viewed"
    case SimilarlyNamedProfiles => "similarly_named_profiles"
    case Languages => "languages"
    case Skills => "skills"
    case Interests => "interests"
    case Groups => "groups"
    case Qualification(Experiences) => "experiences"
    case Qualification(Education) => "education"
    case Qualification(VolunteerWork) => "volunteer_work"
    case Qualification(Certifications) => "certifications"
    case Qualification(AccomplishmentProjects) => "accomplishment_projects"
    case Accomplishment(Activities) => "activities"
    case Accomplishment(Articles) => "articles"
    case Accomplishment(Organisations) => "accomplishment_organisations"
    case Accomplishment(Publications) => "accomplishment_publications"
    case Accomplishment(HonorsAwards) => "accomplishment_honors_awards"
    case Accomplishment(Patents) => "accomplishment_patents"
    case Accomplishment(TestScores) => "accomplishment_test_scores"
    case Accomplishment(Courses) => "accomplishment_courses"
  }

  /**
    The elements a writer iterates. Every writer but `experiences` first tests the attribute for
    truthiness; `experiences` iterates it unguarded, so a missing attribute raises TypeError.
   */
  function Items(w: Writer, doc: Doc): (r: Result<seq<Value>>)
    ensures w == Qualification(Experiences) ==> (r.Failure? <==> Iterate(Get(doc, "experiences")).None?)
    ensures w != Qualification(Experiences) && !Truthy(Get(doc, Attribute(w))) ==> r == Success([])
  {
    var v := Get(doc, Attribute(w));
    if w == Qualification(Experiences) then
      match Iterate(v)
      case Some(xs) => Success(xs)
      case None => Failure("TypeError")
    else Guarded(v)
  }

  /** The related-profile key and row: looked up on name and location, inserted with the summary too. */
  function RelatedKey(item: Value): Row {
    map["name" := Field(item, "name"), "location" := Field(item, "location")]
  }

  function RelatedRow(item: Value): Row {
    map["name" := Field(item, "name"), "location" := Field(item, "location"), "summary" := Field(item, "summary")]
  }

  function Relation(personId: int, relatedId: int, kind: string): Row {
    map["idPerson" := Int(personId), "idRelated" := Int(relatedId), "type" := Str(kind)]
  }

  /** A trait is keyed by its kind and its name, so skills and interests share one dimension table. */
  function TraitKey(kind: string, name: Value): Row {
    map["type" := Str(kind), "name" := name]
  }

  function DurationKey(item: Value): Row {
    map["startDate" := ConvertDate(Field(item, "starts_at")), "endDate" := ConvertDate(Field(item, "ends_at"))]
  }

  /** A duration is looked up only when the element has a truthy start or end. */
  predicate Dated(item: Value) {
    Truthy(Field(item, "starts_at")) || Truthy(Field(item, "ends_at"))
  }

  /**
    The patent description from the application number, the patent number and the description,
    in that order. When only the description is present, the patent number (None) is still
    rendered, giving "None | <description>".
   */
  function PatentDescription(a: Value, p: Value, d: Value): Value {
    if a == Null then
      if p == Null && d == Null then Null
      else if d == Null then p
      else Str(Format(p) + " | " + Format(d))
    else if p == Null then
      if d == Null then a else Str(Format(a) + " | " + Format(d))
    else if d == Null then Str(Format(a) + " | " + Format(p))
    else Str(Format(a) + " | " + Format(p) + " | " + Format(d))
  }

  function AccomplishmentFact(kind: string, name: Value, institution: Value, date: Value, description: Value): Row {
    map["type" := Str(kind), "name" := name, "institution" := institution, "date" := date, "description" := description]
  }

  /** The accomplishment fact row each accomplishment writer builds from one element. */
  function AccomplishmentRow(a: AccomplishmentKind, item: Value): Row {
    match a
    case Activities => AccomplishmentFact("activity", Field(item, "title"), Null, Null, Field(item, "activity_status"))
    case Articles => AccomplishmentFact("article", Field(item, "title"), Field(item, "author"),
      ConvertDate(Field(item, "published_date")), Field(item, "link"))
    case Organisations => AccomplishmentFact("organisation", Field(item, "title"), Field(item, "org_name"),
      ConvertDate(Field(item, "starts_at")), Field(item, "description"))
    case Publications => AccomplishmentFact("publication", Field(item, "name"), Field(item, "publisher"),
      ConvertDate(Field(item, "published_on")), Field(item, "description"))
    case HonorsAwards => AccomplishmentFact("honor", Field(item, "title"), Field(item, "issuer"),
      ConvertDate(Field(item, "issued_on")), Field(item, "description"))
    case Patents => AccomplishmentFact("patent", Field(item, "title"), Field(item, "issuer"),
      ConvertDate(Field(item, "issued_on")),
      PatentDescription(Field(item, "application_number"), Field(item, "patent_number"), Field(item, "description")))
    case TestScores => AccomplishmentFact("test", Field(item, "name"), Field(item, "score"),
      ConvertDate(Field(item, "date_on")), Field(item, "description"))
    case Courses => AccomplishmentFact("course", Field(item, "name"), Field(item, "number"), Null, Null)
  }

  /** Whether the writer calls `.get` on each element (so a non-mapping element raises AttributeError). */
  predicate ReadsFields(w: Writer) {
    !(w.Languages? || w.Skills? || w.Interests?)
  }

  /** A related profile: get-or-create it on (name, location), then append the relationship, checked or not. */
  function RelatedStep(db: Db, personId: int, item: Value, checked: bool): Db {
    var r := Resolve(db, DIM_PRF_Related, RelatedKey(item), RelatedRow(item));
    if checked then InsertIfAbsent(r.db, REL_PRF_Person_Related, Relation(personId, r.id, "similar"))
    else Insert(r.db, REL_PRF_Person_Related, Relation(personId, r.id, "viewed"))
  }

  /** Get-or-create the dimension row for the key, then append the person's relationship row to its id. */
  function DimensionStep(db: Db, dim: TableName, key: Row, rel: TableName, personId: int, column: string): Db {
    var r := Resolve(db, dim, key, key);
    Insert(r.db, rel, map["idPerson" := Int(personId), column := Int(r.id)])
  }

  /** What a qualification element writes before the converter call raises: its duration, when dated. */
  function QualificationStep(db: Db, item: Value): Db {
    if Dated(item) then Resolve(db, DIM_PRF_Duration, DurationKey(item), DurationKey(item)).db else db
  }

  /** An accomplishment: the fact row, then the relationship to its generated id. */
  function AccomplishmentStep(a: AccomplishmentKind, db: Db, personId: int, item: Value): Db {
    var db' := Insert(db, FACT_PRF_Accomplishment, AccomplishmentRow(a, item));
    Insert(db', REL_PRF_Person_Accomplishment, map["idPerson" := Int(personId), "idAccomplishment" := Int(db'.lastInsertId)])
  }

  /**
    One iteration of a writer's loop for one element.
    - viewed profiles: get-or-create the related profile, then append the relationship unchecked;
    - similar profiles: the same, but the relationship is appended only when absent;
    - languages, skills, interests: get-or-create the dimension row, append the relationship;
    - groups: the same for elements with a truthy name, nothing otherwise;
    - qualifications: get-or-create the duration when dated, then the converter call raises
      TypeError (it is called with two arguments where it takes three);
    - accomplishments: append the fact row, then the relationship to its generated id.
   */
  function Step(w: Writer, db: Db, personId: int, item: Value): Outcome {
    if ReadsFields(w) && !item.Obj? then Outcome(db, Some("AttributeError"))
    else match w
      case PeopleAlsoViewed => Outcome(RelatedStep(db, personId, item, false), None)
      case SimilarlyNamedProfiles => Outcome(RelatedStep(db, personId, item, true), None)
      case Languages =>
        Outcome(DimensionStep(db, DIM_PRF_Language, map["language" := item], REL_PRF_Person_Language, personId, "idLanguage"), None)
      case Skills =>
        Outcome(DimensionStep(db, DIM_PRF_Trait, TraitKey("skill", item), REL_PRF_Person_Trait, personId, "idTrait"), None)
      case Interests =>
        Outcome(DimensionStep(db, DIM_PRF_Trait, TraitKey("interest", item), REL_PRF_Person_Trait, personId, "idTrait"), None)
      case Groups =>
        var name := Field(item, "name");
        if !Truthy(name) then Outcome(db, None)
        else Outcome(DimensionStep(db, DIM_PRF_Group, map["name" := name], REL_PRF_Person_Group, personId, "idGroup"), None)
      case Qualification(_) => Outcome(QualificationStep(db, item), Some("TypeError"))
      case Accomplishment(a) => Outcome(AccomplishmentStep(a, db, personId, item), None)
  }

  /** The writer's loop over the elements, stopping at the first exception. */
  function Run(w: Writer, db: Db, personId: int, items: seq<Value>): Outcome
    decreases |items|
  {
    if items == [] then Outcome(db, None)
    else
      var o := Run(w, db, personId, items[..|items| - 1]);
      if o.error.Some? then o else Step(w, o.db, personId, items[|items| - 1])
  }

  /** The whole writer: obtain the elements, then run the loop. */
  function WriteSpec(w: Writer, db: Db, doc: Doc, personId: int): Outcome {
    match Items(w, doc)
    case Failure(e) => Outcome(db, Some(e))
    case Success(xs) => Run(w, db, personId, xs)
  }

  // ---------------------------------------------------------------- the writers as methods

  method WriteRelated(dwh: Engine, personId: int, item: Value, checked: bool)
    modifies dwh
    ensures dwh.State() == RelatedStep(old(dwh.State()), personId, item, checked)
  {
    var relatedId := GetOrCreate(dwh, DIM_PRF_Related, RelatedKey(item), RelatedRow(item));
    if checked {
      InsertUnlessPresent(dwh, REL_PRF_Person_Related, Relation(personId, relatedId, "similar"));
    } else {
      dwh.ToSql(REL_PRF_Person_Related, Relation(personId, relatedId, "viewed"));
    }
  }

  method WriteDimension(dwh: Engine, dim: TableName, key: Row, rel: TableName, personId: int, column: string)
    modifies dwh
    ensures dwh.State() == DimensionStep(old(dwh.State()), dim, key, rel, personId, column)
  {
    var id := GetOrCreate(dwh, dim, key, key);
    dwh.ToSql(rel, map["idPerson" := Int(personId), column := Int(id)]);
  }

  method WriteQualification(dwh: Engine, item: Value)
    modifies dwh
    ensures dwh.State() == QualificationStep(old(dwh.State()), item)
  {
    if Dated(item) {
      var id := GetOrCreate(dwh, DIM_PRF_Duration, DurationKey(item), DurationKey(item));
    }
  }

  method WriteAccomplishment(dwh: Engine, a: AccomplishmentKind, personId: int, item: Value)
    modifies dwh
    ensures dwh.State() == AccomplishmentStep(a, old(dwh.State()), personId, item)
  {
    dwh.ToSql(FACT_PRF_Accomplishment, AccomplishmentRow(a, item));
    var id := dwh.LastInsertId();
    dwh.ToSql(REL_PRF_Person_Accomplishment, map["idPerson" := Int(personId), "idAccomplishment" := Int(id)]);
  }

  /** One element: dispatch to the writer's own step. */
  method WriteItem(dwh: Engine, w: Writer, personId: int, item: Value) returns (error: Option<string>)
    modifies dwh
    ensures Outcome(dwh.State(), error) == Step(w, old(dwh.State()), personId, item)
  {
    if ReadsFields(w) && !item.Obj? {
      return Some("AttributeError");
    }
    match w {
      case PeopleAlsoViewed => WriteRelated(dwh, personId, item, false);
      case SimilarlyNamedProfiles => WriteRelated(dwh, personId, item, true);
      case Languages =>
        WriteDimension(dwh, DIM_PRF_Language, map["language" := item], REL_PRF_Person_Language, personId, "idLanguage");
      case Skills => WriteDimension(dwh, DIM_PRF_Trait, TraitKey("skill", item), REL_PRF_Person_Trait, personId, "idTrait");
      case Interests => WriteDimension(dwh, DIM_PRF_Trait, TraitKey("interest", item), REL_PRF_Person_Trait, personId, "idTrait");
      case Groups =>
        var name := Field(item, "name");
        if Truthy(name) {
          WriteDimension(dwh, DIM_PRF_Group, map["name" := name], REL_PRF_Person_Group, personId, "idGroup");
        }
      case Qualification(_) =>
        WriteQualification(dwh, item);
        return Some("TypeError");
      case Accomplishment(a) => WriteAccomplishment(dwh, a, personId, item);
    }
    return None;
  }

  /** Once the loop has raised, later elements are not visited: the outcome is the one of the prefix. */
  lemma {:induction false} RunStopsAtError(w: Writer, db: Db, personId: int, items: seq<Value>, k: nat)
    requires k <= |items|
    requires Run(w, db, personId, items[..k]).error.Some?
    ensures Run(w, db, personId, items) == Run(w, db, personId, items[..k])
    decreases |items|
  {
    if k < |items| {
      var init := items[..|items| - 1];
      assert init[..k] == items[..k];
      RunStopsAtError(w, db, personId, init, k);
    } else {
      assert items[..k] == items;
    }
  }

  /** The loop body: write element `i`, extending the run over the first `i` elements by one. */
  method WriteNext(dwh: Engine, w: Writer, personId: int, xs: seq<Value>, i: nat, ghost db0: Db) returns (error: Option<string>)
    requires i < |xs| && Run(w, db0, personId, xs[..i]) == Outcome(dwh.State(), None)
    modifies dwh
    ensures Run(w, db0, personId, xs[..i + 1]) == Outcome(dwh.State(), error)
    ensures error.Some? ==> Run(w, db0, personId, xs) == Outcome(dwh.State(), error)
  {
    assert xs[..i + 1][..i] == xs[..i];
    error := WriteItem(dwh, w, personId, xs[i]);
    if error.Some? {
      RunStopsAtError(w, db0, personId, xs, i + 1);
    }
  }

  /** A writer: iterate the attribute's elements and write each, stopping at the first exception. */
  method Write(dwh: Engine, w: Writer, doc: Doc, personId: int) returns (error: Option<string>)
    modifies dwh
    ensures Outcome(dwh.State(), error) == WriteSpec(w, old(dwh.State()), doc, personId)
  {
    var items := Items(w, doc);
    if items.Failure? {
      return Some(items.error);
    }
    error := WriteItems(dwh, w, items.value, personId);
  }

  /** The loop of a writer over the attribute's elements, stopping at the first exception. */
  method WriteItems(dwh: Engine, w: Writer, xs: seq<Value>, personId: int) returns (error: Option<string>)
    modifies dwh
    ensures Outcome(dwh.State(), error) == Run(w, old(dwh.State()), personId, xs)
  {
    ghost var db0 := dwh.State();
    assert Run(w, db0, personId, xs[..0]) == Outcome(db0, None);
    var i := 0;
    while i < |xs|
      invariant 0 <= i <= |xs|
      invariant Run(w, db0, personId, xs[..i]) == Outcome(dwh.State(), None)
    {
      error := WriteNext(dwh, w, personId, xs, i, db0);
      if error.Some? {
        return;
      }
      i := i + 1;
    }
    assert xs[..|xs|] == xs;
    return None;
  }

  // ---------------------------------------------------------------- properties

  /** A viewed profile always adds one relationship row, even when the identical row already exists. */
  lemma ViewedAlwaysAppends(db: Db, personId: int, item: Value)
    requires item.Obj?
    ensures var o := Step(PeopleAlsoViewed, db, personId, item);
      var r := Resolve(db, DIM_PRF_Related, RelatedKey(item), RelatedRow(item));
      && o.error.None?
      && Rows(o.db, REL_PRF_Person_Related) == Rows(db, REL_PRF_Person_Related)
           + [Entry(TableOf(db, REL_PRF_Person_Related).autoIncrement, Relation(personId, r.id, "viewed"))]
  {
  }

  /**
    A similar profile with a name and a location is written idempotently: a second identical
    step finds the related profile and the relationship and writes nothing.
   */
  lemma SimilarIdempotent(db: Db, personId: int, item: Value)
    requires item.Obj? && Field(item, "name") != Null && Field(item, "location") != Null
    ensures var o := Step(SimilarlyNamedProfiles, db, personId, item);
      Step(SimilarlyNamedProfiles, o.db, personId, item) == o
  {
    var key := RelatedKey(item);
    var row := RelatedRow(item);
    var r := Resolve(db, DIM_PRF_Related, key, row);
    var rel := Relation(personId, r.id, "similar");
    var db2 := InsertIfAbsent(r.db, REL_PRF_Person_Related, rel);
    ResolveIdempotent(db, DIM_PRF_Related, key, row);
    assert TableOf(db2, DIM_PRF_Related) == TableOf(r.db, DIM_PRF_Related);
    assert Resolve(db2, DIM_PRF_Related, key, row) == Resolved(db2, r.id);
    InsertIfAbsentIdempotent(r.db, REL_PRF_Person_Related, rel);
  }

  /** Writing a skill never changes which trait row an interest of any name resolves to. */
  lemma {:induction false} SkillLeavesInterestsAlone(db: Db, personId: int, skill: Value, name: Value)
    ensures var o := Step(Skills, db, personId, skill);
      SelectId(o.db, DIM_PRF_Trait, TraitKey("interest", name)) == SelectId(db, DIM_PRF_Trait, TraitKey("interest", name))
  {
    var key := TraitKey("skill", skill);
    var ikey := TraitKey("interest", name);
    if SelectId(db, DIM_PRF_Trait, key).None? {
      var tb := TableOf(db, DIM_PRF_Trait);
      assert !Matches(key, ikey) by {
        assert key["type"] == Str("skill") && ikey["type"] == Str("interest");
      }
      FindFirstAppend(tb.entries, Entry(tb.autoIncrement, key), ikey);
    }
  }

  /** The same name as a skill and as an interest gives two distinct trait rows. */
  lemma SkillAndInterestAreDistinctTraits(db: Db, personId: int, name: Value)
    requires name != Null && SelectId(db, DIM_PRF_Trait, TraitKey("skill", name)).None?
    requires SelectId(db, DIM_PRF_Trait, TraitKey("interest", name)).None?
    ensures var o1 := Step(Skills, db, personId, name);
      var o2 := Step(Interests, o1.db, personId, name);
      |Rows(o2.db, DIM_PRF_Trait)| == |Rows(db, DIM_PRF_Trait)| + 2
  {
    SkillLeavesInterestsAlone(db, personId, name, name);
  }

  /** A group element without a truthy name is skipped: nothing is written. */
  lemma GroupWithoutNameSkipped(db: Db, personId: int, item: Value)
    requires item.Obj? && !Truthy(Field(item, "name"))
    ensures Step(Groups, db, personId, item) == Outcome(db, None)
  {
  }

  /**
    A qualification element with neither a truthy start nor a truthy end writes nothing before
    the converter call raises; a dated one first resolves its duration.
   */
  lemma DurationOnlyWhenDated(w: Writer, db: Db, personId: int, item: Value)
    requires w.Qualification? && item.Obj?
    ensures !Dated(item) ==> Step(w, db, personId, item) == Outcome(db, Some("TypeError"))
    ensures Dated(item) ==>
      Step(w, db, personId, item) == Outcome(Resolve(db, DIM_PRF_Duration, DurationKey(item), DurationKey(item)).db, Some("TypeError"))
  {
  }

  /**
    The qualification writers never write a qualification: with at least one element they raise
    TypeError on the first, after at most its duration; with none they do nothing.
   */
  lemma {:induction false} QualificationWritersRaise(w: Writer, db: Db, doc: Doc, personId: int)
    requires w.Qualification? && Items(w, doc).Success? && |Items(w, doc).value| > 0
    ensures var o := WriteSpec(w, db, doc, personId);
      && o.error.Some?
      && Rows(o.db, FACT_PRF_Qualification) == Rows(db, FACT_PRF_Qualification)
      && Rows(o.db, REL_PRF_Person_Qualification) == Rows(db, REL_PRF_Person_Qualification)
  {
    var xs := Items(w, doc).value;
    assert xs[..1][..0] == [];
    RunStopsAtError(w, db, personId, xs, 1);
  }

  /** `experiences` is the one writer without a guard: a missing attribute raises, where the others do nothing. */
  lemma ExperiencesUnguarded(w: Writer, db: Db, doc: Doc, personId: int)
    requires "experiences" !in doc && Attribute(w) !in doc
    ensures WriteSpec(Qualification(Experiences), db, doc, personId) == Outcome(db, Some("TypeError"))
    ensures w != Qualification(Experiences) ==> WriteSpec(w, db, doc, personId) == Outcome(db, None)
  {
  }

  /** An accomplishment adds one fact row and one relationship row pointing at that fact's generated id. */
  lemma AccomplishmentLinksNewFact(a: AccomplishmentKind, db: Db, personId: int, item: Value)
    requires item.Obj?
    ensures var o := Step(Accomplishment(a), db, personId, item);
      var factId := TableOf(db, FACT_PRF_Accomplishment).autoIncrement;
      && o.error.None?
      && Rows(o.db, FACT_PRF_Accomplishment) == Rows(db, FACT_PRF_Accomplishment) + [Entry(factId, AccomplishmentRow(a, item))]
      && Rows(o.db, REL_PRF_Person_Accomplishment) == Rows(db, REL_PRF_Person_Accomplishment)
           + [Entry(TableOf(db, REL_PRF_Person_Accomplishment).autoIncrement,
                    map["idPerson" := Int(personId), "idAccomplishment" := Int(factId)])]
  {
  }

  /** The values a patent description is assembled from: the ones that are not None, in order. */
  function Present(parts: seq<Value>): (r: seq<Value>)
    ensures |r| <= |parts|
    ensures forall k :: 0 <= k < |r| ==> r[k] != Null
  {
    if parts == [] then []
    else (if parts[0] == Null then [] else [parts[0]]) + Present(parts[1..])
  }

  /** The rendered values joined by " | ". */
  function Joined(parts: seq<Value>): string {
    if parts == [] then ""
    else if |parts| == 1 then Format(parts[0])
    else Joined(parts[..|parts| - 1]) + " | " + Format(parts[|parts| - 1])
  }

  /**
    The patent description: None when all three are None; the single number when only one number
    is given; "None | <description>" for a description alone; otherwise the present values
    joined by " | " in the order application, patent, description.
   */
  lemma PatentDescriptionJoinsPresentParts(a: Value, p: Value, d: Value)
    ensures PatentDescription(a, p, d) ==
      if a == Null && p == Null then (if d == Null then Null else Str("None | " + Format(d)))
      else if |Present([a, p, d])| == 1 then Present([a, p, d])[0]
      else Str(Joined(Present([a, p, d])))
  {
    PresentOfThree(a, p, d);
    if a == Null && p == Null {
    } else if a == Null {
      if d == Null {
        assert Present([a, p, d]) == [p];
      } else {
        assert Present([a, p, d]) == [p, d];
        JoinedOfTwo(p, d);
      }
    } else if p == Null {
      if d == Null {
        assert Present([a, p, d]) == [a];
      } else {
        assert Present([a, p, d]) == [a, d];
        JoinedOfTwo(a, d);
      }
    } else if d == Null {
      assert Present([a, p, d]) == [a, p];
      JoinedOfTwo(a, p);
    } else {
      assert Present([a, p, d]) == [a, p, d];
      JoinedOfThree(a, p, d);
    }
  }

  lemma PresentOfThree(a: Value, p: Value, d: Value)
    ensures Present([a, p, d]) == (if a == Null then [] else [a]) + (if p == Null then [] else [p]) + (if d == Null then [] else [d])
  {
    assert [a, p, d][1..] == [p, d];
    assert [p, d][1..] == [d];
    assert [d][1..] == [];
    calc {
      Present([a, p, d]);
      (if a == Null then [] else [a]) + Present([p, d]);
      (if a == Null then [] else [a]) + ((if p == Null then [] else [p]) + Present([d]));
      (if a == Null then [] else [a]) + ((if p == Null then [] else [p]) + ((if d == Null then [] else [d]) + Present([])));
    }
  }

  lemma JoinedOfTwo(x: Value, y: Value)
    ensures Joined([x, y]) == Format(x) + " | " + Format(y)
  {
    assert [x, y][..1] == [x];
  }

  lemma JoinedOfThree(x: Value, y: Value, z: Value)
    ensures Joined([x, y, z]) == Format(x) + " | " + Format(y) + " | " + Format(z)
  {
    assert [x, y, z][..2] == [x, y];
    JoinedOfTwo(x, y);
  }

  /** Every step, and so every writer, only appends rows. */
  lemma StepExtends(w: Writer, db: Db, personId: int, item: Value)
    ensures Extends(db, Step(w, db, personId, item).db)
  {
    match w
    case PeopleAlsoViewed => RelatedStepExtends(db, personId, item);
    case SimilarlyNamedProfiles => RelatedStepExtends(db, personId, item);
    case Qualification(_) => QualificationStepExtends(db, item);
    case Accomplishment(a) => AccomplishmentStepExtends(a, db, personId, item);
    case _ => DimensionStepExtends(db, personId);
  }

  lemma QualificationStepExtends(db: Db, item: Value)
    ensures Extends(db, QualificationStep(db, item))
  {
    WritesExtend(db, DIM_PRF_Duration, DurationKey(item), DurationKey(item), []);
  }

  lemma RelatedStepExtends(db: Db, personId: int, item: Value)
    ensures forall checked :: Extends(db, RelatedStep(db, personId, item, checked))
  {
    var r := Resolve(db, DIM_PRF_Related, RelatedKey(item), RelatedRow(item));
    WritesExtend(db, DIM_PRF_Related, RelatedKey(item), RelatedRow(item), []);
    forall checked ensures Extends(db, RelatedStep(db, personId, item, checked)) {
      var rel := Relation(personId, r.id, if checked then "similar" else "viewed");
      WritesExtend(r.db, REL_PRF_Person_Related, map[], rel, []);
      ExtendsTransitive(db, r.db, RelatedStep(db, personId, item, checked));
    }
  }

  lemma DimensionStepExtends(db: Db, personId: int)
    ensures forall dim, key, rel, column :: Extends(db, DimensionStep(db, dim, key, rel, personId, column))
  {
    forall dim, key, rel, column ensures Extends(db, DimensionStep(db, dim, key, rel, personId, column)) {
      var r := Resolve(db, dim, key, key);
      WritesExtend(db, dim, key, key, []);
      WritesExtend(r.db, rel, map[], map["idPerson" := Int(personId), column := Int(r.id)], []);
      ExtendsTransitive(db, r.db, DimensionStep(db, dim, key, rel, personId, column));
    }
  }

  lemma AccomplishmentStepExtends(a: AccomplishmentKind, db: Db, personId: int, item: Value)
    ensures Extends(db, AccomplishmentStep(a, db, personId, item))
  {
    var db' := Insert(db, FACT_PRF_Accomplishment, AccomplishmentRow(a, item));
    WritesExtend(db, FACT_PRF_Accomplishment, map[], AccomplishmentRow(a, item), []);
    WritesExtend(db', REL_PRF_Person_Accomplishment, map[],
      map["idPerson" := Int(personId), "idAccomplishment" := Int(db'.lastInsertId)], []);
    ExtendsTransitive(db, db', AccomplishmentStep(a, db, personId, item));
  }

  lemma {:induction false} RunExtends(w: Writer, db: Db, personId: int, items: seq<Value>)
    ensures Extends(db, Run(w, db, personId, items).db)
    decreases |items|
  {
    if items != [] {
      var o := Run(w, db, personId, items[..|items| - 1]);
      RunExtends(w, db, personId, items[..|items| - 1]);
      if o.error.None? {
        StepExtends(w, o.db, personId, items[|items| - 1]);
        ExtendsTransitive(db, o.db, Step(w, o.db, personId, items[|items| - 1]).db);
      }
    }
  }

  lemma WriteExtends(w: Writer, db: Db, doc: Doc, personId: int)
    ensures Extends(db, WriteSpec(w, db, doc, personId).db)
  {
    if Items(w, doc).Success? {
      RunExtends(w, db, personId, Items(w, doc).value);
    }
  }
}
