/**
  The legacy LinkedIn import script. For every profile document it resolves the location in
  DIM_LIN_Location, appends the person to FACT_PRF_Person with origin 2, then writes the
  recommendations, the viewed and similarly named profiles (as rows of FACT_PRF_Related), the
  languages with the skills nested under them, the interests, the groups, and starts on the
  experiences and the education.

  Unlike the current profile writers, this script checks every relationship row before
  appending it. It calls `convert_date`, `experience` and `education` on the legacy converter
  module, which defines none of them: the first experience or education element raises
  AttributeError, after at most one institution row, and the script (which catches nothing)
  ends there.
 */
module LegacyImport {
  import opened Wrappers
  import opened Documents
  import opened Warehouse
  import ProfileConvert
  import LegacyProfileConvert
  import ProfileWriters
  import ProfileImport

  /** The origin id every imported person row carries. */
  const OriginId: int := 2

  // ---------------------------------------------------------------- location and person

  /** `SELECT id FROM DIM_LIN_Location` on the four columns, else append the location and read its id. */
  function LocationSpec(db: Db, doc: Doc): Resolved {
    var key := ProfileConvert.Location(doc);
    Resolve(db, DIM_LIN_Location, key, key)
  }

  method WriteLocation(dwh: Engine, doc: Doc) returns (id: int)
    modifies dwh
    ensures dwh.State() == LocationSpec(old(dwh.State()), doc).db && id == LocationSpec(old(dwh.State()), doc).id
  {
    var key := ProfileConvert.Location(doc);
    id := GetOrCreate(dwh, DIM_LIN_Location, key, key);
  }

  /** The person insert into FACT_PRF_Person: one row, no lookup. */
  function PersonSpec(db: Db, doc: Doc, locationId: int): Outcome {
    match LegacyProfileConvert.Person(doc, Int(locationId), Int(OriginId))
    case Failure(e) => Outcome(db, Some(e))
    case Success(row) => Outcome(Insert(db, FACT_PRF_Person, row), None)
  }

  method WritePerson(dwh: Engine, doc: Doc, locationId: int) returns (r: Result<int>)
    modifies dwh
    ensures var o := PersonSpec(old(dwh.State()), doc, locationId);
      dwh.State() == o.db && (r.Failure? <==> o.error.Some?) && (r.Failure? ==> r.error == o.error.value)
    ensures r.Success? ==> r.value == TableOf(old(dwh.State()), FACT_PRF_Person).autoIncrement
  {
    var row := LegacyProfileConvert.Person(doc, Int(locationId), Int(OriginId));
    if row.Failure? {
      return Failure(row.error);
    }
    dwh.ToSql(FACT_PRF_Person, row.value);
    var id := dwh.LastInsertId();
    return Success(id);
  }

  // ---------------------------------------------------------------- related profiles

  /** The two lists of related profiles, both appended to FACT_PRF_Related with their own type. */
  datatype Listing = Viewed | Similar

  function ListingAttribute(l: Listing): string {
    match l
    case Viewed => "people_also_viewed"
    case Similar => "similarly_named_profiles"
  }

  function ListingType(l: Listing): string {
    match l
    case Viewed => "viewed"
    case Similar => "similar"
  }

  function RelatedRow(l: Listing, personId: int, item: Value): Row {
    map[
      "idPerson" := Int(personId),
      "type" := Str(ListingType(l)),
      "name" := Field(item, "name"),
      "location" := Field(item, "location"),
      "summary" := Field(item, "summary")]
  }

  function RelatedRows(l: Listing, personId: int, xs: seq<Value>): (r: seq<Row>)
    ensures |r| == |xs| && forall k :: 0 <= k < |xs| ==> r[k] == RelatedRow(l, personId, xs[k])
  {
    seq(|xs|, k requires 0 <= k < |xs| => RelatedRow(l, personId, xs[k]))
  }

  /** Collect one row per element, then append them in one insert; a non-mapping element raises first. */
  function ListingSpec(l: Listing, db: Db, doc: Doc, personId: int): Outcome {
    match Guarded(Get(doc, ListingAttribute(l)))
    case Failure(e) => Outcome(db, Some(e))
    case Success(xs) =>
      if AllMappings(xs) then Outcome(InsertAll(db, FACT_PRF_Related, RelatedRows(l, personId, xs)), None)
      else Outcome(db, Some("AttributeError"))
  }

  method WriteListing(dwh: Engine, l: Listing, doc: Doc, personId: int) returns (error: Option<string>)
    modifies dwh
    ensures Outcome(dwh.State(), error) == ListingSpec(l, old(dwh.State()), doc, personId)
  {
    var items := Guarded(Get(doc, ListingAttribute(l)));
    if items.Failure? {
      return Some(items.error);
    }
    var xs := items.value;
    var data: seq<Row> := [];
    var i := 0;
    while i < |xs|
      invariant 0 <= i <= |xs|
      invariant AllMappings(xs[..i])
      invariant data == RelatedRows(l, personId, xs[..i])
    {
      if !xs[i].Obj? {
        return Some("AttributeError");
      }
      data := data + [RelatedRow(l, personId, xs[i])];
      i := i + 1;
    }
    assert xs[..i] == xs;
    if data != [] {
      dwh.ToSqlAll(FACT_PRF_Related, data);
    }
    return None;
  }

  // ---------------------------------------------------------------- element-wise writers

  /** The writers that loop over an attribute's elements one by one. */
  datatype Writer = Language | Skill | Interest | Group | Experience | Schooling

  function Attribute(w: Writer): string {
    match w
    case Language => "languages"
    case Skill => "skills"
    case Interest => "interests"
    case Group => "groups"
    case Experience => "experiences"
    case Schooling => "education"
  }

  /** The relationship row between the person and a dimension row; it never holds a NULL. */
  function Link(personId: int, column: string, id: int): (r: Row)
    ensures NoNulls(r) && "idPerson" in r && column in r && r[column] == Int(id)
  {
    map["idPerson" := Int(personId), column := Int(id)]
  }

  /** Get-or-create the dimension row, then append the person's relationship row unless an identical one exists. */
  function CheckedStep(db: Db, dim: TableName, key: Row, rel: TableName, personId: int, column: string): Db {
    var r := Resolve(db, dim, key, key);
    InsertIfAbsent(r.db, rel, Link(personId, column, r.id))
  }

  /**
    The institution an experience or education element is filed under, if any: an experience
    with a truthy company or location uses both; an education element with a truthy school is
    filed under its `institution` field with no location.
   */
  function InstitutionKey(w: Writer, item: Value): Option<Row> {
    if w == Experience && (Truthy(Field(item, "company")) || Truthy(Field(item, "location"))) then
      Some(map["name" := Field(item, "company"), "location" := Field(item, "location")])
    else if w == Schooling && Truthy(Field(item, "school")) then
      Some(map["name" := Field(item, "institution"), "location" := Null])
    else None
  }

  /**
    An experience or education element: a dated one raises at once (the converter module has no
    `convert_date`); an undated one resolves its institution, if any, and then raises (no
    `experience` or `education` converter either).
   */
  function BackgroundStep(w: Writer, db: Db, item: Value): Db {
    if ProfileWriters.Dated(item) then db
    else match InstitutionKey(w, item)
      case None => db
      case Some(key) => Resolve(db, DIM_PRF_Institution, key, key).db
  }

  /** One iteration of a writer's loop for one element. */
  function Step(w: Writer, db: Db, personId: int, item: Value): Outcome {
    match w
    case Language =>
      Outcome(CheckedStep(db, DIM_PRF_Language, map["language" := item], REL_PRF_Person_Language, personId, "idLanguage"), None)
    case Skill =>
      Outcome(CheckedStep(db, DIM_PRF_Trait, ProfileWriters.TraitKey("skill", item), REL_PRF_Person_Trait, personId, "idTrait"), None)
    case Interest =>
      Outcome(CheckedStep(db, DIM_PRF_Trait, ProfileWriters.TraitKey("interest", item), REL_PRF_Person_Trait, personId, "idTrait"), None)
    case Group =>
      if !item.Obj? then Outcome(db, Some("AttributeError"))
      else if !Truthy(Field(item, "name")) then Outcome(db, None)
      else Outcome(CheckedStep(db, DIM_PRF_Group, map["name" := Field(item, "name")], REL_PRF_Person_Group, personId, "idGroup"), None)
    case _ =>
      if !item.Obj? then Outcome(db, Some("AttributeError"))
      else Outcome(BackgroundStep(w, db, item), Some("AttributeError"))
  }

  /** The writer's loop over the elements, stopping at the first exception. */
  function Run(w: Writer, db: Db, personId: int, items: seq<Value>): Outcome
    decreases |items|
  {
    if items == [] then Outcome(db, None)
    else
      var o := Run(w, db, personId, items[..|items| - 1]);
      if o.error.Some? then o else Step(w, o.db, personId, items[|items| - 1])
  }

  /** `if doc.get(a) and len(doc.get(a)) > 0: for x in doc.get(a): ...` */
  function WriteSpec(w: Writer, db: Db, doc: Doc, personId: int): Outcome {
    match Guarded(Get(doc, Attribute(w)))
    case Failure(e) => Outcome(db, Some(e))
    case Success(xs) => Run(w, db, personId, xs)
  }

  method WriteChecked(dwh: Engine, dim: TableName, key: Row, rel: TableName, personId: int, column: string)
    modifies dwh
    ensures dwh.State() == CheckedStep(old(dwh.State()), dim, key, rel, personId, column)
  {
    var id := GetOrCreate(dwh, dim, key, key);
    InsertUnlessPresent(dwh, rel, Link(personId, column, id));
  }

  method WriteBackground(dwh: Engine, w: Writer, item: Value)
    modifies dwh
    ensures dwh.State() == BackgroundStep(w, old(dwh.State()), item)
  {
    if !ProfileWriters.Dated(item) {
      var key := InstitutionKey(w, item);
      if key.Some? {
        var id := GetOrCreate(dwh, DIM_PRF_Institution, key.value, key.value);
      }
    }
  }

  method WriteItem(dwh: Engine, w: Writer, personId: int, item: Value) returns (error: Option<string>)
    modifies dwh
    ensures Outcome(dwh.State(), error) == Step(w, old(dwh.State()), personId, item)
  {
    match w {
      case Language =>
        WriteChecked(dwh, DIM_PRF_Language, map["language" := item], REL_PRF_Person_Language, personId, "idLanguage");
      case Skill =>
        WriteChecked(dwh, DIM_PRF_Trait, ProfileWriters.TraitKey("skill", item), REL_PRF_Person_Trait, personId, "idTrait");
      case Interest =>
        WriteChecked(dwh, DIM_PRF_Trait, ProfileWriters.TraitKey("interest", item), REL_PRF_Person_Trait, personId, "idTrait");
      case Group =>
        if !item.Obj? {
          return Some("AttributeError");
        }
        if Truthy(Field(item, "name")) {
          WriteChecked(dwh, DIM_PRF_Group, map["name" := Field(item, "name")], REL_PRF_Person_Group, personId, "idGroup");
        }
      case _ =>
        if item.Obj? {
          WriteBackground(dwh, w, item);
        }
        return Some("AttributeError");
    }
    return None;
  }

  /** Once the loop has raised, later elements are not visited. */
  lemma {:induction false} RunStopsAtError(w: Writer, db: Db, personId: int, items: seq<Value>, k: nat)
    requires k <= |items|
    requires Run(w, db, personId, items[..k]).error.Some?
    ensures Run(w, db, personId, items) == Run(w, db, personId, items[..k])
    decreases |items|
  {
    if k < |items| {
      var init := items[..|items| - 1];
      assert init[..k] == items[..k];
      RunStopsAtError(w, db, personId, init, k);
    } else {
      assert items[..k] == items;
    }
  }

  method WriteNext(dwh: Engine, w: Writer, personId: int, xs: seq<Value>, i: nat, ghost db0: Db) returns (error: Option<string>)
    requires i < |xs| && Run(w, db0, personId, xs[..i]) == Outcome(dwh.State(), None)
    modifies dwh
    ensures Run(w, db0, personId, xs[..i + 1]) == Outcome(dwh.State(), error)
  {
    assert xs[..i + 1][..i] == xs[..i];
    error := WriteItem(dwh, w, personId, xs[i]);
  }

  method Write(dwh: Engine, w: Writer, doc: Doc, personId: int) returns (error: Option<string>)
    modifies dwh
    ensures Outcome(dwh.State(), error) == WriteSpec(w, old(dwh.State()), doc, personId)
  {
    ghost var db0 := dwh.State();
    var items := Guarded(Get(doc, Attribute(w)));
    if items.Failure? {
      return Some(items.error);
    }
    var xs := items.value;
    assert WriteSpec(w, db0, doc, personId) == Run(w, db0, personId, xs);
    assert Run(w, db0, personId, xs[..0]) == Outcome(db0, None);
    var i := 0;
    while i < |xs|
      invariant 0 <= i <= |xs|
      invariant Run(w, db0, personId, xs[..i]) == Outcome(dwh.State(), None)
    {
      error := WriteNext(dwh, w, personId, xs, i, db0);
      if error.Some? {
        RunStopsAtError(w, db0, personId, xs, i + 1);
        return;
      }
      i := i + 1;
    }
    assert xs[..|xs|] == xs;
    return None;
  }

  // ---------------------------------------------------------------- one document

  /** The sections of the script after the person insert, in order. */
  datatype Section = Recommendations | Related(l: Listing) | LanguagesThenSkills | Each(w: Writer)

  const Order: seq<Section> := [
    Recommendations, Related(Viewed), Related(Similar), LanguagesThenSkills,
    Each(Interest), Each(Group), Each(Experience), Each(Schooling)]

  /** The skills are written inside the languages branch: only when the languages are truthy. */
  function LanguagesSpec(db: Db, doc: Doc, personId: int): Outcome {
    if !Truthy(Get(doc, "languages")) then Outcome(db, None)
    else
      var o := WriteSpec(Language, db, doc, personId);
      if o.error.Some? then o else WriteSpec(Skill, o.db, doc, personId)
  }

  function SectionSpec(s: Section, db: Db, doc: Doc, personId: int): Outcome {
    match s
    case Recommendations => ProfileWriters.RecommendationsSpec(db, doc, personId)
    case Related(l) => ListingSpec(l, db, doc, personId)
    case LanguagesThenSkills => LanguagesSpec(db, doc, personId)
    case Each(w) => WriteSpec(w, db, doc, personId)
  }

  /** Sections run one after the other, stopping at the first exception. */
  function Sections(ss: seq<Section>, db: Db, doc: Doc, personId: int): Outcome
    decreases |ss|
  {
    if ss == [] then Outcome(db, None)
    else
      var o := Sections(ss[..|ss| - 1], db, doc, personId);
      if o.error.Some? then o else SectionSpec(ss[|ss| - 1], o.db, doc, personId)
  }

  /** One document: location, person, then every section of `Order` with the person's new id. */
  function DocumentSpec(db: Db, doc: Doc): Outcome {
    var loc := LocationSpec(db, doc);
    var person := PersonSpec(loc.db, doc, loc.id);
    if person.error.Some? then person
    else Sections(Order, person.db, doc, TableOf(loc.db, FACT_PRF_Person).autoIncrement)
  }

  method WriteLanguages(dwh: Engine, doc: Doc, personId: int) returns (error: Option<string>)
    modifies dwh
    ensures Outcome(dwh.State(), error) == LanguagesSpec(old(dwh.State()), doc, personId)
  {
    if !Truthy(Get(doc, "languages")) {
      return None;
    }
    error := Write(dwh, Language, doc, personId);
    if error.None? {
      error := Write(dwh, Skill, doc, personId);
    }
  }

  method WriteSection(dwh: Engine, s: Section, doc: Doc, personId: int) returns (error: Option<string>)
    modifies dwh
    ensures Outcome(dwh.State(), error) == SectionSpec(s, old(dwh.State()), doc, personId)
  {
    match s {
      case Recommendations => error := ProfileWriters.WriteRecommendations(dwh, doc, personId);
      case Related(l) => error := WriteListing(dwh, l, doc, personId);
      case LanguagesThenSkills => error := WriteLanguages(dwh, doc, personId);
      case Each(w) => error := Write(dwh, w, doc, personId);
    }
  }

  lemma {:induction false} SectionsStopAtError(ss: seq<Section>, db: Db, doc: Doc, personId: int, k: nat)
    requires k <= |ss|
    requires Sections(ss[..k], db, doc, personId).error.Some?
    ensures Sections(ss, db, doc, personId) == Sections(ss[..k], db, doc, personId)
    decreases |ss|
  {
    if k < |ss| {
      var init := ss[..|ss| - 1];
      assert init[..k] == ss[..k];
      SectionsStopAtError(init, db, doc, personId, k);
    } else {
      assert ss[..k] == ss;
    }
  }

  method WriteSectionAt(dwh: Engine, ss: seq<Section>, i: nat, doc: Doc, personId: int, ghost db0: Db) returns (error: Option<string>)
    requires i < |ss| && Sections(ss[..i], db0, doc, personId) == Outcome(dwh.State(), None)
    modifies dwh
    ensures Sections(ss[..i + 1], db0, doc, personId) == Outcome(dwh.State(), error)
  {
    assert ss[..i + 1][..i] == ss[..i];
    error := WriteSection(dwh, ss[i], doc, personId);
  }

  method WriteSections(dwh: Engine, ss: seq<Section>, doc: Doc, personId: int) returns (error: Option<string>)
    modifies dwh
    ensures Outcome(dwh.State(), error) == Sections(ss, old(dwh.State()), doc, personId)
  {
    var i := 0;
    while i < |ss|
      invariant 0 <= i <= |ss|
      invariant Sections(ss[..i], old(dwh.State()), doc, personId) == Outcome(dwh.State(), None)
    {
      error := WriteSectionAt(dwh, ss, i, doc, personId, old(dwh.State()));
      if error.Some? {
        SectionsStopAtError(ss, old(dwh.State()), doc, personId, i + 1);
        return;
      }
      i := i + 1;
    }
    assert ss[..|ss|] == ss;
    return None;
  }

  method ImportDocument(dwh: Engine, doc: Doc) returns (error: Option<string>)
    modifies dwh
    ensures Outcome(dwh.State(), error) == DocumentSpec(old(dwh.State()), doc)
  {
    var locationId := WriteLocation(dwh, doc);
    var person := WritePerson(dwh, doc, locationId);
    if person.Failure? {
      return Some(person.error);
    }
    error := WriteSections(dwh, Order, doc, person.value);
  }

  // ---------------------------------------------------------------- the main loop

  method ImportNext(dwh: Engine, docs: seq<Doc>, i: nat, counter: nat, ghost db0: Db) returns (counter': nat, error: Option<string>)
    requires i < |docs| && ProfileImport.Loop(DocumentSpec, db0, docs[..i]) == ProfileImport.Progress(Outcome(dwh.State(), None), counter)
    modifies dwh
    ensures ProfileImport.Loop(DocumentSpec, db0, docs[..i + 1]) == ProfileImport.Progress(Outcome(dwh.State(), error), counter')
  {
    assert docs[..i + 1][..i] == docs[..i];
    counter' := counter + 1;
    error := ImportDocument(dwh, docs[i]);
  }

  /** The main loop: count the document, then import it; the first exception ends the script. */
  method Import(dwh: Engine, docs: seq<Doc>) returns (counter: nat, error: Option<string>)
    modifies dwh
    ensures ProfileImport.Progress(Outcome(dwh.State(), error), counter) == ProfileImport.Loop(DocumentSpec, old(dwh.State()), docs)
  {
    counter := 0;
    error := None;
    var i := 0;
    while i < |docs|
      invariant 0 <= i <= |docs|
      invariant ProfileImport.Loop(DocumentSpec, old(dwh.State()), docs[..i]) == ProfileImport.Progress(Outcome(dwh.State(), error), counter)
      invariant error.None?
    {
      counter, error := ImportNext(dwh, docs, i, counter, old(dwh.State()));
      if error.Some? {
        ProfileImport.LoopStopsAtError(DocumentSpec, old(dwh.State()), docs, i + 1);
        return;
      }
      i := i + 1;
    }
    assert docs[..|docs|] == docs;
  }

  // ---------------------------------------------------------------- properties

  /**
    Every relationship is checked: a language, skill, interest or group seen a second time for
    the same person writes nothing more, provided its key holds no NULL.
   */
  lemma CheckedStepIdempotent(db: Db, dim: TableName, key: Row, rel: TableName, personId: int, column: string)
    requires NoNulls(key) && dim != rel
    ensures var once := CheckedStep(db, dim, key, rel, personId, column);
      CheckedStep(once, dim, key, rel, personId, column) == once
  {
    var r := Resolve(db, dim, key, key);
    var link := Link(personId, column, r.id);
    assert Agrees(key, key);
    ResolveSurvivesOtherInsert(db, dim, key, key, rel, link);
    InsertIfAbsentIdempotent(r.db, rel, link);
    CheckedStepOnResolved(InsertIfAbsent(r.db, rel, link), dim, key, rel, personId, column, r.id);
  }

  /** Once the key resolves to `id` without writing, the step is just the checked relationship insert. */
  lemma CheckedStepOnResolved(db: Db, dim: TableName, key: Row, rel: TableName, personId: int, column: string, id: int)
    requires Resolve(db, dim, key, key) == Resolved(db, id)
    ensures CheckedStep(db, dim, key, rel, personId, column) == InsertIfAbsent(db, rel, Link(personId, column, id))
  {
  }

  /** The same language listed twice for one person gives one relationship row, where the current writers give two. */
  lemma RepeatedLanguageLinkedOnce(db: Db, personId: int, lang: Value)
    requires lang != Null
    ensures var once := Step(Language, db, personId, lang);
      Step(Language, once.db, personId, lang) == once
  {
    CheckedStepIdempotent(db, DIM_PRF_Language, map["language" := lang], REL_PRF_Person_Language, personId, "idLanguage");
  }

  /** Skills are written only inside the languages branch: a profile without languages gets none of its skills. */
  lemma SkillsNeedLanguages(db: Db, doc: Doc, personId: int)
    requires !Truthy(Get(doc, "languages"))
    ensures SectionSpec(LanguagesThenSkills, db, doc, personId) == Outcome(db, None)
  {
  }

  /**
    A non-empty experience or education list raises AttributeError on its first element and
    never writes a duration or a qualification; at most one institution row is appended.
   */
  lemma {:induction false} BackgroundRaisesOnFirst(w: Writer, db: Db, doc: Doc, personId: int)
    requires (w == Experience || w == Schooling) && Guarded(Get(doc, Attribute(w))).Success?
    requires |Guarded(Get(doc, Attribute(w))).value| > 0
    ensures var o := WriteSpec(w, db, doc, personId);
      && o.error == Some("AttributeError")
      && Rows(o.db, DIM_PRF_Duration) == Rows(db, DIM_PRF_Duration)
      && Rows(o.db, FACT_PRF_Qualification) == Rows(db, FACT_PRF_Qualification)
      && |Rows(o.db, DIM_PRF_Institution)| <= |Rows(db, DIM_PRF_Institution)| + 1
  {
    var xs := Guarded(Get(doc, Attribute(w))).value;
    assert xs[..1][..0] == [];
    RunStopsAtError(w, db, personId, xs, 1);
  }

  /**
    An undated education element with a truthy school always appends a new institution row: its
    key has a NULL location, which never equals anything in SQL.
   */
  lemma EducationInstitutionAlwaysAppends(db: Db, personId: int, item: Value)
    requires item.Obj? && !ProfileWriters.Dated(item) && Truthy(Field(item, "school"))
    ensures var key := map["name" := Field(item, "institution"), "location" := Null];
      Rows(Step(Schooling, db, personId, item).db, DIM_PRF_Institution)
        == Rows(db, DIM_PRF_Institution) + [Entry(TableOf(db, DIM_PRF_Institution).autoIncrement, key)]
  {
    var key := map["name" := Field(item, "institution"), "location" := Null];
    NullKeyAlwaysAppends(db, DIM_PRF_Institution, key, key, "location");
  }

  /** Related profiles are appended, never looked up: one row per element, in order, after the rows already there. */
  lemma ListingAppendsInOrder(l: Listing, db: Db, doc: Doc, personId: int, xs: seq<Value>)
    requires Guarded(Get(doc, ListingAttribute(l))) == Success(xs) && AllMappings(xs)
    ensures var before := Rows(db, FACT_PRF_Related);
      var after := Rows(ListingSpec(l, db, doc, personId).db, FACT_PRF_Related);
      && |after| == |before| + |xs|
      && after[..|before|] == before
      && forall k :: 0 <= k < |xs| ==> after[|before| + k].row == RelatedRow(l, personId, xs[k])
  {
    var rows := RelatedRows(l, personId, xs);
    assert ListingSpec(l, db, doc, personId).db == InsertAll(db, FACT_PRF_Related, rows);
    InsertAllAppendsInOrder(db, FACT_PRF_Related, rows);
  }

  lemma {:induction false} RunExtends(w: Writer, db: Db, personId: int, items: seq<Value>)
    ensures Extends(db, Run(w, db, personId, items).db)
    decreases |items|
  {
    if items != [] {
      var o := Run(w, db, personId, items[..|items| - 1]);
      RunExtends(w, db, personId, items[..|items| - 1]);
      if o.error.None? {
        StepExtends(w, o.db, personId, items[|items| - 1]);
        ExtendsTransitive(db, o.db, Step(w, o.db, personId, items[|items| - 1]).db);
      }
    }
  }

  lemma StepExtends(w: Writer, db: Db, personId: int, item: Value)
    ensures Extends(db, Step(w, db, personId, item).db)
  {
    match w
    case Language => CheckedStepExtends(db, DIM_PRF_Language, map["language" := item], REL_PRF_Person_Language, personId, "idLanguage");
    case Skill => CheckedStepExtends(db, DIM_PRF_Trait, ProfileWriters.TraitKey("skill", item), REL_PRF_Person_Trait, personId, "idTrait");
    case Interest => CheckedStepExtends(db, DIM_PRF_Trait, ProfileWriters.TraitKey("interest", item), REL_PRF_Person_Trait, personId, "idTrait");
    case Group => CheckedStepExtends(db, DIM_PRF_Group, map["name" := Field(item, "name")], REL_PRF_Person_Group, personId, "idGroup");
    case _ =>
      match InstitutionKey(w, item)
      case None =>
      case Some(key) => WritesExtend(db, DIM_PRF_Institution, key, key, []);
  }

  lemma CheckedStepExtends(db: Db, dim: TableName, key: Row, rel: TableName, personId: int, column: string)
    ensures Extends(db, CheckedStep(db, dim, key, rel, personId, column))
  {
    var r := Resolve(db, dim, key, key);
    WritesExtend(db, dim, key, key, []);
    WritesExtend(r.db, rel, map[], Link(personId, column, r.id), []);
    ExtendsTransitive(db, r.db, CheckedStep(db, dim, key, rel, personId, column));
  }

  lemma SectionExtends(s: Section, db: Db, doc: Doc, personId: int)
    ensures Extends(db, SectionSpec(s, db, doc, personId).db)
  {
    match s
    case Recommendations => ProfileImport.RecommendationsExtend(db, doc, personId);
    case Related(l) =>
      match Guarded(Get(doc, ListingAttribute(l))) {
        case Failure(_) =>
        case Success(xs) => WritesExtend(db, FACT_PRF_Related, map[], map[], RelatedRows(l, personId, xs));
      }
    case LanguagesThenSkills =>
      if Truthy(Get(doc, "languages")) {
        WriteExtends(Language, db, doc, personId);
        var o := WriteSpec(Language, db, doc, personId);
        WriteExtends(Skill, o.db, doc, personId);
        ExtendsTransitive(db, o.db, WriteSpec(Skill, o.db, doc, personId).db);
      }
    case Each(w) => WriteExtends(w, db, doc, personId);
  }

  lemma WriteExtends(w: Writer, db: Db, doc: Doc, personId: int)
    ensures Extends(db, WriteSpec(w, db, doc, personId).db)
  {
    match Guarded(Get(doc, Attribute(w)))
    case Failure(_) =>
    case Success(xs) => RunExtends(w, db, personId, xs);
  }

  lemma {:induction false} SectionsExtend(ss: seq<Section>, db: Db, doc: Doc, personId: int)
    ensures Extends(db, Sections(ss, db, doc, personId).db)
    decreases |ss|
  {
    if ss != [] {
      var o := Sections(ss[..|ss| - 1], db, doc, personId);
      SectionsExtend(ss[..|ss| - 1], db, doc, personId);
      if o.error.None? {
        SectionExtends(ss[|ss| - 1], o.db, doc, personId);
        ExtendsTransitive(db, o.db, SectionSpec(ss[|ss| - 1], o.db, doc, personId).db);
      }
    }
  }

  /** One document only appends to the warehouse. */
  lemma DocumentExtends(db: Db, doc: Doc)
    ensures Extends(db, DocumentSpec(db, doc).db)
  {
    var loc := LocationSpec(db, doc);
    var key := ProfileConvert.Location(doc);
    WritesExtend(db, DIM_LIN_Location, key, key, []);
    match LegacyProfileConvert.Person(doc, Int(loc.id), Int(OriginId))
    case Failure(_) =>
    case Success(row) =>
      var person := PersonSpec(loc.db, doc, loc.id);
      WritesExtend(loc.db, FACT_PRF_Person, map[], row, []);
      ExtendsTransitive(db, loc.db, person.db);
      var personId := TableOf(loc.db, FACT_PRF_Person).autoIncrement;
      SectionsExtend(Order, person.db, doc, personId);
      ExtendsTransitive(db, person.db, Sections(Order, person.db, doc, personId).db);
  }

  /** The whole import only appends, wherever it stopped. */
  lemma {:induction false} ImportExtends(db: Db, docs: seq<Doc>)
    ensures Extends(db, ProfileImport.Loop(DocumentSpec, db, docs).outcome.db)
    decreases |docs|
  {
    if docs != [] {
      var p := ProfileImport.Loop(DocumentSpec, db, docs[..|docs| - 1]);
      ImportExtends(db, docs[..|docs| - 1]);
      if p.outcome.error.None? {
        DocumentExtends(p.outcome.db, docs[|docs| - 1]);
        ExtendsTransitive(db, p.outcome.db, DocumentSpec(p.outcome.db, docs[|docs| - 1]).db);
      }
    }
  }
}
