/**
  The profile import driver: for every document of the profile collection, resolve the
  location, write the person with origin 2, then run the recommendation writer and the
  attribute writers in a fixed order, all with the new person's id.

  Nothing in the driver catches an exception, so the first one a writer raises ends the import:
  the rows written so far stay, and no later writer or document runs.
 */
module ProfileImport {
  import opened Wrappers
  import opened Documents
  import opened Warehouse
  import opened ProfileWriters
  import ProfileConvert

  /** The origin id every imported person row carries. */
  const OriginId: int := 2

  /** The attribute writers in the order the driver calls them, after the recommendations. */
  const Order: seq<Writer> := [
    PeopleAlsoViewed, SimilarlyNamedProfiles, Languages, Skills, Interests, Groups,
    Qualification(Experiences), Qualification(Education), Qualification(VolunteerWork),
    Qualification(Certifications),
    Accomplishment(Activities), Accomplishment(Articles), Accomplishment(Organisations),
    Accomplishment(Publications), Accomplishment(HonorsAwards), Accomplishment(Patents),
    Accomplishment(TestScores), Accomplishment(Courses),
    Qualification(AccomplishmentProjects)]

  /** A sequence of writers run one after the other, stopping at the first exception. */
  function Writers(ws: seq<Writer>, db: Db, doc: Doc, personId: int): Outcome
    decreases |ws|
  {
    if ws == [] then Outcome(db, None)
    else
      var o := Writers(ws[..|ws| - 1], db, doc, personId);
      if o.error.Some? then o else WriteSpec(ws[|ws| - 1], o.db, doc, personId)
  }

  /** One document: location, person, recommendations, then every writer of `Order`. */
  function DocumentSpec(db: Db, doc: Doc): Outcome {
    var loc := LocationSpec(db, doc);
    var person := PersonSpec(loc.db, doc, loc.id, OriginId);
    if person.error.Some? then person
    else
      var personId := TableOf(loc.db, DIM_PRF_Person).autoIncrement;
      var rec := RecommendationsSpec(person.db, doc, personId);
      if rec.error.Some? then rec else Writers(Order, rec.db, doc, personId)
  }

  /** Where the import got to: the warehouse, the exception that ended it, and the progress counter. */
  datatype Progress = Progress(outcome: Outcome, counter: nat)

  /**
    The main loop over the documents with `step` as its body; the counter is raised before a
    document is processed.
   */
  function Loop(step: (Db, Doc) -> Outcome, db: Db, docs: seq<Doc>): Progress
    decreases |docs|
  {
    if docs == [] then Progress(Outcome(db, None), 0)
    else
      var p := Loop(step, db, docs[..|docs| - 1]);
      if p.outcome.error.Some? then p
      else Progress(step(p.outcome.db, docs[|docs| - 1]), p.counter + 1)
  }

  // ---------------------------------------------------------------- the driver as methods

  /** Once a writer has raised, later writers do not run. */
  lemma {:induction false} WritersStopAtError(ws: seq<Writer>, db: Db, doc: Doc, personId: int, k: nat)
    requires k <= |ws|
    requires Writers(ws[..k], db, doc, personId).error.Some?
    ensures Writers(ws, db, doc, personId) == Writers(ws[..k], db, doc, personId)
    decreases |ws|
  {
    if k < |ws| {
      var init := ws[..|ws| - 1];
      assert init[..k] == ws[..k];
      WritersStopAtError(init, db, doc, personId, k);
    } else {
      assert ws[..k] == ws;
    }
  }

  /** Run the writers `ws` in order for one person. */
  method WriteAll(dwh: Engine, ws: seq<Writer>, doc: Doc, personId: int) returns (error: Option<string>)
    modifies dwh
    ensures Outcome(dwh.State(), error) == Writers(ws, old(dwh.State()), doc, personId)
  {
    var i := 0;
    while i < |ws|
      invariant 0 <= i <= |ws|
      invariant Writers(ws[..i], old(dwh.State()), doc, personId) == Outcome(dwh.State(), None)
    {
      error := WriteOne(dwh, ws, i, doc, personId, old(dwh.State()));
      if error.Some? {
        WritersStopAtError(ws, old(dwh.State()), doc, personId, i + 1);
        return;
      }
      i := i + 1;
    }
    assert ws[..|ws|] == ws;
    return None;
  }

  /** One writer of the sequence, extending the run of the writers before it. */
  method WriteOne(dwh: Engine, ws: seq<Writer>, i: nat, doc: Doc, personId: int, ghost db0: Db) returns (error: Option<string>)
    requires i < |ws| && Writers(ws[..i], db0, doc, personId) == Outcome(dwh.State(), None)
    modifies dwh
    ensures Writers(ws[..i + 1], db0, doc, personId) == Outcome(dwh.State(), error)
  {
    assert ws[..i + 1][..i] == ws[..i];
    error := Write(dwh, ws[i], doc, personId);
  }

  /** The body of the main loop for one document. */
  method ImportDocument(dwh: Engine, doc: Doc) returns (error: Option<string>)
    modifies dwh
    ensures Outcome(dwh.State(), error) == DocumentSpec(old(dwh.State()), doc)
  {
    var locationId := WriteLocation(dwh, doc);
    var person := WritePerson(dwh, doc, locationId, OriginId);
    if person.Failure? {
      return Some(person.error);
    }
    var personId := person.value;
    error := WriteRecommendations(dwh, doc, personId);
    if error.Some? {
      return;
    }
    error := WriteAll(dwh, Order, doc, personId);
  }

  /** The main loop: count the document, then import it; the first exception ends the loop. */
  method Import(dwh: Engine, docs: seq<Doc>) returns (counter: nat, error: Option<string>)
    modifies dwh
    ensures Progress(Outcome(dwh.State(), error), counter) == Loop(DocumentSpec, old(dwh.State()), docs)
  {
    counter := 0;
    error := None;
    var i := 0;
    while i < |docs|
      invariant 0 <= i <= |docs|
      invariant Loop(DocumentSpec, old(dwh.State()), docs[..i]) == Progress(Outcome(dwh.State(), error), counter)
      invariant error.None?
    {
      counter, error := ImportNext(dwh, docs, i, counter, old(dwh.State()));
      if error.Some? {
        LoopStopsAtError(DocumentSpec, old(dwh.State()), docs, i + 1);
        return;
      }
      i := i + 1;
    }
    assert docs[..|docs|] == docs;
  }

  /** One turn of the main loop: count document `i`, then import it. */
  method ImportNext(dwh: Engine, docs: seq<Doc>, i: nat, counter: nat, ghost db0: Db) returns (counter': nat, error: Option<string>)
    requires i < |docs| && Loop(DocumentSpec, db0, docs[..i]) == Progress(Outcome(dwh.State(), None), counter)
    modifies dwh
    ensures Loop(DocumentSpec, db0, docs[..i + 1]) == Progress(Outcome(dwh.State(), error), counter')
  {
    assert docs[..i + 1][..i] == docs[..i];
    counter' := counter + 1;
    error := ImportDocument(dwh, docs[i]);
  }

  // ---------------------------------------------------------------- properties

  /** Once a document has raised, the later documents are never read. */
  lemma {:induction false} LoopStopsAtError(step: (Db, Doc) -> Outcome, db: Db, docs: seq<Doc>, k: nat)
    requires k <= |docs|
    requires Loop(step, db, docs[..k]).outcome.error.Some?
    ensures Loop(step, db, docs) == Loop(step, db, docs[..k])
    decreases |docs|
  {
    if k < |docs| {
      var init := docs[..|docs| - 1];
      assert init[..k] == docs[..k];
      LoopStopsAtError(step, db, init, k);
    } else {
      assert docs[..k] == docs;
    }
  }

  /**
    The counter counts the documents the loop started: all of them when nothing raised, and
    otherwise the position of the document that raised, the import of the documents before it
    having been clean.
   */
  lemma {:induction false} CounterCountsStartedDocuments(step: (Db, Doc) -> Outcome, db: Db, docs: seq<Doc>)
    ensures var p := Loop(step, db, docs);
      && p.counter <= |docs|
      && (p.outcome.error.None? ==> p.counter == |docs|)
      && (p.outcome.error.Some? ==>
            && p.counter > 0
            && Loop(step, db, docs[..p.counter - 1]).outcome.error.None?
            && Loop(step, db, docs[..p.counter]) == p)
    decreases |docs|
  {
    if docs != [] {
      var init := docs[..|docs| - 1];
      CounterCountsStartedDocuments(step, db, init);
      var p := Loop(step, db, init);
      if p.outcome.error.Some? {
        assert docs[..p.counter] == init[..p.counter];
        assert docs[..p.counter - 1] == init[..p.counter - 1];
      } else {
        assert docs[..|docs|] == docs;
        assert docs[..|docs| - 1] == init;
      }
    }
  }

  lemma RecommendationsExtend(db: Db, doc: Doc, personId: int)
    ensures Extends(db, RecommendationsSpec(db, doc, personId).db)
  {
    match Guarded(Get(doc, "recommendations"))
    case Failure(_) =>
    case Success(xs) =>
      var rows := seq(|xs|, k requires 0 <= k < |xs| => Recommendation(personId, xs[k]));
      WritesExtend(db, FACT_PRF_Recommendation, map[], map[], rows);
  }

  lemma {:induction false} WritersExtend(ws: seq<Writer>, db: Db, doc: Doc, personId: int)
    ensures Extends(db, Writers(ws, db, doc, personId).db)
    decreases |ws|
  {
    if ws != [] {
      var o := Writers(ws[..|ws| - 1], db, doc, personId);
      WritersExtend(ws[..|ws| - 1], db, doc, personId);
      if o.error.None? {
        WriteExtends(ws[|ws| - 1], o.db, doc, personId);
        ExtendsTransitive(db, o.db, WriteSpec(ws[|ws| - 1], o.db, doc, personId).db);
      }
    }
  }

  /**
    The person row of a document: once its conversion succeeds, the person table gains a row
    whose id is the one the writers receive, with origin 2 and the id of the resolved location,
    and nothing the later writers do removes or changes it.
   */
  lemma PersonRowCarriesLocationAndOrigin(db: Db, doc: Doc)
    requires ProfileConvert.Person(doc, Int(LocationSpec(db, doc).id), Int(OriginId)).Success?
    ensures var loc := LocationSpec(db, doc);
      var before := Rows(loc.db, DIM_PRF_Person);
      var after := Rows(DocumentSpec(db, doc).db, DIM_PRF_Person);
      && |before| < |after|
      && after[|before|].id == TableOf(loc.db, DIM_PRF_Person).autoIncrement
      && "idOrigin" in after[|before|].row && after[|before|].row["idOrigin"] == Int(2)
      && "idLocation" in after[|before|].row && after[|before|].row["idLocation"] == Int(loc.id)
  {
    var loc := LocationSpec(db, doc);
    var row := ProfileConvert.Person(doc, Int(loc.id), Int(OriginId)).value;
    var person := PersonSpec(loc.db, doc, loc.id, OriginId);
    var personId := TableOf(loc.db, DIM_PRF_Person).autoIncrement;
    assert person.db == Insert(loc.db, DIM_PRF_Person, row);
    assert Rows(person.db, DIM_PRF_Person) == Rows(loc.db, DIM_PRF_Person) + [Entry(personId, row)];
    var rec := RecommendationsSpec(person.db, doc, personId);
    RecommendationsExtend(person.db, doc, personId);
    if rec.error.None? {
      WritersExtend(Order, rec.db, doc, personId);
      ExtendsTransitive(person.db, rec.db, Writers(Order, rec.db, doc, personId).db);
    }
    assert Extends(person.db, DocumentSpec(db, doc).db);
  }

  /**
    The import never rewrites history: every table after the import starts with the rows it had
    before, whatever the documents hold and wherever the import stopped.
   */
  lemma {:induction false} ImportExtends(db: Db, docs: seq<Doc>)
    ensures Extends(db, Loop(DocumentSpec, db, docs).outcome.db)
    decreases |docs|
  {
    if docs != [] {
      var p := Loop(DocumentSpec, db, docs[..|docs| - 1]);
      ImportExtends(db, docs[..|docs| - 1]);
      if p.outcome.error.None? {
        DocumentExtends(p.outcome.db, docs[|docs| - 1]);
        ExtendsTransitive(db, p.outcome.db, DocumentSpec(p.outcome.db, docs[|docs| - 1]).db);
      }
    }
  }

  lemma DocumentExtends(db: Db, doc: Doc)
    ensures Extends(db, DocumentSpec(db, doc).db)
  {
    var loc := LocationSpec(db, doc);
    var key := ProfileConvert.Location(doc);
    WritesExtend(db, DIM_PRF_Location, key, key, []);
    var person := PersonSpec(loc.db, doc, loc.id, OriginId);
    match ProfileConvert.Person(doc, Int(loc.id), Int(OriginId))
    case Failure(_) =>
    case Success(row) =>
      WritesExtend(loc.db, DIM_PRF_Person, map[], row, []);
      ExtendsTransitive(db, loc.db, person.db);
      var personId := TableOf(loc.db, DIM_PRF_Person).autoIncrement;
      var rec := RecommendationsSpec(person.db, doc, personId);
      RecommendationsExtend(person.db, doc, personId);
      ExtendsTransitive(db, person.db, rec.db);
      if rec.error.None? {
        WritersExtend(Order, rec.db, doc, personId);
        ExtendsTransitive(db, rec.db, Writers(Order, rec.db, doc, personId).db);
      }
  }

  /**
    The experiences writer is the seventh and has no guard: once the writers before it have run
    cleanly, a document whose `experiences` is missing, not iterable or non-empty ends the
    import with TypeError, so no accomplishment writer runs for it.
   */
  lemma ExperiencesEndTheDocument(db: Db, doc: Doc, personId: int)
    requires Writers(Order[..6], db, doc, personId).error.None?
    requires Items(Qualification(Experiences), doc).Failure? || |Items(Qualification(Experiences), doc).value| > 0
    ensures Writers(Order, db, doc, personId).error.Some?
  {
    var o := Writers(Order[..6], db, doc, personId);
    assert Order[..7][..6] == Order[..6];
    assert Order[..7][6] == Qualification(Experiences);
    var items := Items(Qualification(Experiences), doc);
    if items.Success? {
      QualificationWritersRaise(Qualification(Experiences), o.db, doc, personId);
    }
    assert Writers(Order[..7], db, doc, personId).error.Some?;
    WritersStopAtError(Order, db, doc, personId, 7);
  }
}
