# Recruiting data warehouse loaders, modelled in Dafny

This project models the extract-transform-load core of the recruiting platform's data
warehouse (DWH) and the in-memory user store of its backend.

- LinkedIn profiles and companies are read from MongoDB documents. Converters turn them into
  warehouse rows. Writers append the rows to dimension, fact and relationship tables, resolving
  dimension rows by "look up with SQL `=`, else insert and read `LAST_INSERT_ID()`".
- Two drivers run the writers over a collection: the current profile import and the legacy
  import script, which keeps its own inline writers.
- Two loaders read the tech-jobs skills CSV: a batch loader with `executemany` and an older
  row-at-a-time loader. A third script builds the tech-jobs skill dimension from MongoDB.
- A sampler copies every 99th line of a job-postings dump into MongoDB in batches of 1000.
- The tagging pre-processor cleans the text fields of profile experiences and education and
  builds the chat messages for a language model, in windows of 100 profiles.
- The backend's `InMemoryUserDetailsService` holds users in a map; `AuthServiceImpl.registerUser`
  registers a user in it.

Documents are values of a small dynamic type (`Documents.Value`) with Python's truthiness,
`dict.get`, iteration and `str.strip`. The warehouse is a value `Warehouse.Db`: each table is a
sequence of rows numbered by an auto-increment counter, plus the connection's last insert id.
The `Warehouse.Engine` class wraps a `Db` and is what the imperative writers change. Every writer
exists twice: as a specification function (`…Spec`, `Run`, `Step`) and as a method with loops,
whose `ensures` ties the engine's new state and the raised exception to that function. The
lemmas then state the properties of the specification functions.

An uncaught Python exception is modelled as an `Option<string>` naming its class. It is carried
next to the warehouse (`Warehouse.Outcome`), and everything already written stays written.

## Model

| member | source | states |
|---|---|---|
| Documents.Flag | dwh/linkedin_data/profiles/convert.py:30-31 | `1 if x else 0`: the flag is 1 exactly when the value is truthy and 0 exactly when it is falsy |
| Documents.Chars | dwh/linkedin_data/profiles/insert.py:202 | iterating a string yields its characters one by one, as one-character strings, in order |
| Documents.Iterate | dwh/linkedin_data/profiles/insert.py:354 | a value that can be iterated yields a non-empty sequence exactly when it is truthy |
| Documents.Guarded | dwh/linkedin_data/profiles/insert.py:201-202 | `if x: for e in x`: a falsy value gives no elements, a truthy iterable gives its elements, and only a truthy value that cannot be iterated raises |
| Documents.NatToString | dwh/linkedin_data/profiles/insert.py:749-772 | the decimal rendering of a number is a non-empty string of digits |
| Documents.Index | dwh/linkedin_data/companies/convert.py:54-57 | `x[k]` succeeds exactly on a list or string long enough, and yields the k-th list element |
| Documents.ConvertDate | dwh/linkedin_data/profiles/convert.py:59-70 | a date is built exactly when the value is a mapping with year, month and day, from those three fields; otherwise None |
| Documents.StripStart | dwh/linkedin_data/companies/convert.py:19 | the result is a suffix of the input that starts with a non-space, and only whitespace was removed |
| Documents.StripEnd | dwh/linkedin_data/companies/convert.py:19 | the result is a prefix of the input that ends with a non-space, and only whitespace was removed |
| Documents.Strip | dwh/linkedin_data/companies/convert.py:19 | `str.strip`: the result is a slice of the input, begins and ends with a non-space, and everything cut on either side is whitespace |
| Warehouse.FindFirst | dwh/linkedin_data/profiles/insert.py:27-35 | the lookup returns the first row matching the key under SQL `=`, and None exactly when no row matches |
| Warehouse.Numbered | dwh/linkedin_data/companies/insert.py:111 | a multi-row append numbers the rows consecutively from the table's next id, in order |
| Warehouse.InsertAllAppendsInOrder | dwh/linkedin_data/companies/insert.py:111 | a multi-row `to_sql` keeps the table's rows and adds one row per frame row, in frame order |
| Warehouse.ExtendsTransitive | dwh/linkedin_data/import_script_profiles.py:34-103 | "only appends" composes: a run of append-only steps only appends |
| Warehouse.WritesExtend | dwh/linkedin_data/profiles/insert.py:37 | an insert, a multi-row insert, a get-or-create and a checked insert keep every existing row and id |
| Warehouse.Engine.constructor | dwh/linkedin_data/import_script_profiles.py:19 | a connection starts on the given warehouse state |
| Warehouse.Engine.ReadId | dwh/linkedin_data/profiles/insert.py:27-35 | `SELECT id … WHERE …` returns the id of the first row matching the key, and nothing changes |
| Warehouse.Engine.ToSql | dwh/linkedin_data/profiles/insert.py:37 | `to_sql(..., if_exists='append')` of one row appends it under the next id and sets the last insert id |
| Warehouse.Engine.ToSqlAll | dwh/linkedin_data/profiles/insert.py:89 | `to_sql` of several rows appends them all, numbered in order |
| Warehouse.Engine.LastInsertId | dwh/linkedin_data/profiles/insert.py:38 | `SELECT LAST_INSERT_ID()` returns the id of the last row the connection inserted |
| Warehouse.GetOrCreate | dwh/linkedin_data/profiles/insert.py:26-38 | the look-up-else-insert idiom leaves the warehouse and returns the id that `Resolve` specifies |
| Warehouse.InsertUnlessPresent | dwh/linkedin_data/profiles/insert.py:172-188 | the check-then-insert idiom for relationship rows appends the row exactly when no identical row exists |
| Warehouse.FindFirstAppend | dwh/linkedin_data/profiles/insert.py:27-38 | after an append, the first match is the old first match if there was one, else the new row if it matches |
| Warehouse.CountZeroIffNone | dwh/linkedin_data/profiles/insert.py:172-188 | no matching row is counted exactly when the lookup finds nothing |
| Warehouse.CountAppend | dwh/linkedin_data/profiles/insert.py:172-188 | an append adds one to a key's match count exactly when the new row matches the key |
| Warehouse.AgreeingRowMatches | dwh/linkedin_data/profiles/insert.py:27-35 | a row that equals a NULL-free key on the key's columns matches it under SQL `=` |
| Warehouse.NullKeyAlwaysAppends | dwh/linkedin_data/companies/insert.py:28-46 | a key with a NULL column never matches, so get-or-create always appends a new row and returns its fresh id |
| Warehouse.ResolveFindsMatchingRow | dwh/linkedin_data/profiles/insert.py:26-38 | get-or-create returns the id of a row that matches the key, either found or just inserted |
| Warehouse.ResolveIdempotent | dwh/linkedin_data/profiles/insert.py:26-38 | for a NULL-free key, a second get-or-create finds the row of the first, writes nothing and returns the same id |
| Warehouse.ResolveKeepsFound | dwh/etl/Dataset_TJB_Import.py:72-81 | a get-or-create does not change what any lookup that already succeeded returns |
| Warehouse.InsertIfAbsentFrame | dwh/linkedin_data/profiles/insert.py:172-188 | a checked insert into one table leaves every other table and its lookups unchanged |
| Warehouse.ResolveSurvivesOtherInsert | dwh/linkedin_data/import_script.py:120-155 | an insert into another table does not change what a get-or-create resolves to |
| Warehouse.InsertValid | dwh/linkedin_data/profiles/insert.py:37 | an insert keeps ids unique and increasing: the row gets the next id and no other table changes |
| Warehouse.InsertIfAbsentIdempotent | dwh/linkedin_data/profiles/insert.py:172-188 | checking and inserting the same row twice is the same as doing it once |
| Warehouse.InsertIfAbsentCount | dwh/linkedin_data/profiles/insert.py:172-188 | after a checked insert the row is present, and the match count grows only when it was absent |
| Warehouse.ResolveKeepsAtMostOne | dwh/etl/Dataset_TJB_Import.py:72-81 | get-or-create on a NULL-free key never creates a second row for a key that has at most one |
| ProfileConvert.Person | dwh/linkedin_data/profiles/convert.py:9-37 | the person row copies full name (as `name`), occupation, headline, summary, connections, gender and industry unchanged, flags the two pictures by truthiness, takes the salary bounds from a truthy `inferred_salary` (None otherwise) and raises when that value is truthy but not a mapping |
| ProfileConvert.PersonRow | dwh/linkedin_data/profiles/convert.py:19-34 | the person row carries the given salary bounds, the picture flags, the location and origin ids and the Mongo id |
| ProfileConvert.Location | dwh/linkedin_data/profiles/convert.py:40-56 | the location row is the four fields country, full country name, state and city, copied as they are |
| ProfileConvert.Qualification | dwh/linkedin_data/profiles/convert.py:120-127 | a qualification row has exactly the six qualification columns with the given values |
| ProfileConvert.EitherOrBoth | dwh/linkedin_data/profiles/convert.py:143-155 | two optional values combine to None, the present one, or the labelled combination when both are present |
| ProfileConvert.Experience | dwh/linkedin_data/profiles/convert.py:73-93 | an experience row has type "experience", the title as name, the company as institution and the description unchanged |
| ProfileConvert.Education | dwh/linkedin_data/profiles/convert.py:96-130 | an education row names the degree, the field, "degree in field", or None, depending on which of the two are present, and copies school and description |
| ProfileConvert.VolunteerWork | dwh/linkedin_data/profiles/convert.py:133-168 | a volunteer row combines cause and description: None, the present one, or "Cause: … \| Description:…" |
| ProfileConvert.Certification | dwh/linkedin_data/profiles/convert.py:171-206 | a certification row combines licence number and display source the same way |
| ProfileConvert.AccomplishmentProject | dwh/linkedin_data/profiles/convert.py:209-229 | a project row has type "project", the title, no institution and the description |
| ProfileConvert.EmptyStringIsPresent | dwh/linkedin_data/profiles/convert.py:108-117 | an empty field of study counts as present, because the test is `is None` and not truthiness |
| LegacyProfileConvert.Salary | dwh/linkedin_data/convert/profile.py:25-26 | `get('inferred_salary', {}).get(...)`: a missing salary gives None bounds, a present mapping its min and max, and any other present value (None included) raises |
| LegacyProfileConvert.Person | dwh/linkedin_data/convert/profile.py:8-36 | the legacy person row copies the same seven profile fields and raises exactly when `inferred_salary` is present but not a mapping |
| LegacyProfileConvert.AgreesWithCurrentConverter | dwh/linkedin_data/convert/profile.py:8-36 | when `inferred_salary` is absent or a mapping, the legacy and the current converter give the same row |
| LegacyProfileConvert.NoneSalaryRaises | dwh/linkedin_data/convert/profile.py:25-26 | an explicit None salary makes the legacy converter raise while the current one writes None bounds |
| CompanyConvert.SplitCountry | dwh/linkedin_data/companies/convert.py:15-23 | a falsy country gives neither column; a truthy one is stripped and goes to the letters column when at most two characters long, else to the name column |
| CompanyConvert.Location | dwh/linkedin_data/companies/convert.py:9-39 | the company location row: country split by length, the state or else the postal code, the city; raises on a non-mapping or a non-string country |
| CompanyConvert.LocationKeyHasNull | dwh/linkedin_data/companies/convert.py:15-23 | at least one of the two country columns of a converted location is None |
| CompanyConvert.CountryByStrippedLength | dwh/linkedin_data/companies/convert.py:18-23 | the length test is made on the stripped country, so padded two-letter codes are still letters |
| CompanyConvert.SizePart | dwh/linkedin_data/companies/convert.py:54-57 | one bound of `company_size`: the element when truthy, None when falsy, an error when the index is out of range |
| CompanyConvert.Sizes | dwh/linkedin_data/companies/convert.py:50-57 | a falsy size gives two Nones; a truthy one needs both indexes 0 and 1 |
| CompanyConvert.SizesOfList | dwh/linkedin_data/companies/convert.py:53-57 | a one-element size list raises IndexError; an empty one gives two Nones |
| CompanyConvert.CompanyRow | dwh/linkedin_data/companies/convert.py:59-77 | the company row carries the sizes, the three truthiness flags, the headquarters and origin ids and the Mongo id |
| CompanyConvert.Company | dwh/linkedin_data/companies/convert.py:42-80 | the company conversion fails exactly when the size conversion fails |
| ProfileWriters.WriteLocation | dwh/linkedin_data/profiles/insert.py:9-41 | the profile location is resolved by get-or-create on its four columns, and its id returned |
| ProfileWriters.WritePerson | dwh/linkedin_data/profiles/insert.py:44-63 | the person row is appended to DIM_PRF_Person and its new id returned; a failing conversion writes nothing |
| ProfileWriters.WriteRecommendations | dwh/linkedin_data/profiles/insert.py:66-89 | the recommendation rows are appended in one insert, as the specification says |
| ProfileWriters.RecommendationsAppendInOrder | dwh/linkedin_data/profiles/insert.py:76-89 | one recommendation row per text, in order, each carrying the person id, after the rows already there |
| ProfileWriters.Items | dwh/linkedin_data/profiles/insert.py:354 | the experiences writer iterates its attribute unguarded; every other writer treats a falsy attribute as empty |
| ProfileWriters.WriteRelated | dwh/linkedin_data/profiles/insert.py:102-133 | a related profile is resolved on name and location, then linked unchecked (viewed) or checked (similar) |
| ProfileWriters.WriteDimension | dwh/linkedin_data/profiles/insert.py:201-225 | a language, trait or group is resolved and the person's relationship row appended |
| ProfileWriters.WriteQualification | dwh/linkedin_data/profiles/insert.py:356-378 | a qualification element resolves its duration when dated and nothing else |
| ProfileWriters.WriteAccomplishment | dwh/linkedin_data/profiles/insert.py:565-586 | an accomplishment appends its fact row, then the relationship to the fact's new id |
| ProfileWriters.WriteItem | dwh/linkedin_data/profiles/insert.py:102-133 | one loop turn of any writer has exactly the effect and the exception that `Step` specifies |
| ProfileWriters.RunStopsAtError | dwh/linkedin_data/profiles/insert.py:103 | once an element has raised, the later elements of the list are not processed |
| ProfileWriters.WriteNext | dwh/linkedin_data/profiles/insert.py:103 | one more loop turn extends the run over the list prefix by one element |
| ProfileWriters.WriteItems | dwh/linkedin_data/profiles/insert.py:103-133 | the loop over an attribute's elements leaves the warehouse and raises as `Run` says: each element's step in list order, stopping at the first exception |
| ProfileWriters.Write | dwh/linkedin_data/profiles/insert.py:92-133 | a whole writer leaves the warehouse and raises exactly as `WriteSpec` says |
| ProfileWriters.ViewedAlwaysAppends | dwh/linkedin_data/profiles/insert.py:128-133 | a viewed profile always adds one relationship row, even when the identical row already exists |
| ProfileWriters.SimilarIdempotent | dwh/linkedin_data/profiles/insert.py:146-188 | a similar profile with name and location written twice writes nothing the second time |
| ProfileWriters.SkillLeavesInterestsAlone | dwh/linkedin_data/profiles/insert.py:238-264 | writing a skill never changes which trait row an interest resolves to |
| ProfileWriters.SkillAndInterestAreDistinctTraits | dwh/linkedin_data/profiles/insert.py:238-303 | the same name as a skill and as an interest gives two trait rows |
| ProfileWriters.GroupWithoutNameSkipped | dwh/linkedin_data/profiles/insert.py:318 | a group element without a truthy name writes nothing |
| ProfileWriters.DurationOnlyWhenDated | dwh/linkedin_data/profiles/insert.py:356-378 | a qualification element resolves a duration only when its start or end is truthy, and then raises TypeError at the converter call |
| ProfileWriters.QualificationWritersRaise | dwh/linkedin_data/profiles/insert.py:380-384 | a non-empty qualification list raises on its first element and never writes a qualification or its relationship |
| ProfileWriters.ExperiencesUnguarded | dwh/linkedin_data/profiles/insert.py:354 | a profile without experiences makes the experiences writer raise TypeError, while the other writers write nothing |
| ProfileWriters.AccomplishmentLinksNewFact | dwh/linkedin_data/profiles/insert.py:565-586 | an accomplishment adds exactly one fact row and one relationship row pointing at that fact's id |
| ProfileWriters.Present | dwh/linkedin_data/profiles/insert.py:738-772 | the parts of a patent description that are not None, in order |
| ProfileWriters.PatentDescriptionJoinsPresentParts | dwh/linkedin_data/profiles/insert.py:738-772 | a patent description joins its present parts with " \| ", except that the patent number is rendered as "None" when only the description is present |
| ProfileWriters.StepExtends | dwh/linkedin_data/profiles/insert.py:92-907 | no writer step removes or changes an existing row |
| ProfileWriters.QualificationStepExtends | dwh/linkedin_data/profiles/insert.py:356-378 | a qualification step only appends |
| ProfileWriters.RelatedStepExtends | dwh/linkedin_data/profiles/insert.py:102-188 | a related-profile step only appends, checked or not |
| ProfileWriters.DimensionStepExtends | dwh/linkedin_data/profiles/insert.py:201-341 | a dimension step only appends |
| ProfileWriters.AccomplishmentStepExtends | dwh/linkedin_data/profiles/insert.py:555-853 | an accomplishment step only appends |
| ProfileWriters.RunExtends | dwh/linkedin_data/profiles/insert.py:92-907 | a writer's loop only appends, wherever it stops |
| ProfileWriters.WriteExtends | dwh/linkedin_data/profiles/insert.py:92-907 | a whole writer only appends |
| CompanyWriters.HqLocation | dwh/linkedin_data/companies/insert.py:11-50 | a falsy `hq` gives no id and writes nothing; otherwise the location is resolved by get-or-create and its id returned |
| CompanyWriters.HqAlwaysAppends | dwh/linkedin_data/companies/insert.py:28-46 | the headquarters lookup can never match, so every truthy `hq` appends a new location row |
| CompanyWriters.KeyNeverMatches | dwh/linkedin_data/companies/insert.py:28-46 | a converted company location is never found by its lookup |
| CompanyWriters.WriteCompany | dwh/linkedin_data/companies/insert.py:53-72 | the company row is appended and its new id returned; a failing conversion writes nothing |
| CompanyWriters.CompanyNeverDeduplicated | dwh/linkedin_data/companies/insert.py:53-72 | the same company written twice gives two identical rows |
| CompanyWriters.UpdateRow | dwh/linkedin_data/companies/insert.py:100-107 | an update row carries the company id, an image flag that is 1 exactly when the image is truthy, and the converted posting date |
| CompanyWriters.ListingRows | dwh/linkedin_data/companies/insert.py:98-107 | one row per element, in order |
| CompanyWriters.WriteListing | dwh/linkedin_data/companies/insert.py:95-139 | updates and similar companies are collected and appended in one insert, as `ListingSpec` says |
| CompanyWriters.ListingAppendsInOrder | dwh/linkedin_data/companies/insert.py:95-139 | the table gains one row per element, in list order, after the rows already there: for updates, the `UpdateRow` of each update |
| CompanyWriters.FalsyUpdatesWriteNothing | dwh/linkedin_data/companies/insert.py:95 | a missing, None or empty list of updates writes nothing and raises nothing |
| CompanyWriters.SimilarCompaniesNotDeduplicated | dwh/linkedin_data/companies/insert.py:124-139 | writing the same similar companies twice appends them twice |
| CompanyWriters.ListingAllOrNothing | dwh/linkedin_data/companies/insert.py:95-139 | one non-mapping element makes the list raise before any row is written |
| CompanyWriters.WriteLinked | dwh/linkedin_data/companies/insert.py:152-186 | one specialty or location element has exactly the effect that `LinkStep` specifies |
| CompanyWriters.LinkRunStopsAtError | dwh/linkedin_data/companies/insert.py:153 | once an element has raised, the later ones are not processed |
| CompanyWriters.LinkNext | dwh/linkedin_data/companies/insert.py:199 | one more loop turn extends the run over the list prefix by one element |
| CompanyWriters.WriteLinkedItems | dwh/linkedin_data/companies/insert.py:153-236 | the loop over the specialties or locations leaves the warehouse and raises as `LinkRun` says: each element's step in list order, stopping at the first exception |
| CompanyWriters.WriteLinks | dwh/linkedin_data/companies/insert.py:142-236 | the specialties and locations writers leave the warehouse and raise as `LinkSpec` says |
| CompanyWriters.SpecialtyNamesAreStripped | dwh/linkedin_data/companies/insert.py:153-186 | two specialties that differ only in surrounding whitespace resolve to the same dimension row |
| CompanyWriters.LocationAlwaysAppends | dwh/linkedin_data/companies/insert.py:199-219 | each company location appends a new location row, for the same reason as the headquarters |
| CompanyWriters.LinkStepExtends | dwh/linkedin_data/companies/insert.py:142-236 | a specialty or location step only appends |
| CompanyWriters.LinkRunExtends | dwh/linkedin_data/companies/insert.py:142-236 | the loop of those writers only appends |
| ProfileImport.WritersStopAtError | dwh/linkedin_data/import_script_profiles.py:45-103 | once a writer has raised, no later writer runs |
| ProfileImport.WriteAll | dwh/linkedin_data/import_script_profiles.py:48-103 | the writers run in order and leave the warehouse as `Writers` says |
| ProfileImport.WriteOne | dwh/linkedin_data/import_script_profiles.py:48-103 | one more writer extends the run over the prefix of writers |
| ProfileImport.ImportDocument | dwh/linkedin_data/import_script_profiles.py:39-103 | one document: location, person with origin 2, recommendations, then the writers in the driver's order |
| ProfileImport.Import | dwh/linkedin_data/import_script_profiles.py:34-103 | the main loop leaves the warehouse, the exception and the counter that `Loop` specifies |
| ProfileImport.ImportNext | dwh/linkedin_data/import_script_profiles.py:34-37 | one more document extends the loop by one document and raises the counter first |
| ProfileImport.LoopStopsAtError | dwh/linkedin_data/import_script_profiles.py:34 | once a document has raised, no later document is read |
| ProfileImport.CounterCountsStartedDocuments | dwh/linkedin_data/import_script_profiles.py:36 | the counter is the number of documents started: all of them, or up to and including the one that raised |
| ProfileImport.RecommendationsExtend | dwh/linkedin_data/profiles/insert.py:66-89 | the recommendations writer only appends |
| ProfileImport.WritersExtend | dwh/linkedin_data/import_script_profiles.py:48-103 | the writers together only append |
| ProfileImport.PersonRowCarriesLocationAndOrigin | dwh/linkedin_data/import_script_profiles.py:40-43 | the person row gets the id the writers use, origin 2 and the resolved location's id, and stays in place |
| ProfileImport.DocumentExtends | dwh/linkedin_data/import_script_profiles.py:39-103 | one document only appends |
| ProfileImport.ImportExtends | dwh/linkedin_data/import_script_profiles.py:34-103 | the whole import only appends, wherever it stopped |
| ProfileImport.ExperiencesEndTheDocument | dwh/linkedin_data/import_script_profiles.py:66-67 | a person reaching the experiences writer with a non-empty or missing experiences list ends the import there |
| LegacyImport.WriteLocation | dwh/linkedin_data/import_script.py:37-57 | the location is resolved in DIM_LIN_Location by get-or-create, and its id returned |
| LegacyImport.WritePerson | dwh/linkedin_data/import_script.py:59-64 | the person row is appended to FACT_PRF_Person and its new id returned |
| LegacyImport.RelatedRows | dwh/linkedin_data/import_script.py:88-95 | one related row per element, in order |
| LegacyImport.WriteListing | dwh/linkedin_data/import_script.py:82-118 | viewed and similar profiles are appended to FACT_PRF_Related in one insert per list |
| LegacyImport.Link | dwh/linkedin_data/import_script.py:152-155 | a relationship row has the person id and the dimension id in the named column, with no NULL |
| LegacyImport.WriteChecked | dwh/linkedin_data/import_script.py:120-155 | get-or-create the dimension row, then insert the relationship only when absent |
| LegacyImport.WriteBackground | dwh/linkedin_data/import_script.py:273-330 | an experience or education element resolves its institution only when undated |
| LegacyImport.WriteItem | dwh/linkedin_data/import_script.py:120-386 | one loop turn has exactly the effect and the exception that `Step` specifies |
| LegacyImport.RunStopsAtError | dwh/linkedin_data/import_script.py:122 | once an element has raised, the later ones are not processed |
| LegacyImport.WriteNext | dwh/linkedin_data/import_script.py:122 | one more loop turn extends the run over the list prefix |
| LegacyImport.Write | dwh/linkedin_data/import_script.py:196-233 | a whole section loop leaves the warehouse as `WriteSpec` says |
| LegacyImport.WriteLanguages | dwh/linkedin_data/import_script.py:120-194 | the languages, then the skills nested in the languages branch |
| LegacyImport.WriteSection | dwh/linkedin_data/import_script.py:66-386 | each section of the script has the effect `SectionSpec` gives it |
| LegacyImport.SectionsStopAtError | dwh/linkedin_data/import_script.py:66-386 | once a section has raised, no later section runs |
| LegacyImport.WriteSectionAt | dwh/linkedin_data/import_script.py:66-386 | one more section extends the run over the prefix of sections |
| LegacyImport.WriteSections | dwh/linkedin_data/import_script.py:66-386 | the sections run in the script's order |
| LegacyImport.ImportDocument | dwh/linkedin_data/import_script.py:37-386 | one document: location, person, then every section |
| LegacyImport.ImportNext | dwh/linkedin_data/import_script.py:32-35 | one more document extends the loop by one document |
| LegacyImport.Import | dwh/linkedin_data/import_script.py:32-386 | the main loop leaves the warehouse, the exception and the counter that `Loop` specifies |
| LegacyImport.CheckedStepIdempotent | dwh/linkedin_data/import_script.py:141-155 | a checked relationship step on a NULL-free key writes nothing the second time |
| LegacyImport.CheckedStepOnResolved | dwh/linkedin_data/import_script.py:141-155 | when the dimension row is found, the step is just the checked relationship insert |
| LegacyImport.RepeatedLanguageLinkedOnce | dwh/linkedin_data/import_script.py:120-155 | the same language listed twice gives one relationship row |
| LegacyImport.SkillsNeedLanguages | dwh/linkedin_data/import_script.py:121-158 | a profile without languages gets none of its skills written |
| LegacyImport.BackgroundRaisesOnFirst | dwh/linkedin_data/import_script.py:273-386 | a non-empty experience or education list raises AttributeError on its first element, writing no duration or qualification and at most one institution |
| LegacyImport.EducationInstitutionAlwaysAppends | dwh/linkedin_data/import_script.py:361-381 | an undated education element with a school always appends a new institution row, because its key has a NULL location |
| LegacyImport.ListingAppendsInOrder | dwh/linkedin_data/import_script.py:82-118 | one related row per element, in order, after the rows already there |
| LegacyImport.RunExtends | dwh/linkedin_data/import_script.py:120-386 | a section loop only appends |
| LegacyImport.StepExtends | dwh/linkedin_data/import_script.py:120-386 | one element's step only appends |
| LegacyImport.CheckedStepExtends | dwh/linkedin_data/import_script.py:141-155 | a checked step only appends |
| LegacyImport.SectionExtends | dwh/linkedin_data/import_script.py:66-386 | a section only appends |
| LegacyImport.WriteExtends | dwh/linkedin_data/import_script.py:120-386 | a whole section loop only appends |
| LegacyImport.SectionsExtend | dwh/linkedin_data/import_script.py:66-386 | the sections together only append |
| LegacyImport.DocumentExtends | dwh/linkedin_data/import_script.py:37-386 | one document only appends |
| LegacyImport.ImportExtends | dwh/linkedin_data/import_script.py:32-386 | the whole script only appends |
| TjbEtl.ParseStripped | dwh/etl/Dataset_TJB_Import.py:95 | `int` of a stripped cell succeeds exactly on an optionally signed run of digits, and reads a plain digit run as its decimal value |
| TjbEtl.ParseEmployee | dwh/etl/Dataset_TJB_Import.py:95-105 | an employee tuple takes its id from cell 0 and its flag from cell 10; IndexError exactly when a needed cell is missing |
| TjbEtl.SkillColumnsMembers | dwh/etl/Dataset_TJB_Import.py:67-68 | the skill columns are exactly the header columns that are not employee columns |
| TjbEtl.SkillIdsSpec | dwh/etl/Dataset_TJB_Import.py:71-81 | every skill column gets an id |
| TjbEtl.ResolveSkills | dwh/etl/Dataset_TJB_Import.py:71-81 | the skill loop leaves the skill table and the id map that `SkillIdsSpec` specifies |
| TjbEtl.Readable | dwh/etl/Dataset_TJB_Import.py:111-114 | how many skill cells a row has before an IndexError; all of them when the row is long enough |
| TjbEtl.ProcessRow | dwh/etl/Dataset_TJB_Import.py:89-130 | a short row queues nothing; a ValueError queues nothing and escapes; an employee is queued exactly when the row is wide enough and its cells parse |
| TjbEtl.Flush | dwh/etl/Dataset_TJB_Import.py:116-126 | the flush checks leave both buffers below 1000 and lose nothing: sent followed by buffered is unchanged |
| TjbEtl.FlushRest | dwh/etl/Dataset_TJB_Import.py:132-141 | after the loop, everything buffered is sent |
| TjbEtl.EmployeeTables.constructor | dwh/etl/Dataset_TJB_Import.py:62 | the tables start with nothing sent |
| TjbEtl.EmployeeTables.ReplaceMany | dwh/etl/Dataset_TJB_Import.py:117-119 | `REPLACE INTO … executemany` sends the employee batch after what was sent before |
| TjbEtl.EmployeeTables.InsertIgnoreMany | dwh/etl/Dataset_TJB_Import.py:123-125 | `INSERT IGNORE … executemany` sends the pair batch after what was sent before |
| TjbEtl.QueueSkills | dwh/etl/Dataset_TJB_Import.py:111-114 | the skill loop queues a pair per "1" cell it can read and reports whether it read every skill cell |
| TjbEtl.FlushFull | dwh/etl/Dataset_TJB_Import.py:116-126 | the flush checks as a method send exactly what `Flush` sends |
| TjbEtl.ImportRow | dwh/etl/Dataset_TJB_Import.py:88-130 | one row of the loop has the effect `RowStep` specifies |
| TjbEtl.RowStepWithoutEmployee | dwh/etl/Dataset_TJB_Import.py:89-105 | a skipped row or one whose employee cells raise only moves the row counter, and a ValueError stops the loop |
| TjbEtl.RowStepOnParsed | dwh/etl/Dataset_TJB_Import.py:108-126 | a parsed row queues its employee and pairs, and runs the flush checks only when the skill loop completed |
| TjbEtl.QueueRow | dwh/etl/Dataset_TJB_Import.py:108-126 | the rest of the `try` block has the effect that `RowStepOnParsed` describes |
| TjbEtl.RowsStopAtError | dwh/etl/Dataset_TJB_Import.py:87 | once a row has raised an uncaught error, no later row is read |
| TjbEtl.ImportNext | dwh/etl/Dataset_TJB_Import.py:87-130 | one more row extends the loop over the prefix of rows |
| TjbEtl.Import | dwh/etl/Dataset_TJB_Import.py:62-141 | the whole loader leaves the skill table and sends the tuples that `ImportSpec` specifies |
| TjbEtl.RowStepConserves | dwh/etl/Dataset_TJB_Import.py:108-126 | what one row sends plus what it leaves buffered is exactly what it queued |
| TjbEtl.BatchingConservesTuples | dwh/etl/Dataset_TJB_Import.py:84-130 | at every point, sent followed by buffered is exactly the queued tuples in row order: batching loses and duplicates nothing |
| TjbEtl.ConservesOneMoreRow | dwh/etl/Dataset_TJB_Import.py:87-130 | the conservation carries over from the rows before the last one |
| TjbEtl.EveryQueuedTupleSentOnce | dwh/etl/Dataset_TJB_Import.py:84-141 | a normal run sends every queued tuple exactly once, in order; a ValueError leaves the buffered rest unsent |
| TjbEtl.EscapesAreValueErrors | dwh/etl/Dataset_TJB_Import.py:93-130 | the only exception that ends the loop is ValueError |
| TjbEtl.PairsExactlyForOnes | dwh/etl/Dataset_TJB_Import.py:111-114 | a pair is queued for a skill column exactly when its cell holds "1" |
| TjbEtl.SkillIdsAreTableIds | dwh/etl/Dataset_TJB_Import.py:72-81 | each skill column maps to the id of a skill-table row holding that name |
| TjbEtl.DoneRowLeavesBuffersShort | dwh/etl/Dataset_TJB_Import.py:116-126 | a row that reaches the flush checks leaves both buffers below 1000 |
| TjbEtl.ShiftedSkillCells | dwh/etl/Dataset_TJB_Import.py:67-114 | with an id column first, that column counts as a skill and cell `11 + k` is read for skill column `k`, so a row as long as the header never completes its skill loop |
| TjbEtl.SkillColumnsDropsEmployeeColumns | dwh/etl/Dataset_TJB_Import.py:68 | employee columns never become skill columns |
| TjbEtl.ParseIntReadsDecimal | dwh/etl/Dataset_TJB_Import.py:95 | `int` reads back the decimal rendering of any natural number |
| TjbEtl.ParseIntOfDigits | dwh/etl/Dataset_TJB_Import.py:95 | `int` of a digit string is its value |
| TjbEtl.ParseIntOfNegative | dwh/etl/Dataset_TJB_Import.py:95 | `int` of a minus sign followed by digits is the negated value |
| TjbEtl.LastReplaceWins | dwh/etl/Dataset_TJB_Import.py:117 | after the `REPLACE` batches, an employee id holds the last tuple sent for it |
| TjbEtl.UnsentIdsKept | dwh/etl/Dataset_TJB_Import.py:117 | an employee id never sent keeps its earlier row |
| TjbLinks.CellsSpec | dwh/tech_jobs/Dataset_TJB_Import.py:116-127 | every inserted link carries the row's employee id and was accepted by the database |
| TjbLinks.RowSpec | dwh/tech_jobs/Dataset_TJB_Import.py:113 | an empty row raises IndexError at its first cell and inserts nothing |
| TjbLinks.ImportSpec | dwh/tech_jobs/Dataset_TJB_Import.py:62-82 | the skill table is left as the batch loader's skill loop leaves it |
| TjbLinks.FactTable.constructor | dwh/tech_jobs/Dataset_TJB_Import.py:12-20 | the fact table starts empty with the given acceptance |
| TjbLinks.FactTable.Insert | dwh/tech_jobs/Dataset_TJB_Import.py:121-125 | an insert appends the link exactly when the database accepts it |
| TjbLinks.ImportRow | dwh/tech_jobs/Dataset_TJB_Import.py:112-127 | one row's inserts and exception are those `RowSpec` specifies |
| TjbLinks.ImportCell | dwh/tech_jobs/Dataset_TJB_Import.py:116-127 | one skill cell raises IndexError past the row's end, inserts its link on a "1", and raises when the database refuses it, as `CellsSpec` specifies |
| TjbLinks.CellsStopAtError | dwh/tech_jobs/Dataset_TJB_Import.py:116 | once a cell has raised, the later cells are not read |
| TjbLinks.RowsStopAtError | dwh/tech_jobs/Dataset_TJB_Import.py:85 | once a row has raised, no later row is read |
| TjbLinks.ImportNext | dwh/tech_jobs/Dataset_TJB_Import.py:85-127 | one more row extends the run over the prefix of rows |
| TjbLinks.Import | dwh/tech_jobs/Dataset_TJB_Import.py:62-127 | the whole script leaves the skill table and the links that `ImportSpec` specifies |
| TjbLinks.RowRaisesIffShort | dwh/tech_jobs/Dataset_TJB_Import.py:116-117 | when the database accepts everything, a row raises exactly when it is too short for its last skill column |
| TjbLinks.LinksExactlyForOnes | dwh/tech_jobs/Dataset_TJB_Import.py:116-124 | a clean row inserts a link for a skill column exactly when its cell holds "1" |
| TjbLinks.RefusedLinkEndsScript | dwh/tech_jobs/Dataset_TJB_Import.py:123-127 | a refused insert is not caught by the handler for the other driver's errors and ends the script |
| TjbLinks.AlignedSkillCells | dwh/tech_jobs/Dataset_TJB_Import.py:67-117 | enumerating from 10, every real skill reads the cell under its own header, and a row as long as the header is long enough |
| TjbLinks.RowsAppendInOrder | dwh/tech_jobs/Dataset_TJB_Import.py:85-127 | the links of the run are the rows' links in row order |
| TechJobsConvert.Gender | dwh/tech_jobs/import_script.py:37-44 | "Woman" gives 1, "Man" gives 0, and anything else None, each in both directions |
| TechJobsConvert.Person | dwh/tech_jobs/import_script.py:30-59 | the person record copies the fields, maps the gender, and sets `isDev` to 1 exactly when the main branch is "Dev" |
| TechJobsConvert.Split | dwh/tech_jobs/import_script.py:23 | `str.split(';')` gives a non-empty list of pieces without separators, a single piece exactly when there is no separator |
| TechJobsConvert.JoinSplit | dwh/tech_jobs/import_script.py:23 | joining the pieces with the separator gives back the original string |
| TechJobsConvert.SplitJoin | dwh/tech_jobs/import_script.py:23 | splitting a join of separator-free pieces gives back the pieces |
| TechJobsConvert.SplitWithoutSeparator | dwh/tech_jobs/import_script.py:23 | a string without separator splits into itself |
| TechJobsConvert.DocumentSkills | dwh/tech_jobs/import_script.py:22-24 | a document without `HaveWorkedWith` adds no skills; a non-string one raises |
| TechJobsConvert.BuildDimensionTable | dwh/tech_jobs/import_script.py:11-27 | the skill set is the union over the module's `collection`, not the argument, as `SkillsSpec` specifies |
| TechJobsConvert.SkillsStopAtError | dwh/tech_jobs/import_script.py:20 | once a document has raised, the later ones are not read |
| TechJobsConvert.SkillsAreThePieces | dwh/tech_jobs/import_script.py:17-27 | a skill is in the set exactly when some document's `HaveWorkedWith` has it as a piece |
| TechJobsConvert.SkillsHaveNoSeparator | dwh/tech_jobs/import_script.py:23-24 | no skill holds the separator |
| JobPostings.IntervalIs99 | dwh/etl/import_job_postings.py:17-20 | the stride is 3470024 // 35000 = 99 |
| JobPostings.Rename | dwh/etl/import_job_postings.py:35-36 | `_id` moves to `original_id`; every other field is kept and a document without `_id` is unchanged |
| JobPostings.Step | dwh/etl/import_job_postings.py:31-43 | a line that yields no sample changes nothing |
| JobPostings.Collection.constructor | dwh/etl/import_job_postings.py:12 | the collection starts with no batch inserted |
| JobPostings.Collection.InsertMany | dwh/etl/import_job_postings.py:40 | `insert_many` records the batch after the earlier ones |
| JobPostings.Load | dwh/etl/import_job_postings.py:23-47 | the script inserts exactly the batches `BatchesSpec` gives, and the counter counts every line |
| JobPostings.BatchingKeepsSamples | dwh/etl/import_job_postings.py:37-41 | batches then buffer are exactly the samples in line order |
| JobPostings.LoopBatchesAreFull | dwh/etl/import_job_postings.py:39-41 | every batch the loop inserts holds 1000 objects and the buffer stays below 1000 |
| JobPostings.AllSamplesInsertedOnce | dwh/etl/import_job_postings.py:37-47 | every sample is inserted exactly once, in order, in full batches but for a non-empty last one |
| JobPostings.SamplesAreSelectedLines | dwh/etl/import_job_postings.py:31-37 | the samples are exactly the renamed objects of the selected lines that decode |
| JobPostings.SelectedCountFormula | dwh/etl/import_job_postings.py:31 | the stride selects one line in every 99, rounding up |
| JobPostings.CeilingStep | dwh/etl/import_job_postings.py:31 | the rounded-up count grows by one exactly at multiples of 99 |
| JobPostings.WholeDumpSelection | dwh/etl/import_job_postings.py:17-31 | over the whole dump, 35051 lines are selected, slightly more than the 35000 wanted |
| JobPostings.SamplesBoundedBySelection | dwh/etl/import_job_postings.py:31-43 | there are never more samples than selected lines |
| Tagging.Collapse | dwh/etl/aggregation/tagging/main.py:58 | `re.sub(r'\s+', ' ', …)` never lengthens a string |
| Tagging.CollapseShape | dwh/etl/aggregation/tagging/main.py:58 | after collapsing, every whitespace character is a single space between two non-spaces or at an end |
| Tagging.AllSpaceWhenStripped | dwh/etl/aggregation/tagging/main.py:58 | a string that strips to nothing was all whitespace |
| Tagging.CleanText | dwh/etl/aggregation/tagging/main.py:54-58 | None stays None, a string is cleaned to a string, and any other value raises |
| Tagging.Text | dwh/etl/aggregation/tagging/main.py:58 | the non-whitespace characters of a string, in order |
| Tagging.CollapseKeepsText | dwh/etl/aggregation/tagging/main.py:58 | collapsing whitespace keeps every non-space character in order |
| Tagging.StripStartKeepsText | dwh/etl/aggregation/tagging/main.py:58 | stripping the start keeps every non-space character |
| Tagging.TextOfConcat | dwh/etl/aggregation/tagging/main.py:58 | the text of a concatenation is the concatenation of the texts |
| Tagging.StripEndKeepsText | dwh/etl/aggregation/tagging/main.py:58 | stripping the end keeps every non-space character |
| Tagging.StripKeepsText | dwh/etl/aggregation/tagging/main.py:58 | stripping keeps every non-space character |
| Tagging.CleanTextOfString | dwh/etl/aggregation/tagging/main.py:54-58 | a cleaned string has no outer whitespace, single spaces inside, and the same text |
| Tagging.CollapseOfNormal | dwh/etl/aggregation/tagging/main.py:58 | collapsing a string with single spaces only leaves it unchanged |
| Tagging.StripStartOfNonSpace | dwh/etl/aggregation/tagging/main.py:58 | a string starting with a non-space is unchanged by stripping its start |
| Tagging.StripOfClean | dwh/etl/aggregation/tagging/main.py:58 | a clean string is unchanged by stripping |
| Tagging.CleanTextIdempotent | dwh/etl/aggregation/tagging/main.py:54-58 | cleaning a cleaned value changes nothing |
| Tagging.FixedPointsAreClean | dwh/etl/aggregation/tagging/main.py:54-58 | cleaning leaves a string unchanged exactly when it is already clean |
| Tagging.CleanAll | dwh/etl/aggregation/tagging/main.py:61 | the cleaned entry has exactly the listed attributes, each the cleaned field, and raises exactly when some field cannot be cleaned |
| Tagging.ProcessEntry | dwh/etl/aggregation/tagging/main.py:60-69 | an entry gives the cleaned attributes (None for missing ones) and two messages, the prompt and the serialised entry; it raises exactly on a non-mapping entry or an uncleanable field |
| Tagging.ProcessEntries | dwh/etl/aggregation/tagging/main.py:73 | one processed entry per entry, in order, and an error exactly when some entry raises |
| Tagging.ProcessList | dwh/etl/aggregation/tagging/main.py:71-77 | a value that cannot be iterated raises TypeError; otherwise its entries are processed |
| Tagging.ProcessedListShape | dwh/etl/aggregation/tagging/main.py:60-77 | the k-th processed entry comes from the k-th entry and starts with the system prompt |
| Tagging.ApplyColumn | dwh/etl/aggregation/tagging/main.py:80-81 | `apply` gives one processed list per profile, in order |
| Tagging.Preprocess | dwh/etl/aggregation/tagging/main.py:51-83 | a frame without an experiences column raises KeyError; a frame that is processed keeps one row per profile |
| Tagging.PreprocessedProfile | dwh/etl/aggregation/tagging/main.py:71-81 | each profile keeps its document and gains its experiences processed with company, title, description and location, and its education processed with field of study, degree name, school and description |
| Tagging.Windows | dwh/etl/aggregation/tagging/main.py:149-157 | `range(0, total, 100)` gives the rounded-up number of windows |
| Tagging.BatchWindows | dwh/etl/aggregation/tagging/main.py:137-157 | the batch loop visits exactly the windows `Windows` lists |
| Tagging.WindowsPartition | dwh/etl/aggregation/tagging/main.py:149-157 | every window starts inside the count, and every profile falls in exactly one window |
| Tagging.Load | dwh/etl/aggregation/tagging/main.py:47 | `skip(s).limit(l)` returns at most `l` profiles |
| Tagging.LoadAll | dwh/etl/aggregation/tagging/main.py:115 | one loaded batch per window |
| Tagging.WindowsLoadEveryProfileOnce | dwh/etl/aggregation/tagging/main.py:47-157 | the batches over the windows, concatenated, are exactly the profiles, each once and in order |
| Tagging.LoadedPrefix | dwh/etl/aggregation/tagging/main.py:47-157 | the first n windows load exactly the first n·100 profiles |
| UserStore.Seed | backend/src/main/java/fra/uas/intellimatch/intellimatch/security/InMemoryUserDetailsService.java:23-40 | the store starts with "user" and "businessuser", each with password `{noop}` plus the name and its own role |
| UserStore.GetUser | backend/src/main/java/fra/uas/intellimatch/intellimatch/security/InMemoryUserDetailsService.java:47-53 | the user details keep name and password and have one `ROLE_` authority per role; a role already prefixed with `ROLE_` or an empty user name is refused with IllegalArgumentException |
| UserStore.Load | backend/src/main/java/fra/uas/intellimatch/intellimatch/security/InMemoryUserDetailsService.java:42-46 | an unknown name fails with "user = … not present"; a known one gives its details |
| UserStore.Save | backend/src/main/java/fra/uas/intellimatch/intellimatch/security/InMemoryUserDetailsService.java:54-59 | saving fails exactly when the name is taken; otherwise the user is added and every other user kept |
| UserStore.InMemoryUserDetailsService.constructor | backend/src/main/java/fra/uas/intellimatch/intellimatch/security/InMemoryUserDetailsService.java:23-40 | a new service holds exactly the two seeded users |
| UserStore.InMemoryUserDetailsService.LoadUserByUsername | backend/src/main/java/fra/uas/intellimatch/intellimatch/security/InMemoryUserDetailsService.java:42-46 | the lookup fails for an unknown name and otherwise returns the user's details, changing nothing |
| UserStore.InMemoryUserDetailsService.SaveUser | backend/src/main/java/fra/uas/intellimatch/intellimatch/security/InMemoryUserDetailsService.java:54-59 | a taken name raises "User already exists" and leaves the map; otherwise the map becomes what `Save` gives |
| UserStore.Registered | backend/src/main/java/fra/uas/intellimatch/intellimatch/service/impl/AuthServiceImpl.java:35 | a registered user gets the requested name, `{noop}` plus the password, and the single role USER |
| UserStore.AuthService.constructor | backend/src/main/java/fra/uas/intellimatch/intellimatch/service/impl/AuthServiceImpl.java:20-25 | the service uses the given user store |
| UserStore.AuthService.RegisterUser | backend/src/main/java/fra/uas/intellimatch/intellimatch/service/impl/AuthServiceImpl.java:34-37 | registration fails exactly when the name is taken; otherwise it stores the registered user and returns the success message |
| UserStore.SeededUsersLoad | backend/src/main/java/fra/uas/intellimatch/intellimatch/security/InMemoryUserDetailsService.java:23-53 | the two seeded users load with their passwords and the authorities ROLE_USER and ROLE_BUSINESSUSER |
| UserStore.SeededRolesUnprefixed | backend/src/main/java/fra/uas/intellimatch/intellimatch/security/InMemoryUserDetailsService.java:18-19 | the seeded roles do not start with `ROLE_`, so building their details succeeds |
| UserStore.SingleRole | backend/src/main/java/fra/uas/intellimatch/intellimatch/security/InMemoryUserDetailsService.java:47-53 | a user with one unprefixed role gets exactly one authority |
| UserStore.SaveThenLoad | backend/src/main/java/fra/uas/intellimatch/intellimatch/security/InMemoryUserDetailsService.java:42-59 | a saved user loads back, and every other name loads as before |
| UserStore.SaveTwiceFails | backend/src/main/java/fra/uas/intellimatch/intellimatch/security/InMemoryUserDetailsService.java:54-59 | saving a second user under the same name fails |
| UserStore.RegisteredUserLoads | backend/src/main/java/fra/uas/intellimatch/intellimatch/service/impl/AuthServiceImpl.java:34-37 | a newly registered user with a non-empty name loads with the authority ROLE_USER and the `{noop}` password; one registered under the empty name is stored but loading it raises IllegalArgumentException |
| UserStore.SeededNamesAreTaken | backend/src/main/java/fra/uas/intellimatch/intellimatch/service/impl/AuthServiceImpl.java:34-37 | registering "user" or "businessuser" on a fresh store fails |

## Left out

- Database and MongoDB connections, environment variables, commits, cursors, closing: the warehouse is the value `Warehouse.Db` and the collections are sequences of documents.
- Printing of progress and error messages: it has no effect on the data.
- Floating point: `float(...)` and `round` are not modelled. The tech-jobs person converter takes its salary as a parameter.
- TjbEtl.ParseEmployee: does not model `float(row[8])`, which raises ValueError on a salary cell that is not a number; the salary is kept as its text.
- TjbEtl.ParseInt: does not model Python's underscores between digits or non-ASCII digits and whitespace.
- Documents.ConvertDate: builds the date from the three fields without checking that they form a valid calendar date or are integers; `datetime.date` raises on those. It also gives None for every value that is not a mapping, whereas Python tests `in` on a truthy string (substrings) or list (items) and then raises TypeError at `date_object['year']` when all three names are found, and raises TypeError at once on a non-zero number, `True` or a date.
- Documents.Iterate: a mapping raises TypeError in the model, whereas Python's `for` over a dict yields its keys in insertion order; the model's mappings are unordered, so the key order is not representable. Numbers, booleans and dates raise in both.
- Documents.Format: renders strings, integers, booleans and None as Python does; lists, mappings and dates get a fixed placeholder.
- Documents.Value: has no floating-point numbers; a float in a document is not representable.
- Tagging.ProcessEntry: `json.dumps` is a parameter, so the serialised text of an entry is not modelled.
- Warehouse.SqlEquals: compares two non-NULL values exactly. MySQL's default collations compare strings case- and accent-insensitively and ignore trailing spaces, so the database can find a row the model does not. `Warehouse.ResolveIdempotent`, `ProfileWriters.SkillAndInterestAreDistinctTraits`, `CompanyWriters.SpecialtyNamesAreStripped` and the duplicate handling of `TjbEtl.SkillIdsSpec` hold under exact comparison only.
- UserStore.GetUser: a null user name or password has no counterpart, because the model's strings are never null; only the empty user name is refused.
- SQL type conversions (a value of the wrong type for a column) are not modelled; every row the writers build is accepted.
- DataFrame construction details (column order, dtype inference) are not modelled; a row is a map from column names to values.
- Concurrency of `ConcurrentHashMap` in the user store: every operation is modelled as atomic, and the map holds at most one user per name.
- `authRequest` and `getToken` of `AuthServiceImpl`: they go through Spring's `AuthenticationManager` and `JwtService`, which are not part of this model.
- The main loop of `dwh/tech_jobs/import_script.py` (lines 91-110): it reads the undefined names `document`, `person_id` and `dwh_engine` and so raises NameError on its first document; it writes nothing that the model could describe.
- `generate_attributes`, `postprocess_data` and `save_results` of the tagging pre-processor: the first two return their input unchanged, and the upsert of `save_results` is a MongoDB call.
- `get_total_profile_count` and the query filter of `load_profiles`: the profiles are given as the already filtered sequence.
- The earlier profile writer `dwh/linkedin_data/profile/insert.py` is not part of this model.
- TjbLinks.Import: the acceptance of a link (the foreign keys of the fact table) is a parameter; which links the database refuses is not modelled.
- The database-side behaviour of `REPLACE INTO` and `INSERT IGNORE` is modelled only for `REPLACE` (`TjbEtl.Replaced`); the duplicate pairs `INSERT IGNORE` drops are kept in the sent sequence.
