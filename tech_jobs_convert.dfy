/**
  The converters of the tech-jobs person import: a person document becomes one DWH person
  record, and the skill dimension is the set of all `;`-separated pieces of the documents'
  `HaveWorkedWith` strings.
 */
module TechJobsConvert {
  import opened Wrappers
  import opened Documents
  import opened Warehouse

  /** The person record's columns. */
  const PersonColumns: set<string> := {"educationLevel", "country", "salary", "yearsCode", "gender", "age", "isDev"}

  /** The gender column: 1 for "Woman", 0 for "Man", NULL for any other value or none. */
  function Gender(v: Value): (r: Value)
    ensures r == Int(1) <==> v == Str("Woman")
    ensures r == Int(0) <==> v == Str("Man")
    ensures r == Null <==> v != Str("Woman") && v != Str("Man")
  {
    match v
    case Str(s) => if s == "Woman" then Int(1) else if s == "Man" then Int(0) else Null
    case _ => Null
  }

  /**
    `convert_person`. The salary is `int(round(float(PreviousSalary)))`, which the caller computes
    (floating point is not modelled); everything else comes from the document.
   */
  function Person(doc: Doc, salary: Value): (r: Row)
    ensures r.Keys == PersonColumns
    ensures r["educationLevel"] == Get(doc, "educationLevel") && r["country"] == Get(doc, "Country")
    ensures r["yearsCode"] == Get(doc, "YearsCode") && r["age"] == Get(doc, "Age") && r["salary"] == salary
    ensures r["gender"] == Gender(Get(doc, "Gender"))
    ensures r["isDev"] == Int(1) <==> Get(doc, "MainBranch") == Str("Dev")
    ensures r["isDev"] == Int(0) <==> Get(doc, "MainBranch") != Str("Dev")
  {
    map[
      "educationLevel" := Get(doc, "educationLevel"),
      "country" := Get(doc, "Country"),
      "salary" := salary,
      "yearsCode" := Get(doc, "YearsCode"),
      "gender" := Gender(Get(doc, "Gender")),
      "age" := Get(doc, "Age"),
      "isDev" := if Get(doc, "MainBranch") == Str("Dev") then Int(1) else Int(0)]
  }

  // ---------------------------------------------------------------- splitting

  /** `s.split(sep)`: the pieces between the separators, empty ones included; never an empty list. */
  function Split(s: string, sep: char): (r: seq<string>)
    ensures |r| > 0
    ensures forall k :: 0 <= k < |r| ==> sep !in r[k]
    ensures |r| == 1 <==> sep !in s
    decreases |s|
  {
    if s == [] then [""]
    else
      var rest := Split(s[1..], sep);
      if s[0] == sep then [""] + rest else [[s[0]] + rest[0]] + rest[1..]
  }

  /** `sep.join(pieces)`. */
  function Join(pieces: seq<string>, sep: char): string
    decreases |pieces|
  {
    if pieces == [] then ""
    else if |pieces| == 1 then pieces[0]
    else pieces[0] + [sep] + Join(pieces[1..], sep)
  }

  /** Joining the pieces of a split gives back the string. */
  lemma {:induction false} JoinSplit(s: string, sep: char)
    ensures Join(Split(s, sep), sep) == s
    decreases |s|
  {
    if s != [] {
      JoinSplit(s[1..], sep);
      var rest := Split(s[1..], sep);
      if s[0] != sep {
        if |rest| > 1 {
          assert ([[s[0]] + rest[0]] + rest[1..])[1..] == rest[1..];
          assert Join(rest, sep) == rest[0] + [sep] + Join(rest[1..], sep);
        }
      } else {
        assert ([""] + rest)[1..] == rest;
      }
    }
  }

  /** Splitting a join of separator-free pieces gives back the pieces. */
  lemma {:induction false} SplitJoin(pieces: seq<string>, sep: char)
    requires |pieces| > 0 && forall k :: 0 <= k < |pieces| ==> sep !in pieces[k]
    ensures Split(Join(pieces, sep), sep) == pieces
    decreases |pieces|
  {
    if |pieces| == 1 {
      SplitWithoutSeparator(pieces[0], sep);
    } else {
      SplitJoin(pieces[1..], sep);
      SplitPrefix(pieces[0], Join(pieces[1..], sep), sep);
      assert pieces == [pieces[0]] + pieces[1..];
    }
  }

  lemma {:induction false} SplitWithoutSeparator(s: string, sep: char)
    requires sep !in s
    ensures Split(s, sep) == [s]
    decreases |s|
  {
    if s != [] {
      SplitWithoutSeparator(s[1..], sep);
      assert [s[0]] + s[1..] == s;
    }
  }

  /** A separator-free prefix followed by a separator splits off as the first piece. */
  lemma {:induction false} SplitPrefix(p: string, rest: string, sep: char)
    requires sep !in p
    ensures Split(p + [sep] + rest, sep) == [p] + Split(rest, sep)
    decreases |p|
  {
    if p == [] {
      assert p + [sep] + rest == [sep] + rest;
      assert ([sep] + rest)[1..] == rest;
    } else {
      var s := p + [sep] + rest;
      assert s[0] == p[0] && s[1..] == p[1..] + [sep] + rest;
      SplitPrefix(p[1..], rest, sep);
      assert [p[0]] + p[1..] == p;
    }
  }

  // ---------------------------------------------------------------- the skill dimension

  /** The pieces of one document's `HaveWorkedWith`; a value that is not a string has no `split`. */
  function DocumentSkills(doc: Doc): (r: Result<set<string>>)
    ensures "HaveWorkedWith" !in doc ==> r == Success({})
    ensures r.Failure? <==> "HaveWorkedWith" in doc && !doc["HaveWorkedWith"].Str?
  {
    if "HaveWorkedWith" !in doc then Success({})
    else match doc["HaveWorkedWith"]
      case Str(s) => Success(set p | p in Split(s, ';'))
      case _ => Failure("AttributeError")
  }

  /** The union over the documents, in order, stopping at the first that raises. */
  function SkillsSpec(docs: seq<Doc>): Result<set<string>>
    decreases |docs|
  {
    if docs == [] then Success({})
    else match SkillsSpec(docs[..|docs| - 1])
      case Failure(e) => Failure(e)
      case Success(acc) =>
        match DocumentSkills(docs[|docs| - 1])
        case Failure(e) => Failure(e)
        case Success(more) => Success(acc + more)
  }

  /**
    `build_dimension_table`: it reads the module's `collection`, not the collection it is given,
    so its result depends on `collection` alone.
   */
  method BuildDimensionTable(mongoCollection: seq<Doc>, collection: seq<Doc>) returns (r: Result<set<string>>)
    ensures r == SkillsSpec(collection)
  {
    var unique: set<string> := {};
    var i := 0;
    while i < |collection|
      invariant 0 <= i <= |collection|
      invariant SkillsSpec(collection[..i]) == Success(unique)
    {
      assert collection[..i + 1][..i] == collection[..i];
      var doc := collection[i];
      if "HaveWorkedWith" in doc {
        match doc["HaveWorkedWith"] {
          case Str(s) =>
            var skills := Split(s, ';');
            unique := unique + set p | p in skills;
          case _ =>
            SkillsStopAtError(collection, i + 1);
            return Failure("AttributeError");
        }
      } else {
        assert unique + {} == unique;
      }
      i := i + 1;
    }
    assert collection[..i] == collection;
    return Success(unique);
  }

  lemma {:induction false} SkillsStopAtError(docs: seq<Doc>, k: nat)
    requires k <= |docs| && SkillsSpec(docs[..k]).Failure?
    ensures SkillsSpec(docs) == SkillsSpec(docs[..k])
    decreases |docs|
  {
    if k < |docs| {
      var init := docs[..|docs| - 1];
      assert init[..k] == docs[..k];
      SkillsStopAtError(init, k);
    } else {
      assert docs[..k] == docs;
    }
  }

  /** Whether the document's `HaveWorkedWith` string has `skill` among its pieces. */
  predicate Mentions(doc: Doc, skill: string) {
    "HaveWorkedWith" in doc && doc["HaveWorkedWith"].Str? && skill in Split(doc["HaveWorkedWith"].s, ';')
  }

  /**
    The skill set is exactly the pieces of the documents' `HaveWorkedWith` strings: duplicates
    collapse, documents without the attribute contribute nothing.
   */
  lemma {:induction false} SkillsAreThePieces(docs: seq<Doc>, skill: string)
    requires SkillsSpec(docs).Success?
    ensures skill in SkillsSpec(docs).value <==> exists k :: 0 <= k < |docs| && Mentions(docs[k], skill)
    decreases |docs|
  {
    if docs != [] {
      var init := docs[..|docs| - 1];
      SkillsAreThePieces(init, skill);
      var last := docs[|docs| - 1];
      if skill in SkillsSpec(docs).value && skill !in SkillsSpec(init).value {
        assert "HaveWorkedWith" in last && last["HaveWorkedWith"].Str?;
        assert docs[|docs| - 1] == last;
      }
      if exists k :: 0 <= k < |docs| && Mentions(docs[k], skill) {
        var k :| 0 <= k < |docs| && Mentions(docs[k], skill);
        if k < |docs| - 1 {
          assert init[k] == docs[k];
        }
      }
    }
  }

  /** No skill holds the separator. */
  lemma {:induction false} SkillsHaveNoSeparator(docs: seq<Doc>, skill: string)
    requires SkillsSpec(docs).Success? && skill in SkillsSpec(docs).value
    ensures ';' !in skill
  {
    SkillsAreThePieces(docs, skill);
  }
}
