/**
  The tagging pre-processor: each experience and education entry of a profile is reduced to a
  fixed list of attributes whose text is whitespace-normalised, and wrapped into the two chat
  messages a language model is given. The profiles are processed in windows of 100 (skip, limit).

  `json.dumps` is a parameter of the model: `dumps` maps the attribute names, in the order the
  cleaned entry holds them, and the cleaned mapping to the JSON text.
 */
module Tagging {
  import opened Wrappers
  import opened Documents

  // ---------------------------------------------------------------- clean_text

  /** `re.sub(r'\s+', ' ', t)`: every maximal run of whitespace becomes one space. */
  function Collapse(s: string): (r: string)
    ensures |r| <= |s|
    decreases |s|
  {
    if s == [] then []
    else if IsSpace(s[0]) then [' '] + Collapse(StripStart(s[1..]))
    else [s[0]] + Collapse(s[1..])
  }

  /** A collapsed string is empty exactly when the input is, and starts and ends with whitespace exactly when the input does. */
  lemma {:induction false} CollapseEnds(s: string)
    ensures var r := Collapse(s);
      && (s == [] <==> r == [])
      && (r != [] ==> (IsSpace(r[0]) <==> IsSpace(s[0])))
      && (r != [] ==> (IsSpace(r[|r| - 1]) <==> IsSpace(s[|s| - 1])))
    decreases |s|
  {
    if s != [] {
      var r := Collapse(s);
      if IsSpace(s[0]) {
        var rest := StripStart(s[1..]);
        CollapseEnds(rest);
        AllSpaceWhenStripped(s[1..]);
        assert r == [' '] + Collapse(rest);
        if rest != [] {
          assert r[|r| - 1] == Collapse(rest)[|Collapse(rest)| - 1];
        }
      } else {
        CollapseEnds(s[1..]);
        assert r == [s[0]] + Collapse(s[1..]);
        if s[1..] != [] {
          assert r[|r| - 1] == Collapse(s[1..])[|Collapse(s[1..])| - 1];
          assert s[|s| - 1] == s[1..][|s[1..]| - 1];
        }
      }
    }
  }

  /**
    The shape of a collapsed string: it is in the normal form, it is empty exactly when the input
    is, and it starts and ends with whitespace exactly when the input does.
   */
  lemma {:induction false} CollapseShape(s: string)
    ensures var r := Collapse(s);
      && (s == [] <==> r == [])
      && Normal(r)
      && (r != [] ==> (IsSpace(r[0]) <==> IsSpace(s[0])))
      && (r != [] ==> (IsSpace(r[|r| - 1]) <==> IsSpace(s[|s| - 1])))
    decreases |s|
  {
    CollapseEnds(s);
    if s != [] {
      if IsSpace(s[0]) {
        var rest := StripStart(s[1..]);
        CollapseShape(rest);
        NormalCons(' ', Collapse(rest));
      } else {
        CollapseShape(s[1..]);
        NormalCons(s[0], Collapse(s[1..]));
      }
    }
  }

  /** Prepending a character keeps the normal form when it is not whitespace, or a space before a non-space. */
  lemma NormalCons(c: char, t: string)
    requires Normal(t)
    requires IsSpace(c) ==> c == ' ' && (t == [] || !IsSpace(t[0]))
    ensures Normal([c] + t)
  {
    var s := [c] + t;
    forall k | 0 <= k < |s| - 1
      ensures !IsSpace(s[k]) || !IsSpace(s[k + 1])
    {
      if k > 0 {
        assert s[k] == t[k - 1] && s[k + 1] == t[k];
      }
    }
  }

  /** The tail of a string in the normal form is in the normal form. */
  lemma NormalTail(s: string)
    requires Normal(s) && s != []
    ensures Normal(s[1..])
  {
    var t := s[1..];
    forall k | 0 <= k < |t| - 1
      ensures !IsSpace(t[k]) || !IsSpace(t[k + 1])
    {
      assert t[k] == s[k + 1] && t[k + 1] == s[k + 2];
    }
  }

  /** Whether every whitespace character is a plain space and no two of them are adjacent. */
  predicate Normal(s: string) {
    && (forall k :: 0 <= k < |s| && IsSpace(s[k]) ==> s[k] == ' ')
    && (forall k :: 0 <= k < |s| - 1 ==> !IsSpace(s[k]) || !IsSpace(s[k + 1]))
  }

  /** When lstrip removes everything, the string was all whitespace; otherwise it keeps the last character. */
  lemma AllSpaceWhenStripped(s: string)
    ensures StripStart(s) == [] ==> forall k :: 0 <= k < |s| ==> IsSpace(s[k])
    ensures StripStart(s) != [] ==> StripStart(s)[|StripStart(s)| - 1] == s[|s| - 1]
  {
  }

  /** `clean_text`: None stays None, a string is stripped and its whitespace runs collapsed; anything else has no `strip`. */
  function CleanText(v: Value): (r: Result<Value>)
    ensures v == Null <==> r == Success(Null)
    ensures r.Failure? <==> !v.Null? && !v.Str?
    ensures v.Str? ==> r.Success? && r.value.Str?
  {
    match v
    case Null => Success(Null)
    case Str(s) => Success(Str(Collapse(Strip(s))))
    case _ => Failure("AttributeError")
  }

  /** The normal form `clean_text` produces: no leading or trailing whitespace, single plain spaces inside. */
  predicate Clean(s: string) {
    Normal(s) && (s == [] || (!IsSpace(s[0]) && !IsSpace(s[|s| - 1])))
  }

  /** The text of a string with its whitespace removed. */
  function Text(s: string): (r: string)
    ensures forall k :: 0 <= k < |r| ==> !IsSpace(r[k])
    decreases |s|
  {
    if s == [] then [] else (if IsSpace(s[0]) then [] else [s[0]]) + Text(s[1..])
  }

  /** Collapsing whitespace keeps the text, character for character. */
  lemma {:induction false} CollapseKeepsText(s: string)
    ensures Text(Collapse(s)) == Text(s)
    decreases |s|
  {
    if s != [] {
      if IsSpace(s[0]) {
        var rest := StripStart(s[1..]);
        CollapseKeepsText(rest);
        StripStartKeepsText(s[1..]);
        assert Text([' '] + Collapse(rest)) == Text(Collapse(rest));
      } else {
        CollapseKeepsText(s[1..]);
        assert ([s[0]] + Collapse(s[1..]))[1..] == Collapse(s[1..]);
      }
    }
  }

  lemma {:induction false} StripStartKeepsText(s: string)
    ensures Text(StripStart(s)) == Text(s)
    decreases |s|
  {
    if s != [] && IsSpace(s[0]) {
      StripStartKeepsText(s[1..]);
    }
  }

  lemma {:induction false} TextOfConcat(a: string, b: string)
    ensures Text(a + b) == Text(a) + Text(b)
    decreases |a|
  {
    if a != [] {
      TextOfConcat(a[1..], b);
      var head := if IsSpace(a[0]) then [] else [a[0]];
      assert (a + b)[0] == a[0] && (a + b)[1..] == a[1..] + b;
      assert Text(a + b) == head + Text(a[1..] + b);
      assert Text(a) == head + Text(a[1..]);
      assert head + (Text(a[1..]) + Text(b)) == (head + Text(a[1..])) + Text(b);
    } else {
      assert a + b == b;
    }
  }

  lemma {:induction false} StripEndKeepsText(s: string)
    ensures Text(StripEnd(s)) == Text(s)
    decreases |s|
  {
    if s != [] && IsSpace(s[|s| - 1]) {
      var init := s[..|s| - 1];
      StripEndKeepsText(init);
      assert s == init + [s[|s| - 1]];
      TextOfConcat(init, [s[|s| - 1]]);
    }
  }

  /** Stripping removes only whitespace. */
  lemma StripKeepsText(s: string)
    ensures Text(Strip(s)) == Text(s)
  {
    StripStartKeepsText(s);
    StripEndKeepsText(StripStart(s));
  }

  /**
    What `clean_text` does to a string: the result is in the normal form, and it has the same text
    as the input.
   */
  lemma CleanTextOfString(s: string)
    ensures CleanText(Str(s)).value.Str?
    ensures Clean(CleanText(Str(s)).value.s)
    ensures Text(CleanText(Str(s)).value.s) == Text(s)
  {
    StripKeepsText(s);
    CollapseKeepsText(Strip(s));
    CollapseShape(Strip(s));
  }

  /** A string already in the normal form is left unchanged by collapsing. */
  lemma {:induction false} CollapseOfNormal(s: string)
    requires Normal(s)
    ensures Collapse(s) == s
    decreases |s|
  {
    if s != [] {
      NormalTail(s);
      CollapseOfNormal(s[1..]);
      if IsSpace(s[0]) {
        assert s[0] == ' ';
        assert |s| > 1 ==> !IsSpace(s[1]);
        StripStartOfNonSpace(s[1..]);
        assert Collapse(s) == [' '] + Collapse(s[1..]);
      } else {
        assert Collapse(s) == [s[0]] + Collapse(s[1..]);
      }
      assert [s[0]] + s[1..] == s;
    }
  }

  lemma StripStartOfNonSpace(t: string)
    requires t == [] || !IsSpace(t[0])
    ensures StripStart(t) == t
  {
  }

  lemma StripOfClean(s: string)
    requires Clean(s)
    ensures Strip(s) == s
  {
    assert StripStart(s) == s;
    assert StripEnd(s) == s;
  }

  /** `clean_text` is idempotent; a string is a fixed point exactly when it is in the normal form. */
  lemma CleanTextIdempotent(v: Value)
    requires CleanText(v).Success?
    ensures CleanText(CleanText(v).value) == CleanText(v)
  {
    if v.Str? {
      CleanTextOfString(v.s);
      FixedPointsAreClean(CleanText(v).value.s);
    }
  }

  lemma FixedPointsAreClean(s: string)
    ensures CleanText(Str(s)) == Success(Str(s)) <==> Clean(s)
  {
    if Clean(s) {
      StripOfClean(s);
      CollapseOfNormal(s);
    } else {
      CleanTextOfString(s);
    }
  }

  // ---------------------------------------------------------------- process_entry

  /** The attributes an experience and an education entry are reduced to, in order. */
  const ExperienceAttributes: seq<string> := ["company", "title", "description", "location"]
  const EducationAttributes: seq<string> := ["field_of_study", "degree_name", "school", "description"]

  /** The cleaned attributes of an entry, attribute by attribute; the first that cannot be cleaned raises. */
  function CleanAll(fields: Doc, attributes: seq<string>): (r: Result<Doc>)
    ensures r.Success? ==> r.value.Keys == set a | a in attributes
    ensures r.Success? ==> forall a :: a in attributes ==> CleanText(Get(fields, a)) == Success(r.value[a])
    ensures r.Failure? <==> exists a :: a in attributes && CleanText(Get(fields, a)).Failure?
    decreases |attributes|
  {
    if attributes == [] then Success(map[])
    else
      var last := attributes[|attributes| - 1];
      match CleanAll(fields, attributes[..|attributes| - 1])
      case Failure(e) => Failure(e)
      case Success(m) =>
        match CleanText(Get(fields, last))
        case Failure(e) => Failure(e)
        case Success(v) => Success(m[last := v])
  }

  /** A chat message. */
  datatype Message = Message(role: string, content: string)

  /** `process_entry`'s result: the cleaned entry and the messages built from it. */
  datatype Processed = Processed(original: Doc, messages: seq<Message>)

  /**
    `process_entry`. `entry.get` needs a mapping; an attribute the entry lacks is cleaned as None.
   */
  function ProcessEntry(entry: Value, prompt: string, attributes: seq<string>, dumps: (seq<string>, Doc) -> string): (r: Result<Processed>)
    ensures r.Success? <==> entry.Obj? && forall a :: a in attributes ==> CleanText(Get(entry.fields, a)).Success?
    ensures r.Success? ==> r.value.original.Keys == set a | a in attributes
    ensures r.Success? ==> forall a :: a in attributes && a !in entry.fields ==> r.value.original[a] == Null
    ensures r.Success? ==> forall a :: a in attributes ==> CleanText(Get(entry.fields, a)) == Success(r.value.original[a])
    ensures r.Success? ==> r.value.messages == [Message("system", prompt), Message("user", dumps(attributes, r.value.original))]
  {
    if !entry.Obj? then Failure("AttributeError")
    else match CleanAll(entry.fields, attributes)
      case Failure(e) => Failure(e)
      case Success(cleaned) =>
        Success(Processed(cleaned, [Message("system", prompt), Message("user", dumps(attributes, cleaned))]))
  }

  /** The comprehension over the entries, in order; the first entry that raises ends it. */
  function ProcessEntries(entries: seq<Value>, prompt: string, attributes: seq<string>, dumps: (seq<string>, Doc) -> string): (r: Result<seq<Processed>>)
    ensures r.Success? ==> |r.value| == |entries|
    ensures r.Success? ==> forall k :: 0 <= k < |entries| ==> ProcessEntry(entries[k], prompt, attributes, dumps) == Success(r.value[k])
    ensures r.Failure? <==> exists k :: 0 <= k < |entries| && ProcessEntry(entries[k], prompt, attributes, dumps).Failure?
    decreases |entries|
  {
    if entries == [] then Success([])
    else
      var n := |entries| - 1;
      match ProcessEntries(entries[..n], prompt, attributes, dumps)
      case Failure(e) => Failure(e)
      case Success(done) =>
        match ProcessEntry(entries[n], prompt, attributes, dumps)
        case Failure(e) => Failure(e)
        case Success(p) => Success(done + [p])
  }

  /** Iterating the list of entries: anything but a list or a string cannot be iterated. */
  function ProcessList(v: Value, prompt: string, attributes: seq<string>, dumps: (seq<string>, Doc) -> string): (r: Result<seq<Processed>>)
    ensures Iterate(v).None? ==> r == Failure("TypeError")
    ensures Iterate(v).Some? ==> r == ProcessEntries(Iterate(v).value, prompt, attributes, dumps)
  {
    match Iterate(v)
    case None => Failure("TypeError")
    case Some(entries) => ProcessEntries(entries, prompt, attributes, dumps)
  }

  /** `process_experiences`. */
  function ProcessExperiences(v: Value, prompt: string, dumps: (seq<string>, Doc) -> string): Result<seq<Processed>> {
    ProcessList(v, prompt, ExperienceAttributes, dumps)
  }

  /** `process_education`. */
  function ProcessEducation(v: Value, prompt: string, dumps: (seq<string>, Doc) -> string): Result<seq<Processed>> {
    ProcessList(v, prompt, EducationAttributes, dumps)
  }

  /** Every entry of a processed list carries exactly the four attributes of its kind, and the two messages. */
  lemma ProcessedListShape(v: Value, prompt: string, attributes: seq<string>, dumps: (seq<string>, Doc) -> string, k: nat)
    requires ProcessList(v, prompt, attributes, dumps).Success?
    requires k < |ProcessList(v, prompt, attributes, dumps).value|
    ensures Iterate(v).Some? && k < |Iterate(v).value|
    ensures var p := ProcessList(v, prompt, attributes, dumps).value[k];
      && p.original.Keys == (set a | a in attributes)
      && |p.messages| == 2 && p.messages[0] == Message("system", prompt) && p.messages[1].role == "user"
  {
    var entries := Iterate(v).value;
    assert ProcessEntry(entries[k], prompt, attributes, dumps) == Success(ProcessList(v, prompt, attributes, dumps).value[k]);
  }

  // ---------------------------------------------------------------- preprocess_data

  /** A profile as the data frame holds it, with the two processed columns added. */
  datatype Tagged = Tagged(profile: Doc, experiences: seq<Processed>, education: seq<Processed>)

  /**
    The data frame's column: a document lacking the attribute holds NaN there, which cannot be
    iterated; a column no document has does not exist.
   */
  function Column(profile: Doc, key: string): Value {
    if key in profile then profile[key] else Null
  }

  /** `df[key].apply(f)` over the documents, in order, stopping at the first that raises. */
  function ApplyColumn(profiles: seq<Doc>, key: string, prompt: string, attributes: seq<string>, dumps: (seq<string>, Doc) -> string): (r: Result<seq<seq<Processed>>>)
    ensures r.Success? ==> |r.value| == |profiles|
    ensures r.Success? ==> forall k :: 0 <= k < |profiles| ==> ProcessList(Column(profiles[k], key), prompt, attributes, dumps) == Success(r.value[k])
    decreases |profiles|
  {
    if profiles == [] then Success([])
    else
      var n := |profiles| - 1;
      match ApplyColumn(profiles[..n], key, prompt, attributes, dumps)
      case Failure(e) => Failure(e)
      case Success(done) =>
        match ProcessList(Column(profiles[n], key), prompt, attributes, dumps)
        case Failure(e) => Failure(e)
        case Success(p) => Success(done + [p])
  }

  /** Whether some document has the attribute, so that the data frame has the column. */
  predicate HasColumn(profiles: seq<Doc>, key: string) {
    exists k :: 0 <= k < |profiles| && key in profiles[k]
  }

  /** `preprocess_data`: the experiences column is processed for every profile first, then the education column. */
  function Preprocess(profiles: seq<Doc>, experiencePrompt: string, educationPrompt: string, dumps: (seq<string>, Doc) -> string): (r: Result<seq<Tagged>>)
    ensures !HasColumn(profiles, "experiences") ==> r == Failure("KeyError")
    ensures r.Success? ==> |r.value| == |profiles|
  {
    if !HasColumn(profiles, "experiences") then Failure("KeyError")
    else match ApplyColumn(profiles, "experiences", experiencePrompt, ExperienceAttributes, dumps)
      case Failure(e) => Failure(e)
      case Success(exps) =>
        if !HasColumn(profiles, "education") then Failure("KeyError")
        else match ApplyColumn(profiles, "education", educationPrompt, EducationAttributes, dumps)
          case Failure(e) => Failure(e)
          case Success(edus) =>
            Success(seq(|profiles|, k requires 0 <= k < |profiles| => Tagged(profiles[k], exps[k], edus[k])))
  }

  /** Each profile keeps its document and gains its processed experiences and its processed education. */
  lemma PreprocessedProfile(profiles: seq<Doc>, experiencePrompt: string, educationPrompt: string,
                            dumps: (seq<string>, Doc) -> string, k: nat)
    requires Preprocess(profiles, experiencePrompt, educationPrompt, dumps).Success? && k < |profiles|
    ensures var t := Preprocess(profiles, experiencePrompt, educationPrompt, dumps).value[k];
      && t.profile == profiles[k]
      && ProcessExperiences(Column(profiles[k], "experiences"), experiencePrompt, dumps) == Success(t.experiences)
      && ProcessEducation(Column(profiles[k], "education"), educationPrompt, dumps) == Success(t.education)
  {
    var exps := ApplyColumn(profiles, "experiences", experiencePrompt, ExperienceAttributes, dumps).value;
    var edus := ApplyColumn(profiles, "education", educationPrompt, EducationAttributes, dumps).value;
    assert Preprocess(profiles, experiencePrompt, educationPrompt, dumps).value[k] == Tagged(profiles[k], exps[k], edus[k]);
  }

  // ---------------------------------------------------------------- the batch windows

  /** `batch_size` in `main`. */
  const BatchSize: nat := 100

  /** The arguments `process_batch` is called with: the profiles skipped and the limit. */
  datatype Window = Window(skip: nat, limit: nat)

  /** `range(0, total, batch_size)`, each start with the limit `batch_size`. */
  function Windows(total: nat): (r: seq<Window>)
    ensures |r| == (total + BatchSize - 1) / BatchSize
  {
    seq((total + BatchSize - 1) / BatchSize, k requires k >= 0 => Window(k * BatchSize, BatchSize))
  }

  /** The loop of `main`: the windows `process_batch` is called with, in order. */
  method BatchWindows(total: nat) returns (windows: seq<Window>)
    ensures windows == Windows(total)
  {
    windows := [];
    var skip := 0;
    while skip < total
      invariant skip % BatchSize == 0 && skip <= total + BatchSize - 1
      invariant windows == Windows(skip)
      decreases total - skip
    {
      windows := windows + [Window(skip, BatchSize)];
      skip := skip + BatchSize;
    }
    assert (skip + BatchSize - 1) / BatchSize == (total + BatchSize - 1) / BatchSize;
  }

  /** Every window starts below `total`, and every profile index below `total` lies in exactly one window. */
  lemma WindowsPartition(total: nat, i: nat)
    ensures forall k :: 0 <= k < |Windows(total)| ==> Windows(total)[k].skip < total && Windows(total)[k].limit == BatchSize
    ensures i < total ==> exists k :: 0 <= k < |Windows(total)| && Windows(total)[k].skip <= i < Windows(total)[k].skip + BatchSize
    ensures forall k :: 0 <= k < |Windows(total)| && Windows(total)[k].skip <= i < Windows(total)[k].skip + BatchSize ==> k == i / BatchSize
  {
    var ws := Windows(total);
    forall k | 0 <= k < |ws|
      ensures ws[k].skip < total
    {
      assert k < (total + 99) / 100;
      assert k * 100 < total;
    }
    if i < total {
      var k := i / BatchSize;
      assert k < (total + 99) / 100;
      assert ws[k].skip <= i < ws[k].skip + BatchSize;
    }
  }

  /** The profiles a window loads: `skip(skip).limit(limit)` over the matching profiles. */
  function Load(profiles: seq<Doc>, w: Window): (r: seq<Doc>)
    ensures |r| <= w.limit
  {
    var from := if w.skip <= |profiles| then w.skip else |profiles|;
    var to := if w.skip + w.limit <= |profiles| then w.skip + w.limit else |profiles|;
    profiles[from..to]
  }

  /** The batches the windows load, in order. */
  function LoadAll(profiles: seq<Doc>, windows: seq<Window>): (r: seq<seq<Doc>>)
    ensures |r| == |windows|
    decreases |windows|
  {
    if windows == [] then [] else LoadAll(profiles, windows[..|windows| - 1]) + [Load(profiles, windows[|windows| - 1])]
  }

  function Concat(batches: seq<seq<Doc>>): seq<Doc>
    decreases |batches|
  {
    if batches == [] then [] else Concat(batches[..|batches| - 1]) + batches[|batches| - 1]
  }

  /** When `total` counts the matching profiles, the windows load each of them once, in order. */
  lemma WindowsLoadEveryProfileOnce(profiles: seq<Doc>)
    ensures Concat(LoadAll(profiles, Windows(|profiles|))) == profiles
  {
    var ws := Windows(|profiles|);
    LoadedPrefix(profiles, |ws|);
    assert ws[..|ws|] == ws;
    if |ws| > 0 {
      assert (|ws| - 1) * 100 < |profiles| <= |ws| * 100;
    } else {
      assert |profiles| == 0;
    }
  }

  /** The first `n` windows load the profiles below `n * batch_size`. */
  lemma {:induction false} LoadedPrefix(profiles: seq<Doc>, n: nat)
    requires n <= |Windows(|profiles|)|
    ensures var upTo := if n * BatchSize <= |profiles| then n * BatchSize else |profiles|;
      Concat(LoadAll(profiles, Windows(|profiles|)[..n])) == profiles[..upTo]
    decreases n
  {
    var ws := Windows(|profiles|);
    if n > 0 {
      LoadedPrefix(profiles, n - 1);
      assert ws[..n][..n - 1] == ws[..n - 1];
      assert ws[..n][n - 1] == Window((n - 1) * 100, 100);
      assert (n - 1) * 100 < |profiles| by {
        assert n - 1 < (|profiles| + 99) / 100;
      }
      assert LoadAll(profiles, ws[..n])[..n - 1] == LoadAll(profiles, ws[..n - 1]);
    }
  }
}
