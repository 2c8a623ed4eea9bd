/**
  The job-postings sampler: it reads a JSON-lines dump, keeps every line whose 0-based index is a
  multiple of the stride, renames each kept object's `_id` to `original_id`, and inserts the
  kept objects into the document store in batches of 1000, with the remainder inserted once at
  the end. A line that does not decode is skipped.

  JSON decoding is a parameter of the model: `loads` maps a text to the object it encodes, or to
  None where `json.loads` raises JSONDecodeError. The specification functions take the whole
  per-line decoder `decode`, which for the script is `Decoder(loads)`: strip the line, then load it.
 */
module JobPostings {
  import opened Wrappers
  import opened Documents

  /** The number of lines of the dump and the number of samples wanted. */
  const TotalLines: nat := 3470024
  const DesiredSamples: nat := 35000

  /** `total_lines // desired_samples`. */
  const Interval: nat := TotalLines / DesiredSamples

  /** The buffer is inserted once it holds this many objects. */
  const BatchSize: nat := 1000

  /** The stride the sampler uses. */
  lemma IntervalIs99()
    ensures Interval == 99
  {
  }

  /** `json_data['original_id'] = json_data.pop('_id')` when `_id` is present. */
  function Rename(doc: Doc): (r: Doc)
    ensures "_id" !in r
    ensures "_id" in doc ==> "original_id" in r && r["original_id"] == doc["_id"]
    ensures "_id" in doc ==> r.Keys == doc.Keys - {"_id"} + {"original_id"}
    ensures "_id" !in doc ==> r == doc
    ensures forall k :: k in doc && k != "_id" && k != "original_id" ==> k in r && r[k] == doc[k]
  {
    if "_id" in doc then (doc - {"_id"})["original_id" := doc["_id"]] else doc
  }

  /** Whether the line at `index` is one the stride selects. */
  predicate Selected(index: nat) {
    index % Interval == 0
  }

  /** `json.loads(line.strip())`. */
  function Decoder(loads: string -> Option<Doc>): string -> Option<Doc> {
    line => loads(Strip(line))
  }

  /** The object a line contributes: selected lines that decode, renamed. */
  function Sample(index: nat, line: string, decode: string -> Option<Doc>): Option<Doc> {
    if Selected(index) && decode(line).Some? then Some(Rename(decode(line).value)) else None
  }

  /** The loop's state: the buffer and the batches inserted so far. */
  datatype Sampler = Sampler(buffer: seq<Doc>, batches: seq<seq<Doc>>)

  /** One line: a sampled object goes to the buffer, which is inserted and emptied when full. */
  function Step(s: Sampler, index: nat, line: string, decode: string -> Option<Doc>): (r: Sampler)
    ensures Sample(index, line, decode).None? ==> r == s
  {
    match Sample(index, line, decode)
    case None => s
    case Some(doc) =>
      var buffer := s.buffer + [doc];
      if |buffer| >= BatchSize then Sampler([], s.batches + [buffer]) else Sampler(buffer, s.batches)
  }

  /** The loop over the first lines. */
  function LoopSpec(lines: seq<string>, decode: string -> Option<Doc>): Sampler
    decreases |lines|
  {
    if lines == [] then Sampler([], [])
    else Step(LoopSpec(lines[..|lines| - 1], decode), |lines| - 1, lines[|lines| - 1], decode)
  }

  /** All the batches the script inserts: the loop's, then the non-empty remainder. */
  function BatchesSpec(lines: seq<string>, decode: string -> Option<Doc>): seq<seq<Doc>> {
    var s := LoopSpec(lines, decode);
    if s.buffer != [] then s.batches + [s.buffer] else s.batches
  }

  /** The sampled objects in line order, independently of batching. */
  function Samples(lines: seq<string>, decode: string -> Option<Doc>): seq<Doc>
    decreases |lines|
  {
    if lines == [] then []
    else
      var i := |lines| - 1;
      Samples(lines[..i], decode) + (match Sample(i, lines[i], decode) case Some(d) => [d] case None => [])
  }

  function Flatten(batches: seq<seq<Doc>>): seq<Doc>
    decreases |batches|
  {
    if batches == [] then [] else Flatten(batches[..|batches| - 1]) + batches[|batches| - 1]
  }

  /** The loop over one more line is one more step. */
  lemma LoopSpecNext(lines: seq<string>, i: nat, decode: string -> Option<Doc>)
    requires i < |lines|
    ensures LoopSpec(lines[..i + 1], decode) == Step(LoopSpec(lines[..i], decode), i, lines[i], decode)
  {
    assert lines[..i + 1][..i] == lines[..i];
  }

  /** Flattening one more batch appends its objects. */
  lemma FlattenSnoc(batches: seq<seq<Doc>>, batch: seq<Doc>)
    ensures Flatten(batches + [batch]) == Flatten(batches) + batch
  {
    assert (batches + [batch])[..|batches|] == batches;
  }

  // ---------------------------------------------------------------- the script as a method

  /** The `KGL_JPS` collection: the batches `insert_many` was called with, in order. */
  class Collection {
    var batches: seq<seq<Doc>>

    constructor ()
      ensures batches == []
    {
      batches := [];
    }

    method InsertMany(batch: seq<Doc>)
      modifies this
      ensures batches == old(batches) + [batch]
    {
      batches := batches + [batch];
    }
  }

  /** The sampling loop and the final insert; returns the progress counter. */
  method Load(collection: Collection, lines: seq<string>, loads: string -> Option<Doc>) returns (counter: nat)
    modifies collection
    ensures collection.batches == old(collection.batches) + BatchesSpec(lines, Decoder(loads))
    ensures counter == |lines|
  {
    counter := 0;
    var buffer: seq<Doc> := [];
    ghost var start := collection.batches;
    ghost var decode := Decoder(loads);
    var i := 0;
    while i < |lines|
      invariant 0 <= i <= |lines| && counter == i
      invariant collection.batches == start + LoopSpec(lines[..i], decode).batches
      invariant buffer == LoopSpec(lines[..i], decode).buffer
    {
      LoopSpecNext(lines, i, decode);
      ghost var sample := Sample(i, lines[i], decode);
      counter := counter + 1;
      if i % Interval == 0 {
        var decoded := loads(Strip(lines[i]));
        if decoded.Some? {
          var json := decoded.value;
          if "_id" in json {
            var id := json["_id"];
            json := json - {"_id"};
            json := json["original_id" := id];
          }
          assert sample == Some(json);
          buffer := buffer + [json];
          if |buffer| >= BatchSize {
            collection.InsertMany(buffer);
            buffer := [];
          }
        } else {
          assert sample == None;
        }
      } else {
        assert sample == None;
      }
      i := i + 1;
    }
    assert lines[..i] == lines;
    if buffer != [] {
      collection.InsertMany(buffer);
    }
  }

  // ---------------------------------------------------------------- properties

  /** Batching loses and duplicates nothing: the inserted batches, then the buffer, are the samples in order. */
  lemma {:induction false} BatchingKeepsSamples(lines: seq<string>, decode: string -> Option<Doc>)
    ensures var s := LoopSpec(lines, decode); Flatten(s.batches) + s.buffer == Samples(lines, decode)
    decreases |lines|
  {
    if lines != [] {
      var init := lines[..|lines| - 1];
      BatchingKeepsSamples(init, decode);
      var s := LoopSpec(init, decode);
      var i := |lines| - 1;
      assert LoopSpec(lines, decode) == Step(s, i, lines[i], decode);
      match Sample(i, lines[i], decode)
      case None =>
        assert Samples(lines, decode) == Samples(init, decode) + [];
      case Some(d) =>
        assert Samples(lines, decode) == Samples(init, decode) + [d];
        var buffer := s.buffer + [d];
        if |buffer| >= BatchSize {
          FlattenSnoc(s.batches, buffer);
        }
    }
  }

  /** Every batch the loop inserts holds exactly 1000 objects, and the buffer never reaches 1000. */
  lemma {:induction false} LoopBatchesAreFull(lines: seq<string>, decode: string -> Option<Doc>)
    ensures var s := LoopSpec(lines, decode);
      |s.buffer| < BatchSize && forall k :: 0 <= k < |s.batches| ==> |s.batches[k]| == BatchSize
    decreases |lines|
  {
    if lines != [] {
      LoopBatchesAreFull(lines[..|lines| - 1], decode);
    }
  }

  /**
    What the script inserts is every sample exactly once, in line order, in batches of 1000 but
    for the last, which holds between 1 and 1000.
   */
  lemma AllSamplesInsertedOnce(lines: seq<string>, decode: string -> Option<Doc>)
    ensures var b := BatchesSpec(lines, decode);
      && Flatten(b) == Samples(lines, decode)
      && (forall k :: 0 <= k < |b| - 1 ==> |b[k]| == BatchSize)
      && (|b| > 0 ==> 0 < |b[|b| - 1]| <= BatchSize)
  {
    BatchingKeepsSamples(lines, decode);
    LoopBatchesAreFull(lines, decode);
    var s := LoopSpec(lines, decode);
    if s.buffer != [] {
      FlattenSnoc(s.batches, s.buffer);
    } else {
      assert Flatten(s.batches) + [] == Flatten(s.batches);
    }
  }

  /** The samples of one more line are those of the earlier lines, then what that line contributes. */
  lemma SamplesSnoc(lines: seq<string>, decode: string -> Option<Doc>)
    requires lines != []
    ensures var last := |lines| - 1;
      Samples(lines, decode) == Samples(lines[..last], decode) +
        (match Sample(last, lines[last], decode) case Some(d) => [d] case None => [])
  {
    var last := |lines| - 1;
    assert lines[last] == lines[|lines| - 1];
  }

  /** Every object a line contributes is among the samples. */
  lemma {:induction false} ContributionSampled(lines: seq<string>, decode: string -> Option<Doc>, i: nat)
    requires i < |lines| && Sample(i, lines[i], decode).Some?
    ensures Sample(i, lines[i], decode).value in Samples(lines, decode)
    decreases |lines|
  {
    var last := |lines| - 1;
    SamplesSnoc(lines, decode);
    if i < last {
      var init := lines[..last];
      assert init[i] == lines[i];
      ContributionSampled(init, decode, i);
    }
  }

  /** Every sample is the object of some line. */
  lemma {:induction false} SampleFromLine(lines: seq<string>, decode: string -> Option<Doc>, doc: Doc)
    requires doc in Samples(lines, decode)
    ensures exists i :: 0 <= i < |lines| && Sample(i, lines[i], decode) == Some(doc)
    decreases |lines|
  {
    var last := |lines| - 1;
    var init := lines[..last];
    SamplesSnoc(lines, decode);
    if doc in Samples(init, decode) {
      SampleFromLine(init, decode, doc);
      var i :| 0 <= i < |init| && Sample(i, init[i], decode) == Some(doc);
      assert init[i] == lines[i];
    } else {
      assert Sample(last, lines[last], decode) == Some(doc);
    }
  }

  /**
    The samples are exactly the objects some line contributes: a line whose index the stride
    selects and that decodes, renamed.
   */
  lemma SamplesAreSelectedLines(lines: seq<string>, decode: string -> Option<Doc>, doc: Doc)
    ensures doc in Samples(lines, decode) <==> exists i :: 0 <= i < |lines| && Sample(i, lines[i], decode) == Some(doc)
  {
    if doc in Samples(lines, decode) {
      SampleFromLine(lines, decode, doc);
    }
    if i :| 0 <= i < |lines| && Sample(i, lines[i], decode) == Some(doc) {
      ContributionSampled(lines, decode, i);
    }
  }

  /** How many indices below `n` the stride selects. */
  function SelectedCount(n: nat): nat
    decreases n
  {
    if n == 0 then 0 else SelectedCount(n - 1) + (if Selected(n - 1) then 1 else 0)
  }

  /** The stride selects the indices 0, 99, 198, …: one in every 99, rounding up. */
  lemma {:induction false} SelectedCountFormula(n: nat)
    ensures SelectedCount(n) == (n + Interval - 1) / Interval
    decreases n
  {
    if n > 0 {
      SelectedCountFormula(n - 1);
      IntervalIs99();
      CeilingStep(n - 1);
    }
  }

  /** Rounding up `m / 99` grows by one exactly past the multiples of 99. */
  lemma CeilingStep(m: nat)
    ensures (m + 99) / 99 == (m + 98) / 99 + (if m % 99 == 0 then 1 else 0)
  {
    var a := m / 99;
    var b := m % 99;
    assert m == 99 * a + b;
    assert (m + 99) / 99 == a + 1;
    assert (m + 98) / 99 == a + (if b == 0 then 0 else 1);
  }

  /** Over the whole dump the stride selects 35051 lines, 51 more than the samples wanted. */
  lemma WholeDumpSelection()
    ensures SelectedCount(TotalLines) == 35051
  {
    SelectedCountFormula(TotalLines);
    IntervalIs99();
    assert TotalLines + Interval - 1 == 99 * 35051 + 73;
  }

  /** No more objects are sampled than there are selected lines. */
  lemma {:induction false} SamplesBoundedBySelection(lines: seq<string>, decode: string -> Option<Doc>)
    ensures |Samples(lines, decode)| <= SelectedCount(|lines|)
    decreases |lines|
  {
    if lines != [] {
      SamplesBoundedBySelection(lines[..|lines| - 1], decode);
    }
  }
}
