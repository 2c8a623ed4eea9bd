/**
  The values held by the document store (MongoDB documents as pymongo hands them to Python),
  with the few pieces of Python semantics the importers rely on: truthiness, `dict.get`,
  iteration and f-string rendering.
 */
module Documents {
  import opened Wrappers

  /** A document value. Floating-point numbers are not modelled (see README). */
  datatype Value =
    | Null
    | Bool(b: bool)
    | Int(i: int)
    | Str(s: string)
    /** A `datetime.date` built from the three components of a year/month/day mapping. */
    | Date(year: Value, month: Value, day: Value)
    | List(items: seq<Value>)
    | Obj(fields: map<string, Value>)

  /** A top-level document: a mapping from field names to values. */
  type Doc = map<string, Value>

  /** Python truthiness: None, False, 0, "" and empty containers are false. */
  predicate Truthy(v: Value) {
    match v
    case Null => false
    case Bool(b) => b
    case Int(i) => i != 0
    case Str(s) => |s| > 0
    case Date(_, _, _) => true
    case List(xs) => |xs| > 0
    case Obj(m) => |m| > 0
  }

  /** `document.get(key)`: None when the key is absent. */
  function Get(d: Doc, key: string): Value {
    if key in d then d[key] else Null
  }

  /** `item.get(key)` on a mapping; callers raise AttributeError first where the element is not one. */
  function Field(v: Value, key: string): Value {
    if v.Obj? then Get(v.fields, key) else Null
  }

  /** `1 if x else 0`: the flag columns. */
  function Flag(v: Value): (r: Value)
    ensures r == Int(1) <==> Truthy(v)
    ensures r == Int(0) <==> !Truthy(v)
  {
    if Truthy(v) then Int(1) else Int(0)
  }

  /** The one-character strings of `s`, which is what iterating over a Python string yields. */
  function Chars(s: string): (r: seq<Value>)
    ensures |r| == |s|
    ensures forall k :: 0 <= k < |s| ==> r[k] == Str([s[k]])
  {
    seq(|s|, k requires 0 <= k < |s| => Str([s[k]]))
  }

  /** `for x in v`: a list yields its items, a string its characters; anything else raises TypeError. */
  function Iterate(v: Value): (r: Option<seq<Value>>)
    ensures r.Some? ==> (|r.value| > 0 <==> Truthy(v))
  {
    match v
    case List(xs) => Some(xs)
    case Str(s) => Some(Chars(s))
    case _ => None
  }

  /** `if document.get(key): for x in ...`: a falsy attribute yields nothing; a value that cannot be iterated raises. */
  function Guarded(v: Value): (r: Result<seq<Value>>)
    ensures !Truthy(v) ==> r == Success([])
    ensures Truthy(v) && Iterate(v).Some? ==> r == Success(Iterate(v).value)
    ensures r.Failure? <==> Truthy(v) && Iterate(v).None?
  {
    if !Truthy(v) then Success([])
    else match Iterate(v)
      case Some(xs) => Success(xs)
      case None => Failure("TypeError")
  }

  /** Whether every element is a mapping, so that `.get` can be called on each. */
  predicate AllMappings(xs: seq<Value>) {
    forall k :: 0 <= k < |xs| ==> xs[k].Obj?
  }

  /** Decimal digits of a natural number, most significant first. */
  function NatToString(n: nat): (r: string)
    ensures |r| > 0
    ensures forall k :: 0 <= k < |r| ==> '0' <= r[k] <= '9'
    decreases n
  {
    var d := [(48 + n % 10) as char];
    if n < 10 then d else NatToString(n / 10) + d
  }

  /** `str(v)` as an f-string renders it; lists, mappings and dates are rendered as "" (see README). */
  function Format(v: Value): string {
    match v
    case Null => "None"
    case Bool(b) => if b then "True" else "False"
    case Int(i) => if i < 0 then "-" + NatToString(-i) else NatToString(i)
    case Str(s) => s
    case _ => ""
  }

  /** `v[k]` for an integer index `k`: lists and strings are indexed, a mapping has no integer keys. */
  function Index(v: Value, k: nat): (r: Result<Value>)
    ensures r.Success? <==> (v.List? && k < |v.items|) || (v.Str? && k < |v.s|)
    ensures v.List? && k < |v.items| ==> r == Success(v.items[k])
  {
    match v
    case List(xs) => if k < |xs| then Success(xs[k]) else Failure("IndexError")
    case Str(s) => if k < |s| then Success(Str([s[k]])) else Failure("IndexError")
    case Obj(_) => Failure("KeyError")
    case _ => Failure("TypeError")
  }

  /**
    `convert_date`: a date only when the value is a non-empty mapping holding `year`, `month`
    and `day`; otherwise None. Calendar validity is not modelled.
   */
  function ConvertDate(v: Value): (r: Value)
    ensures r != Null <==> v.Obj? && "year" in v.fields && "month" in v.fields && "day" in v.fields
    ensures r != Null ==> r == Date(v.fields["year"], v.fields["month"], v.fields["day"])
  {
    if Truthy(v) && v.Obj? && "year" in v.fields && "month" in v.fields && "day" in v.fields then
      Date(v.fields["year"], v.fields["month"], v.fields["day"])
    else
      Null
  }

  /**
    The characters Python's `str.isspace` and the Unicode `\s` of `re` treat as whitespace:
    tab to carriage return, the four separators U+001C to U+001F and the space, NEL, no-break
    space, the Ogham space mark, the Unicode spaces U+2000 to U+200A, the line and paragraph
    separators, the narrow no-break space, the medium mathematical space and the ideographic space.
   */
  predicate IsSpace(c: char) {
    || ('\t' <= c <= '\r')
    || ('\U{001C}' <= c <= ' ')
    || c == '\U{0085}' || c == '\U{00A0}' || c == '\U{1680}'
    || ('\U{2000}' <= c <= '\U{200A}')
    || c == '\U{2028}' || c == '\U{2029}' || c == '\U{202F}' || c == '\U{205F}' || c == '\U{3000}'
  }

  /** `s.lstrip()`. */
  function StripStart(s: string): (r: string)
    ensures |r| <= |s| && r == s[|s| - |r|..]
    ensures r == [] || !IsSpace(r[0])
    ensures forall k :: 0 <= k < |s| - |r| ==> IsSpace(s[k])
  {
    if s != [] && IsSpace(s[0]) then StripStart(s[1..]) else s
  }

  /** `s.rstrip()`. */
  function StripEnd(s: string): (r: string)
    ensures |r| <= |s| && r == s[..|r|]
    ensures r == [] || !IsSpace(r[|r| - 1])
    ensures forall k :: |r| <= k < |s| ==> IsSpace(s[k])
  {
    if s != [] && IsSpace(s[|s| - 1]) then StripEnd(s[..|s| - 1]) else s
  }

  /** `s.strip()`: the longest slice of `s` that neither starts nor ends with whitespace, with only whitespace around it. */
  function Strip(s: string): (r: string)
    ensures r == [] || (!IsSpace(r[0]) && !IsSpace(r[|r| - 1]))
    ensures var i := |s| - |StripStart(s)|;
      && i + |r| <= |s| && r == s[i..i + |r|]
      && (forall k :: 0 <= k < i ==> IsSpace(s[k]))
      && (forall k :: i + |r| <= k < |s| ==> IsSpace(s[k]))
  {
    var t := StripStart(s);
    var r := StripEnd(t);
    SliceOfSlice(s, t, r);
    PrefixKeepsStart(t, r);
    r
  }

  /** A string that neither starts nor ends with whitespace is its own strip. */
  lemma StripOfUnpadded(s: string)
    requires s != [] && !IsSpace(s[0]) && !IsSpace(s[|s| - 1])
    ensures Strip(s) == s
  {
    assert StripStart(s) == s;
    assert StripEnd(s) == s;
  }

  /** A prefix of a suffix of `s` is a slice of `s`, and whitespace after the prefix is whitespace of `s`. */
  lemma SliceOfSlice(s: string, t: string, r: string)
    requires |t| <= |s| && t == s[|s| - |t|..]
    requires |r| <= |t| && r == t[..|r|]
    requires forall k :: |r| <= k < |t| ==> IsSpace(t[k])
    ensures var i := |s| - |t|;
      && i + |r| <= |s| && r == s[i..i + |r|]
      && (forall k :: i + |r| <= k < |s| ==> IsSpace(s[k]))
  {
    var i := |s| - |t|;
    forall k | i + |r| <= k < |s| ensures IsSpace(s[k]) {
      assert s[k] == t[k - i];
    }
  }

  lemma PrefixKeepsStart(t: string, r: string)
    requires |r| <= |t| && r == t[..|r|]
    requires t == [] || !IsSpace(t[0])
    ensures r == [] || !IsSpace(r[0])
  {
    assert r != [] ==> r[0] == t[0];
  }
}
