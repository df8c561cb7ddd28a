/** Values produced by `json.loads`, Python truthiness, and the ways the agents pull a JSON
    object out of free-form model output. */
module Json {
  import opened Wrappers
  import opened Text
  import opened PyDict

  /** A decoded JSON value; an object keeps its keys in document order. */
  datatype Json =
    | JNull
    | JBool(b: bool)
    | JNum(n: real)
    | JStr(s: string)
    | JArr(items: seq<Json>)
    | JObj(fields: Dict<Json>)

  /** Python's `bool(v)` for the decoded value. */
  predicate Truthy(v: Json) {
    match v
    case JNull => false
    case JBool(b) => b
    case JNum(n) => n != 0.0
    case JStr(s) => s != ""
    case JArr(items) => |items| > 0
    case JObj(fields) => |fields| > 0
  }

  /** `obj.get(key)` on a decoded object. */
  function Field(fields: Dict<Json>, key: string): Option<Json> {
    Get(fields, key)
  }

  /** Python's `float(v)`; a string is converted by `parse` (Python's float-literal syntax). */
  function ToFloat(v: Json, parse: string -> Option<real>): Option<real> {
    match v
    case JNum(n) => Some(n)
    case JBool(b) => Some(if b then 1.0 else 0.0)
    case JStr(s) => parse(s)
    case _ => None
  }

  /** The number a value adds to Python's `+` or `sum`: booleans count as 0 and 1, anything other
      than a number raises (None). */
  function NumberValue(v: Json): (r: Option<real>)
    ensures r.Some? <==> v.JNum? || v.JBool?
  {
    match v
    case JNum(n) => Some(n)
    case JBool(b) => Some(if b then 1.0 else 0.0)
    case _ => None
  }

  /** Python's `sum` over values that may raise: None as soon as one of them does. */
  function SumValues(vs: seq<Option<real>>): (r: Option<real>)
    ensures r.Some? <==> forall k :: 0 <= k < |vs| ==> vs[k].Some?
  {
    if vs == [] then Some(0.0)
    else
      var rest := SumValues(vs[1..]);
      assert forall k :: 1 <= k < |vs| ==> vs[k] == vs[1..][k - 1];
      if vs[0].None? || rest.None? then None else Some(vs[0].value + rest.value)
  }

  /** The sum adds up value by value: splitting the values splits the sum. */
  lemma {:induction false} SumValuesAppend(a: seq<Option<real>>, b: seq<Option<real>>)
    requires SumValues(a).Some? && SumValues(b).Some?
    ensures SumValues(a + b) == Some(SumValues(a).value + SumValues(b).value)
  {
    if a == [] {
      assert a + b == b;
    } else {
      assert (a + b)[0] == a[0] && (a + b)[1..] == a[1..] + b;
      SumValuesAppend(a[1..], b);
    }
  }

  /** `key in v`: key membership for an object, element equality for a list, substring test for a
      string; any other value raises `TypeError` (None). */
  function PyIn(key: string, v: Json): (r: Option<bool>)
    ensures r.None? <==> !(v.JObj? || v.JArr? || v.JStr?)
  {
    match v
    case JObj(fields) => Some(HasKey(fields, key))
    case JArr(items) => Some(JStr(key) in items)
    case JStr(s) => Some(Contains(s, key))
    case _ => None
  }

  /** `v[key]` with a string key: only an object holding the key can be indexed so. */
  function PyIndex(v: Json, key: string): (r: Option<Json>)
    ensures r.Some? ==> v.JObj? && HasKey(v.fields, key)
  {
    match v
    case JObj(fields) => Get(fields, key)
    case _ => None
  }

  /** `len(v)`, raising (None) for numbers, booleans and null. */
  function PyLen(v: Json): Option<nat> {
    match v
    case JStr(s) => Some(|s|)
    case JArr(items) => Some(|items|)
    case JObj(fields) => Some(|fields|)
    case _ => None
  }

  /** `for x in v`: list elements, one-character strings, or object keys. */
  function PyIter(v: Json): (r: Option<seq<Json>>)
    ensures r.Some? <==> PyLen(v).Some?
    ensures r.Some? ==> |r.value| == PyLen(v).value
  {
    match v
    case JArr(items) => Some(items)
    case JStr(s) => Some(seq(|s|, i requires 0 <= i < |s| => JStr([s[i]])))
    case JObj(fields) => Some(seq(|fields|, i requires 0 <= i < |fields| => JStr(fields[i].0)))
    case _ => None
  }

  /** Index of the first occurrence of `c`, or -1 (`s.find(c)`). */
  function FirstIndex(s: string, c: char): (r: int)
    ensures -1 <= r < |s|
    ensures r >= 0 ==> s[r] == c
    ensures forall j :: 0 <= j < |s| && (r == -1 || j < r) ==> s[j] != c
  {
    if |s| == 0 then -1
    else if s[0] == c then 0
    else
      var r := FirstIndex(s[1..], c);
      if r == -1 then -1 else r + 1
  }

  /** `t` sits at offset `i` of `s`, with no `{` before it and no `}` after it. */
  predicate BraceFramed(s: string, t: string, i: int) {
    && 0 <= i
    && i + |t| <= |s|
    && s[i..i + |t|] == t
    && (forall j :: 0 <= j < i ==> s[j] != '{')
    && (forall j :: i + |t| <= j < |s| ==> s[j] != '}')
  }

  /** `re.search(r"\{.*\}", s, re.DOTALL).group(0)`: from the first `{` to the last `}`. */
  function BraceSpan(s: string): (r: Option<string>)
    ensures r.Some? ==> BraceFramed(s, r.value, FirstIndex(s, '{'))
    ensures r.Some? ==> |r.value| >= 2 && r.value[0] == '{' && r.value[|r.value| - 1] == '}'
    ensures r.None? <==> !exists i, j :: 0 <= i < j < |s| && s[i] == '{' && s[j] == '}'
  {
    var first := FirstIndex(s, '{');
    var last := LastIndex(s, '}');
    if 0 <= first < last then Some(s[first..last + 1]) else None
  }

  /** The model-output parser shared by the grading and configuration agents: the whole reply,
      then the object inside a fenced code block (`fenced` returns that regex's captured group),
      then the brace span; each candidate goes through `decode` (`json.loads`). */
  function ParseModelJson(t: string, decode: string -> Option<Json>, fenced: string -> Option<string>): (r: Option<Json>)
    ensures decode(t).Some? ==> r == decode(t)
    ensures r.Some? ==>
      || r == decode(t)
      || (fenced(t).Some? && r == decode(fenced(t).value))
      || (BraceSpan(t).Some? && r == decode(BraceSpan(t).value))
    ensures r.None? <==>
      && decode(t).None?
      && (fenced(t).None? || decode(fenced(t).value).None?)
      && (BraceSpan(t).None? || decode(BraceSpan(t).value).None?)
  {
    if decode(t).Some? then decode(t)
    else if fenced(t).Some? && decode(fenced(t).value).Some? then decode(fenced(t).value)
    else if BraceSpan(t).Some? then decode(BraceSpan(t).value)
    else None
  }
}
