/**
 `extract_json` of `verl-recipe/collabllm/utils.py`: the meaning of its hand-written parser as functions of the text
 and the cursor. `Err` stands for any exception.
 */
module Json {
  import opened Wrappers

  datatype Value =
    | Obj(fields: seq<(Value, Value)>)
    | Arr(items: seq<Value>)
    | Str(s: string)
    | Int(i: int)
    | Float(r: real)
    | Bool(b: bool)
    | Null

  /** What a parse function returns: a value and the new cursor, or an exception. */
  datatype Parsed<T> = Ok(value: T, pos: nat) | Err

  /** Python's `float(...)` and what its `int(...)` does with characters other than signs and ASCII digits. */
  datatype Python = Python(float: string -> Option<Value>, otherInt: string -> Option<Value>)

  // ---------------------------------------------------------------- characters and numbers

  predicate IsSpace(c: char) {
    c in " \t\n\r"
  }

  predicate IsQuote(c: char) {
    c == '"' || c == '\''
  }

  predicate IsDigit(c: char) {
    '0' <= c <= '9'
  }

  predicate IsNumberChar(c: char) {
    c in "-+0123456789.eE"
  }

  function DigitValue(c: char): int
    requires IsDigit(c)
  {
    c as int - '0' as int
  }

  /** The value of a non-empty string of ASCII digits. */
  function Digits(s: string): Option<nat> {
    if s == [] then None
    else
      var n := |s| - 1;
      if !IsDigit(s[n]) then None
      else if n == 0 then Some(DigitValue(s[n]))
      else
        var front := Digits(s[..n]);
        if front == None then None else Some(10 * front.value + DigitValue(s[n]))
  }

  function Signed(negative: bool, n: int): int {
    if negative then -n else n
  }

  function IntLiteral(s: string): Option<Value> {
    if s != [] && (s[0] == '-' || s[0] == '+') then
      var d := Digits(s[1..]);
      if d == None then None else Some(Int(Signed(s[0] == '-', d.value)))
    else
      var d := Digits(s);
      if d == None then None else Some(Int(d.value))
  }

  predicate SignsAndDigits(s: string) {
    forall i :: 0 <= i < |s| ==> s[i] == '-' || s[i] == '+' || IsDigit(s[i])
  }

  /** `float(s)` if it has a point or an exponent, else `int(s)`; `None` for a `ValueError`. */
  function Number(py: Python, s: string): Option<Value> {
    if '.' in s || 'e' in s || 'E' in s then py.float(s)
    else if SignsAndDigits(s) then IntLiteral(s)
    else py.otherInt(s)
  }

  function LowerChar(c: char): char {
    if 'A' <= c <= 'Z' then (c as int + 32) as char else c
  }

  /** `s.lower()` as far as comparing with "true", "false" and "null" goes. */
  function Lower(s: string): string {
    seq(|s|, i requires 0 <= i < |s| => LowerChar(s[i]))
  }

  /** `convert_value` */
  function Convert(py: Python, s: string): Value {
    var lower := Lower(s);
    if lower == "true" then Bool(true)
    else if lower == "false" then Bool(false)
    else if lower == "null" then Null
    else
      var n := Number(py, s);
      if n == None then Str(s) else n.value
  }

  // ---------------------------------------------------------------- tokens

  function SkipWs(s: string, pos: nat): (r: nat)
    requires pos <= |s|
    ensures pos <= r <= |s|
    ensures r < |s| ==> !IsSpace(s[r])
    decreases |s| - pos
  {
    if pos < |s| && IsSpace(s[pos]) then SkipWs(s, pos + 1) else pos
  }

  function NumberEnd(s: string, pos: nat): (r: nat)
    requires pos <= |s|
    ensures pos <= r <= |s|
    decreases |s| - pos
  {
    if pos < |s| && IsNumberChar(s[pos]) then NumberEnd(s, pos + 1) else pos
  }

  function ParseNumber(py: Python, s: string, pos: nat): (r: Parsed<Value>)
    requires pos < |s| && IsNumberChar(s[pos])
    ensures r.Ok? ==> pos < r.pos <= |s|
  {
    var end := NumberEnd(s, pos);
    var n := Number(py, s[pos..end]);
    if n == None then Err else Ok(n.value, end)
  }

  function Unescape(c: char): char {
    if c == 'n' then '\n' else if c == 't' then '\t' else if c == 'r' then '\r' else c
  }

  /** The rest of a string literal from `pos` on, `result` having been read. */
  function ScanString(s: string, pos: nat, quote: char, result: string): (r: Parsed<string>)
    requires pos <= |s|
    ensures r.Ok? ==> pos < r.pos <= |s|
    decreases |s| - pos
  {
    if pos == |s| then Err
    else if s[pos] == '\\' then
      if pos + 1 == |s| then Err else ScanString(s, pos + 2, quote, result + [Unescape(s[pos + 1])])
    else if s[pos] == quote then Ok(result, pos + 1)
    else ScanString(s, pos + 1, quote, result + [s[pos]])
  }

  function ConvertResult(py: Python, r: Parsed<string>): (r': Parsed<Value>)
    ensures r'.Ok? <==> r.Ok?
    ensures r.Ok? ==> r'.pos == r.pos
  {
    if r.Err? then Err else Ok(Convert(py, r.value), r.pos)
  }

  function ParseString(py: Python, s: string, pos: nat): (r: Parsed<Value>)
    requires pos < |s| && IsQuote(s[pos])
    ensures r.Ok? ==> pos < r.pos <= |s|
  {
    ConvertResult(py, ScanString(s, pos + 1, s[pos], ""))
  }

  predicate StartsWith(s: string, pos: nat, t: string)
    requires pos <= |s|
  {
    pos + |t| <= |s| && s[pos..pos + |t|] == t
  }

  function ScanTriple(s: string, pos: nat, quotes: string, result: string): (r: Parsed<string>)
    requires pos <= |s|
    ensures r.Ok? ==> pos <= r.pos <= |s|
    decreases |s| - pos
  {
    if pos == |s| then Err
    else if StartsWith(s, pos, quotes) then Ok(result, pos + |quotes|)
    else ScanTriple(s, pos + 1, quotes, result + [s[pos]])
  }

  const TRIPLE_SINGLE := "'''"
  const TRIPLE_DOUBLE := "\"\"\""

  predicate StartsTriple(s: string, pos: nat)
    requires pos <= |s|
  {
    StartsWith(s, pos, TRIPLE_SINGLE) || StartsWith(s, pos, TRIPLE_DOUBLE)
  }

  function ParseTriple(py: Python, s: string, pos: nat): (r: Parsed<Value>)
    requires pos <= |s| && StartsTriple(s, pos)
    ensures r.Ok? ==> pos < r.pos <= |s|
  {
    ConvertResult(py, ScanTriple(s, pos + 3, s[pos..pos + 3], ""))
  }

  function ParseKey(py: Python, s: string, pos: nat): (r: Parsed<Value>)
    requires pos <= |s|
    ensures r.Ok? ==> pos < r.pos <= |s|
  {
    var pos := SkipWs(s, pos);
    if pos == |s| || !IsQuote(s[pos]) then Err else ParseString(py, s, pos)
  }

  /** Whether the next letters spell `word`, in any case. */
  predicate Spells(s: string, pos: nat, word: string)
    requires pos <= |s|
  {
    pos + |word| <= |s| && Lower(s[pos..pos + |word|]) == word
  }

  // ---------------------------------------------------------------- dictionaries

  /** Equal keys for a Python dictionary: `True == 1 == 1.0`. */
  function KeyClass(k: Value): Value {
    match k
    case Bool(b) => Int(if b then 1 else 0)
    case Float(r) => if r.Floor as real == r then Int(r.Floor) else k
    case _ => k
  }

  function FindKey(fields: seq<(Value, Value)>, k: Value): (i: nat)
    ensures i <= |fields|
    ensures i < |fields| ==> KeyClass(fields[i].0) == KeyClass(k)
    ensures forall j :: 0 <= j < i ==> KeyClass(fields[j].0) != KeyClass(k)
  {
    if fields == [] then 0
    else if KeyClass(fields[0].0) == KeyClass(k) then 0
    else 1 + FindKey(fields[1..], k)
  }

  /** `obj[k] = v`: a key equal to a known one keeps that one and its place. */
  function SetField(fields: seq<(Value, Value)>, k: Value, v: Value): seq<(Value, Value)> {
    var i := FindKey(fields, k);
    if i < |fields| then fields[i := (fields[i].0, v)] else fields + [(k, v)]
  }

  // ---------------------------------------------------------------- values

  function ParseValue(py: Python, s: string, pos: nat): (r: Parsed<Value>)
    requires pos <= |s|
    ensures r.Ok? ==> pos < r.pos <= |s|
    decreases |s| - pos, 2
  {
    var pos := SkipWs(s, pos);
    if pos == |s| then Err
    else if s[pos] == '{' then ObjectLoop(py, s, SkipWs(s, pos + 1), [])
    else if s[pos] == '[' then ArrayLoop(py, s, SkipWs(s, pos + 1), [])
    else if StartsTriple(s, pos) then ParseTriple(py, s, pos)
    else if IsQuote(s[pos]) then ParseString(py, s, pos)
    else if Spells(s, pos, "true") then Ok(Bool(true), pos + 4)
    else if Spells(s, pos, "false") then Ok(Bool(false), pos + 5)
    else if Spells(s, pos, "null") then Ok(Null, pos + 4)
    else if s[pos] in "-+0123456789." then ParseNumber(py, s, pos)
    else Err
  }

  /** The loop of `parse_object` at its head. */
  function ObjectLoop(py: Python, s: string, pos: nat, obj: seq<(Value, Value)>): (r: Parsed<Value>)
    requires pos <= |s|
    ensures r.Ok? ==> pos < r.pos <= |s|
    decreases |s| - pos, 1
  {
    if pos == |s| then Err
    else if s[pos] == '}' then Ok(Obj(obj), pos + 1)
    else
      var key := ParseKey(py, s, SkipWs(s, pos));
      if key.Err? then Err
      else
        var colon := SkipWs(s, key.pos);
        if colon == |s| || s[colon] != ':' then Err
        else
          var value := ParseValue(py, s, SkipWs(s, colon + 1));
          if value.Err? then Err
          else
            var obj := SetField(obj, key.value, value.value);
            var next := SkipWs(s, value.pos);
            if next < |s| && s[next] == ',' then ObjectLoop(py, s, SkipWs(s, next + 1), obj)
            else if next < |s| && s[next] == '}' then Ok(Obj(obj), next + 1)
            else Err
  }

  /** The loop of `parse_array` at its head. */
  function ArrayLoop(py: Python, s: string, pos: nat, lst: seq<Value>): (r: Parsed<Value>)
    requires pos <= |s|
    ensures r.Ok? ==> pos < r.pos <= |s|
    decreases |s| - pos, 3
  {
    if pos == |s| then Err
    else if s[pos] == ']' then Ok(Arr(lst), pos + 1)
    else
      var value := ParseValue(py, s, pos);
      if value.Err? then Err
      else
        var lst := lst + [value.value];
        var next := SkipWs(s, value.pos);
        if next < |s| && s[next] == ',' then ArrayLoop(py, s, SkipWs(s, next + 1), lst)
        else if next < |s| && s[next] == ']' then Ok(Arr(lst), next + 1)
        else Err
  }

  // ---------------------------------------------------------------- the whole text

  function IndexOf(text: string, c: char): (i: nat)
    ensures i <= |text|
    ensures i < |text| ==> text[i] == c
    ensures forall j :: 0 <= j < i ==> text[j] != c
  {
    if text == [] then 0 else if text[0] == c then 0 else 1 + IndexOf(text[1..], c)
  }

  /** One past the last occurrence of `c`, 0 if there is none. */
  function AfterLast(text: string, c: char): (i: nat)
    ensures i <= |text|
    ensures 0 < i ==> text[i - 1] == c
    ensures forall j :: i <= j < |text| ==> text[j] != c
  {
    if text == [] then 0 else if text[|text| - 1] == c then |text| else AfterLast(text[..|text| - 1], c)
  }

  /** The part from the first "{" to the last "}"; stripping it changes nothing, it is empty or begins and ends so. */
  function Outermost(text: string): string {
    var start, end := IndexOf(text, '{'), AfterLast(text, '}');
    if start < end then text[start..end] else ""
  }

  function ExtractJson(py: Python, text: string): Option<Value> {
    if IndexOf(text, '{') == |text| then None
    else
      var s := Outermost(text);
      var r := ParseValue(py, s, 0);
      if r.Err? || SkipWs(s, r.pos) != |s| then None else Some(r.value)
  }
}
