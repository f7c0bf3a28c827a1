/** The parser's own loops, each proved to compute what the functions of `Json` say. */
module JsonParser {
  import opened Json
  import opened Wrappers

  method SkipWhitespace(s: string, start: nat) returns (pos: nat)
    requires start <= |s|
    ensures pos == SkipWs(s, start)
  {
    pos := start;
    while pos < |s| && IsSpace(s[pos])
      invariant pos <= |s| && SkipWs(s, pos) == SkipWs(s, start)
    {
      pos := pos + 1;
    }
  }

  method ReadNumber(py: Python, s: string, start: nat) returns (r: Parsed<Value>)
    requires start < |s| && IsNumberChar(s[start])
    ensures r == ParseNumber(py, s, start)
  {
    var pos := start;
    while pos < |s| && IsNumberChar(s[pos])
      invariant pos <= |s| && NumberEnd(s, pos) == NumberEnd(s, start)
    {
      pos := pos + 1;
    }
    var n := Number(py, s[start..pos]);
    return if n == None then Err else Ok(n.value, pos);
  }

  method ReadString(py: Python, s: string, start: nat) returns (r: Parsed<Value>)
    requires start < |s| && IsQuote(s[start])
    ensures r == ParseString(py, s, start)
  {
    var quote, pos, result := s[start], start + 1, "";
    while pos < |s|
      invariant pos <= |s|
      invariant ScanString(s, pos, quote, result) == ScanString(s, start + 1, quote, "")
    {
      var c := s[pos];
      if c == '\\' {
        pos := pos + 1;
        if pos >= |s| {
          return Err;
        }
        result := result + [Unescape(s[pos])];
      } else if c == quote {
        return Ok(Convert(py, result), pos + 1);
      } else {
        result := result + [c];
      }
      pos := pos + 1;
    }
    return Err;
  }

  method ReadTriple(py: Python, s: string, start: nat) returns (r: Parsed<Value>)
    requires start <= |s| && StartsTriple(s, start)
    ensures r == ParseTriple(py, s, start)
  {
    var quotes := if StartsWith(s, start, TRIPLE_SINGLE) then TRIPLE_SINGLE else TRIPLE_DOUBLE;
    assert quotes == s[start..start + 3];
    var pos, result := start + 3, "";
    while pos < |s|
      invariant pos <= |s|
      invariant ScanTriple(s, pos, quotes, result) == ScanTriple(s, start + 3, quotes, "")
    {
      if StartsWith(s, pos, quotes) {
        return Ok(Convert(py, result), pos + 3);
      }
      result := result + [s[pos]];
      pos := pos + 1;
    }
    return Err;
  }

  method ReadKey(py: Python, s: string, start: nat) returns (r: Parsed<Value>)
    requires start <= |s|
    ensures r == ParseKey(py, s, start)
  {
    var pos := SkipWhitespace(s, start);
    if pos >= |s| || !IsQuote(s[pos]) {
      return Err;
    }
    r := ReadString(py, s, pos);
  }

  /** One member: key, colon, value. */
  method ReadMember(py: Python, s: string, start: nat) returns (key: Parsed<Value>, value: Parsed<Value>)
    requires start < |s|
    ensures key == ParseKey(py, s, SkipWs(s, start)) || value.Err?
    ensures value == MemberValue(py, s, ParseKey(py, s, SkipWs(s, start)))
    decreases |s| - start, 0
  {
    value := Err;
    var pos := SkipWhitespace(s, start);
    key := ReadKey(py, s, pos);
    if key.Err? {
      return;
    }
    pos := SkipWhitespace(s, key.pos);
    if pos >= |s| || s[pos] != ':' {
      return;
    }
    pos := SkipWhitespace(s, pos + 1);
    value := ReadValue(py, s, pos);
  }

  /** What follows a key. */
  function MemberValue(py: Python, s: string, key: Parsed<Value>): (r: Parsed<Value>)
    requires key.Ok? ==> key.pos <= |s|
    ensures r.Ok? ==> key.Ok? && key.pos < r.pos <= |s|
  {
    if key.Err? then Err
    else
      var colon := SkipWs(s, key.pos);
      if colon == |s| || s[colon] != ':' then Err else ParseValue(py, s, SkipWs(s, colon + 1))
  }

  /** The object loop's turn in terms of the member it reads. */
  lemma ObjectTurn(py: Python, s: string, pos: nat, obj: seq<(Value, Value)>)
    requires pos < |s| && s[pos] != '}'
    ensures var key := ParseKey(py, s, SkipWs(s, pos));
            var value := MemberValue(py, s, key);
            ObjectLoop(py, s, pos, obj)
            == if value.Err? then Err
               else
                 var next := SkipWs(s, value.pos);
                 var obj' := SetField(obj, key.value, value.value);
                 if next < |s| && s[next] == ',' then ObjectLoop(py, s, SkipWs(s, next + 1), obj')
                 else if next < |s| && s[next] == '}' then Ok(Obj(obj'), next + 1)
                 else Err
  {
    hide ParseKey, ParseValue, SkipWs, SetField;
  }

  method ReadObject(py: Python, s: string, start: nat) returns (r: Parsed<Value>)
    requires start < |s| && s[start] == '{'
    ensures r == ObjectLoop(py, s, SkipWs(s, start + 1), [])
    decreases |s| - start, 1
  {
    hide ParseKey, ParseValue, SkipWs, SetField, MemberValue;
    var obj: seq<(Value, Value)> := [];
    var pos := SkipWhitespace(s, start + 1);
    ghost var goal := ObjectLoop(py, s, pos, obj);
    while pos < |s| && s[pos] != '}'
      invariant start < pos <= |s| && ObjectLoop(py, s, pos, obj) == goal
      decreases |s| - pos
    {
      ObjectTurn(py, s, pos, obj);
      var key, value := ReadMember(py, s, pos);
      if value.Err? {
        return Err;
      }
      obj := SetField(obj, key.value, value.value);
      pos := SkipWhitespace(s, value.pos);
      if pos < |s| && s[pos] == ',' {
        pos := SkipWhitespace(s, pos + 1);
      } else if pos < |s| && s[pos] == '}' {
        break;
      } else if pos < |s| {
        return Err;
      }
    }
    if pos >= |s| || s[pos] != '}' {
      return Err;
    }
    return Ok(Obj(obj), pos + 1);
  }

  method ReadArray(py: Python, s: string, start: nat) returns (r: Parsed<Value>)
    requires start < |s| && s[start] == '['
    ensures r == ArrayLoop(py, s, SkipWs(s, start + 1), [])
    decreases |s| - start, 1
  {
    hide ParseValue, SkipWs;
    var lst: seq<Value> := [];
    var pos := SkipWhitespace(s, start + 1);
    ghost var goal := ArrayLoop(py, s, pos, lst);
    while pos < |s| && s[pos] != ']'
      invariant start < pos <= |s| && ArrayLoop(py, s, pos, lst) == goal
      decreases |s| - pos
    {
      var value := ReadValue(py, s, pos);
      if value.Err? {
        return Err;
      }
      lst := lst + [value.value];
      pos := SkipWhitespace(s, value.pos);
      if pos < |s| && s[pos] == ',' {
        pos := SkipWhitespace(s, pos + 1);
      } else if pos < |s| && s[pos] == ']' {
        break;
      } else if pos < |s| {
        return Err;
      }
    }
    if pos >= |s| || s[pos] != ']' {
      return Err;
    }
    return Ok(Arr(lst), pos + 1);
  }

  method ReadValue(py: Python, s: string, start: nat) returns (r: Parsed<Value>)
    requires start <= |s|
    ensures r == ParseValue(py, s, start)
    decreases |s| - start, 2
  {
    hide ObjectLoop, ArrayLoop, ParseTriple, ParseString, ParseNumber, Spells, StartsTriple;
    var pos := SkipWhitespace(s, start);
    if pos >= |s| {
      return Err;
    }
    if s[pos] == '{' {
      r := ReadObject(py, s, pos);
    } else if s[pos] == '[' {
      r := ReadArray(py, s, pos);
    } else if StartsTriple(s, pos) {
      r := ReadTriple(py, s, pos);
    } else if IsQuote(s[pos]) {
      r := ReadString(py, s, pos);
    } else if Spells(s, pos, "true") {
      return Ok(Bool(true), pos + 4);
    } else if Spells(s, pos, "false") {
      return Ok(Bool(false), pos + 5);
    } else if Spells(s, pos, "null") {
      return Ok(Null, pos + 4);
    } else if s[pos] in "-+0123456789." {
      r := ReadNumber(py, s, pos);
    } else {
      return Err;
    }
  }

  method Extract(py: Python, text: string) returns (r: Option<Value>)
    ensures r == ExtractJson(py, text)
  {
    if IndexOf(text, '{') == |text| {
      return None;
    }
    var s := Outermost(text);
    var parsed := ReadValue(py, s, 0);
    if parsed.Err? {
      return None;
    }
    var pos := SkipWhitespace(s, parsed.pos);
    return if pos != |s| then None else Some(parsed.value);
  }
}
