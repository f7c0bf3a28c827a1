/**
 The other direction: whatever the parser accepts is a document written as `JsonRoundTrip` says, so the parser reads exactly
 these texts; and what strings are converted to, and what repeated keys leave.
 */
module JsonGrammar {
  import opened Json
  import opened JsonRoundTrip
  import opened Wrappers

  // ---------------------------------------------------------------- pieces of the text

  lemma Joined(s: string, a: nat, b: nat, c: nat)
    requires a <= b <= c <= |s|
    ensures s[a..b] + s[b..c] == s[a..c]
  {
  }

  lemma OneChar(s: string, a: nat)
    requires a < |s|
    ensures s[a..a + 1] == [s[a]]
  {
  }

  lemma {:induction false} SkippedIsBlank(s: string, pos: nat)
    requires pos <= |s|
    ensures Blank(s[pos..SkipWs(s, pos)])
    decreases |s| - pos
  {
    if pos < |s| && IsSpace(s[pos]) {
      SkippedIsBlank(s, pos + 1);
      OneChar(s, pos);
      Joined(s, pos, pos + 1, SkipWs(s, pos));
    }
  }

  lemma NoSpaceHere(s: string, pos: nat)
    requires pos <= |s| && (pos < |s| ==> !IsSpace(s[pos]))
    ensures SkipWs(s, pos) == pos
  {
  }

  // ---------------------------------------------------------------- strings

  lemma {:induction false} ScannedIsWritten(s: string, pos: nat, quote: char, result: string, r: string, p: nat)
    returns (pieces: seq<Piece>)
    requires pos <= |s| && IsQuote(quote) && ScanString(s, pos, quote, result) == Ok(r, p)
    ensures pos < p <= |s| && s[pos..p] == PrintPieces(pieces) + [quote] && r == result + Meaning(pieces)
    ensures Proper(Quoted(quote, pieces))
    decreases |s| - pos
  {
    hide *;
    ScanCases(s, pos, quote, result);
    OneChar(s, pos);
    if s[pos] == '\\' {
      OneChar(s, pos + 1);
      var more := ScannedIsWritten(s, pos + 2, quote, result + [Unescape(s[pos + 1])], r, p);
      pieces := [Escaped(s[pos + 1])] + more;
      Joined(s, pos, pos + 1, pos + 2);
      Joined(s, pos, pos + 2, p);
      OnePieceMore(pieces[0], more, quote);
      Regroup3(PrintPiece(pieces[0]), PrintPieces(more), [quote]);
      Regroup3(result, [Meant(pieces[0])], Meaning(more));
    } else if s[pos] == quote {
      pieces := [];
      NoPieces(quote);
      assert result + "" == result;
      assert "" + [quote] == [quote];
    } else {
      var more := ScannedIsWritten(s, pos + 1, quote, result + [s[pos]], r, p);
      pieces := [Raw(s[pos])] + more;
      Joined(s, pos, pos + 1, p);
      OnePieceMore(pieces[0], more, quote);
      Regroup3(PrintPiece(pieces[0]), PrintPieces(more), [quote]);
      Regroup3(result, [Meant(pieces[0])], Meaning(more));
    }
  }

  lemma Regroup3(a: string, b: string, c: string)
    ensures a + b + c == a + (b + c)
  {
  }

  lemma ScanCases(s: string, pos: nat, quote: char, result: string)
    requires pos <= |s| && IsQuote(quote)
    ensures ScanString(s, pos, quote, result)
            == if pos == |s| then Err
               else if s[pos] == '\\' then
                 if pos + 1 == |s| then Err else ScanString(s, pos + 2, quote, result + [Unescape(s[pos + 1])])
               else if s[pos] == quote then Ok(result, pos + 1)
               else ScanString(s, pos + 1, quote, result + [s[pos]])
  {
    hide Unescape;
  }

  lemma NoPieces(quote: char)
    requires IsQuote(quote)
    ensures PrintPieces([]) == "" && Meaning([]) == "" && Proper(Quoted(quote, []))
  {
  }

  lemma OnePieceMore(p: Piece, more: seq<Piece>, quote: char)
    ensures PrintPieces([p] + more) == PrintPiece(p) + PrintPieces(more)
    ensures Meaning([p] + more) == [Meant(p)] + Meaning(more)
    ensures PrintPiece(p) == if p.Raw? then [p.c] else ['\\', p.c]
    ensures Meant(p) == if p.Raw? then p.c else Unescape(p.c)
    ensures Proper(Quoted(quote, more)) && (p.Raw? ==> p.c != quote && p.c != '\\') ==> Proper(Quoted(quote, [p] + more))
  {
    assert ([p] + more)[1..] == more;
  }

  lemma StringIsWritten(py: Python, s: string, pos: nat, v: Value, p: nat) returns (q: Quoted)
    requires pos < |s| && IsQuote(s[pos]) && ParseString(py, s, pos) == Ok(v, p)
    ensures pos < p <= |s| && s[pos..p] == PrintQuoted(q) && Proper(q) && v == Convert(py, Meaning(q.pieces))
  {
    hide Convert, ScanString, PrintPieces, Proper, Meaning, IsQuote;
    var r := ScanString(s, pos + 1, s[pos], "");
    var pieces := ScannedIsWritten(s, pos + 1, s[pos], "", r.value, p);
    q := Quoted(s[pos], pieces);
    OneChar(s, pos);
    Joined(s, pos, pos + 1, p);
    Regroup3([s[pos]], PrintPieces(pieces), [s[pos]]);
    assert "" + Meaning(pieces) == Meaning(pieces);
  }

  lemma {:induction false} TripleScanned(s: string, start: nat, pos: nat, quotes: string, result: string, r: string, p: nat)
    requires start <= pos <= |s| && result == s[start..pos] && |quotes| == 3
    requires forall i :: start <= i < pos ==> !StartsWith(s, i, quotes)
    requires ScanTriple(s, pos, quotes, result) == Ok(r, p)
    ensures start + 3 <= p <= |s| && r == s[start..p - 3] && s[p - 3..p] == quotes
    ensures forall i :: start <= i < p - 3 ==> !StartsWith(s, i, quotes)
    decreases |s| - pos
  {
    hide ScanTriple;
    ScanTripleCases(s, pos, quotes, result);
    if !StartsWith(s, pos, quotes) {
      OneChar(s, pos);
      Joined(s, start, pos, pos + 1);
      TripleScanned(s, start, pos + 1, quotes, result + [s[pos]], r, p);
    }
  }

  lemma ScanTripleCases(s: string, pos: nat, quotes: string, result: string)
    requires pos <= |s|
    ensures ScanTriple(s, pos, quotes, result)
            == if pos == |s| then Err
               else if StartsWith(s, pos, quotes) then Ok(result, pos + |quotes|)
               else ScanTriple(s, pos + 1, quotes, result + [s[pos]])
  {
    hide StartsWith;
  }

  lemma TripleIsWritten(py: Python, s: string, pos: nat, v: Value, p: nat) returns (quotes: string, text: string)
    requires pos <= |s| && StartsTriple(s, pos) && ParseTriple(py, s, pos) == Ok(v, p)
    ensures pos < p <= |s| && s[pos..p] == quotes + text + quotes && ProperTriple(quotes, text) && v == Convert(py, text)
  {
    hide Convert, ScanTriple, At;
    quotes := s[pos..pos + 3];
    var r := ScanTriple(s, pos + 3, quotes, "");
    assert s[pos + 3..pos + 3] == "";
    TripleScanned(s, pos + 3, pos + 3, quotes, "", r.value, p);
    text := r.value;
    Joined(s, pos + 3, p - 3, p);
    Joined(s, pos, pos + 3, p);
    Regroup3(quotes, text, quotes);
    forall i | 0 <= i < |text|
      ensures !At(text + quotes, i, quotes)
    {
      if At(text + quotes, i, quotes) {
        InsideText(s, pos + 3, p, text + quotes, i, quotes);
      }
    }
  }

  lemma InsideText(s: string, a: nat, p: nat, all: string, i: nat, t: string)
    requires a <= p <= |s| && s[a..p] == all && At(all, i, t)
    ensures a + i <= |s| && StartsWith(s, a + i, t)
  {
    SubSlice(s, a, p, i, i + |t|);
  }

  // ---------------------------------------------------------------- numbers and words

  lemma {:induction false} NumberChars(s: string, pos: nat)
    requires pos <= |s|
    ensures forall i :: pos <= i < NumberEnd(s, pos) ==> IsNumberChar(s[i])
    decreases |s| - pos
  {
    if pos < |s| && IsNumberChar(s[pos]) {
      NumberChars(s, pos + 1);
    }
  }

  lemma NumberIsWritten(py: Python, s: string, pos: nat, v: Value, p: nat)
    requires pos < |s| && s[pos] in "-+0123456789." && IsNumberChar(s[pos]) && ParseNumber(py, s, pos) == Ok(v, p)
    ensures pos < p <= |s| && ProperNumber(py, s[pos..p]) && Number(py, s[pos..p]) == Some(v)
  {
    hide Number, NumberEnd;
    NumberChars(s, pos);
  }

  lemma WordIsWritten(s: string, pos: nat, word: string, value: Value)
    requires pos <= |s| && Spells(s, pos, word)
    requires (word == "true" && value == Bool(true)) || (word == "false" && value == Bool(false)) || (word == "null" && value == Null)
    ensures pos + |word| <= |s| && ProperWord(value, s[pos..pos + |word|])
  {
    hide AnyCase, Lower;
    AnyCaseIsLower(s[pos..pos + |word|]);
  }

  // ---------------------------------------------------------------- values

  lemma ValueCases(py: Python, s: string, pos: nat)
    requires pos < |s| && !IsSpace(s[pos])
    ensures ParseValue(py, s, pos)
            == if s[pos] == '{' then ObjectLoop(py, s, SkipWs(s, pos + 1), [])
               else if s[pos] == '[' then ArrayLoop(py, s, SkipWs(s, pos + 1), [])
               else if StartsTriple(s, pos) then ParseTriple(py, s, pos)
               else if IsQuote(s[pos]) then ParseString(py, s, pos)
               else if Spells(s, pos, "true") then Ok(Bool(true), pos + 4)
               else if Spells(s, pos, "false") then Ok(Bool(false), pos + 5)
               else if Spells(s, pos, "null") then Ok(Null, pos + 4)
               else if s[pos] in "-+0123456789." then
                 (assert IsNumberChar(s[pos]); ParseNumber(py, s, pos))
               else Err
  {
    NoSpaceHere(s, pos);
    hide ObjectLoop, ArrayLoop, ParseTriple, ParseString, ParseNumber, Spells, StartsTriple;
  }

  lemma PrintIs(py: Python, d: Doc)
    ensures d.DQuoted? ==> Print(d) == PrintQuoted(d.q) && Read(py, d) == Convert(py, Meaning(d.q.pieces))
    ensures d.DQuoted? ==> (Written(py, d) <==> Proper(d.q))
    ensures d.DTriple? ==> Print(d) == d.quotes + d.text + d.quotes && Read(py, d) == Convert(py, d.text)
    ensures d.DTriple? ==> (Written(py, d) <==> ProperTriple(d.quotes, d.text))
    ensures d.DNum? ==> Print(d) == d.text && (Number(py, d.text).Some? ==> Read(py, d) == Number(py, d.text).value)
    ensures d.DNum? ==> (Written(py, d) <==> ProperNumber(py, d.text))
    ensures d.DWord? ==> Print(d) == d.text && Read(py, d) == d.value && (Written(py, d) <==> ProperWord(d.value, d.text))
  {
    hide PrintQuoted, Proper, ProperTriple, ProperNumber, ProperWord, Number, Convert, Meaning, PrintElements, PrintMembers,
         ElementsWritten, MembersWritten;
  }

  /** Whatever is read as a value is a written document, and its value is what that document says. */
  lemma {:induction false} ValueIsWritten(py: Python, s: string, pos: nat, v: Value, p: nat) returns (d: Doc)
    requires pos < |s| && !IsSpace(s[pos]) && ParseValue(py, s, pos) == Ok(v, p)
    ensures pos < p <= |s| && s[pos..p] == Print(d) && Written(py, d) && Read(py, d) == v
    ensures s[pos] == '{' ==> d.DObj?
    decreases |s| - pos, 2
  {
    hide *;
    ValueCases(py, s, pos);
    if s[pos] == '{' {
      var next := SkipWs(s, pos + 1);
      AfterSkip(s, pos + 1);
      var ms := MembersAreWritten(py, s, next, [], v, p);
      d := DObj(s[pos + 1..next], ms);
      Bracketed(s, pos, next, p, PrintMembers(ms) + "}");
      ObjectIs(py, s[pos + 1..next], ms);
      ObjectWritten(py, s[pos + 1..next], ms);
    } else if s[pos] == '[' {
      var next := SkipWs(s, pos + 1);
      AfterSkip(s, pos + 1);
      var es := ElementsAreWritten(py, s, next, [], v, p);
      d := DArr(s[pos + 1..next], es);
      Bracketed(s, pos, next, p, PrintElements(es) + "]");
      ArrayIs(py, s[pos + 1..next], es);
      ArrayWritten(py, s[pos + 1..next], es);
    } else if StartsTriple(s, pos) {
      var quotes, text := TripleIsWritten(py, s, pos, v, p);
      d := DTriple(quotes, text);
      PrintIs(py, d);
    } else if IsQuote(s[pos]) {
      var q := StringIsWritten(py, s, pos, v, p);
      d := DQuoted(q);
      PrintIs(py, d);
    } else if Spells(s, pos, "true") {
      WordIsWritten(s, pos, "true", v);
      d := DWord(v, s[pos..p]);
      PrintIs(py, d);
    } else if Spells(s, pos, "false") {
      WordIsWritten(s, pos, "false", v);
      d := DWord(v, s[pos..p]);
      PrintIs(py, d);
    } else if Spells(s, pos, "null") {
      WordIsWritten(s, pos, "null", v);
      d := DWord(v, s[pos..p]);
      PrintIs(py, d);
    } else {
      NumberCharHere(s[pos]);
      NumberIsWritten(py, s, pos, v, p);
      d := DNum(s[pos..p]);
      PrintIs(py, d);
    }
  }

  lemma NumberCharHere(c: char)
    ensures c in "-+0123456789." ==> IsNumberChar(c)
  {
  }

  lemma AfterSkip(s: string, pos: nat)
    requires pos <= |s|
    ensures pos <= SkipWs(s, pos) <= |s| && Blank(s[pos..SkipWs(s, pos)])
    ensures SkipWs(s, pos) < |s| ==> !IsSpace(s[SkipWs(s, pos)])
  {
    hide Blank, SkipWs;
    SkippedIsBlank(s, pos);
  }

  lemma Bracketed(s: string, pos: nat, next: nat, p: nat, tail: string)
    requires pos < next <= p <= |s| && s[next..p] == tail
    ensures s[pos..p] == [s[pos]] + (s[pos + 1..next] + tail)
  {
    OneChar(s, pos);
    Joined(s, pos + 1, next, p);
    Joined(s, pos, pos + 1, p);
  }

  lemma ObjectWritten(py: Python, lead: string, ms: Members)
    requires Blank(lead) && MembersWritten(py, ms)
    ensures Written(py, DObj(lead, ms))
  {
    hide Blank, MembersWritten;
  }

  lemma ArrayWritten(py: Python, lead: string, es: Elements)
    requires Blank(lead) && ElementsWritten(py, es)
    ensures Written(py, DArr(lead, es))
  {
    hide Blank, ElementsWritten;
  }

  // ---------------------------------------------------------------- elements

  lemma ArrayCases(py: Python, s: string, pos: nat, lst: seq<Value>)
    requires pos <= |s|
    ensures pos == |s| ==> ArrayLoop(py, s, pos, lst) == Err
    ensures pos < |s| && s[pos] == ']' ==> ArrayLoop(py, s, pos, lst) == Ok(Arr(lst), pos + 1)
    ensures pos < |s| && s[pos] != ']' ==>
              ArrayLoop(py, s, pos, lst)
              == var value := ParseValue(py, s, pos);
                 if value.Err? then Err
                 else
                   var next := SkipWs(s, value.pos);
                   if next < |s| && s[next] == ',' then ArrayLoop(py, s, SkipWs(s, next + 1), lst + [value.value])
                   else if next < |s| && s[next] == ']' then Ok(Arr(lst + [value.value]), next + 1)
                   else Err
  {
    hide ParseValue, SkipWs;
  }

  lemma {:induction false} ElementsAreWritten(py: Python, s: string, pos: nat, lst: seq<Value>, v: Value, p: nat)
    returns (es: Elements)
    requires pos <= |s| && (pos < |s| ==> !IsSpace(s[pos])) && ArrayLoop(py, s, pos, lst) == Ok(v, p)
    ensures pos < p <= |s| && s[pos..p] == PrintElements(es) + "]" && ElementsWritten(py, es)
    ensures v == Arr(ReadElements(py, es, lst))
    decreases |s| - pos, 3
  {
    hide *;
    ArrayCases(py, s, pos, lst);
    if s[pos] == ']' {
      es := NoElements;
      NoMore(py, lst, []);
      OneChar(s, pos);
      assert "" + "]" == "]";
    } else {
      var value := ParseValue(py, s, pos);
      var d := ValueIsWritten(py, s, pos, value.value, value.pos);
      var p1 := value.pos;
      var next := SkipWs(s, p1);
      AfterSkip(s, p1);
      var lst' := lst + [value.value];
      if s[next] == ',' {
        var next2 := SkipWs(s, next + 1);
        AfterSkip(s, next + 1);
        var rest := ElementsAreWritten(py, s, next2, lst', v, p);
        es := Element(d, s[p1..next], true, s[next + 1..next2], rest);
        CommaText(s, p1, next, next2, p);
        OneElement(py, es, lst);
        Joined(s, pos, p1, p);
        ElementsJoin(es, "]");
      } else {
        es := Element(d, s[p1..next], false, "", NoElements);
        NoMore(py, lst', []);
        CloseText(s, p1, next);
        OneElement(py, es, lst);
        Joined(s, pos, p1, p);
        ElementsJoin(es, "]");
      }
    }
  }

  lemma NoMore(py: Python, lst: seq<Value>, obj: seq<(Value, Value)>)
    ensures PrintElements(NoElements) == "" && ElementsWritten(py, NoElements) && ReadElements(py, NoElements, lst) == lst
    ensures PrintMembers(NoMembers) == "" && MembersWritten(py, NoMembers) && ReadMembers(py, NoMembers, obj) == obj
    ensures Blank("")
  {
  }

  /** Behind a value: white space, a comma, white space and the rest. */
  lemma CommaText(s: string, p1: nat, next: nat, next2: nat, p: nat)
    requires p1 <= next < next2 <= p <= |s| && s[next] == ','
    ensures s[p1..p] == s[p1..next] + ("," + s[next + 1..next2] + s[next2..p])
  {
    OneChar(s, next);
    Joined(s, next, next + 1, next2);
    Joined(s, next, next2, p);
    Joined(s, p1, next, p);
  }

  lemma CloseText(s: string, p1: nat, next: nat)
    requires p1 <= next < |s|
    ensures s[p1..next + 1] == s[p1..next] + [s[next]]
  {
  }

  lemma OneElement(py: Python, es: Elements, lst: seq<Value>)
    requires es.Element? && Written(py, es.doc) && Blank(es.trail) && Blank(es.lead) && (es.rest.Element? ==> es.comma)
    requires ElementsWritten(py, es.rest)
    ensures ElementsWritten(py, es)
    ensures ReadElements(py, es, lst) == ReadElements(py, es.rest, lst + [Read(py, es.doc)])
  {
    hide Written, Blank, Read;
  }

  lemma ElementsJoin(es: Elements, close: string)
    requires es.Element?
    ensures PrintElements(es) + close
            == Print(es.doc) + (es.trail + ((if es.comma then "," + es.lead else "") + PrintElements(es.rest) + close))
  {
    hide *;
    CommaIs(es.comma, es.lead);
    ElementsFirst(es);
    var comma := if es.comma then "," + es.lead else "";
    Regroup4(Print(es.doc), es.trail, comma, PrintElements(es.rest), close);
    Regroup3(comma, PrintElements(es.rest), close);
  }

  // ---------------------------------------------------------------- members

  lemma ObjectCases(py: Python, s: string, pos: nat, obj: seq<(Value, Value)>)
    requires pos <= |s| && (pos < |s| ==> !IsSpace(s[pos]))
    ensures pos == |s| ==> ObjectLoop(py, s, pos, obj) == Err
    ensures pos < |s| && s[pos] == '}' ==> ObjectLoop(py, s, pos, obj) == Ok(Obj(obj), pos + 1)
    ensures pos < |s| && s[pos] != '}' && !IsQuote(s[pos]) ==> ObjectLoop(py, s, pos, obj) == Err
    ensures pos < |s| && s[pos] != '}' && IsQuote(s[pos]) ==>
              ObjectLoop(py, s, pos, obj)
              == var key := ParseString(py, s, pos);
                 if key.Err? then Err
                 else
                   var colon := SkipWs(s, key.pos);
                   if colon == |s| || s[colon] != ':' then Err
                   else
                     var value := ParseValue(py, s, SkipWs(s, colon + 1));
                     if value.Err? then Err
                     else
                       var obj' := SetField(obj, key.value, value.value);
                       var next := SkipWs(s, value.pos);
                       if next < |s| && s[next] == ',' then ObjectLoop(py, s, SkipWs(s, next + 1), obj')
                       else if next < |s| && s[next] == '}' then Ok(Obj(obj'), next + 1)
                       else Err
  {
    hide ParseValue, ParseString, SetField, SkipWs, IsQuote;
    NoSpaceHere(s, pos);
  }

  lemma NothingToRead(py: Python, s: string)
    ensures ParseValue(py, s, |s|) == Err
  {
    NoSpaceHere(s, |s|);
    hide ObjectLoop, ArrayLoop;
  }

  lemma {:induction false} MembersAreWritten(py: Python, s: string, pos: nat, obj: seq<(Value, Value)>, v: Value, p: nat)
    returns (ms: Members)
    requires pos <= |s| && (pos < |s| ==> !IsSpace(s[pos])) && ObjectLoop(py, s, pos, obj) == Ok(v, p)
    ensures pos < p <= |s| && s[pos..p] == PrintMembers(ms) + "}" && MembersWritten(py, ms)
    ensures v == Obj(ReadMembers(py, ms, obj))
    decreases |s| - pos, 1
  {
    hide *;
    ObjectCases(py, s, pos, obj);
    if s[pos] == '}' {
      ms := NoMembers;
      NoMore(py, [], obj);
      OneChar(s, pos);
      assert "" + "}" == "}";
    } else {
      var key, k, colon, start, value, p1, next := MemberHead(py, s, pos, obj, v, p);
      var q := StringIsWritten(py, s, pos, key, k);
      var d := ValueIsWritten(py, s, start, value, p1);
      var obj' := SetField(obj, key, value);
      if s[next] == ',' {
        var next2 := SkipWs(s, next + 1);
        AfterSkip(s, next + 1);
        var rest := MembersAreWritten(py, s, next2, obj', v, p);
        ms := Member(q, s[k..colon], s[colon + 1..start], d, s[p1..next], true, s[next + 1..next2], rest);
        CommaFirst(s, next, next2, p, PrintMembers(rest), "}");
      } else {
        ms := Member(q, s[k..colon], s[colon + 1..start], d, s[p1..next], false, "", NoMembers);
        NoMore(py, [], obj');
        OneChar(s, next);
        assert "" + "" + "}" == "}";
      }
      OneMember(py, ms, obj);
      MemberText(s, pos, k, colon, start, p1, next, p, ms);
    }
  }

  /** What the object loop finds at a member before it decides how to go on. */
  lemma MemberHead(py: Python, s: string, pos: nat, obj: seq<(Value, Value)>, v: Value, p: nat)
    returns (key: Value, k: nat, colon: nat, start: nat, value: Value, p1: nat, next: nat)
    requires pos < |s| && !IsSpace(s[pos]) && s[pos] != '}' && ObjectLoop(py, s, pos, obj) == Ok(v, p)
    ensures IsQuote(s[pos]) && ParseString(py, s, pos) == Ok(key, k)
    ensures pos < k <= colon < start < |s| && s[colon] == ':' && Blank(s[k..colon]) && Blank(s[colon + 1..start])
    ensures !IsSpace(s[start]) && ParseValue(py, s, start) == Ok(value, p1) && start < p1 <= next < |s| && Blank(s[p1..next])
    ensures var obj' := SetField(obj, key, value);
            || (s[next] == ',' && ObjectLoop(py, s, SkipWs(s, next + 1), obj') == Ok(v, p))
            || (s[next] == '}' && v == Obj(obj') && p == next + 1)
  {
    hide *;
    ObjectCases(py, s, pos, obj);
    NothingToRead(py, s);
    var keyAt := ParseString(py, s, pos);
    StringMoves(py, s, pos);
    key, k := keyAt.value, keyAt.pos;
    colon := SkipWs(s, k);
    AfterSkip(s, k);
    start := SkipWs(s, colon + 1);
    AfterSkip(s, colon + 1);
    var valueAt := ParseValue(py, s, start);
    value, p1 := valueAt.value, valueAt.pos;
    next := SkipWs(s, p1);
    AfterSkip(s, p1);
  }

  lemma StringMoves(py: Python, s: string, pos: nat)
    requires pos < |s| && IsQuote(s[pos])
    ensures ParseString(py, s, pos).Ok? ==> pos < ParseString(py, s, pos).pos <= |s|
  {
    hide *;
  }

  lemma CommaFirst(s: string, next: nat, next2: nat, p: nat, rest: string, close: string)
    requires next < next2 <= p <= |s| && s[next] == ',' && s[next2..p] == rest + close
    ensures s[next..p] == "," + s[next + 1..next2] + rest + close
  {
    OneChar(s, next);
    Joined(s, next, next + 1, next2);
    Joined(s, next, next2, p);
    Regroup3("," + s[next + 1..next2], rest, close);
  }

  /** A member's parts one after the other. */
  lemma MemberText(s: string, pos: nat, k: nat, colon: nat, start: nat, p1: nat, next: nat, p: nat, ms: Members)
    requires pos <= k <= colon < start <= p1 <= next <= p <= |s| && s[colon] == ':' && ms.Member?
    requires s[pos..k] == PrintQuoted(ms.key) && s[k..colon] == ms.gap && s[colon + 1..start] == ms.gap'
    requires s[start..p1] == Print(ms.doc) && s[p1..next] == ms.trail
    requires s[next..p] == (if ms.comma then "," + ms.lead else "") + PrintMembers(ms.rest) + "}"
    ensures s[pos..p] == PrintMembers(ms) + "}"
  {
    hide *;
    KeyText(s, pos, k, colon, start, p);
    Joined(s, p1, next, p);
    Joined(s, start, p1, p);
    MembersJoin(ms, "}");
  }

  lemma KeyText(s: string, pos: nat, k: nat, colon: nat, start: nat, p: nat)
    requires pos <= k <= colon < start <= |s| && s[colon] == ':'
    ensures start <= p <= |s| ==> s[pos..p] == s[pos..k] + (s[k..colon] + (":" + (s[colon + 1..start] + s[start..p])))
  {
    if start <= p <= |s| {
      OneChar(s, colon);
      Joined(s, colon + 1, start, p);
      Joined(s, colon, colon + 1, p);
      Joined(s, k, colon, p);
      Joined(s, pos, k, p);
    }
  }

  lemma OneMember(py: Python, ms: Members, obj: seq<(Value, Value)>)
    requires ms.Member? && Proper(ms.key) && Blank(ms.gap) && Blank(ms.gap') && Written(py, ms.doc) && Blank(ms.trail)
    requires Blank(ms.lead) && (ms.rest.Member? ==> ms.comma) && MembersWritten(py, ms.rest)
    ensures MembersWritten(py, ms)
    ensures ReadMembers(py, ms, obj)
            == ReadMembers(py, ms.rest, SetField(obj, Convert(py, Meaning(ms.key.pieces)), Read(py, ms.doc)))
  {
    hide Written, Blank, Read, Proper, Convert, SetField, Meaning;
  }

  lemma MembersJoin(ms: Members, close: string)
    requires ms.Member?
    ensures PrintMembers(ms) + close
            == PrintQuoted(ms.key) + (ms.gap + (":" + (ms.gap' + (Print(ms.doc) + (ms.trail
               + ((if ms.comma then "," + ms.lead else "") + PrintMembers(ms.rest) + close))))))
  {
    hide *;
    var comma := if ms.comma then "," + ms.lead else "";
    CommaIs(ms.comma, ms.lead);
    MembersFirst(ms);
    Regroup(PrintQuoted(ms.key), ms.gap, ":", ms.gap', Print(ms.doc), ms.trail, comma, PrintMembers(ms.rest), close);
    Regroup3(comma, PrintMembers(ms.rest), close);
  }

  lemma CommaIs(comma: bool, lead: string)
    ensures Comma(comma, lead) == if comma then "," + lead else ""
  {
  }

  // ---------------------------------------------------------------- the whole text

  /** A text is an object written as a document, between text without a brace that would come first or last. */
  ghost predicate Around(py: Python, text: string, before: string, d: Doc, after: string, v: Value) {
    && text == before + Print(d) + after && '{' !in before && '}' !in after
    && d.DObj? && Written(py, d) && Read(py, d) == v
  }

  /**
   `extract_json` reads exactly the texts that have a written object between their outermost braces, and gives that object's
   value; on all others it fails.
   */
  lemma ExtractIffWritten(py: Python, text: string, v: Value)
    ensures ExtractJson(py, text) == Some(v) <==> exists before, d, after :: Around(py, text, before, d, after, v)
  {
    hide *;
    if ExtractJson(py, text) == Some(v) {
      var before, s, after := Braces(py, text, v);
      var d := ValueIsWritten(py, s, 0, v, |s|);
      assert s[0..|s|] == s;
      IsAround(py, text, before, d, after, v);
    }
    if before, d, after :| Around(py, text, before, d, after, v) {
      AroundParts(py, text, before, d, after, v);
      ExtractPrinted(py, before, d, after);
    }
  }

  lemma AroundParts(py: Python, text: string, before: string, d: Doc, after: string, v: Value)
    requires Around(py, text, before, d, after, v)
    ensures text == before + Print(d) + after && '{' !in before && '}' !in after && d.DObj? && Written(py, d)
    ensures Read(py, d) == v
  {
    hide Print, Written, Read;
  }

  lemma IsAround(py: Python, text: string, before: string, d: Doc, after: string, v: Value)
    requires text == before + Print(d) + after && '{' !in before && '}' !in after && d.DObj? && Written(py, d)
    requires Read(py, d) == v
    ensures Around(py, text, before, d, after, v)
  {
    hide Print, Written, Read;
  }

  /** What was extracted is the value of everything between the outermost braces. */
  lemma Braces(py: Python, text: string, v: Value) returns (before: string, s: string, after: string)
    requires ExtractJson(py, text) == Some(v)
    ensures text == before + s + after && '{' !in before && '}' !in after
    ensures s != "" && s[0] == '{' && !IsSpace(s[0]) && ParseValue(py, s, 0) == Ok(v, |s|)
  {
    hide *;
    s := Outermost(text);
    ExtractParts(py, text, v);
    NothingToRead(py, "");
    var start, end := IndexOf(text, '{'), AfterLast(text, '}');
    OutermostParts(text);
    before, after := text[..start], text[end..];
    EndsAtBrace(s, ParseValue(py, s, 0).pos);
    NoSpace();
  }

  lemma NoSpace()
    ensures !IsSpace('{')
  {
  }

  lemma ExtractParts(py: Python, text: string, v: Value)
    requires ExtractJson(py, text) == Some(v)
    ensures var s := Outermost(text);
            var r := ParseValue(py, s, 0);
            r.Ok? && r.value == v && r.pos <= |s| && SkipWs(s, r.pos) == |s|
  {
    hide Outermost, ParseValue, SkipWs, IndexOf;
  }

  lemma OutermostParts(text: string)
    ensures var start, end, s := IndexOf(text, '{'), AfterLast(text, '}'), Outermost(text);
            && start <= |text| && end <= |text| && '{' !in text[..start] && '}' !in text[end..]
            && (s != "" ==> text == text[..start] + s + text[end..] && s[0] == '{' && s[|s| - 1] == '}')
  {
    hide IndexOf, AfterLast;
    var start, end := IndexOf(text, '{'), AfterLast(text, '}');
    if start < end {
      assert text[start..end][0] == text[start];
      assert text[start..end][end - start - 1] == text[end - 1];
      assert text == text[..start] + text[start..end] + text[end..];
    }
  }

  lemma EndsAtBrace(s: string, pos: nat)
    requires pos <= |s| && s != "" && s[|s| - 1] == '}' && SkipWs(s, pos) == |s|
    ensures pos == |s|
  {
    if pos < |s| {
      AllSpace(s, pos);
    }
  }

  lemma {:induction false} AllSpace(s: string, pos: nat)
    requires pos < |s| && SkipWs(s, pos) == |s|
    ensures IsSpace(s[|s| - 1])
    decreases |s| - pos
  {
    if pos < |s| - 1 {
      AllSpace(s, pos + 1);
    }
  }
}
