/** What `extract_json` makes of printed documents, and when it gives the printed value back. */
module JsonRoundTrip {
  import opened Json
  import opened Wrappers

  /** A character of a quoted string as it is written: plain, or behind a backslash. */
  datatype Piece = Raw(c: char) | Escaped(c: char)

  /** A string between two single or two double quotes. */
  datatype Quoted = Quoted(quote: char, pieces: seq<Piece>)

  /**
   A document as it may be written: with either quote, any escapes, triple quotes, words in any case, numbers in any form,
   white space and trailing commas.
   */
  datatype Doc =
    | DQuoted(q: Quoted)
    | DTriple(quotes: string, text: string)
    | DNum(text: string)
    | DWord(value: Value, text: string)
    | DArr(lead: string, elements: Elements)
    | DObj(lead: string, members: Members)

  /** `trail` follows an element, `lead` the comma behind it, if there is one. */
  datatype Elements = NoElements | Element(doc: Doc, trail: string, comma: bool, lead: string, rest: Elements)

  /** `gap` and `gap'` surround the colon. */
  datatype Members = NoMembers
    | Member(key: Quoted, gap: string, gap': string, doc: Doc, trail: string, comma: bool, lead: string, rest: Members)

  predicate Blank(w: string) {
    forall i :: 0 <= i < |w| ==> w[i] in " \t\n\r"
  }

  // ---------------------------------------------------------------- what can be written

  /** A plain character is neither the closing quote nor a backslash. */
  predicate Proper(q: Quoted) {
    && (q.quote == '"' || q.quote == '\'')
    && forall i :: 0 <= i < |q.pieces| && q.pieces[i].Raw? ==> q.pieces[i].c != q.quote && q.pieces[i].c != '\\'
  }

  /** The three quotes do not come before the end. */
  predicate ProperTriple(quotes: string, text: string) {
    && (quotes == "'''" || quotes == "\"\"\"")
    && forall i :: 0 <= i < |text| ==> !At(text + quotes, i, quotes)
  }

  /** A number begins like one, consists of the characters of numbers, and Python makes a number of it. */
  predicate ProperNumber(py: Python, text: string) {
    && text != "" && text[0] in "-+0123456789."
    && (forall i :: 0 <= i < |text| ==> text[i] in "-+0123456789.eE")
    && Number(py, text).Some?
  }

  /** `text` is `small` with any of its letters as in `capital`. */
  predicate AnyCase(text: string, small: string, capital: string) {
    |text| == |small| == |capital| && forall i :: 0 <= i < |text| ==> text[i] == small[i] || text[i] == capital[i]
  }

  predicate ProperWord(value: Value, text: string) {
    || (value == Bool(true) && AnyCase(text, "true", "TRUE"))
    || (value == Bool(false) && AnyCase(text, "false", "FALSE"))
    || (value == Null && AnyCase(text, "null", "NULL"))
  }

  ghost predicate Written(py: Python, d: Doc) {
    match d
    case DQuoted(q) => Proper(q)
    case DTriple(quotes, text) => ProperTriple(quotes, text)
    case DNum(text) => ProperNumber(py, text)
    case DWord(value, text) => ProperWord(value, text)
    case DArr(lead, es) => Blank(lead) && ElementsWritten(py, es)
    case DObj(lead, ms) => Blank(lead) && MembersWritten(py, ms)
  }

  ghost predicate ElementsWritten(py: Python, es: Elements) {
    es.Element? ==>
      && Written(py, es.doc) && Blank(es.trail) && Blank(es.lead) && (es.rest.Element? ==> es.comma)
      && ElementsWritten(py, es.rest)
  }

  ghost predicate MembersWritten(py: Python, ms: Members) {
    ms.Member? ==>
      && Proper(ms.key) && Blank(ms.gap) && Blank(ms.gap') && Written(py, ms.doc) && Blank(ms.trail) && Blank(ms.lead)
      && (ms.rest.Member? ==> ms.comma) && MembersWritten(py, ms.rest)
  }

  // ---------------------------------------------------------------- printing

  function PrintPiece(p: Piece): string {
    if p.Raw? then [p.c] else ['\\', p.c]
  }

  function PrintPieces(pieces: seq<Piece>): string {
    if pieces == [] then "" else PrintPiece(pieces[0]) + PrintPieces(pieces[1..])
  }

  function PrintQuoted(q: Quoted): string {
    [q.quote] + PrintPieces(q.pieces) + [q.quote]
  }

  function Print(d: Doc): string {
    match d
    case DQuoted(q) => PrintQuoted(q)
    case DTriple(quotes, text) => quotes + text + quotes
    case DNum(text) => text
    case DWord(_, text) => text
    case DArr(lead, es) => "[" + lead + PrintElements(es) + "]"
    case DObj(lead, ms) => "{" + lead + PrintMembers(ms) + "}"
  }

  function Comma(comma: bool, lead: string): string {
    if comma then "," + lead else ""
  }

  function PrintElements(es: Elements): string {
    if es.NoElements? then ""
    else Print(es.doc) + es.trail + Comma(es.comma, es.lead) + PrintElements(es.rest)
  }

  function PrintMembers(ms: Members): string {
    if ms.NoMembers? then ""
    else PrintQuoted(ms.key) + ms.gap + ":" + ms.gap' + Print(ms.doc) + ms.trail + Comma(ms.comma, ms.lead)
         + PrintMembers(ms.rest)
  }

  // ---------------------------------------------------------------- meaning

  /** The character that is meant: n, t and r behind a backslash stand for line feed, tab and return, all others for themselves. */
  function Meant(p: Piece): char {
    match p
    case Raw(c) => c
    case Escaped('n') => '\n'
    case Escaped('t') => '\t'
    case Escaped('r') => '\r'
    case Escaped(c) => c
  }

  function Meaning(pieces: seq<Piece>): string {
    if pieces == [] then "" else [Meant(pieces[0])] + Meaning(pieces[1..])
  }

  /** The value a document stands for. */
  function Exact(py: Python, d: Doc): Value {
    match d
    case DQuoted(q) => Str(Meaning(q.pieces))
    case DTriple(_, text) => Str(text)
    case DNum(text) => if Number(py, text).Some? then Number(py, text).value else Null
    case DWord(value, _) => value
    case DArr(_, es) => Arr(ExactElements(py, es))
    case DObj(_, ms) => Obj(ExactMembers(py, ms))
  }

  function ExactElements(py: Python, es: Elements): seq<Value> {
    if es.NoElements? then [] else [Exact(py, es.doc)] + ExactElements(py, es.rest)
  }

  function ExactMembers(py: Python, ms: Members): seq<(Value, Value)> {
    if ms.NoMembers? then [] else [(Str(Meaning(ms.key.pieces)), Exact(py, ms.doc))] + ExactMembers(py, ms.rest)
  }

  /** The value the parser makes of it: strings and keys are converted, later members overwrite earlier ones. */
  function Read(py: Python, d: Doc): Value {
    match d
    case DQuoted(q) => Convert(py, Meaning(q.pieces))
    case DTriple(_, text) => Convert(py, text)
    case DArr(_, es) => Arr(ReadElements(py, es, []))
    case DObj(_, ms) => Obj(ReadMembers(py, ms, []))
    case _ => Exact(py, d)
  }

  function ReadElements(py: Python, es: Elements, lst: seq<Value>): seq<Value> {
    if es.NoElements? then lst else ReadElements(py, es.rest, lst + [Read(py, es.doc)])
  }

  function ReadMembers(py: Python, ms: Members, obj: seq<(Value, Value)>): seq<(Value, Value)> {
    if ms.NoMembers? then obj
    else ReadMembers(py, ms.rest, SetField(obj, Convert(py, Meaning(ms.key.pieces)), Read(py, ms.doc)))
  }

  // ---------------------------------------------------------------- text at a position

  predicate At(s: string, pos: nat, t: string) {
    pos + |t| <= |s| && s[pos..pos + |t|] == t
  }

  /** Text that may follow a value: the end, white space or punctuation. */
  predicate Ends(s: string, pos: nat)
    requires pos <= |s|
  {
    pos == |s| || IsSpace(s[pos]) || s[pos] in ",]}"
  }

  lemma AtSplit(s: string, pos: nat, a: string, b: string)
    requires At(s, pos, a + b)
    ensures At(s, pos, a) && At(s, pos + |a|, b)
  {
    assert s[pos..pos + |a|] == s[pos..pos + |a + b|][..|a|];
    assert s[pos + |a|..pos + |a| + |b|] == s[pos..pos + |a + b|][|a|..];
  }

  lemma FirstChar(s: string, pos: nat, t: string)
    requires At(s, pos, t) && t != []
    ensures s[pos] == t[0]
  {
    assert s[pos..pos + |t|][0] == s[pos];
  }

  lemma {:induction false} SkipBlank(s: string, pos: nat, w: string)
    requires At(s, pos, w) && Blank(w)
    requires pos + |w| == |s| || !IsSpace(s[pos + |w|])
    ensures SkipWs(s, pos) == pos + |w|
    decreases |w|
  {
    if w != [] {
      assert w == [w[0]] + w[1..];
      AtSplit(s, pos, [w[0]], w[1..]);
      assert s[pos] == s[pos..pos + |w|][0] == w[0];
      SkipBlank(s, pos + 1, w[1..]);
    }
  }

  // ---------------------------------------------------------------- strings

  lemma ScanPiece(s: string, pos: nat, p: Piece, quote: char, result: string)
    requires At(s, pos, PrintPiece(p)) && (p.Raw? ==> p.c != quote && p.c != '\\')
    ensures ScanString(s, pos, quote, result) == ScanString(s, pos + |PrintPiece(p)|, quote, result + [Meant(p)])
  {
    var e := PrintPiece(p);
    assert s[pos] == s[pos..pos + |e|][0];
    assert |e| == 2 ==> s[pos + 1] == s[pos..pos + |e|][1];
  }

  lemma ScanQuote(s: string, pos: nat, quote: char, result: string)
    requires At(s, pos, [quote]) && quote != '\\'
    ensures ScanString(s, pos, quote, result) == Ok(result, pos + 1)
  {
    assert s[pos] == s[pos..pos + 1][0];
  }

  lemma FirstPiece(pieces: seq<Piece>)
    ensures pieces == [] ==> PrintPieces(pieces) == "" && Meaning(pieces) == ""
    ensures pieces != [] ==> PrintPieces(pieces) == PrintPiece(pieces[0]) + PrintPieces(pieces[1..])
    ensures pieces != [] ==> Meaning(pieces) == [Meant(pieces[0])] + Meaning(pieces[1..])
  {
  }

  lemma {:induction false} ScanPieces(s: string, pos: nat, quote: char, pieces: seq<Piece>, result: string)
    requires At(s, pos, PrintPieces(pieces) + [quote]) && quote != '\\'
    requires forall i :: 0 <= i < |pieces| && pieces[i].Raw? ==> pieces[i].c != quote && pieces[i].c != '\\'
    ensures ScanString(s, pos, quote, result) == Ok(result + Meaning(pieces), pos + |PrintPieces(pieces)| + 1)
    decreases |pieces|
  {
    hide *;
    FirstPiece(pieces);
    AtSplit(s, pos, PrintPieces(pieces), [quote]);
    if pieces == [] {
      ScanQuote(s, pos, quote, result);
      assert result + "" == result;
    } else {
      var e, m := PrintPiece(pieces[0]), Meant(pieces[0]);
      assert PrintPieces(pieces) + [quote] == e + (PrintPieces(pieces[1..]) + [quote]);
      AtSplit(s, pos, e, PrintPieces(pieces[1..]) + [quote]);
      ScanPiece(s, pos, pieces[0], quote, result);
      ScanPieces(s, pos + |e|, quote, pieces[1..], result + [m]);
      assert result + [m] + Meaning(pieces[1..]) == result + ([m] + Meaning(pieces[1..]));
    }
  }

  lemma QuoteIs(q: Quoted)
    requires Proper(q)
    ensures IsQuote(q.quote) && q.quote != '\\' && !IsSpace(q.quote) && q.quote !in "[]{},:"
    ensures PrintQuoted(q) == [q.quote] + (PrintPieces(q.pieces) + [q.quote])
  {
    hide PrintPieces;
  }

  lemma ParsePrintedString(py: Python, s: string, pos: nat, q: Quoted)
    requires At(s, pos, PrintQuoted(q)) && Proper(q)
    ensures pos < |s| && s[pos] == q.quote && IsQuote(q.quote)
    ensures ParseString(py, s, pos) == Ok(Convert(py, Meaning(q.pieces)), pos + |PrintQuoted(q)|)
  {
    hide Convert, ScanString, At, PrintPieces;
    QuoteIs(q);
    AtSplit(s, pos, [q.quote], PrintPieces(q.pieces) + [q.quote]);
    FirstChar(s, pos, [q.quote]);
    ScanPieces(s, pos + 1, q.quote, q.pieces, "");
    assert "" + Meaning(q.pieces) == Meaning(q.pieces);
  }

  lemma TripleChars(s: string, pos: nat)
    requires pos <= |s| && StartsTriple(s, pos)
    ensures pos + 3 <= |s| && IsQuote(s[pos]) && s[pos] == s[pos + 1] == s[pos + 2]
  {
    var t := s[pos..pos + 3];
    assert t[0] == s[pos] && t[1] == s[pos + 1] && t[2] == s[pos + 2];
  }

  /** A printed string in value position does not look like a triple quote. */
  lemma PrintedStringIsNotTriple(s: string, pos: nat, q: Quoted)
    requires At(s, pos, PrintQuoted(q)) && Proper(q) && Ends(s, pos + |PrintQuoted(q)|)
    ensures !StartsTriple(s, pos)
  {
    QuoteIs(q);
    FirstPiece(q.pieces);
    AtSplit(s, pos, [q.quote], PrintPieces(q.pieces) + [q.quote]);
    FirstChar(s, pos, [q.quote]);
    FirstChar(s, pos + 1, PrintPieces(q.pieces) + [q.quote]);
    if StartsTriple(s, pos) {
      TripleChars(s, pos);
    }
  }

  // ---------------------------------------------------------------- triple quotes

  /** From position `i` of the text on nothing but its end looks like the quotes. */
  lemma {:induction false} ScanTripleText(s: string, pos: nat, quotes: string, text: string, i: nat, result: string)
    requires ProperTriple(quotes, text) && At(s, pos, text + quotes) && i <= |text| && result == text[..i]
    ensures ScanTriple(s, pos + i, quotes, result) == Ok(text, pos + |text| + 3)
    decreases |text| - i
  {
    hide ProperTriple, ScanTriple;
    TripleAt(s, pos, quotes, text, i);
    ScanTripleStep(s, pos + i, quotes, result);
    if i < |text| {
      assert text[..i] + [text[i]] == text[..i + 1];
      ScanTripleText(s, pos, quotes, text, i + 1, result + [text[i]]);
    } else {
      assert text[..i] == text;
    }
  }

  lemma TripleAt(s: string, pos: nat, quotes: string, text: string, i: nat)
    requires ProperTriple(quotes, text) && At(s, pos, text + quotes) && i <= |text|
    ensures |quotes| == 3 && pos + i < |s| && (StartsWith(s, pos + i, quotes) <==> i == |text|)
    ensures i < |text| ==> s[pos + i] == text[i]
  {
    var all := text + quotes;
    assert s[pos + i] == s[pos..pos + |all|][i] == all[i];
    if i == |text| {
      AtSplit(s, pos, text, quotes);
    } else if StartsWith(s, pos + i, quotes) {
      SameInside(s, pos, all, i, quotes);
    }
  }

  lemma SameInside(s: string, pos: nat, all: string, i: nat, t: string)
    requires At(s, pos, all) && i + |t| <= |all| && StartsWith(s, pos + i, t)
    ensures At(all, i, t)
  {
    SubSlice(s, pos, pos + |all|, i, i + |t|);
  }

  lemma SubSlice(s: string, a: nat, b: nat, i: nat, j: nat)
    requires i <= j && a + j <= b <= |s|
    ensures s[a..b][i..j] == s[a + i..a + j]
  {
    var t := s[a..b];
    assert forall k :: 0 <= k < |t| ==> t[k] == s[a + k];
    assert forall k :: 0 <= k < j - i ==> t[i..j][k] == s[a + i..a + j][k];
  }

  lemma ScanTripleStep(s: string, pos: nat, quotes: string, result: string)
    requires pos < |s|
    ensures ScanTriple(s, pos, quotes, result)
            == if StartsWith(s, pos, quotes) then Ok(result, pos + |quotes|) else ScanTriple(s, pos + 1, quotes, result + [s[pos]])
  {
    hide StartsWith;
  }

  lemma ParseTripleDoc(py: Python, s: string, pos: nat, quotes: string, text: string)
    requires ProperTriple(quotes, text) && At(s, pos, quotes + text + quotes)
    ensures ParseValue(py, s, pos) == Ok(Convert(py, text), pos + |text| + 6)
    ensures |quotes + text + quotes| == |text| + 6
  {
    hide Convert, ScanTriple, ParseString, ParseNumber, Spells, ObjectLoop, ArrayLoop, At;
    assert quotes + text + quotes == quotes + (text + quotes);
    AtSplit(s, pos, quotes, text + quotes);
    AtIs(s, pos, quotes);
    assert s[pos] == s[pos..pos + 3][0];
    ScanTripleText(s, pos + 3, quotes, text, 0, "");
  }

  lemma AtIs(s: string, pos: nat, t: string)
    requires At(s, pos, t)
    ensures pos + |t| <= |s| && s[pos..pos + |t|] == t
  {
  }

  // ---------------------------------------------------------------- numbers

  lemma {:induction false} NumberSpan(s: string, pos: nat, t: string)
    requires At(s, pos, t) && forall k :: 0 <= k < |t| ==> IsNumberChar(t[k])
    requires pos + |t| == |s| || !IsNumberChar(s[pos + |t|])
    ensures NumberEnd(s, pos) == pos + |t|
    decreases |t|
  {
    hide IsNumberChar;
    if t != [] {
      assert t == [t[0]] + t[1..];
      AtSplit(s, pos, [t[0]], t[1..]);
      FirstChar(s, pos, t);
      NumberSpan(s, pos + 1, t[1..]);
    }
  }

  // ---------------------------------------------------------------- documents

  /** No printed value begins with white space or a closing bracket. */
  lemma PrintedStart(py: Python, d: Doc)
    requires Written(py, d)
    ensures Starts(Print(d))
  {
    hide *;
    match d {
      case DQuoted(q) => QuotedStart(py, q);
      case DTriple(quotes, text) => TripleStart(py, quotes, text);
      case DNum(text) => NumberStart(py, text);
      case DWord(value, text) => WordStarts(py, value, text);
      case DArr(lead, es) => ArrayStart(lead, es);
      case DObj(lead, ms) => ObjectStart(lead, ms);
    }
  }

  predicate Starts(t: string) {
    t != [] && !IsSpace(t[0]) && t[0] != ']' && t[0] != '}'
  }

  lemma QuotedStart(py: Python, q: Quoted)
    requires Written(py, DQuoted(q))
    ensures Starts(Print(DQuoted(q)))
  {
    hide PrintPieces;
    QuoteIs(q);
  }

  lemma NumberStart(py: Python, text: string)
    requires Written(py, DNum(text))
    ensures Starts(Print(DNum(text)))
  {
    hide Number, IsSpace;
    NumberFirst(text[0]);
  }

  lemma NumberFirst(c: char)
    requires c in "-+0123456789."
    ensures !IsSpace(c) && c != ']' && c != '}'
  {
  }

  lemma ArrayStart(lead: string, es: Elements)
    ensures Starts(Print(DArr(lead, es)))
  {
    hide PrintElements;
  }

  lemma ObjectStart(lead: string, ms: Members)
    ensures Starts(Print(DObj(lead, ms)))
  {
    hide PrintMembers;
  }

  lemma TripleStart(py: Python, quotes: string, text: string)
    requires Written(py, DTriple(quotes, text))
    ensures Starts(Print(DTriple(quotes, text)))
  {
    hide At;
  }

  lemma WordStarts(py: Python, value: Value, text: string)
    requires Written(py, DWord(value, text))
    ensures Starts(Print(DWord(value, text)))
  {
  }

  lemma ParseScalar(py: Python, s: string, pos: nat, d: Doc)
    requires At(s, pos, Print(d)) && Ends(s, pos + |Print(d)|) && Written(py, d) && !d.DArr? && !d.DObj?
    ensures ParseValue(py, s, pos) == Ok(Read(py, d), pos + |Print(d)|)
  {
    hide At, Ends, ParseValue, Number, PrintQuoted, Meaning, Convert, ProperTriple, ProperNumber, Proper, ProperWord;
    match d {
      case DQuoted(q) => ParseStringDoc(py, s, pos, q);
      case DTriple(quotes, text) => ParseTripleDoc(py, s, pos, quotes, text);
      case DNum(text) => ParseNumberDoc(py, s, pos, text);
      case DWord(value, text) => ParseWordDoc(py, s, pos, value, text);
    }
  }

  lemma ParseStringDoc(py: Python, s: string, pos: nat, q: Quoted)
    requires At(s, pos, PrintQuoted(q)) && Proper(q) && Ends(s, pos + |PrintQuoted(q)|)
    ensures ParseValue(py, s, pos) == Ok(Convert(py, Meaning(q.pieces)), pos + |PrintQuoted(q)|)
  {
    hide Convert, PrintQuoted, At, ParseString, StartsTriple, Proper, Meaning;
    ParsePrintedString(py, s, pos, q);
    PrintedStringIsNotTriple(s, pos, q);
  }

  lemma ParseNumberDoc(py: Python, s: string, pos: nat, t: string)
    requires At(s, pos, t) && ProperNumber(py, t) && Ends(s, pos + |t|)
    ensures Number(py, t).Some? && ParseValue(py, s, pos) == Ok(Number(py, t).value, pos + |t|)
  {
    hide Number, At, ParseValue, ParseNumber;
    AtIs(s, pos, t);
    FirstChar(s, pos, t);
    NumberCase(py, s, pos);
    NumberText(py, s, pos, t);
  }

  lemma NumberCase(py: Python, s: string, pos: nat)
    requires pos < |s| && s[pos] in "-+0123456789."
    ensures IsNumberChar(s[pos]) && ParseValue(py, s, pos) == ParseNumber(py, s, pos)
  {
    hide Spells, StartsTriple, ParseNumber;
    NotAWord(s, pos);
    NotTriple(s, pos);
  }

  lemma NumberText(py: Python, s: string, pos: nat, t: string)
    requires At(s, pos, t) && t != [] && Ends(s, pos + |t|) && forall k :: 0 <= k < |t| ==> t[k] in "-+0123456789.eE"
    requires IsNumberChar(s[pos])
    ensures ParseNumber(py, s, pos) == if Number(py, t) == None then Err else Ok(Number(py, t).value, pos + |t|)
  {
    hide Number, NumberEnd;
    NumberSpan(s, pos, t);
  }

  /** Lower case undoes any case. */
  lemma AnyCaseIsLower(text: string)
    ensures AnyCase(text, "true", "TRUE") <==> Lower(text) == "true"
    ensures AnyCase(text, "false", "FALSE") <==> Lower(text) == "false"
    ensures AnyCase(text, "null", "NULL") <==> Lower(text) == "null"
  {
    CaseByCase(text, "true", "TRUE");
    CaseByCase(text, "false", "FALSE");
    CaseByCase(text, "null", "NULL");
  }

  lemma CaseByCase(text: string, small: string, capital: string)
    requires |small| == |capital| && forall i :: 0 <= i < |small| ==> 'a' <= small[i] <= 'z' && small[i] as int == capital[i] as int + 32
    ensures AnyCase(text, small, capital) <==> Lower(text) == small
  {
    forall i | 0 <= i < |text| && i < |small|
      ensures LowerChar(text[i]) == small[i] <==> text[i] == small[i] || text[i] == capital[i]
    {
      OneLetter(text[i], small[i], capital[i]);
    }
    hide LowerChar;
    if Lower(text) == small {
      assert forall i :: 0 <= i < |text| ==> LowerChar(text[i]) == Lower(text)[i];
    }
  }

  lemma OneLetter(c: char, small: char, capital: char)
    requires 'a' <= small <= 'z' && small as int == capital as int + 32
    ensures LowerChar(c) == small <==> c == small || c == capital
  {
  }

  lemma ParseWordDoc(py: Python, s: string, pos: nat, value: Value, text: string)
    requires At(s, pos, text) && ProperWord(value, text)
    ensures ParseValue(py, s, pos) == Ok(value, pos + |text|)
  {
    hide StartsTriple, AnyCase, LowerChar, Lower;
    AnyCaseIsLower(text);
    AtIs(s, pos, text);
    WordLength(text);
    WordLetter(text);
    FirstChar(s, pos, text);
    NotTriple(s, pos);
    WordStart(s, pos, "true");
    WordStart(s, pos, "false");
  }

  lemma WordLength(text: string)
    ensures |Lower(text)| == |text|
  {
  }

  lemma WordLetter(text: string)
    requires text != ""
    ensures LowerChar(text[0]) == Lower(text)[0]
    ensures LowerChar(text[0]) in "tfn" ==> !IsSpace(text[0]) && !IsQuote(text[0]) && text[0] !in "{[]}"
  {
  }

  lemma WordStart(s: string, pos: nat, word: string)
    requires pos < |s| && word != []
    ensures Spells(s, pos, word) ==> LowerChar(s[pos]) == word[0]
  {
    if Spells(s, pos, word) {
      assert Lower(s[pos..pos + |word|])[0] == LowerChar(s[pos]);
    }
  }

  lemma NotAWord(s: string, pos: nat)
    requires pos < |s| && s[pos] in "-+0123456789."
    ensures !Spells(s, pos, "true") && !Spells(s, pos, "false") && !Spells(s, pos, "null")
  {
    WordStart(s, pos, "true");
    WordStart(s, pos, "false");
    WordStart(s, pos, "null");
  }

  lemma NotTriple(s: string, pos: nat)
    requires pos < |s| && !IsQuote(s[pos])
    ensures !StartsTriple(s, pos)
  {
    if StartsTriple(s, pos) {
      TripleChars(s, pos);
    }
  }

  lemma OpenBracket(py: Python, s: string, pos: nat)
    requires pos < |s|
    ensures s[pos] == '[' ==> ParseValue(py, s, pos) == ArrayLoop(py, s, SkipWs(s, pos + 1), [])
    ensures s[pos] == '{' ==> ParseValue(py, s, pos) == ObjectLoop(py, s, SkipWs(s, pos + 1), [])
  {
    hide ArrayLoop, ObjectLoop, ParseString, ParseTriple, ParseNumber, Spells, StartsTriple;
  }

  /** The parser reads any printed document, wherever it stands, up to its last character. */
  lemma {:induction false} ParsePrinted(py: Python, s: string, pos: nat, d: Doc)
    requires At(s, pos, Print(d)) && Ends(s, pos + |Print(d)|) && Written(py, d)
    ensures ParseValue(py, s, pos) == Ok(Read(py, d), pos + |Print(d)|)
    decreases d
  {
    hide *;
    match d {
      case DArr(lead, es) =>
        ArrayLayout(py, s, pos, lead, es);
        OpenBracket(py, s, pos);
        ParseElements(py, s, pos + 1 + |lead|, es, []);
      case DObj(lead, ms) =>
        ObjectLayout(py, s, pos, lead, ms);
        OpenBracket(py, s, pos);
        ParseMembers(py, s, pos + 1 + |lead|, ms, []);
      case _ =>
        ParseScalar(py, s, pos, d);
    }
  }

  lemma ArrayIs(py: Python, lead: string, es: Elements)
    ensures Print(DArr(lead, es)) == "[" + (lead + (PrintElements(es) + "]"))
    ensures Read(py, DArr(lead, es)) == Arr(ReadElements(py, es, []))
    ensures Written(py, DArr(lead, es)) ==> Blank(lead) && ElementsWritten(py, es)
  {
    hide PrintElements, ReadElements, ElementsWritten, Blank;
  }

  lemma ObjectIs(py: Python, lead: string, ms: Members)
    ensures Print(DObj(lead, ms)) == "{" + (lead + (PrintMembers(ms) + "}"))
    ensures Read(py, DObj(lead, ms)) == Obj(ReadMembers(py, ms, []))
    ensures Written(py, DObj(lead, ms)) ==> Blank(lead) && MembersWritten(py, ms)
  {
    hide PrintMembers, ReadMembers, MembersWritten, Blank;
  }

  lemma ArrayLayout(py: Python, s: string, pos: nat, lead: string, es: Elements)
    requires At(s, pos, Print(DArr(lead, es))) && Written(py, DArr(lead, es))
    ensures s[pos] == '[' && SkipWs(s, pos + 1) == pos + 1 + |lead| && At(s, pos + 1 + |lead|, PrintElements(es) + "]")
    ensures |Print(DArr(lead, es))| == |lead| + |PrintElements(es)| + 2 && ElementsWritten(py, es)
    ensures Read(py, DArr(lead, es)) == Arr(ReadElements(py, es, []))
  {
    hide *;
    ArrayIs(py, lead, es);
    AtSplit(s, pos, "[", lead + (PrintElements(es) + "]"));
    AtSplit(s, pos + 1, lead, PrintElements(es) + "]");
    FirstChar(s, pos, "[");
    ElementsStart(py, s, pos + 1 + |lead|, es);
    SkipBlank(s, pos + 1, lead);
  }

  lemma ObjectLayout(py: Python, s: string, pos: nat, lead: string, ms: Members)
    requires At(s, pos, Print(DObj(lead, ms))) && Written(py, DObj(lead, ms))
    ensures s[pos] == '{' && SkipWs(s, pos + 1) == pos + 1 + |lead| && At(s, pos + 1 + |lead|, PrintMembers(ms) + "}")
    ensures |Print(DObj(lead, ms))| == |lead| + |PrintMembers(ms)| + 2 && MembersWritten(py, ms)
    ensures Read(py, DObj(lead, ms)) == Obj(ReadMembers(py, ms, []))
  {
    hide *;
    ObjectIs(py, lead, ms);
    AtSplit(s, pos, "{", lead + (PrintMembers(ms) + "}"));
    AtSplit(s, pos + 1, lead, PrintMembers(ms) + "}");
    FirstChar(s, pos, "{");
    MembersStart(py, s, pos + 1 + |lead|, ms);
    SkipBlank(s, pos + 1, lead);
  }

  lemma ElementsStart(py: Python, s: string, pos: nat, es: Elements)
    requires At(s, pos, PrintElements(es) + "]") && ElementsWritten(py, es)
    ensures pos < |s| && !IsSpace(s[pos]) && (s[pos] == ']' <==> es.NoElements?)
  {
    FirstChar(s, pos, PrintElements(es) + "]");
    if es.Element? {
      PrintedStart(py, es.doc);
      assert PrintElements(es)[0] == Print(es.doc)[0];
    }
  }

  lemma MembersStart(py: Python, s: string, pos: nat, ms: Members)
    requires At(s, pos, PrintMembers(ms) + "}") && MembersWritten(py, ms)
    ensures pos < |s| && !IsSpace(s[pos]) && (s[pos] == '}' <==> ms.NoMembers?)
  {
    hide PrintPieces, Print;
    FirstChar(s, pos, PrintMembers(ms) + "}");
    if ms.Member? {
      QuoteIs(ms.key);
    }
  }

  /** One turn of the array loop. */
  lemma ArrayTurn(py: Python, s: string, pos: nat, lst: seq<Value>, value: Value, p1: nat)
    requires pos < |s| && s[pos] != ']' && ParseValue(py, s, pos) == Ok(value, p1)
    ensures var p2 := SkipWs(s, p1);
            p2 < |s| ==>
              ArrayLoop(py, s, pos, lst)
              == if s[p2] == ',' then ArrayLoop(py, s, SkipWs(s, p2 + 1), lst + [value])
                 else if s[p2] == ']' then Ok(Arr(lst + [value]), p2 + 1)
                 else Err
  {
    hide ParseValue, SkipWs;
  }

  /** Behind a value come its white space and then, at `p2`, a comma or a closing bracket. */
  lemma AfterValue(s: string, p1: nat, trail: string, p2: nat)
    requires p2 == p1 + |trail| < |s| && At(s, p1, trail) && Blank(trail) && s[p2] in ",]}"
    ensures SkipWs(s, p1) == p2 && Ends(s, p1)
  {
    SkipBlank(s, p1, trail);
    if trail != [] {
      FirstChar(s, p1, trail);
    }
  }

  /** A comma at `p2`, then white space and the rest, or the closing bracket. */
  ghost predicate Continues(s: string, p2: nat, comma: bool, close: char, lead: string, tail: string) {
    && p2 < |s|
    && s[p2] == (if comma then ',' else close)
    && (comma ==> At(s, p2 + 1, lead) && At(s, p2 + 1 + |lead|, tail))
  }

  lemma SplitSeparator(s: string, p2: nat, comma: bool, lead: string, rest: string, close: char)
    requires At(s, p2, Comma(comma, lead) + (rest + [close])) && (!comma ==> rest == "")
    ensures Continues(s, p2, comma, close, lead, rest + [close])
  {
    var tail := rest + [close];
    FirstChar(s, p2, Comma(comma, lead) + tail);
    if comma {
      assert Comma(comma, lead) + tail == "," + (lead + tail);
      AtSplit(s, p2, ",", lead + tail);
      AtSplit(s, p2 + 1, lead, tail);
    }
  }

  lemma ElementsFirst(es: Elements)
    requires es.Element?
    ensures PrintElements(es)
            == Print(es.doc) + es.trail + Comma(es.comma, es.lead) + PrintElements(es.rest)
    ensures es.rest.NoElements? ==> PrintElements(es.rest) == ""
  {
    hide Print, Comma;
  }

  lemma ElementsText(es: Elements)
    requires es.Element?
    ensures PrintElements(es) + "]"
            == Print(es.doc) + (es.trail + (Comma(es.comma, es.lead) + (PrintElements(es.rest) + "]")))
    ensures |PrintElements(es)|
            == |Print(es.doc)| + |es.trail| + |Comma(es.comma, es.lead)| + |PrintElements(es.rest)|
    ensures es.rest.NoElements? ==> PrintElements(es.rest) == ""
  {
    hide *;
    ElementsFirst(es);
    Regroup4(Print(es.doc), es.trail, Comma(es.comma, es.lead), PrintElements(es.rest), "]");
  }

  lemma Regroup4(a: string, b: string, c: string, d: string, e: string)
    ensures a + b + c + d + e == a + (b + (c + (d + e)))
  {
  }

  /** Where the parts of a non-empty element list are. */
  lemma ElementLayout(s: string, pos: nat, es: Elements) returns (p1: nat, p2: nat)
    requires es.Element? && At(s, pos, PrintElements(es) + "]") && (es.rest.Element? ==> es.comma)
    ensures p1 == pos + |Print(es.doc)| && p2 == p1 + |es.trail|
    ensures At(s, pos, Print(es.doc)) && At(s, p1, es.trail)
    ensures Continues(s, p2, es.comma, ']', es.lead, PrintElements(es.rest) + "]")
    ensures p2 + |Comma(es.comma, es.lead)| + |PrintElements(es.rest)| == pos + |PrintElements(es)|
  {
    hide *;
    var after := Comma(es.comma, es.lead) + (PrintElements(es.rest) + "]");
    ElementsText(es);
    AtSplit(s, pos, Print(es.doc), es.trail + after);
    p1 := pos + |Print(es.doc)|;
    AtSplit(s, p1, es.trail, after);
    p2 := p1 + |es.trail|;
    SplitSeparator(s, p2, es.comma, es.lead, PrintElements(es.rest), ']');
  }

  lemma SeparatorAt(s: string, p2: nat, comma: bool, close: char, lead: string, tail: string)
    requires Continues(s, p2, comma, close, lead, tail)
    ensures p2 < |s| && s[p2] == (if comma then ',' else close)
    ensures comma ==> At(s, p2 + 1, lead) && At(s, p2 + 1 + |lead|, tail)
    ensures |Comma(comma, lead)| == if comma then 1 + |lead| else 0
  {
  }

  lemma ReadElementsFirst(py: Python, es: Elements, lst: seq<Value>)
    requires ElementsWritten(py, es)
    ensures es.NoElements? ==> ReadElements(py, es, lst) == lst
    ensures es.Element? ==> ReadElements(py, es, lst) == ReadElements(py, es.rest, lst + [Read(py, es.doc)])
    ensures es.Element? ==> Blank(es.lead) && ElementsWritten(py, es.rest) && (es.rest.Element? ==> es.comma)
  {
    hide Read, Written;
  }

  lemma {:induction false} ParseElements(py: Python, s: string, pos: nat, es: Elements, lst: seq<Value>)
    requires At(s, pos, PrintElements(es) + "]") && ElementsWritten(py, es)
    ensures ArrayLoop(py, s, pos, lst) == Ok(Arr(ReadElements(py, es, lst)), pos + |PrintElements(es)| + 1)
    decreases es
  {
    hide *;
    ElementsStart(py, s, pos, es);
    NothingPrinted();
    ReadElementsFirst(py, es, lst);
    if es.Element? {
      var p1, p2 := ElementLayout(s, pos, es);
      SeparatorAt(s, p2, es.comma, ']', es.lead, PrintElements(es.rest) + "]");
      ParseElement(py, s, pos, es, lst, p1, p2);
      ReadElementsFirst(py, es.rest, lst + [Read(py, es.doc)]);
      if es.comma {
        var next := p2 + 1 + |es.lead|;
        ElementsStart(py, s, next, es.rest);
        SkipBlank(s, p2 + 1, es.lead);
        ParseElements(py, s, next, es.rest, lst + [Read(py, es.doc)]);
      }
    } else {
      ClosingBracket(py, s, pos);
    }
  }

  /** One turn of the array loop over a printed element. */
  lemma {:induction false} ParseElement(py: Python, s: string, pos: nat, es: Elements, lst: seq<Value>, p1: nat, p2: nat)
    requires es.Element? && ElementsWritten(py, es)
    requires p1 == pos + |Print(es.doc)| && p2 == p1 + |es.trail| < |s| && s[p2] in ",]"
    requires At(s, pos, Print(es.doc)) && At(s, p1, es.trail)
    ensures var lst' := lst + [Read(py, es.doc)];
            ArrayLoop(py, s, pos, lst)
            == if s[p2] == ',' then ArrayLoop(py, s, SkipWs(s, p2 + 1), lst') else Ok(Arr(lst'), p2 + 1)
    decreases es, 0
  {
    hide ParseValue, ArrayLoop, ObjectLoop, SkipWs, At, Ends, Print, Read;
    PrintedStart(py, es.doc);
    FirstChar(s, pos, Print(es.doc));
    AfterValue(s, p1, es.trail, p2);
    ParsePrinted(py, s, pos, es.doc);
    ArrayTurn(py, s, pos, lst, Read(py, es.doc), p1);
  }

  lemma ClosingBracket(py: Python, s: string, pos: nat)
    requires pos < |s|
    ensures s[pos] == ']' ==> forall lst :: ArrayLoop(py, s, pos, lst) == Ok(Arr(lst), pos + 1)
    ensures s[pos] == '}' ==> forall obj :: ObjectLoop(py, s, pos, obj) == Ok(Obj(obj), pos + 1)
  {
    hide ParseValue, ParseKey;
  }

  lemma NothingPrinted()
    ensures PrintElements(NoElements) == "" && PrintMembers(NoMembers) == ""
  {
  }

  /** One turn of the object loop. */
  lemma ObjectTurn(py: Python, s: string, pos: nat, obj: seq<(Value, Value)>, key: Value, k: nat, colon: nat,
                   value: Value, p1: nat)
    requires pos < |s| && IsQuote(s[pos]) && ParseString(py, s, pos) == Ok(key, k)
    requires k <= |s| && SkipWs(s, k) == colon < |s| && s[colon] == ':'
    requires ParseValue(py, s, SkipWs(s, colon + 1)) == Ok(value, p1)
    ensures var p2 := SkipWs(s, p1);
            p2 < |s| ==>
              ObjectLoop(py, s, pos, obj)
              == if s[p2] == ',' then ObjectLoop(py, s, SkipWs(s, p2 + 1), SetField(obj, key, value))
                 else if s[p2] == '}' then Ok(Obj(SetField(obj, key, value)), p2 + 1)
                 else Err
  {
    hide ParseValue, ParseString, SetField, SkipWs, ParseKey;
    KeyAt(py, s, pos);
  }

  lemma KeyAt(py: Python, s: string, pos: nat)
    requires pos < |s| && IsQuote(s[pos])
    ensures SkipWs(s, pos) == pos && ParseKey(py, s, pos) == ParseString(py, s, pos)
  {
    hide ParseString;
  }

  /** Where the parts of a non-empty member list are. */
  lemma MemberLayout(s: string, pos: nat, ms: Members) returns (k: nat, colon: nat, p0: nat, p1: nat, p2: nat)
    requires ms.Member? && At(s, pos, PrintMembers(ms) + "}") && (ms.rest.Member? ==> ms.comma)
    ensures k == pos + |PrintQuoted(ms.key)| && colon == k + |ms.gap| && p0 == colon + 1 + |ms.gap'|
    ensures p1 == p0 + |Print(ms.doc)| && p2 == p1 + |ms.trail|
    ensures At(s, pos, PrintQuoted(ms.key)) && At(s, k, ms.gap) && At(s, colon + 1, ms.gap')
    ensures colon < |s| && s[colon] == ':'
    ensures At(s, p0, Print(ms.doc)) && At(s, p1, ms.trail)
    ensures Continues(s, p2, ms.comma, '}', ms.lead, PrintMembers(ms.rest) + "}")
    ensures p2 + |Comma(ms.comma, ms.lead)| + |PrintMembers(ms.rest)| == pos + |PrintMembers(ms)|
  {
    hide *;
    var after := ms.trail + (Comma(ms.comma, ms.lead) + (PrintMembers(ms.rest) + "}"));
    var value := ms.gap' + (Print(ms.doc) + after);
    MembersText(ms);
    AtSplit(s, pos, PrintQuoted(ms.key), ms.gap + (":" + value));
    k := pos + |PrintQuoted(ms.key)|;
    AtSplit(s, k, ms.gap, ":" + value);
    colon := k + |ms.gap|;
    AtSplit(s, colon, ":", value);
    FirstChar(s, colon, ":");
    p0, p1, p2 := ValueLayout(s, colon + 1, ms);
  }

  lemma MembersText(ms: Members)
    requires ms.Member?
    ensures PrintMembers(ms) + "}"
            == PrintQuoted(ms.key)
               + (ms.gap + (":" + (ms.gap' + (Print(ms.doc) + (ms.trail + (Comma(ms.comma, ms.lead)
                                                                           + (PrintMembers(ms.rest) + "}")))))))
  {
    hide *;
    MembersFirst(ms);
    var comma := Comma(ms.comma, ms.lead);
    Regroup(PrintQuoted(ms.key), ms.gap, ":", ms.gap', Print(ms.doc), ms.trail, comma, PrintMembers(ms.rest), "}");
  }

  lemma MembersFirst(ms: Members)
    requires ms.Member?
    ensures PrintMembers(ms)
            == PrintQuoted(ms.key) + ms.gap + ":" + ms.gap' + Print(ms.doc) + ms.trail + Comma(ms.comma, ms.lead)
               + PrintMembers(ms.rest)
  {
    hide Print, PrintQuoted, Comma;
  }

  lemma Regroup(a: string, b: string, c: string, d: string, e: string, f: string, g: string, h: string, z: string)
    ensures a + b + c + d + e + f + g + h + z == a + (b + (c + (d + (e + (f + (g + (h + z)))))))
  {
    Regroup4(a, b, c, d, e + (f + (g + (h + z))));
    Regroup4(a + b + c + d, e, f, g, h + z);
    assert a + b + c + d + e + f + g + h + z == a + b + c + d + e + f + g + (h + z);
  }

  lemma ValueLayout(s: string, pos: nat, ms: Members) returns (p0: nat, p1: nat, p2: nat)
    requires ms.Member? && (ms.rest.Member? ==> ms.comma)
    requires At(s, pos, ms.gap' + (Print(ms.doc) + (ms.trail + (Comma(ms.comma, ms.lead)
                                                               + (PrintMembers(ms.rest) + "}")))))
    ensures p0 == pos + |ms.gap'| && p1 == p0 + |Print(ms.doc)| && p2 == p1 + |ms.trail|
    ensures At(s, pos, ms.gap') && At(s, p0, Print(ms.doc)) && At(s, p1, ms.trail)
    ensures Continues(s, p2, ms.comma, '}', ms.lead, PrintMembers(ms.rest) + "}")
  {
    hide At, Print, Comma, Continues;
    NothingPrinted();
    var after := Comma(ms.comma, ms.lead) + (PrintMembers(ms.rest) + "}");
    AtSplit(s, pos, ms.gap', Print(ms.doc) + (ms.trail + after));
    p0 := pos + |ms.gap'|;
    AtSplit(s, p0, Print(ms.doc), ms.trail + after);
    p1 := p0 + |Print(ms.doc)|;
    AtSplit(s, p1, ms.trail, after);
    p2 := p1 + |ms.trail|;
    SplitSeparator(s, p2, ms.comma, ms.lead, PrintMembers(ms.rest), '}');
  }

  lemma {:induction false} ParseMembers(py: Python, s: string, pos: nat, ms: Members, obj: seq<(Value, Value)>)
    requires At(s, pos, PrintMembers(ms) + "}") && MembersWritten(py, ms)
    ensures ObjectLoop(py, s, pos, obj) == Ok(Obj(ReadMembers(py, ms, obj)), pos + |PrintMembers(ms)| + 1)
    decreases ms
  {
    hide *;
    MembersStart(py, s, pos, ms);
    NothingPrinted();
    ReadMembersFirst(py, ms, obj);
    if ms.Member? {
      var k, colon, p0, p1, p2 := MemberLayout(s, pos, ms);
      SeparatorAt(s, p2, ms.comma, '}', ms.lead, PrintMembers(ms.rest) + "}");
      ParseMember(py, s, pos, ms, obj, k, colon, p0, p1, p2);
      var obj' := SetField(obj, Convert(py, Meaning(ms.key.pieces)), Read(py, ms.doc));
      ReadMembersFirst(py, ms.rest, obj');
      if ms.comma {
        var next := p2 + 1 + |ms.lead|;
        MembersStart(py, s, next, ms.rest);
        SkipBlank(s, p2 + 1, ms.lead);
        ParseMembers(py, s, next, ms.rest, obj');
      }
    } else {
      ClosingBracket(py, s, pos);
    }
  }

  lemma ReadMembersFirst(py: Python, ms: Members, obj: seq<(Value, Value)>)
    requires MembersWritten(py, ms)
    ensures ms.NoMembers? ==> ReadMembers(py, ms, obj) == obj
    ensures ms.Member? ==>
              ReadMembers(py, ms, obj) == ReadMembers(py, ms.rest, SetField(obj, Convert(py, Meaning(ms.key.pieces)), Read(py, ms.doc)))
    ensures ms.Member? ==> Blank(ms.lead) && MembersWritten(py, ms.rest) && (ms.rest.Member? ==> ms.comma)
  {
    hide Read, Written, SetField, Convert;
  }

  /** One turn of the object loop over a printed member. */
  lemma {:induction false} ParseMember(py: Python, s: string, pos: nat, ms: Members, obj: seq<(Value, Value)>,
                                       k: nat, colon: nat, p0: nat, p1: nat, p2: nat)
    requires ms.Member? && MembersWritten(py, ms)
    requires k == pos + |PrintQuoted(ms.key)| && colon == k + |ms.gap| && p0 == colon + 1 + |ms.gap'|
    requires p1 == p0 + |Print(ms.doc)| && p2 == p1 + |ms.trail| < |s| && s[p2] in ",}"
    requires At(s, pos, PrintQuoted(ms.key)) && At(s, k, ms.gap) && At(s, colon + 1, ms.gap')
    requires colon < |s| && s[colon] == ':'
    requires At(s, p0, Print(ms.doc)) && At(s, p1, ms.trail)
    ensures var obj' := SetField(obj, Convert(py, Meaning(ms.key.pieces)), Read(py, ms.doc));
            ObjectLoop(py, s, pos, obj)
            == if s[p2] == ',' then ObjectLoop(py, s, SkipWs(s, p2 + 1), obj') else Ok(Obj(obj'), p2 + 1)
    decreases ms, 0
  {
    hide ParseValue, ArrayLoop, ObjectLoop, SkipWs, At, Ends, Print, Read, Convert, PrintQuoted, ParseString, SetField;
    ParsePrintedString(py, s, pos, ms.key);
    SkipBlank(s, k, ms.gap);
    PrintedStart(py, ms.doc);
    FirstChar(s, p0, Print(ms.doc));
    SkipBlank(s, colon + 1, ms.gap');
    AfterValue(s, p1, ms.trail, p2);
    ParsePrinted(py, s, p0, ms.doc);
    ObjectTurn(py, s, pos, obj, Convert(py, Meaning(ms.key.pieces)), k, colon, Read(py, ms.doc), p1);
  }

  // ---------------------------------------------------------------- extraction

  /** Nothing but the printed object is between the outermost braces of the text. */
  lemma OutermostIsPrinted(before: string, t: string, after: string)
    requires t != [] && t[0] == '{' && t[|t| - 1] == '}' && '{' !in before && '}' !in after
    ensures IndexOf(before + t + after, '{') < |before + t + after| && Outermost(before + t + after) == t
  {
    var text := before + t + after;
    assert text[|before|] == '{' && text[|before| + |t| - 1] == '}';
    assert forall i :: 0 <= i < |before| ==> text[i] == before[i];
    assert forall i :: |before| + |t| <= i < |text| ==> text[i] == after[i - |before| - |t|];
    assert IndexOf(text, '{') == |before| && AfterLast(text, '}') == |before| + |t|;
    assert text[|before|..|before| + |t|] == t;
  }

  /** From any surrounding text without a brace in the way, `extract_json` reads the printed object. */
  lemma ExtractPrinted(py: Python, before: string, d: Doc, after: string)
    requires d.DObj? && Written(py, d) && '{' !in before && '}' !in after
    ensures ExtractJson(py, before + Print(d) + after) == Some(Read(py, d))
  {
    hide Outermost, IndexOf, ParseValue, PrintMembers, Read, Written;
    var t := Print(d);
    OutermostIsPrinted(before, t, after);
    assert t[0..|t|] == t;
    ParsePrinted(py, t, 0, d);
  }

  // ---------------------------------------------------------------- when the value survives

  /** All strings and keys stay strings when converted, and no object repeats a key. */
  ghost predicate Faithful(py: Python, d: Doc) {
    match d
    case DQuoted(q) => Convert(py, Meaning(q.pieces)) == Str(Meaning(q.pieces))
    case DTriple(_, text) => Convert(py, text) == Str(text)
    case DArr(_, es) => FaithfulElements(py, es)
    case DObj(_, ms) => FaithfulMembers(py, ms, {})
    case _ => true
  }

  ghost predicate FaithfulElements(py: Python, es: Elements) {
    es.Element? ==> Faithful(py, es.doc) && FaithfulElements(py, es.rest)
  }

  ghost predicate FaithfulMembers(py: Python, ms: Members, seen: set<string>) {
    ms.Member? ==>
      && Convert(py, Meaning(ms.key.pieces)) == Str(Meaning(ms.key.pieces)) && Meaning(ms.key.pieces) !in seen
      && Faithful(py, ms.doc) && FaithfulMembers(py, ms.rest, seen + {Meaning(ms.key.pieces)})
  }

  function Count(ms: Members): nat {
    if ms.NoMembers? then 0 else 1 + Count(ms.rest)
  }

  /** `obj`'s keys are the strings in `seen`. */
  ghost predicate HasKeys(obj: seq<(Value, Value)>, seen: set<string>) {
    && (forall i :: 0 <= i < |obj| ==> obj[i].0.Str? && obj[i].0.s in seen)
    && (forall k :: k in seen ==> exists i :: 0 <= i < |obj| && obj[i].0 == Str(k))
  }

  lemma SetNewField(obj: seq<(Value, Value)>, seen: set<string>, key: string, v: Value)
    requires HasKeys(obj, seen)
    ensures key !in seen ==> SetField(obj, Str(key), v) == obj + [(Str(key), v)]
    ensures key !in seen ==> HasKeys(obj + [(Str(key), v)], seen + {key})
    ensures key in seen ==> |SetField(obj, Str(key), v)| == |obj|
  {
    var obj' := obj + [(Str(key), v)];
    if key in seen {
      var i :| 0 <= i < |obj| && obj[i].0 == Str(key);
      assert KeyClass(obj[i].0) == KeyClass(Str(key));
    } else {
      forall k | k in seen + {key}
        ensures exists i :: 0 <= i < |obj'| && obj'[i].0 == Str(k)
      {
        if k in seen {
          var i :| 0 <= i < |obj| && obj[i].0 == Str(k);
          assert obj'[i].0 == Str(k);
        } else {
          assert obj'[|obj|].0 == Str(k);
        }
      }
    }
  }

  /** Members add at most one field each; if each adds one, the fields there before stay as they are. */
  lemma {:induction false} MembersOnlyAdd(py: Python, ms: Members, obj: seq<(Value, Value)>)
    ensures |obj| <= |ReadMembers(py, ms, obj)| <= |obj| + Count(ms)
    ensures |ReadMembers(py, ms, obj)| == |obj| + Count(ms) ==> obj <= ReadMembers(py, ms, obj)
  {
    if ms.Member? {
      MembersOnlyAdd(py, ms.rest, SetField(obj, Convert(py, Meaning(ms.key.pieces)), Read(py, ms.doc)));
    }
  }

  lemma {:induction false} ExactCount(py: Python, ms: Members)
    ensures |ExactMembers(py, ms)| == Count(ms)
  {
    if ms.Member? {
      ExactCount(py, ms.rest);
    }
  }

  lemma {:induction false} ElementsSurvive(py: Python, es: Elements, lst: seq<Value>)
    ensures |ReadElements(py, es, lst)| == |lst| + |ExactElements(py, es)| && lst <= ReadElements(py, es, lst)
    ensures ReadElements(py, es, lst) == lst + ExactElements(py, es) <==> FaithfulElements(py, es)
    decreases es
  {
    if es.Element? {
      var lst' := lst + [Read(py, es.doc)];
      ElementsSurvive(py, es.rest, lst');
      ValueSurvives(py, es.doc);
      var all, exact := ReadElements(py, es, lst), lst + ExactElements(py, es);
      assert all[|lst|] == Read(py, es.doc) && exact[|lst|] == Exact(py, es.doc);
      if Read(py, es.doc) == Exact(py, es.doc) {
        assert exact == lst' + ExactElements(py, es.rest);
      }
    } else {
      assert lst + ExactElements(py, es) == lst;
    }
  }

  /** If all members come out as they went in, the first one did. */
  lemma FirstMemberSurvives(py: Python, ms: Members, obj: seq<(Value, Value)>, seen: set<string>)
    requires HasKeys(obj, seen) && ms.Member? && ReadMembers(py, ms, obj) == obj + ExactMembers(py, ms)
    ensures Convert(py, Meaning(ms.key.pieces)) == Str(Meaning(ms.key.pieces)) && Meaning(ms.key.pieces) !in seen && Read(py, ms.doc) == Exact(py, ms.doc)
  {
    hide Convert, Read, Exact;
    var k, v := Convert(py, Meaning(ms.key.pieces)), Read(py, ms.doc);
    var obj' := SetField(obj, k, v);
    MembersOnlyAdd(py, ms.rest, obj');
    ExactCount(py, ms);
    var all := ReadMembers(py, ms, obj);
    assert |obj'| == |obj| + 1;
    assert all[|obj|] == obj'[|obj|] == (k, v);
    assert all[|obj|] == (Str(Meaning(ms.key.pieces)), Exact(py, ms.doc));
    SetNewField(obj, seen, Meaning(ms.key.pieces), v);
  }

  lemma FirstMemberKept(py: Python, ms: Members, obj: seq<(Value, Value)>, seen: set<string>)
    requires HasKeys(obj, seen) && ms.Member? && Meaning(ms.key.pieces) !in seen
    requires Convert(py, Meaning(ms.key.pieces)) == Str(Meaning(ms.key.pieces)) && Read(py, ms.doc) == Exact(py, ms.doc)
    ensures var obj' := obj + [(Str(Meaning(ms.key.pieces)), Read(py, ms.doc))];
            && HasKeys(obj', seen + {Meaning(ms.key.pieces)})
            && ReadMembers(py, ms, obj) == ReadMembers(py, ms.rest, obj')
            && obj + ExactMembers(py, ms) == obj' + ExactMembers(py, ms.rest)
  {
    hide Convert, Read, Exact, SetField, HasKeys;
    SetNewField(obj, seen, Meaning(ms.key.pieces), Read(py, ms.doc));
  }

  lemma {:induction false} MembersSurvive(py: Python, ms: Members, obj: seq<(Value, Value)>, seen: set<string>)
    requires HasKeys(obj, seen)
    ensures ReadMembers(py, ms, obj) == obj + ExactMembers(py, ms) <==> FaithfulMembers(py, ms, seen)
    decreases ms
  {
    if ms.Member? {
      hide Convert, Read, Exact, SetField, Faithful, HasKeys;
      var v := Read(py, ms.doc);
      ValueSurvives(py, ms.doc);
      if Convert(py, Meaning(ms.key.pieces)) == Str(Meaning(ms.key.pieces)) && Meaning(ms.key.pieces) !in seen && v == Exact(py, ms.doc) {
        FirstMemberKept(py, ms, obj, seen);
        MembersSurvive(py, ms.rest, obj + [(Str(Meaning(ms.key.pieces)), v)], seen + {Meaning(ms.key.pieces)});
      } else if ReadMembers(py, ms, obj) == obj + ExactMembers(py, ms) {
        FirstMemberSurvives(py, ms, obj, seen);
      }
    } else {
      assert obj + ExactMembers(py, ms) == obj;
    }
  }

  /** A document's value survives exactly if the document is faithful. */
  lemma {:induction false} ValueSurvives(py: Python, d: Doc)
    ensures Read(py, d) == Exact(py, d) <==> Faithful(py, d)
    decreases d
  {
    match d {
      case DArr(_, es) =>
        ElementsSurvive(py, es, []);
        assert [] + ExactElements(py, es) == ExactElements(py, es);
      case DObj(_, ms) =>
        MembersSurvive(py, ms, [], {});
        assert [] + ExactMembers(py, ms) == ExactMembers(py, ms);
      case _ =>
    }
  }

  /**
   Parser inverts printer: wrapped in text with no "{" before and no "}" after and printed with any white space,
   an object is given back exactly if none of its strings and keys looks like a number, `true`, `false` or `null`
   and none of its objects repeats a key.
   */
  lemma ExtractInvertsPrint(py: Python, before: string, d: Doc, after: string)
    requires d.DObj? && Written(py, d) && '{' !in before && '}' !in after
    ensures ExtractJson(py, before + Print(d) + after) == Some(Exact(py, d)) <==> Faithful(py, d)
  {
    ExtractPrinted(py, before, d, after);
    ValueSurvives(py, d);
  }

  lemma ConvertTwelve(py: Python)
    ensures Convert(py, "12") == Int(12)
  {
    assert "12"[..1] == "1";
    assert Digits("12") == Some(12);
    assert Lower("12")[0] == '1';
  }

  /** A number-like string is lost: the text {"k":"12"} comes back with a number under that key. */
  lemma NumberLikeStringIsLost(py: Python)
    ensures Print(Twelve()) == "{\"k\":\"12\"}"
    ensures var d := Twelve();
            && ExtractJson(py, Print(d)) == Some(Read(py, d)) && Read(py, d) != Exact(py, d)
    ensures Read(py, DQuoted(Quoted('"', [Raw('1'), Raw('2')]))) == Int(12)
  {
    hide *;
    var d := Twelve();
    TwelveIsMeant();
    TwelveIsWritten(py);
    ConvertTwelve(py);
    TwelveIsLost(py);
    ExtractPrinted(py, "", d, "");
    ValueSurvives(py, d);
    assert "" + Print(d) + "" == Print(d);
  }

  lemma TwelveIsLost(py: Python)
    requires Convert(py, "12") == Int(12) && Meaning([Raw('1'), Raw('2')]) == "12"
    ensures Twelve().DObj? && !Faithful(py, Twelve())
    ensures Read(py, DQuoted(Quoted('"', [Raw('1'), Raw('2')]))) == Int(12)
  {
    hide Convert, Meaning;
    var doc := DQuoted(Quoted('"', [Raw('1'), Raw('2')]));
    assert !Faithful(py, doc) && !FaithfulMembers(py, Twelve().members, {});
  }

  function Twelve(): Doc {
    DObj("", Member(Quoted('"', [Raw('k')]), "", "", DQuoted(Quoted('"', [Raw('1'), Raw('2')])), "", false, "", NoMembers))
  }

  lemma TwelveIsWritten(py: Python)
    ensures Written(py, Twelve())
  {
    var ms := Twelve().members;
    assert MembersWritten(py, NoMembers);
    assert Written(py, ms.doc) && Proper(ms.key);
  }

  lemma TwelveIsMeant()
    ensures Meaning([Raw('1'), Raw('2')]) == "12" && PrintPieces([Raw('1'), Raw('2')]) == "12"
    ensures Print(Twelve()) == "{\"k\":\"12\"}"
  {
    assert PrintMembers(NoMembers) == "";
    FirstPiece([Raw('1'), Raw('2')]);
    assert [Raw('1'), Raw('2')][1..] == [Raw('2')];
    FirstPiece([Raw('2')]);
    FirstPiece([Raw('k')]);
    FirstPiece([]);
  }

  // ---------------------------------------------------------------- every string can be written

  /** The text with a backslash before each quote of this kind and each backslash. */
  function Escape(text: string, quote: char): (pieces: seq<Piece>)
    ensures |pieces| == |text|
  {
    seq(|text|, i requires 0 <= i < |text| =>
      if text[i] == quote || text[i] == '\\' then Escaped(text[i]) else Raw(text[i]))
  }

  /** With either quote any text can be written so that it is meant. */
  lemma {:induction false} EveryTextCanBeWritten(text: string, quote: char)
    requires quote == '"' || quote == '\''
    ensures Proper(Quoted(quote, Escape(text, quote))) && Meaning(Escape(text, quote)) == text
    decreases |text|
  {
    if text != "" {
      EveryTextCanBeWritten(text[1..], quote);
      assert Escape(text, quote)[1..] == Escape(text[1..], quote);
    }
  }
}
