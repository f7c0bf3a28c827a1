/** What strings and numbers become, and what an object with repeated keys becomes, said without the parser's own functions. */
module JsonValues {
  import opened Json
  import opened JsonRoundTrip
  import opened Wrappers

  // ---------------------------------------------------------------- integers

  function DigitChar(d: nat): char
    requires d < 10
  {
    ('0' as int + d) as char
  }

  function PrintNat(n: nat): (s: string)
    ensures s != ""
  {
    if n < 10 then [DigitChar(n)] else PrintNat(n / 10) + [DigitChar(n % 10)]
  }

  function Zeros(k: nat): string {
    seq(k, _ => '0')
  }

  lemma DigitsGrow(s: string, c: char)
    requires s != "" && IsDigit(c)
    ensures Digits(s + [c]) == if Digits(s) == None then None else Some(10 * Digits(s).value + (c as int - '0' as int))
  {
    assert (s + [c])[..|s|] == s;
  }

  lemma OneDigit(c: char)
    ensures Digits([c]) == if IsDigit(c) then Some(c as int - '0' as int) else None
  {
  }

  lemma {:induction false} ZerosAreNothing(k: nat)
    ensures k > 0 ==> Digits(Zeros(k)) == Some(0)
  {
    if k == 1 {
      assert Zeros(1) == ['0'];
      OneDigit('0');
    } else if k > 1 {
      ZerosAreNothing(k - 1);
      assert Zeros(k) == Zeros(k - 1) + ['0'];
      DigitsGrow(Zeros(k - 1), '0');
    }
  }

  /** Zeros and a printed number are read as that number. */
  lemma {:induction false} PrintedIsRead(k: nat, n: nat)
    ensures Digits(Zeros(k) + PrintNat(n)) == Some(n)
    ensures forall i :: 0 <= i < |PrintNat(n)| ==> IsDigit(PrintNat(n)[i])
  {
    if n >= 10 {
      PrintedIsRead(k, n / 10);
      assert Zeros(k) + PrintNat(n) == (Zeros(k) + PrintNat(n / 10)) + [DigitChar(n % 10)];
      DigitsGrow(Zeros(k) + PrintNat(n / 10), DigitChar(n % 10));
    } else {
      ZerosAreNothing(k);
      OneDigit(DigitChar(n));
      if k == 0 {
        assert Zeros(0) + [DigitChar(n)] == [DigitChar(n)];
      } else {
        DigitsGrow(Zeros(k), DigitChar(n));
      }
    }
  }

  /** Nothing else is read as a number. */
  lemma {:induction false} ReadIsPrinted(s: string, n: nat) returns (k: nat)
    requires Digits(s) == Some(n)
    ensures s == Zeros(k) + PrintNat(n)
    decreases |s|
  {
    var m := |s| - 1;
    var front, c := s[..m], s[m];
    assert s == front + [c];
    var d := c as int - '0' as int;
    if m == 0 {
      k := 0;
      assert s == [c] && Zeros(0) + [c] == [c];
      assert DigitChar(d) == c;
    } else {
      var n' := Digits(front).value;
      var k' := ReadIsPrinted(front, n');
      assert DigitChar(d) == c && n == 10 * n' + d;
      if n' == 0 {
        k := k' + 1;
        assert PrintNat(0) == ['0'];
        assert Zeros(k) == Zeros(k') + ['0'];
      } else {
        k := k';
        assert n / 10 == n' && n % 10 == d;
        assert PrintNat(n) == PrintNat(n') + [c];
      }
    }
  }

  /** An optional sign, any zeros and a number's digits. */
  predicate IsInteger(s: string, sign: string, k: nat, n: nat) {
    (sign == "" || sign == "+" || sign == "-") && s == sign + Zeros(k) + PrintNat(n)
  }

  lemma NoSign(k: nat, n: nat)
    ensures var s := Zeros(k) + PrintNat(n);
            s != "" && s[0] != '+' && s[0] != '-' && SignsAndDigits(s) && '.' !in s && 'e' !in s && 'E' !in s
  {
    PrintedIsRead(k, n);
    var s := Zeros(k) + PrintNat(n);
    assert forall i :: 0 <= i < |s| ==> IsDigit(s[i]);
    hide PrintNat;
  }

  /** Every way to write an integer is read as it. */
  lemma IntegerIsRead(py: Python, s: string, sign: string, k: nat, n: nat)
    requires IsInteger(s, sign, k, n)
    ensures Number(py, s) == Some(Int((if sign == "-" then -1 else 1) * n))
  {
    hide PrintNat, Zeros, Digits;
    var digits := Zeros(k) + PrintNat(n);
    NoSign(k, n);
    PrintedIsRead(k, n);
    assert s == sign + digits;
    if sign == "" {
      assert s == digits;
    } else {
      assert s[1..] == digits && s[0] == sign[0];
    }
  }

  /** Of signs and digits nothing but an integer is read as a number. */
  lemma ReadIsInteger(py: Python, s: string) returns (sign: string, k: nat, n: nat)
    requires (forall i :: 0 <= i < |s| ==> s[i] in "+-0123456789") && Number(py, s).Some?
    ensures IsInteger(s, sign, k, n)
  {
    hide PrintNat, Zeros, Digits;
    assert '.' !in s && 'e' !in s && 'E' !in s;
    if s != [] && (s[0] == '-' || s[0] == '+') {
      sign, n := [s[0]], Digits(s[1..]).value;
      k := ReadIsPrinted(s[1..], n);
      assert s == sign + s[1..];
    } else {
      sign, n := "", Digits(s).value;
      k := ReadIsPrinted(s, n);
      assert s == sign + s;
    }
  }

  /**
   What a string becomes: true, false or null in any case; what Python's `float` makes of it if it has a point or an exponent;
   an integer exactly if it is written as one; what Python's `int` makes of it if it has other characters; else itself.
   */
  lemma ConvertMeans(py: Python, s: string)
    ensures AnyCase(s, "true", "TRUE") ==> Convert(py, s) == Bool(true)
    ensures AnyCase(s, "false", "FALSE") ==> Convert(py, s) == Bool(false)
    ensures AnyCase(s, "null", "NULL") ==> Convert(py, s) == Null
    ensures !AnyCase(s, "true", "TRUE") && !AnyCase(s, "false", "FALSE") && !AnyCase(s, "null", "NULL") ==>
              Convert(py, s) == if Number(py, s).Some? then Number(py, s).value else Str(s)
    ensures '.' in s || 'e' in s || 'E' in s ==> Number(py, s) == py.float(s)
    ensures '.' !in s && 'e' !in s && 'E' !in s && (exists i :: 0 <= i < |s| && s[i] !in "+-0123456789") ==>
              Number(py, s) == py.otherInt(s)
    ensures (forall i :: 0 <= i < |s| ==> s[i] in "+-0123456789") ==>
              (Number(py, s).Some? <==> exists sign: string, k: nat, n: nat :: IsInteger(s, sign, k, n))
    ensures forall sign: string, k: nat, n: nat :: IsInteger(s, sign, k, n) ==> Number(py, s) == Some(Int((if sign == "-" then -1 else 1) * n))
  {
    hide AnyCase, Lower, IsInteger, Number;
    AnyCaseIsLower(s);
    NumberCases(py, s);
    forall sign: string, k: nat, n: nat | IsInteger(s, sign, k, n)
      ensures Number(py, s) == Some(Int((if sign == "-" then -1 else 1) * n))
    {
      IntegerIsRead(py, s, sign, k, n);
    }
    if (forall i :: 0 <= i < |s| ==> s[i] in "+-0123456789") && Number(py, s).Some? {
      var sign, k, n := ReadIsInteger(py, s);
    }
  }

  lemma NumberCases(py: Python, s: string)
    ensures '.' in s || 'e' in s || 'E' in s ==> Number(py, s) == py.float(s)
    ensures '.' !in s && 'e' !in s && 'E' !in s && (exists i :: 0 <= i < |s| && s[i] !in "+-0123456789") ==>
              Number(py, s) == py.otherInt(s)
  {
    hide IntLiteral;
    if i :| 0 <= i < |s| && s[i] !in "+-0123456789" {
      SignOrDigit(s[i]);
      assert !SignsAndDigits(s);
    }
  }

  lemma SignOrDigit(c: char)
    ensures c == '-' || c == '+' || IsDigit(c) <==> c in "+-0123456789"
  {
  }

  // ---------------------------------------------------------------- keys

  /** The number that a key counts as. */
  function NumberOf(k: Value): Option<real> {
    match k
    case Bool(b) => Some(if b then 1.0 else 0.0)
    case Int(i) => Some(i as real)
    case Float(r) => Some(r)
    case _ => None
  }

  /** Equality of Python: numbers and truth values by their number, all else by itself. */
  predicate SameKey(a: Value, b: Value) {
    if NumberOf(a).Some? && NumberOf(b).Some? then NumberOf(a) == NumberOf(b) else a == b
  }

  lemma ClassIsKey(a: Value, b: Value)
    ensures SameKey(a, b) <==> KeyClass(a) == KeyClass(b)
  {
    ClassNumber(a);
    ClassNumber(b);
  }

  lemma ClassNumber(a: Value)
    ensures NumberOf(KeyClass(a)) == NumberOf(a)
    ensures NumberOf(a).Some? ==>
              KeyClass(a) == if NumberOf(a).value.Floor as real == NumberOf(a).value then Int(NumberOf(a).value.Floor)
                             else Float(NumberOf(a).value)
    ensures NumberOf(a).None? ==> KeyClass(a) == a
  {
  }

  type Fields = seq<(Value, Value)>

  /** The members of an object as they are read, one after the other. */
  function MemberList(py: Python, ms: Members): Fields {
    if ms.NoMembers? then []
    else [(Convert(py, Meaning(ms.key.pieces)), Read(py, ms.doc))] + MemberList(py, ms.rest)
  }

  /** The different keys in the order in which they first occur, each as it is there. */
  function FirstKeys(list: Fields): seq<Value> {
    if list == [] then []
    else
      var n := |list| - 1;
      FirstKeys(list[..n]) + if exists i :: 0 <= i < n && SameKey(list[i].0, list[n].0) then [] else [list[n].0]
  }

  /** No later member has an equal key. */
  ghost predicate LastOfKey(list: Fields, i: nat)
    requires i < |list|
  {
    forall j :: i < j < |list| ==> !SameKey(list[j].0, list[i].0)
  }

  /** The dictionary that a list of members leaves. */
  ghost predicate Leaves(list: Fields, fields: Fields) {
    && |fields| == |FirstKeys(list)|
    && (forall f :: 0 <= f < |fields| ==> fields[f].0 == FirstKeys(list)[f])
    && (forall f, g :: 0 <= f < g < |fields| ==> !SameKey(fields[f].0, fields[g].0))
    && (forall i :: 0 <= i < |list| ==> exists f :: 0 <= f < |fields| && SameKey(fields[f].0, list[i].0))
    && forall i, f :: 0 <= i < |list| && 0 <= f < |fields| && LastOfKey(list, i) && SameKey(fields[f].0, list[i].0) ==>
         fields[f].1 == list[i].1
  }

  function Assign(obj: Fields, list: Fields): Fields
    decreases |list|
  {
    if list == [] then obj else Assign(SetField(obj, list[0].0, list[0].1), list[1..])
  }

  lemma {:induction false} AssignLast(obj: Fields, list: Fields, k: Value, v: Value)
    ensures Assign(obj, list + [(k, v)]) == SetField(Assign(obj, list), k, v)
    decreases |list|
  {
    hide SetField;
    if list == [] {
      assert [] + [(k, v)] == [(k, v)] && [(k, v)][1..] == [];
      assert Assign(SetField(obj, k, v), []) == SetField(obj, k, v);
    } else {
      assert (list + [(k, v)])[1..] == list[1..] + [(k, v)];
      AssignLast(SetField(obj, list[0].0, list[0].1), list[1..], k, v);
    }
  }

  lemma {:induction false} ReadIsAssign(py: Python, ms: Members, obj: Fields)
    ensures ReadMembers(py, ms, obj) == Assign(obj, MemberList(py, ms))
    decreases ms
  {
    hide SetField, Convert, Read, Meaning;
    if ms.Member? {
      var k, v := Convert(py, Meaning(ms.key.pieces)), Read(py, ms.doc);
      ReadIsAssign(py, ms.rest, SetField(obj, k, v));
      assert MemberList(py, ms)[1..] == MemberList(py, ms.rest);
    }
  }

  lemma SameKeyIsEquality(a: Value, b: Value, c: Value)
    ensures SameKey(a, a) && (SameKey(a, b) <==> SameKey(b, a)) && (SameKey(a, b) && SameKey(b, c) ==> SameKey(a, c))
  {
    ClassIsKey(a, a);
    ClassIsKey(a, b);
    ClassIsKey(b, a);
    ClassIsKey(b, c);
    ClassIsKey(a, c);
  }

  /** Assigning to a key: its place if an equal one is there, else behind all others. */
  lemma SetFieldIs(fields: Fields, k: Value, v: Value) returns (at: nat)
    ensures at <= |fields| && forall f :: 0 <= f < at ==> !SameKey(fields[f].0, k)
    ensures at < |fields| ==> SameKey(fields[at].0, k) && SetField(fields, k, v) == fields[at := (fields[at].0, v)]
    ensures at == |fields| ==> SetField(fields, k, v) == fields + [(k, v)]
  {
    at := FindKey(fields, k);
    forall f | 0 <= f <= at && f < |fields|
      ensures SameKey(fields[f].0, k) <==> f == at
    {
      ClassIsKey(fields[f].0, k);
    }
  }

  lemma LastOfKeyGrows(list: Fields, last: (Value, Value), i: nat)
    requires i < |list|
    ensures LastOfKey(list + [last], i) <==> LastOfKey(list, i) && !SameKey(last.0, list[i].0)
  {
    var more := list + [last];
    assert more[|list|] == last && more[i] == list[i];
    if LastOfKey(more, i) {
      forall j | i < j < |list|
        ensures !SameKey(list[j].0, list[i].0)
      {
        assert more[j] == list[j];
      }
    }
  }

  /** Whether the last key is new can be asked of the dictionary or of the members. */
  lemma KnownKey(list: Fields, fields: Fields, k: Value)
    requires Leaves(list, fields)
    ensures (exists i :: 0 <= i < |list| && SameKey(list[i].0, k)) <==> exists f :: 0 <= f < |fields| && SameKey(fields[f].0, k)
  {
    hide SameKey, LastOfKey;
    if i :| 0 <= i < |list| && SameKey(list[i].0, k) {
      var f :| 0 <= f < |fields| && SameKey(fields[f].0, list[i].0);
      SameKeyIsEquality(fields[f].0, list[i].0, k);
    }
    if f :| 0 <= f < |fields| && SameKey(fields[f].0, k) {
      var i := FirstIsMember(list, f);
    }
  }

  lemma {:induction false} FirstIsMember(list: Fields, f: nat) returns (i: nat)
    requires f < |FirstKeys(list)|
    ensures i < |list| && list[i].0 == FirstKeys(list)[f]
  {
    var n := |list| - 1;
    if f < |FirstKeys(list[..n])| {
      i := FirstIsMember(list[..n], f);
    } else {
      i := n;
    }
  }

  lemma FirstKeysGrow(list: Fields, last: (Value, Value))
    ensures FirstKeys(list + [last])
            == FirstKeys(list) + if exists i :: 0 <= i < |list| && SameKey(list[i].0, last.0) then [] else [last.0]
  {
    hide SameKey;
    var more, n := list + [last], |list|;
    assert more[..n] == list && more[n] == last;
    assert forall i :: 0 <= i < n ==> more[i] == list[i];
    if i :| 0 <= i < n && SameKey(list[i].0, last.0) {
      assert SameKey(more[i].0, more[n].0);
    }
  }

  lemma LeavesMore(list: Fields, fields: Fields, k: Value, v: Value)
    requires Leaves(list, fields)
    ensures Leaves(list + [(k, v)], SetField(fields, k, v))
  {
    hide SameKey, SetField, LastOfKey, FirstKeys;
    var more, next := list + [(k, v)], SetField(fields, k, v);
    var at := SetFieldIs(fields, k, v);
    KnownKey(list, fields, k);
    FirstKeysGrow(list, (k, v));
    SameKeyIsEquality(k, k, k);
    if at < |fields| {
      assert SameKey(fields[at].0, k);
      assert FirstKeys(list) + [] == FirstKeys(list);
    }
    assert forall f :: 0 <= f < |fields| ==> next[f].0 == fields[f].0;
    forall f, g | 0 <= f < g < |next|
      ensures !SameKey(next[f].0, next[g].0)
    {
    }
    forall i | 0 <= i < |more|
      ensures exists f :: 0 <= f < |next| && SameKey(next[f].0, more[i].0)
    {
      if i < |list| {
        var f :| 0 <= f < |fields| && SameKey(fields[f].0, list[i].0);
        assert next[f].0 == fields[f].0;
      } else {
        assert SameKey(next[at].0, k);
      }
    }
    forall i, f | 0 <= i < |more| && 0 <= f < |next| && LastOfKey(more, i) && SameKey(next[f].0, more[i].0)
      ensures next[f].1 == more[i].1
    {
      LastValue(list, fields, k, v, at, i, f);
    }
  }

  lemma LastValue(list: Fields, fields: Fields, k: Value, v: Value, at: nat, i: nat, f: nat)
    requires Leaves(list, fields) && at <= |fields| && (forall g :: 0 <= g < at ==> !SameKey(fields[g].0, k))
    requires at < |fields| ==> SameKey(fields[at].0, k)
    requires var more := list + [(k, v)];
             var next := if at < |fields| then fields[at := (fields[at].0, v)] else fields + [(k, v)];
             i < |more| && f < |next| && LastOfKey(more, i) && SameKey(next[f].0, more[i].0)
    ensures var next := if at < |fields| then fields[at := (fields[at].0, v)] else fields + [(k, v)];
            next[f].1 == (list + [(k, v)])[i].1
  {
    hide SameKey, LastOfKey, FirstKeys;
    var next := if at < |fields| then fields[at := (fields[at].0, v)] else fields + [(k, v)];
    var key := (list + [(k, v)])[i].0;
    SameKeyIsEquality(next[f].0, key, next[at].0);
    SameKeyIsEquality(key, next[f].0, k);
    SameKeyIsEquality(k, next[at].0, next[f].0);
    if i < |list| {
      LastOfKeyGrows(list, (k, v), i);
      SameKeyIsEquality(k, key, k);
      SameKeyIsEquality(next[f].0, key, k);
      assert f != at;
      assert next[f] == fields[f];
    } else {
      if f < |fields| {
        OnlyAt(fields, k, at, f);
      }
    }
  }

  lemma OnlyAt(fields: Fields, k: Value, at: nat, f: nat)
    requires forall f, g :: 0 <= f < g < |fields| ==> !SameKey(fields[f].0, fields[g].0)
    requires at <= |fields| && (forall g :: 0 <= g < at ==> !SameKey(fields[g].0, k))
    requires at < |fields| ==> SameKey(fields[at].0, k)
    requires f < |fields| && SameKey(fields[f].0, k)
    ensures f == at
  {
    hide SameKey;
    if at < |fields| {
      SameKeyIsEquality(k, fields[f].0, k);
      SameKeyIsEquality(fields[at].0, k, fields[f].0);
    }
  }

  lemma {:induction false} AssignLeaves(list: Fields)
    ensures Leaves(list, Assign([], list))
    decreases |list|
  {
    hide SetField, SameKey, Assign;
    if list == [] {
      NothingAssigned();
    } else {
      var n := |list| - 1;
      assert list == list[..n] + [(list[n].0, list[n].1)];
      AssignLeaves(list[..n]);
      AssignLast([], list[..n], list[n].0, list[n].1);
      LeavesMore(list[..n], Assign([], list[..n]), list[n].0, list[n].1);
    }
  }

  lemma NothingAssigned()
    ensures Assign([], []) == []
  {
  }

  /**
   What is extracted for a written object: a key for every different one, in order of first occurrence and as it is there, with
   the value of the last member whose key is equal to it.
   */
  lemma LastMemberWins(py: Python, before: string, d: Doc, after: string)
    requires d.DObj? && Written(py, d) && '{' !in before && '}' !in after
    ensures var r := ExtractJson(py, before + Print(d) + after);
            r.Some? && r.value.Obj? && Leaves(MemberList(py, d.members), r.value.fields)
  {
    hide *;
    ExtractPrinted(py, before, d, after);
    ObjectIs(py, d.lead, d.members);
    ReadIsAssign(py, d.members, []);
    AssignLeaves(MemberList(py, d.members));
  }
}
