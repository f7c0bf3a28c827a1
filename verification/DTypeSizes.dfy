/** How many bytes an element takes, read off the written name of its dtype. */
module DTypeSizes {
  import opened Arithmetic
  import opened Bytes
  import opened Packing
  import opened Protocol
  import opened Slicing
  import opened Wrappers

  predicate IsDigit(c: char) {
    '0' <= c <= '9'
  }

  /** The number that the leading digits of a text spell, `sofar` having been read. */
  function Number(s: string, sofar: nat): nat {
    if s == [] || !IsDigit(s[0]) then sofar else Number(s[1..], 10 * sofar + (s[0] as int - '0' as int))
  }

  /** The first number in a name is the width in bits; a name without one is that of a type of one byte. */
  function Bits(name: string): nat {
    if name == [] then 8 else if IsDigit(name[0]) then Number(name, 0) else Bits(name[1..])
  }

  lemma {:induction false} SkipLetters(letters: string, rest: string)
    requires forall i :: 0 <= i < |letters| ==> !IsDigit(letters[i])
    ensures Bits(letters + rest) == Bits(rest)
  {
    if letters == [] {
      assert letters + rest == rest;
    } else {
      SkipLetters(letters[1..], rest);
      assert (letters + rest)[1..] == letters[1..] + rest;
    }
  }

  lemma OneDigit(c: char, rest: string)
    requires IsDigit(c) && (rest == [] || !IsDigit(rest[0]))
    ensures Bits([c] + rest) == c as int - '0' as int
  {
    assert ([c] + rest)[1..] == rest;
    assert Number(rest, c as int - '0' as int) == c as int - '0' as int;
    assert Number([c] + rest, 0) == Number(rest, c as int - '0' as int);
  }

  lemma TwoDigits(c: char, d: char)
    requires IsDigit(c) && IsDigit(d)
    ensures Bits([c, d]) == 10 * (c as int - '0' as int) + (d as int - '0' as int)
  {
    assert [c, d][1..] == [d] && [d][1..] == [];
    var x, y := c as int - '0' as int, d as int - '0' as int;
    assert Number([], 10 * x + y) == 10 * x + y;
    assert Number([d], x) == Number([], 10 * x + y);
    assert Number([c, d], 0) == Number([d], x);
  }

  lemma ThreeDigits(c: char, d: char, e: char)
    requires IsDigit(c) && IsDigit(d) && IsDigit(e)
    ensures Bits([c, d, e]) == 100 * (c as int - '0' as int) + 10 * (d as int - '0' as int) + (e as int - '0' as int)
  {
    assert [c, d, e][1..] == [d, e] && [d, e][1..] == [e] && [e][1..] == [];
    var x, y, z := c as int - '0' as int, d as int - '0' as int, e as int - '0' as int;
    assert Number([], 10 * (10 * x + y) + z) == 10 * (10 * x + y) + z;
    assert Number([e], 10 * x + y) == Number([], 10 * (10 * x + y) + z);
    assert Number([d, e], x) == Number([e], 10 * x + y);
    assert Number([c, d, e], 0) == Number([d, e], x);
  }

  /** Where the digits of a name are. */
  function Split(d: DType): (string, string) {
    match d
    case Float64 => ("torch.float", "64")
    case Float32 => ("torch.float", "32")
    case Float16 => ("torch.float", "16")
    case BFloat16 => ("torch.bfloat", "16")
    case Int64 => ("torch.int", "64")
    case Int32 => ("torch.int", "32")
    case Int16 => ("torch.int", "16")
    case Int8 => ("torch.int", "8")
    case UInt8 => ("torch.uint", "8")
    case Bool => ("torch.bool", "")
    case Complex64 => ("torch.complex", "64")
    case Complex128 => ("torch.complex", "128")
    case Float8E4M3FN => ("torch.float", "8_e4m3fn")
    case Float8E5M2 => ("torch.float", "8_e5m2")
    case UInt16 => ("torch.uint", "16")
    case UInt32 => ("torch.uint", "32")
    case UInt64 => ("torch.uint", "64")
  }

  lemma SplitIsName(d: DType)
    ensures Split(d).0 + Split(d).1 == Name(d)
    ensures forall i :: 0 <= i < |Split(d).0| ==> !IsDigit(Split(d).0[i])
  {
    hide IsDigit;
    OnlyLetters(Split(d).0);
  }

  lemma OnlyLetters(s: string)
    requires s in {"torch.float", "torch.bfloat", "torch.int", "torch.uint", "torch.bool", "torch.complex"}
    ensures forall i :: 0 <= i < |s| ==> !IsDigit(s[i])
  {
  }

  lemma SpelledBits()
    ensures Bits("") == 8 && Bits("8") == 8 && Bits("8_e4m3fn") == 8 && Bits("8_e5m2") == 8
    ensures Bits("16") == 16 && Bits("32") == 32 && Bits("64") == 64 && Bits("128") == 128
  {
    OneDigit('8', "");
    OneDigit('8', "_e4m3fn");
    OneDigit('8', "_e5m2");
    TwoDigits('1', '6');
    TwoDigits('3', '2');
    TwoDigits('6', '4');
    ThreeDigits('1', '2', '8');
  }

  /** An element has as many bytes as its dtype's name says. */
  lemma ElementSizeIsSpelled(d: DType)
    ensures 8 * ElementSize(d) == Bits(Name(d))
  {
    hide Bits;
    SplitIsName(d);
    SkipLetters(Split(d).0, Split(d).1);
    SpelledBits();
  }

  /**
   A tensor whose bytes are as many as its shape and the name of its dtype say is cut out of the buffer as it is, exactly if
   the client knows the dtype and its offset is a whole number of elements.
   */
  lemma RealTensorIsHandedOut(name: string, shape: seq<nat>, d: DType, data: seq<byte>, offset: nat, buf: seq<byte>)
    requires 8 * |data| == Product(shape) * Bits(Name(d))
    requires offset + |data| <= |buf| && buf[offset..offset + |data|] == data
    ensures Tensor(name, shape, d, data).Valid()
    ensures Bits(Name(d)) > 0
    ensures Slice(name, TensorMeta(shape, Name(d), offset, |data|), buf) == Yield([Tensor(name, shape, d, data)], None) <==>
            Supported(d) && 8 * offset % Bits(Name(d)) == 0
  {
    hide Bits, Name, ParseDType, Product;
    ElementSizeIsSpelled(d);
    TableCoversSupported(d);
    var k, size := Product(shape), ElementSize(d);
    EightTimes(k, size, |data|, Bits(Name(d)));
    EightfoldMod(offset, size);
  }

  lemma EightTimes(k: nat, size: nat, n: nat, bits: nat)
    requires 8 * n == k * bits && bits == 8 * size
    ensures n == k * size && k * size == size * k
  {
    assert k * bits == 8 * (k * size);
  }

  lemma EightfoldMod(offset: nat, size: nat)
    requires 0 < size
    ensures 8 * offset % (8 * size) == 0 <==> offset % size == 0
  {
    var q, r := offset / size, offset % size;
    assert offset == size * q + r;
    assert 8 * offset == (8 * size) * q + 8 * r && 0 <= 8 * r < 8 * size;
    DivModUnique(8 * offset, 8 * size, q, 8 * r);
  }
}
