/**
  The building blocks of the fingerprint encodings: big-endian numbers, length-prefixed strings and
  counted lists, each with the parser that undoes it. A `char` stands for one byte.

  An encoder here takes what follows, so that a parser can be shown to give back both the value and
  exactly what follows it.
*/
module ByteEncoding {
  import opened Wrappers

  type Bytes = string

  /** A parsed value and the input after it. */
  datatype Parsed<+T> = Failed | Parsed(value: T, rest: Bytes)

  /** Conversion to a byte keeps the low eight bits. */
  function Byte(n: nat): char {
    (n % 256) as char
  }

  function Power(k: nat): nat {
    if k == 0 then 1 else 256 * Power(k - 1)
  }

  /** The low `k` bytes of `n`, most significant first. */
  function BigEndian(n: nat, k: nat): (data: Bytes)
    ensures |data| == k
  {
    if k == 0 then [] else BigEndian(n / 256, k - 1) + [Byte(n)]
  }

  function Number(data: Bytes): nat {
    if data == [] then 0 else 256 * Number(data[..|data| - 1]) + data[|data| - 1] as int
  }

  lemma {:induction false} NumberOfBigEndian(n: nat, k: nat)
    requires n < Power(k)
    ensures Number(BigEndian(n, k)) == n
  {
    if k > 0 {
      NumberOfBigEndian(n / 256, k - 1);
      var data := BigEndian(n, k);
      assert data[..k - 1] == BigEndian(n / 256, k - 1);
      assert data[k - 1] as int == n % 256;
    }
  }

  // ---- Numbers ----

  function PutNumber(n: nat, k: nat, rest: Bytes): Bytes {
    BigEndian(n, k) + rest
  }

  function GetNumber(k: nat, data: Bytes): Parsed<nat> {
    if |data| < k then Failed else Parsed(Number(data[..k]), data[k..])
  }

  lemma GetPutNumber(n: nat, k: nat, rest: Bytes)
    requires n < Power(k)
    ensures GetNumber(k, PutNumber(n, k, rest)) == Parsed(n, rest)
  {
    NumberOfBigEndian(n, k);
    var data := PutNumber(n, k, rest);
    assert data[..k] == BigEndian(n, k) && data[k..] == rest;
  }

  lemma Powers()
    ensures Power(1) == 256 && Power(2) == 65536 && Power(8) > 10485760
  {
    assert Power(3) == 256 * Power(2);
    assert Power(4) == 256 * Power(3);
    assert Power(5) == 256 * Power(4);
    assert Power(6) == 256 * Power(5);
    assert Power(7) == 256 * Power(6);
    assert Power(8) == 256 * Power(7);
  }

  // ---- Strings ----

  /** A two-byte length, truncated to sixteen bits, and the bytes. */
  function PutString(s: Bytes, rest: Bytes): Bytes {
    PutNumber(|s|, 2, s + rest)
  }

  function GetString(data: Bytes): Parsed<Bytes> {
    var length := GetNumber(2, data);
    if length.Failed? || |length.rest| < length.value then Failed
    else Parsed(length.rest[..length.value], length.rest[length.value..])
  }

  lemma GetPutString(s: Bytes, rest: Bytes)
    requires |s| < 65536
    ensures GetString(PutString(s, rest)) == Parsed(s, rest)
  {
    Powers();
    GetPutNumber(|s|, 2, s + rest);
    assert (s + rest)[..|s|] == s && (s + rest)[|s|..] == rest;
  }

  /** A string that is left out is encoded as the empty one. */
  function OrEmpty(s: Option<Bytes>): Bytes {
    if s.None? then "" else s.value
  }

  function NonEmpty(s: Bytes): Option<Bytes> {
    if s == "" then None else Some(s)
  }

  // ---- Counted lists of strings ----

  function PutStrings(items: seq<Bytes>, rest: Bytes): Bytes {
    if items == [] then rest else PutString(items[0], PutStrings(items[1..], rest))
  }

  function GetStrings(n: nat, data: Bytes): Parsed<seq<Bytes>> {
    if n == 0 then Parsed([], data)
    else
      var first := GetString(data);
      if first.Failed? then Failed
      else
        var others := GetStrings(n - 1, first.rest);
        if others.Failed? then Failed else Parsed([first.value] + others.value, others.rest)
  }

  ghost predicate Short(items: seq<Bytes>) {
    forall i :: 0 <= i < |items| ==> |items[i]| < 65536
  }

  lemma {:induction false} GetPutStrings(items: seq<Bytes>, rest: Bytes)
    requires Short(items)
    ensures GetStrings(|items|, PutStrings(items, rest)) == Parsed(items, rest)
  {
    hide PutString, GetString;
    if items != [] {
      GetPutString(items[0], PutStrings(items[1..], rest));
      GetPutStrings(items[1..], rest);
      assert items == [items[0]] + items[1..];
    }
  }

  // ---- The notation of the protocol documents ----

  function U8(n: nat): Bytes {
    [Byte(n)]
  }

  function U16be(n: nat): Bytes {
    [Byte(n / 0x100), Byte(n)]
  }

  function U64be(n: nat): Bytes {
    [Byte(n / 0x100_0000_0000_0000), Byte(n / 0x1_0000_0000_0000), Byte(n / 0x100_0000_0000), Byte(n / 0x1_0000_0000),
     Byte(n / 0x100_0000), Byte(n / 0x1_0000), Byte(n / 0x100), Byte(n)]
  }

  /** A string after its length. */
  function Field(s: Bytes): Bytes {
    U16be(|s|) + s
  }

  function Concat(parts: seq<Bytes>): Bytes {
    if parts == [] then [] else parts[0] + Concat(parts[1..])
  }

  function Fields(items: seq<Bytes>): Bytes {
    if items == [] then [] else Field(items[0]) + Fields(items[1..])
  }

  lemma NumberLayout(n: nat, rest: Bytes)
    ensures PutNumber(n, 1, rest) == U8(n) + rest
    ensures PutNumber(n, 2, rest) == U16be(n) + rest
  {
    assert BigEndian(n, 1) == U8(n);
    assert BigEndian(n / 0x100, 1) == U8(n / 0x100);
    assert BigEndian(n, 2) == U16be(n);
  }

  lemma LongNumberLayout(n: nat)
    ensures BigEndian(n, 8) == U64be(n)
  {
    var b := n / 0x100;
    var c := b / 0x100;
    var d := c / 0x100;
    var e := d / 0x100;
    var f := e / 0x100;
    var g := f / 0x100;
    var h := g / 0x100;
    assert c == n / 0x1_0000 && d == n / 0x100_0000 && e == n / 0x1_0000_0000;
    assert f == n / 0x100_0000_0000 && g == n / 0x1_0000_0000_0000 && h == n / 0x100_0000_0000_0000;
    assert BigEndian(h, 1) == [Byte(h)];
    assert BigEndian(g, 2) == [Byte(h), Byte(g)];
    assert BigEndian(f, 3) == [Byte(h), Byte(g), Byte(f)];
    assert BigEndian(e, 4) == [Byte(h), Byte(g), Byte(f), Byte(e)];
    assert BigEndian(d, 5) == [Byte(h), Byte(g), Byte(f), Byte(e), Byte(d)];
    assert BigEndian(c, 6) == [Byte(h), Byte(g), Byte(f), Byte(e), Byte(d), Byte(c)];
    assert BigEndian(b, 7) == [Byte(h), Byte(g), Byte(f), Byte(e), Byte(d), Byte(c), Byte(b)];
  }

  lemma StringLayout(s: Bytes, rest: Bytes)
    ensures PutString(s, rest) == Field(s) + rest
  {
    NumberLayout(|s|, s + rest);
  }

  lemma {:induction false} StringsLayout(items: seq<Bytes>, rest: Bytes)
    ensures PutStrings(items, rest) == Fields(items) + rest
  {
    if items != [] {
      StringsLayout(items[1..], rest);
      StringLayout(items[0], PutStrings(items[1..], rest));
    }
  }

  /** The parts from one on are that part and the parts after it. */
  lemma ConcatFrom(parts: seq<Bytes>)
    ensures parts[0..] == parts && Concat(parts[|parts|..]) == []
    ensures forall k :: 0 <= k < |parts| ==> Concat(parts[k..]) == parts[k] + Concat(parts[k + 1..])
  {
    forall k | 0 <= k < |parts|
      ensures Concat(parts[k..]) == parts[k] + Concat(parts[k + 1..])
    {
      assert parts[k..][1..] == parts[k + 1..];
    }
  }

  // ---- Appending to a buffer ----

  lemma Associates(a: Bytes, b: Bytes, c: Bytes)
    ensures (a + b) + c == a + (b + c)
  {
  }

  /** Each of these appends one item, given that the buffer so far, the item and `rest` make up `all`. */
  method AppendNumber(data: Bytes, n: nat, k: nat, ghost rest: Bytes, ghost all: Bytes) returns (longer: Bytes)
    requires data + PutNumber(n, k, rest) == all
    ensures longer + rest == all
  {
    longer := data + BigEndian(n, k);
    Associates(data, BigEndian(n, k), rest);
  }

  method AppendString(data: Bytes, s: Bytes, ghost rest: Bytes, ghost all: Bytes) returns (longer: Bytes)
    requires data + PutString(s, rest) == all
    ensures longer + rest == all
  {
    longer := AppendNumber(data, |s|, 2, s + rest, all);
    Associates(longer, s, rest);
    longer := longer + s;
  }

  // ---- Equal encodings that start alike go on alike ----

  lemma CancelNumber(n: nat, k: nat, a: Bytes, b: Bytes)
    ensures PutNumber(n, k, a) == PutNumber(n, k, b) <==> a == b
  {
    assert PutNumber(n, k, a)[k..] == a && PutNumber(n, k, b)[k..] == b;
  }

  lemma CancelString(s: Bytes, a: Bytes, b: Bytes)
    ensures PutString(s, a) == PutString(s, b) <==> a == b
  {
    CancelNumber(|s|, 2, s + a, s + b);
    assert (s + a)[|s|..] == a && (s + b)[|s|..] == b;
  }
}
