/** `newsraft_base64_encode` of `src/string.c` against section 4 of RFC 4648. */
module Base64 {

  type Byte = b: int | 0 <= b < 256

  /** The encoding table, row by row. */
  const ROWS: seq<string> := [
    "ABCDEFGH", "IJKLMNOP", "QRSTUVWX", "YZabcdef", "ghijklmn", "opqrstuv", "wxyz0123", "456789+/"
  ]

  function TableAt(v: int): char
    requires 0 <= v < 64
  {
    ROWS[v / 8][v % 8]
  }

  const PAD: char := '='

  datatype Option<T> = None | Some(value: T)

  // ---------------------------------------------------------------- section 4 of RFC 4648

  /** The alphabet of table 1. */
  function Symbol(v: int): char
    requires 0 <= v < 64
  {
    if v < 26 then 'A' + v as char
    else if v < 52 then 'a' + (v - 26) as char
    else if v < 62 then '0' + (v - 52) as char
    else if v == 62 then '+' else '/'
  }

  function ValueOf(c: char): Option<int> {
    if 'A' <= c <= 'Z' then Some(c as int - 'A' as int)
    else if 'a' <= c <= 'z' then Some(c as int - 'a' as int + 26)
    else if '0' <= c <= '9' then Some(c as int - '0' as int + 52)
    else if c == '+' then Some(62)
    else if c == '/' then Some(63)
    else None
  }

  lemma {:induction false} SymbolHasValue(v: int)
    requires 0 <= v < 64
    ensures ValueOf(Symbol(v)) == Some(v) && Symbol(v) != PAD
  {
  }

  /** 24 bits as four symbols. */
  function Quad(a: Byte, b: Byte, c: Byte): (q: string)
    ensures |q| == 4
  {
    [Symbol(a / 4), Symbol(a % 4 * 16 + b / 16), Symbol(b % 16 * 4 + c / 64), Symbol(c % 64)]
  }

  /** Groups of three bytes become four symbols; one or two bytes at the end are padded. */
  function Encoded(data: seq<Byte>): string {
    if |data| == 0 then ""
    else if |data| == 1 then Quad(data[0], 0, 0)[..2] + [PAD, PAD]
    else if |data| == 2 then Quad(data[0], data[1], 0)[..3] + [PAD]
    else Quad(data[0], data[1], data[2]) + Encoded(data[3..])
  }

  /** A group of four symbols, padded or not. */
  function DecodedQuad(w: char, x: char, y: char, z: char): Option<seq<Byte>> {
    match (ValueOf(w), ValueOf(x), ValueOf(y), ValueOf(z))
    case (Some(p), Some(q), Some(r), Some(s)) =>
      if p < 64 && q < 64 && r < 64 && s < 64 && 0 <= p && 0 <= q && 0 <= r && 0 <= s then
        Some([p * 4 + q / 16, q % 16 * 16 + r / 4, r % 4 * 64 + s])
      else None
    case (Some(p), Some(q), Some(r), None) =>
      if z == PAD && p < 64 && q < 64 && 0 <= p && 0 <= q && 0 <= r < 64 then
        Some([p * 4 + q / 16, q % 16 * 16 + r / 4])
      else None
    case (Some(p), Some(q), None, None) =>
      if y == z == PAD && p < 64 && q < 64 && 0 <= p && 0 <= q then Some([p * 4 + q / 16]) else None
    case _ => None
  }

  /** Padding may only come in the last group. */
  function Decoded(s: string): Option<seq<Byte>> {
    if s == "" then Some([])
    else if |s| < 4 then None
    else if s[3] == PAD && |s| > 4 then None
    else
      match (DecodedQuad(s[0], s[1], s[2], s[3]), Decoded(s[4..]))
      case (Some(a), Some(b)) => Some(a + b)
      case _ => None
  }

  // ---------------------------------------------------------------- properties

  lemma {:induction false} QuadValues(a: Byte, b: Byte, c: Byte)
    ensures var q := Quad(a, b, c);
      && ValueOf(q[0]) == Some(a / 4) && ValueOf(q[1]) == Some(a % 4 * 16 + b / 16)
      && ValueOf(q[2]) == Some(b % 16 * 4 + c / 64) && ValueOf(q[3]) == Some(c % 64)
  {
    hide Symbol, ValueOf;
    SymbolHasValue(a / 4);
    SymbolHasValue(a % 4 * 16 + b / 16);
    SymbolHasValue(b % 16 * 4 + c / 64);
    SymbolHasValue(c % 64);
  }

  lemma {:induction false} ThreeBytes(a: Byte, b: Byte, c: Byte)
    ensures var q := Quad(a, b, c);
      DecodedQuad(q[0], q[1], q[2], q[3]) == Some([a, b, c]) && q[3] != PAD
  {
    hide Quad, ValueOf;
    QuadValues(a, b, c);
    PadHasNoValue();
  }

  lemma {:induction false} TwoBytes(a: Byte, b: Byte)
    ensures var q := Quad(a, b, 0);
      DecodedQuad(q[0], q[1], q[2], PAD) == Some([a, b])
  {
    hide Quad, ValueOf;
    QuadValues(a, b, 0);
    PadHasNoValue();
  }

  lemma {:induction false} OneByte(a: Byte)
    ensures var q := Quad(a, 0, 0);
      DecodedQuad(q[0], q[1], PAD, PAD) == Some([a])
  {
    hide Quad, ValueOf;
    QuadValues(a, 0, 0);
    PadHasNoValue();
  }

  lemma {:induction false} PadHasNoValue()
    ensures ValueOf(PAD) == None
  {
  }

  /** Decoding returns the data. */
  lemma {:induction false} RoundTrip(data: seq<Byte>)
    ensures Decoded(Encoded(data)) == Some(data)
    decreases |data|
  {
    hide Quad, DecodedQuad;
    var s := Encoded(data);
    if |data| == 0 {
    } else if |data| == 1 {
      OneByte(data[0]);
      assert s[4..] == "" && data == [data[0]] + [];
    } else if |data| == 2 {
      TwoBytes(data[0], data[1]);
      assert s[4..] == "" && data == [data[0], data[1]] + [];
    } else {
      ThreeBytes(data[0], data[1], data[2]);
      RoundTrip(data[3..]);
      assert s[4..] == Encoded(data[3..]);
      assert data == [data[0], data[1], data[2]] + data[3..];
    }
  }

  lemma {:induction false} QuadHasNoPadding(a: Byte, b: Byte, c: Byte)
    ensures forall k :: 0 <= k < 4 ==> Quad(a, b, c)[k] != PAD
  {
    hide Symbol;
    SymbolHasValue(a / 4);
    SymbolHasValue(a % 4 * 16 + b / 16);
    SymbolHasValue(b % 16 * 4 + c / 64);
    SymbolHasValue(c % 64);
  }

  /** Four symbols stand for every three bytes begun; only the last can be padding, and it is as much as
      bytes are missing. */
  lemma {:induction false} LengthAndPadding(data: seq<Byte>)
    ensures |Encoded(data)| == (|data| + 2) / 3 * 4
    ensures forall k :: 0 <= k < |Encoded(data)| ==>
      (Encoded(data)[k] == PAD <==> k >= |Encoded(data)| - (|Encoded(data)| / 4 * 3 - |data|))
    decreases |data|
  {
    hide Quad;
    if |data| == 1 {
      QuadHasNoPadding(data[0], 0, 0);
    } else if |data| == 2 {
      QuadHasNoPadding(data[0], data[1], 0);
    } else if |data| >= 3 {
      QuadHasNoPadding(data[0], data[1], data[2]);
      LengthAndPadding(data[3..]);
      assert forall k :: 4 <= k < |Encoded(data)| ==> Encoded(data)[k] == Encoded(data[3..])[k - 4];
    }
  }

  // ---------------------------------------------------------------- the encoder

  lemma {:induction false} TableIsAlphabet(v: int)
    requires 0 <= v < 64
    ensures TableAt(v) == Symbol(v)
  {
    match v
    case 0 => case 1 => case 2 => case 3 => case 4 => case 5 => case 6 => case 7 =>
    case 8 => case 9 => case 10 => case 11 => case 12 => case 13 => case 14 => case 15 =>
    case 16 => case 17 => case 18 => case 19 => case 20 => case 21 => case 22 => case 23 =>
    case 24 => case 25 => case 26 => case 27 => case 28 => case 29 => case 30 => case 31 =>
    case 32 => case 33 => case 34 => case 35 => case 36 => case 37 => case 38 => case 39 =>
    case 40 => case 41 => case 42 => case 43 => case 44 => case 45 => case 46 => case 47 =>
    case 48 => case 49 => case 50 => case 51 => case 52 => case 53 => case 54 => case 55 =>
    case 56 => case 57 => case 58 => case 59 => case 60 => case 61 => case 62 =>
    case _ =>
  }

  /** What the encoder puts out before the padding: the missing bytes are zero. */
  function Unpadded(data: seq<Byte>): string {
    if |data| == 0 then ""
    else if |data| == 1 then Quad(data[0], 0, 0)
    else if |data| == 2 then Quad(data[0], data[1], 0)
    else Quad(data[0], data[1], data[2]) + Unpadded(data[3..])
  }

  /** Padding is put over the last symbols. */
  lemma {:induction false} PaddingOver(data: seq<Byte>)
    ensures |Unpadded(data)| == (|data| + 2) / 3 * 4
    ensures var u, n := Unpadded(data), |Unpadded(data)|;
      Encoded(data) == if |data| % 3 == 1 then u[n - 2 := PAD][n - 1 := PAD]
                       else if |data| % 3 == 2 then u[n - 1 := PAD] else u
    decreases |data|
  {
    hide Quad;
    if |data| >= 3 {
      PaddingOver(data[3..]);
    }
  }

  /** Shifting and masking 24 bits takes them apart in six. */
  lemma {:induction false} SixBits(a: Byte, b: Byte, c: Byte)
    ensures var triple := a * 0x1_0000 + b * 0x100 + c;
      && triple / 0x4_0000 % 64 == a / 4 && triple / 0x1000 % 64 == a % 4 * 16 + b / 16
      && triple / 0x40 % 64 == b % 16 * 4 + c / 64 && triple % 64 == c % 64
  {
    var triple := a * 0x1_0000 + b * 0x100 + c;
    assert triple / 0x1000 == a * 16 + b / 16;
    assert triple / 0x40 == a * 0x400 + b * 4 + c / 64;
    assert triple / 0x4_0000 == a / 4;
  }

  /** Four symbols taken from 24 bits by shifting and masking. */
  method PutTriple(out: string, a: Byte, b: Byte, c: Byte) returns (r: string)
    ensures r == out + Quad(a, b, c)
  {
    hide Symbol, TableAt;
    SixBits(a, b, c);
    var triple := a * 0x1_0000 + b * 0x100 + c;
    TableIsAlphabet(triple / 0x4_0000 % 64);
    TableIsAlphabet(triple / 0x1000 % 64);
    TableIsAlphabet(triple / 0x40 % 64);
    TableIsAlphabet(triple % 64);
    r := out + [TableAt(triple / 0x4_0000 % 64)];
    r := r + [TableAt(triple / 0x1000 % 64)];
    r := r + [TableAt(triple / 0x40 % 64)];
    r := r + [TableAt(triple % 64)];
  }

  method Encode(data: seq<Byte>) returns (out: string)
    ensures out == Encoded(data)
  {
    hide Quad;
    out := "";
    var i := 0;
    while i < |data|
      invariant 0 <= i <= |data| && (i < |data| ==> i % 3 == 0)
      invariant out + Unpadded(data[i..]) == Unpadded(data)
    {
      ghost var from := i;
      var a: Byte := data[i];
      i := i + 1;
      var b: Byte := 0;
      if i < |data| {
        b := data[i];
        i := i + 1;
      }
      var c: Byte := 0;
      if i < |data| {
        c := data[i];
        i := i + 1;
      }
      assert Unpadded(data[from..]) == Quad(a, b, c) + Unpadded(data[i..]) by {
        assert i - from == 3 ==> data[from..][3..] == data[i..];
        assert i - from < 3 ==> data[i..] == [];
      }
      ghost var before := out;
      out := PutTriple(out, a, b, c);
      assert before + (Quad(a, b, c) + Unpadded(data[i..])) == out + Unpadded(data[i..]);
    }
    assert data[i..] == [] && out + "" == out;
    PaddingOver(data);
    if |data| % 3 == 1 {
      if |out| >= 2 {
        out := out[|out| - 2 := PAD];
      }
    }
    if |data| % 3 == 1 || |data| % 3 == 2 {
      if |out| >= 1 {
        out := out[|out| - 1 := PAD];
      }
    }
  }
}
