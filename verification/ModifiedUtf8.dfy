/**
 Java strings as JNI's modified UTF-8: every 16-bit unit is encoded on its own, in one to
 three bytes, and U+0000 takes two bytes so that no zero byte appears before the terminator.

 `sizeMax` is the largest value of the platform's `size_t`; sums of sizes wrap beyond it.
 */
module ModifiedUtf8 {
  import opened Wrappers

  type Unit = bv16
  type Byte = bv8

  // ----- one unit -----------------------------------------------------------------

  function UnitLength(uic: Unit): nat {
    if uic > 0x07ff then 3 else if uic > 0x7f || uic == 0 then 2 else 1
  }

  // The bytes of a unit: a lead byte, and tail bytes with six bits each.

  function Lead3(uic: Unit): Byte { ((uic >> 12) | 0xe0) as Byte }

  function Lead2(uic: Unit): Byte
    requires uic <= 0x07ff
  {
    ((uic >> 6) | 0xc0) as Byte
  }

  function Middle(uic: Unit): Byte { (((uic >> 6) & 0x3f) | 0x80) as Byte }

  function Last(uic: Unit): Byte { ((uic & 0x3f) | 0x80) as Byte }

  function EncodeUnit(uic: Unit): (bytes: seq<Byte>)
    ensures |bytes| == UnitLength(uic)
  {
    if uic > 0x07ff then [Lead3(uic), Middle(uic), Last(uic)]
    else if uic > 0x7f || uic == 0 then [Lead2(uic), Last(uic)]
    else [uic as Byte]
  }

  function Encode(s: seq<Unit>): seq<Byte> {
    if s == [] then [] else EncodeUnit(s[0]) + Encode(s[1..])
  }

  function EncodedLength(s: seq<Unit>): nat {
    if s == [] then 0 else UnitLength(s[0]) + EncodedLength(s[1..])
  }

  // ----- decoding, by the byte layouts of RFC 3629 section 3 -----------------------

  predicate Continues(b: Byte) { b & 0xc0 == 0x80 }

  function Join2(a: Byte, b: Byte): Unit { (((a & 0x1f) as Unit) << 6) | ((b & 0x3f) as Unit) }

  function Join3(a: Byte, b: Byte, c: Byte): Unit {
    (((a & 0x0f) as Unit) << 12) | (((b & 0x3f) as Unit) << 6) | ((c & 0x3f) as Unit)
  }

  /** The first unit of a byte sequence and how many bytes it takes, if they are well formed. */
  function DecodeUnit(bytes: seq<Byte>): Option<(Unit, nat)> {
    if bytes == [] || bytes[0] == 0 then None
    else if bytes[0] < 0x80 then Some((bytes[0] as Unit, 1))
    else if bytes[0] & 0xe0 == 0xc0 && |bytes| >= 2 && Continues(bytes[1]) then
      var u := Join2(bytes[0], bytes[1]);
      if u > 0x7f || u == 0 then Some((u, 2)) else None
    else if bytes[0] & 0xf0 == 0xe0 && |bytes| >= 3 && Continues(bytes[1]) && Continues(bytes[2]) then
      var u := Join3(bytes[0], bytes[1], bytes[2]);
      if u > 0x07ff then Some((u, 3)) else None
    else None
  }

  function Decode(bytes: seq<Byte>): Option<seq<Unit>>
    decreases |bytes|
  {
    if bytes == [] then Some([]) else
      match DecodeUnit(bytes)
      case None => None
      case Some((u, n)) =>
        if n == 0 || n > |bytes| then None else
          match Decode(bytes[n..])
          case None => None
          case Some(rest) => Some([u] + rest)
  }

  lemma Split1(uic: Unit)
    requires 0 < uic <= 0x7f
    ensures 0 < uic as Byte < 0x80 && (uic as Byte) as Unit == uic
  {
  }

  lemma Split2(uic: Unit)
    requires uic <= 0x07ff
    ensures Lead2(uic) & 0xe0 == 0xc0 && Lead2(uic) >= 0x80 && Continues(Last(uic))
    ensures Join2(Lead2(uic), Last(uic)) == uic
  {
  }

  lemma Split3(uic: Unit)
    ensures Lead3(uic) & 0xf0 == 0xe0 && Lead3(uic) & 0xe0 != 0xc0 && Lead3(uic) >= 0x80
    ensures Continues(Middle(uic)) && Continues(Last(uic))
    ensures Join3(Lead3(uic), Middle(uic), Last(uic)) == uic
  {
  }

  lemma Unsplit1(a: Byte)
    requires 0 < a < 0x80
    ensures 0 < a as Unit <= 0x7f && (a as Unit) as Byte == a
  {
  }

  lemma Unsplit2(a: Byte, b: Byte)
    requires a & 0xe0 == 0xc0 && Continues(b)
    ensures Join2(a, b) <= 0x07ff && Lead2(Join2(a, b)) == a && Last(Join2(a, b)) == b
  {
  }

  lemma Unsplit3(a: Byte, b: Byte, c: Byte)
    requires a & 0xf0 == 0xe0 && Continues(b) && Continues(c)
    ensures var u := Join3(a, b, c); Lead3(u) == a && Middle(u) == b && Last(u) == c
  {
  }

  lemma DecodeEncodedUnit(uic: Unit, rest: seq<Byte>)
    ensures DecodeUnit(EncodeUnit(uic) + rest) == Some((uic, UnitLength(uic)))
  {
    hide Lead2, Lead3, Middle, Last, Join2, Join3, Continues;
    var bytes := EncodeUnit(uic) + rest;
    assert bytes[0] == EncodeUnit(uic)[0];
    if uic > 0x07ff {
      assert bytes[1] == EncodeUnit(uic)[1] && bytes[2] == EncodeUnit(uic)[2];
      Split3(uic);
    } else if uic > 0x7f || uic == 0 {
      assert bytes[1] == EncodeUnit(uic)[1];
      Split2(uic);
    } else {
      Split1(uic);
    }
  }

  lemma EncodeDecodedUnit(bytes: seq<Byte>)
    requires DecodeUnit(bytes).Some?
    ensures var (u, n) := DecodeUnit(bytes).value;
            n == UnitLength(u) && n <= |bytes| && EncodeUnit(u) == bytes[..n]
  {
    hide Lead2, Lead3, Middle, Last, Join2, Join3, Continues;
    if bytes[0] < 0x80 {
      Unsplit1(bytes[0]);
      assert bytes[..1] == [bytes[0]];
    } else if bytes[0] & 0xe0 == 0xc0 {
      Unsplit2(bytes[0], bytes[1]);
      assert bytes[..2] == [bytes[0], bytes[1]];
    } else {
      Unsplit3(bytes[0], bytes[1], bytes[2]);
      assert bytes[..3] == [bytes[0], bytes[1], bytes[2]];
    }
  }

  /** Decoding the encoding of any string gives the string back, embedded zeros included. */
  lemma {:induction false} RoundTrip(s: seq<Unit>)
    ensures Decode(Encode(s)) == Some(s)
  {
    if s != [] {
      var tail := Encode(s[1..]);
      DecodeEncodedUnit(s[0], tail);
      assert Encode(s)[UnitLength(s[0])..] == tail;
      RoundTrip(s[1..]);
      assert [s[0]] + s[1..] == s;
    }
  }

  /** And only the encoding of a string decodes to it: every string has one encoding. */
  lemma {:induction false} Canonical(bytes: seq<Byte>)
    requires Decode(bytes).Some?
    ensures Encode(Decode(bytes).value) == bytes
    decreases |bytes|
  {
    hide DecodeUnit, EncodeUnit, UnitLength;
    if bytes != [] {
      EncodeDecodedUnit(bytes);
      var (u, n) := DecodeUnit(bytes).value;
      Canonical(bytes[n..]);
      var rest := Decode(bytes[n..]).value;
      assert ([u] + rest)[1..] == rest;
      assert bytes[..n] + bytes[n..] == bytes;
    }
  }

  /** No zero byte before the terminator, and the length is the exact one. */
  lemma {:induction false} EncodingShape(s: seq<Unit>)
    ensures 0 !in Encode(s)
    ensures |Encode(s)| == EncodedLength(s)
  {
    if s != [] {
      EncodingShape(s[1..]);
    }
  }

  // ----- length, copy, duplicate --------------------------------------------------

  function Min(a: nat, b: nat): nat { if a < b then a else b }

  lemma {:induction false} LengthBound(s: seq<Unit>)
    ensures |s| <= EncodedLength(s) <= 3 * |s|
  {
    if s != [] { LengthBound(s[1..]); }
  }

  /** Adding two sizes, the second of them small: the sum wraps beyond `sizeMax`. */
  function AddSize(a: nat, b: nat, sizeMax: nat): nat
    requires a <= sizeMax && b <= sizeMax
  {
    if a + b <= sizeMax then a + b else a + b - (sizeMax + 1)
  }

  /**
   The exact length, but never more than `sizeMax - 1`, so that a caller who adds one cannot
   wrap.  The slow path finds an overflow by the sum getting smaller.
   */
  method Strnlen16to8(utf16: seq<Unit>, sizeMax: nat) returns (utf8Len: nat)
    requires sizeMax >= 3 && |utf16| <= sizeMax
    ensures utf8Len == Min(EncodedLength(utf16), sizeMax - 1)
  {
    utf8Len := 0;
    LengthBound(utf16);
    var i := 0;
    if |utf16| < (sizeMax - 1) / 3 {
      while i < |utf16|
        invariant i <= |utf16| && utf8Len + EncodedLength(utf16[i..]) == EncodedLength(utf16)
      {
        assert utf16[i..][1..] == utf16[i + 1..];
        var uic := utf16[i];
        i := i + 1;
        if uic > 0x07ff {
          utf8Len := AddSize(utf8Len, 3, sizeMax);
        } else if uic > 0x7f || uic == 0 {
          utf8Len := AddSize(utf8Len, 2, sizeMax);
        } else {
          utf8Len := AddSize(utf8Len, 1, sizeMax);
        }
      }
      return;
    }
    while i < |utf16|
      invariant i <= |utf16| && utf8Len + EncodedLength(utf16[i..]) == EncodedLength(utf16)
      invariant utf8Len <= sizeMax
    {
      assert utf16[i..][1..] == utf16[i + 1..];
      var uic := utf16[i];
      var utf8Cur := utf8Len;
      i := i + 1;
      if uic > 0x07ff {
        utf8Len := AddSize(utf8Len, 3, sizeMax);
      } else if uic > 0x7f || uic == 0 {
        utf8Len := AddSize(utf8Len, 2, sizeMax);
      } else {
        utf8Len := AddSize(utf8Len, 1, sizeMax);
      }
      if utf8Len < utf8Cur {
        return sizeMax - 1;
      }
    }
    if utf8Len == sizeMax {
      utf8Len := sizeMax - 1;
    }
  }

  /** The part of the loop of `Strncpy16to8` that writes one unit; `utf8cur` moves past it. */
  method WriteUnit(utf8: array<Byte>, cur: nat, uic: Unit) returns (next: nat)
    requires cur + UnitLength(uic) <= utf8.Length
    modifies utf8
    ensures next == cur + UnitLength(uic)
    ensures utf8[..next] == old(utf8[..cur]) + EncodeUnit(uic)
    ensures forall j :: next <= j < utf8.Length ==> utf8[j] == old(utf8[j])
  {
    next := cur;
    if uic > 0x07ff {
      utf8[next] := ((uic >> 12) | 0xe0) as Byte;
      utf8[next + 1] := (((uic >> 6) & 0x3f) | 0x80) as Byte;
      utf8[next + 2] := ((uic & 0x3f) | 0x80) as Byte;
      next := next + 3;
    } else if uic > 0x7f || uic == 0 {
      utf8[next] := ((uic >> 6) | 0xc0) as Byte;
      utf8[next + 1] := ((uic & 0x3f) | 0x80) as Byte;
      next := next + 2;
    } else {
      utf8[next] := uic as Byte;
      next := next + 1;
      if uic == 0 {
        assert false;  // the second branch took every zero, so the early end of the loop is dead
      }
    }
  }

  /** Writes the encoding and a terminating zero; the rest of the buffer is not touched. */
  method Strncpy16to8(utf8: array<Byte>, utf16: seq<Unit>)
    requires utf8.Length > EncodedLength(utf16)
    modifies utf8
    ensures utf8[..EncodedLength(utf16) + 1] == Encode(utf16) + [0]
    ensures utf8[EncodedLength(utf16) + 1..] == old(utf8[EncodedLength(utf16) + 1..])
  {
    hide EncodeUnit, UnitLength;
    ghost var length := EncodedLength(utf16);
    var cur, i := 0, 0;
    assert utf16[0..] == utf16 && utf8[..0] + Encode(utf16) == Encode(utf16);
    while i < |utf16|
      invariant i <= |utf16| && 0 <= cur <= length && cur + EncodedLength(utf16[i..]) == length
      invariant utf8[..cur] + Encode(utf16[i..]) == Encode(utf16)
      invariant forall j :: length < j < utf8.Length ==> utf8[j] == old(utf8[j])
    {
      assert utf16[i..][1..] == utf16[i + 1..];
      ghost var before, bytes, rest := utf8[..cur], EncodeUnit(utf16[i]), Encode(utf16[i + 1..]);
      assert before + bytes + rest == before + (bytes + rest);
      cur := WriteUnit(utf8, cur, utf16[i]);
      i := i + 1;
    }
    assert utf8[..cur] + [] == utf8[..cur];
    utf8[cur] := 0;
  }

  /**
   A fresh buffer of exactly the encoded length and one, holding the encoding and a terminator;
   none when there is no string, the length is too large for `size_t`, or memory is short.
   */
  method Strndup16to8(s: Option<seq<Unit>>, sizeMax: nat, memory: bool) returns (ret: array?<Byte>)
    requires sizeMax >= 3 && (s.Some? ==> |s.value| <= sizeMax)
    ensures ret == null <==> s.None? || EncodedLength(s.value) >= sizeMax - 1 || !memory
    ensures ret != null ==> fresh(ret) && ret.Length == EncodedLength(s.value) + 1 && ret[..] == Encode(s.value) + [0]
  {
    if s.None? {
      return null;
    }
    var len := Strnlen16to8(s.value, sizeMax);
    if len >= sizeMax - 1 {
      return null;
    }
    if !memory {
      return null;
    }
    ret := new Byte[len + 1];
    Strncpy16to8(ret, s.value);
    assert ret[..] == ret[..len + 1];
  }
}
