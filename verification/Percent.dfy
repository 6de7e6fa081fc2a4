/** Percent-encoding: `encode_query_value`, identical in crates/talon-backend/src/azure.rs
    and gcs.rs, against a decoder in the sense of RFC 3986, section 2.1. */
module Percent {
  import opened Text

  /** The unreserved characters of RFC 3986, section 2.3. */
  predicate Unreserved(b: byte) {
    || 'A' as int <= b <= 'Z' as int || 'a' as int <= b <= 'z' as int || '0' as int <= b <= '9' as int
    || b == '-' as int || b == '_' as int || b == '.' as int || b == '~' as int
  }

  function HexDigit(n: nat): char
    requires n < 16
  {
    if n < 10 then ('0' as int + n) as char else ('A' as int + (n - 10)) as char
  }

  function EncodeByte(b: byte): (s: string)
    ensures s != ""
  {
    if Unreserved(b) then [b as char] else ['%', HexDigit(b / 16), HexDigit(b % 16)]
  }

  function Encode(bytes: seq<byte>): string {
    if bytes == [] then "" else EncodeByte(bytes[0]) + Encode(bytes[1..])
  }

  lemma {:induction false} EncodeAppend(a: seq<byte>, b: byte)
    ensures Encode(a + [b]) == Encode(a) + EncodeByte(b)
  {
    if a == [] {
      assert [b][1..] == [];
      assert a + [b] == [b];
    } else {
      hide EncodeByte;
      HeadTail(a, [b]);
      assert (a + [b])[1..] == a[1..] + [b];
      EncodeAppend(a[1..], b);
      Assoc(EncodeByte(a[0]), Encode(a[1..]), EncodeByte(b));
    }
  }

  /** `encode_query_value`: the loop over the bytes of the value. */
  method EncodeQueryValue(bytes: seq<byte>) returns (out: string)
    ensures out == Encode(bytes)
  {
    out := "";
    for i := 0 to |bytes|
      invariant out == Encode(bytes[..i])
    {
      var b := bytes[i];
      EncodeAppend(bytes[..i], b);
      assert bytes[..i + 1] == bytes[..i] + [b];
      if Unreserved(b) {
        out := out + [b as char];
      } else {
        out := out + ['%', HexDigit(b / 16), HexDigit(b % 16)];
      }
    }
    assert bytes[..|bytes|] == bytes;
  }

  function HexValue(c: char): (r: Option<nat>)
    ensures r.Some? ==> r.value < 16
  {
    if '0' <= c <= '9' then Some(c as int - '0' as int)
    else if 'A' <= c <= 'F' then Some(c as int - 'A' as int + 10)
    else if 'a' <= c <= 'f' then Some(c as int - 'a' as int + 10)
    else None
  }

  /** One byte at the front of the text and the text after it. */
  function DecodeOne(s: string): (r: Option<(byte, string)>)
    ensures r.Some? ==> |r.value.1| < |s|
  {
    if s == "" then None
    else if s[0] == '%' then
      if |s| < 3 || HexValue(s[1]).None? || HexValue(s[2]).None? then None
      else Some((16 * HexValue(s[1]).value + HexValue(s[2]).value, s[3..]))
    else if s[0] as int < 256 then Some((s[0] as int, s[1..]))
    else None
  }

  function Decode(s: string): Option<seq<byte>>
    decreases |s|
  {
    if s == "" then Some([])
    else
      match DecodeOne(s)
      case None => None
      case Some((b, rest)) =>
        match Decode(rest)
        case None => None
        case Some(bytes) => Some([b] + bytes)
  }

  lemma DecodeEncodedByte(b: byte, rest: string)
    ensures DecodeOne(EncodeByte(b) + rest) == Some((b, rest))
  {
    var s := EncodeByte(b) + rest;
    assert s[|EncodeByte(b)|..] == rest;
    assert forall i :: 0 <= i < |EncodeByte(b)| ==> s[i] == EncodeByte(b)[i];
  }

  /** Decoding undoes encoding on every byte string. */
  lemma {:induction false} DecodeUndoesEncode(bytes: seq<byte>)
    ensures Decode(Encode(bytes)) == Some(bytes)
  {
    if bytes == [] {
    } else {
      hide EncodeByte, DecodeOne;
      var rest := Encode(bytes[1..]);
      DecodeEncodedByte(bytes[0], rest);
      DecodeUndoesEncode(bytes[1..]);
      HeadTail(bytes, []);
    }
  }

  predicate Delimiter(c: char) {
    c in "&=/?#"
  }

  /** Encoded text holds no delimiter of a path or a query. */
  lemma {:induction false} EncodedHasNoDelimiter(bytes: seq<byte>, c: char)
    requires Delimiter(c)
    ensures c !in Encode(bytes)
  {
    if bytes == [] {
    } else {
      EncodedHasNoDelimiter(bytes[1..], c);
      assert c !in EncodeByte(bytes[0]);
    }
  }

  predicate Plain(s: string) {
    forall i :: 0 <= i < |s| ==> (s[i] as int < 256 && Unreserved(s[i] as int))
  }

  /** The bytes of ASCII text. */
  function Ascii(s: string): (r: seq<byte>)
    requires Plain(s)
    ensures |r| == |s| && forall i :: 0 <= i < |s| ==> r[i] == s[i] as int
  {
    seq(|s|, i requires 0 <= i < |s| => s[i] as int)
  }

  /** Text of unreserved characters is its own encoding. */
  lemma {:induction false} PlainIsEncoded(s: string)
    requires Plain(s)
    ensures Encode(Ascii(s)) == s
  {
    if s == "" {
    } else {
      PlainIsEncoded(s[1..]);
      assert Ascii(s)[1..] == Ascii(s[1..]);
      HeadTail(s, "");
    }
  }

  lemma NumbersArePlain(n: nat)
    ensures Plain(PrintNat(n))
  {
    var s := PrintNat(n);
    forall i | 0 <= i < |s|
      ensures s[i] as int < 256 && Unreserved(s[i] as int)
    {
      assert IsDigit(s[i]);
    }
  }

  /** Exactly the letters, digits, `-`, `.`, `_` and `~` are kept, and every other byte
      becomes a percent sign and two hexadecimal digits in upper case. */
  lemma KeptExactly(b: byte)
    ensures Encode([b]) == EncodeByte(b)
    ensures EncodeByte(b) == [b as char] <==>
              65 <= b <= 90 || 97 <= b <= 122 || 48 <= b <= 57 || b == 45 || b == 46 || b == 95 || b == 126
    ensures EncodeByte(b) != [b as char] ==>
              && |EncodeByte(b)| == 3 && EncodeByte(b)[0] == '%'
              && (forall i :: 1 <= i < 3 ==> '0' <= EncodeByte(b)[i] <= '9' || 'A' <= EncodeByte(b)[i] <= 'F')
  {
    assert [b][1..] == [];
    if !Unreserved(b) {
      assert EncodeByte(b)[0] == '%' && |EncodeByte(b)| == 3;
    }
  }
}
