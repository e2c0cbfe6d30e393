/** The base64url encoding of RFC 4648 as the web application computes it. */
module Base64 {
  import opened Text

  type Byte = b: int | 0 <= b < 256

  /** Character `n` of the standard alphabet, section 4 of RFC 4648. */
  function Letter(n: nat): char
    requires n < 64
  {
    if n < 26 then (65 + n) as char
    else if n < 52 then (71 + n) as char
    else if n < 62 then (n - 4) as char
    else if n == 62 then '+'
    else '/'
  }

  /** Standard base64 with padding, as `btoa` and Node's `Buffer` give it. */
  function Padded(bytes: seq<Byte>): string
  {
    if bytes == [] then ""
    else if |bytes| == 1 then
      [Letter(bytes[0] / 4), Letter(bytes[0] % 4 * 16), '=', '=']
    else if |bytes| == 2 then
      [Letter(bytes[0] / 4), Letter(bytes[0] % 4 * 16 + bytes[1] / 16), Letter(bytes[1] % 16 * 4), '=']
    else
      [Letter(bytes[0] / 4), Letter(bytes[0] % 4 * 16 + bytes[1] / 16),
       Letter(bytes[1] % 16 * 4 + bytes[2] / 64), Letter(bytes[2] % 64)] + Padded(bytes[3..])
  }

  /** `s.replace(/from/g, to)` for single characters. */
  function Replace(s: string, from: char, to: char): string
  {
    if s == "" then "" else [if s[0] == from then to else s[0]] + Replace(s[1..], from, to)
  }

  function Remove(s: string, c: char): string
  {
    if s == "" then "" else (if s[0] == c then "" else [s[0]]) + Remove(s[1..], c)
  }

  function Encode(bytes: seq<Byte>): string
  {
    Remove(Replace(Replace(Padded(bytes), '+', '-'), '/', '_'), '=')
  }

  // ---------- the two runtimes ----------

  const CHUNK_SIZE := 8192

  /** `String.fromCharCode(...bytes)`. */
  function BinaryString(bytes: seq<Byte>): string
  {
    if bytes == [] then "" else [bytes[0] as char] + BinaryString(bytes[1..])
  }

  function Codes(s: string): seq<Byte>
    requires Binary(s)
  {
    if s == "" then [] else
      assert Binary(s[1..]);
      [s[0] as int] + Codes(s[1..])
  }

  predicate Binary(s: string)
  {
    forall i :: 0 <= i < |s| ==> s[i] as int < 256
  }

  lemma {:induction false} BinaryStringConcat(a: seq<Byte>, b: seq<Byte>)
    ensures BinaryString(a + b) == BinaryString(a) + BinaryString(b)
  {
    if a == [] {
      assert a + b == b;
    } else {
      assert (a + b)[1..] == a[1..] + b;
      BinaryStringConcat(a[1..], b);
    }
  }

  lemma {:induction false} CodesOfBinaryString(bytes: seq<Byte>)
    ensures Binary(BinaryString(bytes)) && Codes(BinaryString(bytes)) == bytes
  {
    if bytes != [] {
      CodesOfBinaryString(bytes[1..]);
      assert BinaryString(bytes)[1..] == BinaryString(bytes[1..]);
    }
  }

  /** The same text in both runtimes: in chunks through `btoa`, or in one piece through `Buffer`. */
  method ToBase64Url(bytes: array<Byte>, hasBtoa: bool) returns (s: string)
    ensures s == Encode(bytes[..])
  {
    var base64: string;
    if hasBtoa {
      var chunks: seq<string> := [];
      var i := 0;
      EmptyChunks();
      assert bytes[..0] == [];
      while i < bytes.Length
        invariant 0 <= i && Flatten(chunks) == BinaryString(bytes[..if i <= bytes.Length then i else bytes.Length])
        decreases bytes.Length - i
      {
        var end := if i + CHUNK_SIZE <= bytes.Length then i + CHUNK_SIZE else bytes.Length;
        var chunk := BinaryString(bytes[i..end]);
        FlattenConcat(chunks, [chunk]);
        FlattenOne(chunk);
        BinaryStringConcat(bytes[..i], bytes[i..end]);
        assert bytes[..i] + bytes[i..end] == bytes[..end];
        chunks := chunks + [chunk];
        i := i + CHUNK_SIZE;
      }
      assert bytes[..bytes.Length] == bytes[..];
      CodesOfBinaryString(bytes[..]);
      base64 := Padded(Codes(Flatten(chunks)));
    } else {
      base64 := Padded(bytes[..]);
    }
    s := Remove(Replace(Replace(base64, '+', '-'), '/', '_'), '=');
  }

  lemma EmptyChunks()
    ensures Flatten<char>([]) == "" == BinaryString([])
  {
  }

  lemma FlattenOne(s: string)
    ensures Flatten([s]) == s
  {
    assert [s][1..] == [];
    assert s + Flatten<char>([]) == s;
  }

  // ---------- decoding ----------

  /** The value of a character of the URL alphabet, section 5 of RFC 4648. */
  function Value(c: char): Option<nat>
  {
    var n := c as int;
    if 65 <= n <= 90 then Some(n - 65)
    else if 97 <= n <= 122 then Some(n - 71)
    else if 48 <= n <= 57 then Some(n + 4)
    else if c == '-' then Some(62)
    else if c == '_' then Some(63)
    else None
  }

  predicate InAlphabet(s: string)
  {
    forall i :: 0 <= i < |s| ==> Value(s[i]).Some?
  }

  function UrlLetter(n: nat): char
    requires n < 64
  {
    if n == 62 then '-' else if n == 63 then '_' else Letter(n)
  }

  lemma LetterValue(n: nat)
    requires n < 64
    ensures Value(UrlLetter(n)) == Some(n) && UrlLetter(n) != '=' && UrlLetter(n) != '.'
    ensures Value(Letter(n)).Some? ==> n < 62
  {
  }

  lemma ValueLetter(c: char)
    ensures Value(c).Some? ==> Value(c).value < 64 && UrlLetter(Value(c).value) == c
  {
  }

  /** The decoder: groups of four characters, then none, two or three whose spare bits are zero. */
  function Decode(s: string): Option<seq<Byte>>
  {
    if s == "" then Some([])
    else if |s| == 1 || Value(s[0]).None? || Value(s[1]).None? then None
    else
      ValueLetter(s[0]); ValueLetter(s[1]);
      var a, b := Value(s[0]).value, Value(s[1]).value;
      if |s| == 2 then
        if b % 16 == 0 then Some([a * 4 + b / 16]) else None
      else if Value(s[2]).None? then None
      else
        ValueLetter(s[2]);
        var c := Value(s[2]).value;
        if |s| == 3 then
          if c % 4 == 0 then Some([a * 4 + b / 16, b % 16 * 16 + c / 4]) else None
        else if Value(s[3]).None? then None
        else
          ValueLetter(s[3]);
          var d := Value(s[3]).value;
          match Decode(s[4..])
          case None => None
          case Some(rest) => Some([a * 4 + b / 16, b % 16 * 16 + c / 4, c % 4 * 64 + d] + rest)
  }

  /** The encoding without the detour through padding. */
  function Direct(bytes: seq<Byte>): string
  {
    if bytes == [] then ""
    else if |bytes| == 1 then
      [UrlLetter(bytes[0] / 4), UrlLetter(bytes[0] % 4 * 16)]
    else if |bytes| == 2 then
      [UrlLetter(bytes[0] / 4), UrlLetter(bytes[0] % 4 * 16 + bytes[1] / 16), UrlLetter(bytes[1] % 16 * 4)]
    else
      [UrlLetter(bytes[0] / 4), UrlLetter(bytes[0] % 4 * 16 + bytes[1] / 16),
       UrlLetter(bytes[1] % 16 * 4 + bytes[2] / 64), UrlLetter(bytes[2] % 64)] + Direct(bytes[3..])
  }

  /** The three replacements as one pass. */
  function ToUrl(s: string): string
  {
    if s == "" then ""
    else (if s[0] == '+' then "-" else if s[0] == '/' then "_" else if s[0] == '=' then "" else [s[0]]) + ToUrl(s[1..])
  }

  lemma {:induction false} ReplacementsAreToUrl(s: string)
    ensures Remove(Replace(Replace(s, '+', '-'), '/', '_'), '=') == ToUrl(s)
  {
    if s != "" {
      ReplacementsAreToUrl(s[1..]);
      var r := Replace(s, '+', '-');
      assert r[1..] == Replace(s[1..], '+', '-');
      assert Replace(r, '/', '_')[1..] == Replace(r[1..], '/', '_');
    }
  }

  lemma ToUrlLetter(n: nat, rest: string)
    requires n < 64
    ensures ToUrl([Letter(n)] + rest) == [UrlLetter(n)] + ToUrl(rest)
  {
    assert ([Letter(n)] + rest)[1..] == rest;
  }

  lemma ToUrlPadding(rest: string)
    ensures ToUrl(['='] + rest) == ToUrl(rest)
  {
    assert (['='] + rest)[1..] == rest;
  }

  lemma {:induction false} EncodeIsDirect(bytes: seq<Byte>)
    ensures Encode(bytes) == Direct(bytes)
  {
    ReplacementsAreToUrl(Padded(bytes));
    PaddedIsDirect(bytes);
  }

  lemma {:induction false} PaddedIsDirect(bytes: seq<Byte>)
    ensures ToUrl(Padded(bytes)) == Direct(bytes)
  {
    hide Letter, UrlLetter, ToUrl;
    EmptyUrl();
    if |bytes| == 1 {
      var a, b := bytes[0] / 4, bytes[0] % 4 * 16;
      assert Padded(bytes) == [Letter(a)] + ([Letter(b)] + (['='] + (['='] + "")));
      ToUrlLetter(a, [Letter(b)] + (['='] + (['='] + "")));
      ToUrlLetter(b, ['='] + (['='] + ""));
      ToUrlPadding(['='] + "");
      ToUrlPadding("");
    } else if |bytes| == 2 {
      var a, b, c := bytes[0] / 4, bytes[0] % 4 * 16 + bytes[1] / 16, bytes[1] % 16 * 4;
      assert Padded(bytes) == [Letter(a)] + ([Letter(b)] + ([Letter(c)] + (['='] + "")));
      ToUrlLetter(a, [Letter(b)] + ([Letter(c)] + (['='] + "")));
      ToUrlLetter(b, [Letter(c)] + (['='] + ""));
      ToUrlLetter(c, ['='] + "");
      ToUrlPadding("");
    } else if bytes != [] {
      var a, b := bytes[0] / 4, bytes[0] % 4 * 16 + bytes[1] / 16;
      var c, d := bytes[1] % 16 * 4 + bytes[2] / 64, bytes[2] % 64;
      var rest := Padded(bytes[3..]);
      PaddedIsDirect(bytes[3..]);
      assert Padded(bytes) == [Letter(a)] + ([Letter(b)] + ([Letter(c)] + ([Letter(d)] + rest)));
      ToUrlLetter(a, [Letter(b)] + ([Letter(c)] + ([Letter(d)] + rest)));
      ToUrlLetter(b, [Letter(c)] + ([Letter(d)] + rest));
      ToUrlLetter(c, [Letter(d)] + rest);
      ToUrlLetter(d, rest);
    }
  }

  lemma EmptyUrl()
    ensures ToUrl("") == ""
  {
  }

  lemma {:induction false} DirectShape(bytes: seq<Byte>)
    ensures |Direct(bytes)| == (4 * |bytes| + 2) / 3 && InAlphabet(Direct(bytes))
  {
    hide Value, UrlLetter;
    forall n | 0 <= n < 64 ensures Value(UrlLetter(n)).Some? {
      LetterValue(n);
    }
    if |bytes| >= 3 {
      DirectShape(bytes[3..]);
    }
  }

  lemma BytesOfLetters(x: Byte, y: Byte, z: Byte)
    ensures x / 4 * 4 + (x % 4 * 16 + y / 16) / 16 == x
    ensures (x % 4 * 16 + y / 16) % 16 * 16 + (y % 16 * 4 + z / 64) / 4 == y
    ensures (y % 16 * 4 + z / 64) % 4 * 64 + z % 64 == z
    ensures x % 4 * 16 % 16 == 0 && y % 16 * 4 % 4 == 0
    ensures x / 4 * 4 + x % 4 * 16 / 16 == x && y % 16 * 4 / 4 == y % 16
    ensures (x % 4 * 16 + y / 16) % 16 == y / 16 && y / 16 * 16 + y % 16 == y
  {
  }

  lemma DecodeOne(x: Byte)
    ensures Decode([UrlLetter(x / 4), UrlLetter(x % 4 * 16)]) == Some([x])
  {
    hide Value, UrlLetter;
    BytesOfLetters(x, 0, 0);
    LetterValue(x / 4);
    LetterValue(x % 4 * 16);
  }

  lemma DecodeTwo(x: Byte, y: Byte)
    ensures Decode([UrlLetter(x / 4), UrlLetter(x % 4 * 16 + y / 16), UrlLetter(y % 16 * 4)]) == Some([x, y])
  {
    hide Value, UrlLetter;
    BytesOfLetters(x, y, 0);
    LetterValue(x / 4);
    LetterValue(x % 4 * 16 + y / 16);
    LetterValue(y % 16 * 4);
  }

  lemma DecodeThree(x: Byte, y: Byte, z: Byte, rest: string)
    ensures Decode([UrlLetter(x / 4), UrlLetter(x % 4 * 16 + y / 16),
                    UrlLetter(y % 16 * 4 + z / 64), UrlLetter(z % 64)] + rest) ==
              match Decode(rest) case None => None case Some(more) => Some([x, y, z] + more)
  {
    hide Value, UrlLetter;
    BytesOfLetters(x, y, z);
    var a, b, c, d := x / 4, x % 4 * 16 + y / 16, y % 16 * 4 + z / 64, z % 64;
    LetterValue(a);
    LetterValue(b);
    LetterValue(c);
    LetterValue(d);
    var s := [UrlLetter(a), UrlLetter(b), UrlLetter(c), UrlLetter(d)] + rest;
    assert s[4..] == rest;
    assert s[0] == UrlLetter(a) && s[1] == UrlLetter(b) && s[2] == UrlLetter(c) && s[3] == UrlLetter(d);
  }

  lemma {:induction false} DecodeDirect(bytes: seq<Byte>)
    ensures Decode(Direct(bytes)) == Some(bytes)
  {
    hide Value, UrlLetter, Decode;
    if bytes == [] {
      DecodeNothing();
    } else if |bytes| == 1 {
      DecodeOne(bytes[0]);
      assert bytes == [bytes[0]];
    } else if |bytes| == 2 {
      DecodeTwo(bytes[0], bytes[1]);
      assert bytes == [bytes[0], bytes[1]];
    } else {
      DecodeThree(bytes[0], bytes[1], bytes[2], Direct(bytes[3..]));
      DecodeDirect(bytes[3..]);
      assert bytes == [bytes[0], bytes[1], bytes[2]] + bytes[3..];
    }
  }

  lemma DecodeNothing()
    ensures Decode("") == Some([])
  {
  }

  /** Every byte sequence is read back; the text has length ceil(4n/3), letters of the URL alphabet only,
      and so neither padding nor a dot. */
  lemma EncodeDecode(bytes: seq<Byte>)
    ensures Decode(Encode(bytes)) == Some(bytes)
    ensures |Encode(bytes)| == (4 * |bytes| + 2) / 3 && InAlphabet(Encode(bytes))
    ensures '=' !in Encode(bytes) && '.' !in Encode(bytes)
  {
    hide Encode, Decode, Direct;
    EncodeIsDirect(bytes);
    DecodeDirect(bytes);
    DirectShape(bytes);
  }

  lemma LettersOfBytes(a: nat, b: nat, c: nat, d: nat)
    requires a < 64 && b < 64 && c < 64 && d < 64
    ensures var x, y, z := a * 4 + b / 16, b % 16 * 16 + c / 4, c % 4 * 64 + d;
      && x / 4 == a && x % 4 * 16 + y / 16 == b && y % 16 * 4 + z / 64 == c && z % 64 == d
    ensures b % 16 == 0 ==> (a * 4 + b / 16) % 4 * 16 == b
    ensures c % 4 == 0 ==> (b % 16 * 16 + c / 4) % 16 * 4 == c
  {
  }

  lemma DirectGroup(a: nat, b: nat, c: nat, d: nat, rest: seq<Byte>)
    requires a < 64 && b < 64 && c < 64 && d < 64
    ensures Direct([a * 4 + b / 16, b % 16 * 16 + c / 4, c % 4 * 64 + d] + rest) ==
            [UrlLetter(a), UrlLetter(b), UrlLetter(c), UrlLetter(d)] + Direct(rest)
  {
    hide UrlLetter;
    LettersOfBytes(a, b, c, d);
    var bytes: seq<Byte> := [a * 4 + b / 16, b % 16 * 16 + c / 4, c % 4 * 64 + d];
    assert (bytes + rest)[3..] == rest;
  }

  /** The decoder accepts nothing but encodings. */
  lemma {:induction false} DecodeEncode(s: string)
    ensures Decode(s).Some? ==> Encode(Decode(s).value) == s
  {
    if Decode(s).Some? {
      EncodeIsDirect(Decode(s).value);
      DirectDecode(s);
    }
  }

  lemma {:induction false} DirectDecode(s: string)
    requires Decode(s).Some?
    ensures Direct(Decode(s).value) == s
  {
    hide Value, UrlLetter;
    if s != "" {
      ValueLetter(s[0]);
      ValueLetter(s[1]);
      var a, b := Value(s[0]).value, Value(s[1]).value;
      if |s| == 2 {
        LettersOfBytes(a, b, 0, 0);
      } else {
        ValueLetter(s[2]);
        var c := Value(s[2]).value;
        if |s| == 3 {
          LettersOfBytes(a, b, c, 0);
        } else {
          ValueLetter(s[3]);
          DirectDecode(s[4..]);
          DirectGroup(a, b, c, Value(s[3]).value, Decode(s[4..]).value);
          assert s == [s[0], s[1], s[2], s[3]] + s[4..];
        }
      }
    }
  }
}
