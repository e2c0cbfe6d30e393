/** Signed tokens of the double-submit cookie. */
module Csrf {
  import opened Base64
  import opened Text

  /** The keyed hash of a token. */
  type Mac = string -> seq<Byte>

  function Signature(mac: Mac, token: string): string
  {
    Encode(mac(token))
  }

  function SignToken(mac: Mac, token: string): string
  {
    token + ['.'] + Signature(mac, token)
  }

  // ---------- bitwise operations on character codes ----------

  function Xor(a: nat, b: nat): nat
  {
    if a == 0 && b == 0 then 0 else 2 * Xor(a / 2, b / 2) + (a % 2 + b % 2) % 2
  }

  function Or(a: nat, b: nat): nat
  {
    if a == 0 && b == 0 then 0 else 2 * Or(a / 2, b / 2) + (if a % 2 + b % 2 > 0 then 1 else 0)
  }

  /** Bit `i` of a number. */
  predicate Bit(a: nat, i: nat)
  {
    if i == 0 then a % 2 == 1 else Bit(a / 2, i - 1)
  }

  lemma {:induction false} NoBits(i: nat)
    ensures !Bit(0, i)
  {
    if i > 0 {
      NoBits(i - 1);
    }
  }

  lemma Doubled(x: nat, d: nat)
    requires d < 2
    ensures (2 * x + d) / 2 == x && (2 * x + d) % 2 == d
  {
  }

  /** The two operations are bitwise: a bit of the XOR says whether the operands differ there, a bit of the
      OR whether one of them has it. */
  lemma {:induction false} Bitwise(a: nat, b: nat, i: nat)
    ensures Bit(Xor(a, b), i) <==> Bit(a, i) != Bit(b, i)
    ensures Bit(Or(a, b), i) <==> Bit(a, i) || Bit(b, i)
    decreases i
  {
    if a == 0 && b == 0 {
      NoBits(i);
    } else {
      Doubled(Xor(a / 2, b / 2), (a % 2 + b % 2) % 2);
      Doubled(Or(a / 2, b / 2), if a % 2 + b % 2 > 0 then 1 else 0);
      if i > 0 {
        Bitwise(a / 2, b / 2, i - 1);
      }
    }
  }

  lemma {:induction false} XorIsZero(a: nat, b: nat)
    ensures Xor(a, b) == 0 <==> a == b
  {
    if a != 0 || b != 0 {
      XorIsZero(a / 2, b / 2);
    }
  }

  lemma {:induction false} OrIsZero(a: nat, b: nat)
    ensures Or(a, b) == 0 <==> a == 0 && b == 0
  {
    if a != 0 || b != 0 {
      OrIsZero(a / 2, b / 2);
    }
  }

  /** The comparison loop: exactly equal texts are accepted. */
  method SameText(a: string, b: string) returns (same: bool)
    ensures same <==> a == b
  {
    if |a| != |b| { return false; }
    var result := 0;
    for i := 0 to |a|
      invariant result == 0 <==> a[..i] == b[..i]
    {
      XorIsZero(a[i] as nat, b[i] as nat);
      OrIsZero(result, Xor(a[i] as nat, b[i] as nat));
      assert a[..i + 1] == a[..i] + [a[i]] && b[..i + 1] == b[..i] + [b[i]];
      result := Or(result, Xor(a[i] as nat, b[i] as nat));
    }
    assert a[..|a|] == a && b[..|b|] == b;
    same := result == 0;
  }

  /** A text is accepted when its first two parts are a token and its signature. */
  predicate Accepted(mac: Mac, signed: string)
  {
    var parts := Split('.', signed);
    |parts| >= 2 && parts[0] != "" && parts[1] != "" && parts[1] == Signature(mac, parts[0])
  }

  method VerifyToken(mac: Mac, signed: string) returns (ok: bool)
    ensures ok <==> Accepted(mac, signed)
  {
    hide Split, Encode;
    var parts := Split('.', signed);
    if |parts| < 2 || parts[0] == "" || parts[1] == "" { return false; }
    var expectedParts := Split('.', SignToken(mac, parts[0]));
    SplitParts('.', signed);
    SignedParts(mac, parts[0]);
    var expected := expectedParts[1];
    if expected == "" { return false; }
    ok := SameText(parts[1], expected);
  }

  lemma SignedParts(mac: Mac, token: string)
    requires '.' !in token
    ensures Split('.', SignToken(mac, token)) == [token, Signature(mac, token)]
  {
    hide Encode, Split;
    EncodeDecode(mac(token));
    var parts := [token, Signature(mac, token)];
    assert parts[1..] == [Signature(mac, token)];
    SplitJoin('.', parts);
  }

  /** Accepted texts are the signed tokens themselves and those followed by a dot and anything else. */
  lemma AcceptedIff(mac: Mac, signed: string)
    ensures Accepted(mac, signed) <==>
              exists token :: token != "" && '.' !in token && mac(token) != []
                && (signed == SignToken(mac, token) || SignToken(mac, token) + ['.'] <= signed)
  {
    hide Encode, Split;
    var parts := Split('.', signed);
    SplitParts('.', signed);
    if Accepted(mac, signed) {
      var token := parts[0];
      EmptyMac(mac, token);
      assert '.' !in token;
      if |parts| == 2 {
        assert parts == [token, Signature(mac, token)] && parts[1..] == [Signature(mac, token)];
        assert signed == SignToken(mac, token);
      } else {
        assert [token, Signature(mac, token)] + parts[2..] == parts;
        JoinConcat('.', [token, Signature(mac, token)], parts[2..]);
        assert [token, Signature(mac, token)][1..] == [Signature(mac, token)];
        assert signed == SignToken(mac, token) + ['.'] + Join('.', parts[2..]);
      }
    }
    forall token | token != "" && '.' !in token && mac(token) != []
                   && (signed == SignToken(mac, token) || SignToken(mac, token) + ['.'] <= signed)
      ensures Accepted(mac, signed)
    {
      EmptyMac(mac, token);
      SignedParts(mac, token);
      if signed != SignToken(mac, token) {
        TwoParts(mac, token, signed);
      }
    }
  }

  lemma EmptyMac(mac: Mac, token: string)
    ensures Signature(mac, token) == "" <==> mac(token) == []
  {
    EncodeDecode(mac(token));
  }

  lemma TwoParts(mac: Mac, token: string, signed: string)
    requires '.' !in token && SignToken(mac, token) + ['.'] <= signed
    ensures |Split('.', signed)| >= 2 && Split('.', signed)[0] == token &&
      Split('.', signed)[1] == Signature(mac, token)
  {
    hide Encode, Split;
    var signature := Signature(mac, token);
    EncodeDecode(mac(token));
    var rest := signed[|SignToken(mac, token)| + 1..];
    assert signed == token + ['.'] + (signature + ['.'] + rest);
    SplitStep('.', token, signature + ['.'] + rest);
    SplitStep('.', signature, rest);
  }

  /** A signed token is accepted when the token is not empty and has no dot; generated tokens are such. */
  lemma SignedIsAccepted(mac: Mac, token: string)
    requires token != "" && '.' !in token && mac(token) != []
    ensures Accepted(mac, SignToken(mac, token))
  {
    AcceptedIff(mac, SignToken(mac, token));
  }

  /** A generated token: 32 random bytes in base64url. */
  lemma GeneratedTokenIsAccepted(mac: Mac, random: seq<Byte>)
    requires |random| == 32 && mac(Encode(random)) != []
    ensures |Encode(random)| == 43 && Accepted(mac, SignToken(mac, Encode(random)))
  {
    hide Encode, Accepted;
    EncodeDecode(random);
    SignedIsAccepted(mac, Encode(random));
  }
}
