/**
 Stored passwords: scheme, iteration count, salt and derived key, separated by dollar signs.  The key
 derivation itself (PBKDF2, section 5.2 of RFC 8018) is a parameter: any function that either fails or
 yields 32 bytes.
 */
module PasswordHashers {
  import opened Common
  import opened Decimal
  import opened Texts

  type Derivation = (seq<Byte>, seq<Byte>, Int32) -> Option<seq<Byte>>

  const SCHEME := "pbkdf2_sha256"
  const DERIVED_KEY_LENGTH := 32

  ghost predicate YieldsKeys(derive: Derivation)
  {
    forall password, salt, n {:trigger derive(password, salt, n)} ::
      derive(password, salt, n).Some? ==> |derive(password, salt, n).value| == DERIVED_KEY_LENGTH
  }

  // ---- hexadecimal ----

  function HexDigit(d: nat): (c: char)
    requires d < 16
    ensures c != '$'
  {
    if d < 10 then '0' + d as char else 'a' + (d - 10) as char
  }

  function HexValue(c: char): (d: Option<nat>)
    ensures d.Some? ==> d.value < 16
  {
    if '0' <= c <= '9' then Some(c as int - '0' as int)
    else if 'a' <= c <= 'f' then Some(c as int - 'a' as int + 10)
    else if 'A' <= c <= 'F' then Some(c as int - 'A' as int + 10)
    else None
  }

  function Hex(data: seq<Byte>): string
  {
    seq(2 * |data|, i requires 0 <= i < 2 * |data| =>
      HexDigit(if i % 2 == 0 then data[i / 2] / 16 else data[i / 2] % 16))
  }

  predicate IsHex(s: string)
  {
    |s| % 2 == 0 && forall i :: 0 <= i < |s| ==> HexValue(s[i]).Some?
  }

  function Unhex(s: string): seq<Byte>
    requires IsHex(s)
  {
    seq(|s| / 2, i requires 0 <= i < |s| / 2 => 16 * HexValue(s[2 * i]).value + HexValue(s[2 * i + 1]).value)
  }

  lemma HexDigitValue(d: nat)
    requires d < 16
    ensures HexValue(HexDigit(d)) == Some(d)
  {
  }

  lemma HexDigits(data: seq<Byte>, i: nat)
    requires i < |data|
    ensures Hex(data)[2 * i] == HexDigit(data[i] / 16) && Hex(data)[2 * i + 1] == HexDigit(data[i] % 16)
  {
  }

  /** The digit that stands for this value, in either case. */
  predicate Stands(c: char, d: nat)
    requires d < 16
  {
    c == "0123456789abcdef"[d] || c == "0123456789ABCDEF"[d]
  }

  predicate HexChar(c: char) { '0' <= c <= '9' || 'a' <= c <= 'f' || 'A' <= c <= 'F' }

  lemma HexValueExactly(c: char)
    ensures HexValue(c).Some? <==> HexChar(c)
    ensures HexValue(c).Some? ==> Stands(c, HexValue(c).value)
  {
  }

  lemma Halves(high: nat, low: nat)
    requires low < 16
    ensures (16 * high + low) / 16 == high && (16 * high + low) % 16 == low
  {
  }

  lemma UnhexText(s: string)
    ensures IsHex(s) <==> |s| % 2 == 0 && forall i :: 0 <= i < |s| ==> HexChar(s[i])
    ensures IsHex(s) ==>
              forall i :: 0 <= i < |s| / 2 ==>
                Stands(s[2 * i], Unhex(s)[i] / 16) && Stands(s[2 * i + 1], Unhex(s)[i] % 16)
  {
    hide HexValue, Stands, HexChar;
    forall i | 0 <= i < |s| ensures HexValue(s[i]).Some? <==> HexChar(s[i]) { HexValueExactly(s[i]); }
    if IsHex(s) {
      forall i | 0 <= i < |s| / 2
        ensures Stands(s[2 * i], Unhex(s)[i] / 16) && Stands(s[2 * i + 1], Unhex(s)[i] % 16)
      {
        HexValueExactly(s[2 * i]);
        HexValueExactly(s[2 * i + 1]);
        Halves(HexValue(s[2 * i]).value, HexValue(s[2 * i + 1]).value);
      }
    }
  }

  lemma HexText(data: seq<Byte>)
    ensures |Hex(data)| == 2 * |data|
    ensures forall i :: 0 <= i < |data| ==>
              && Hex(data)[2 * i] == "0123456789abcdef"[data[i] / 16]
              && Hex(data)[2 * i + 1] == "0123456789abcdef"[data[i] % 16]
  {
    forall d: nat | d < 16 ensures HexDigit(d) == "0123456789abcdef"[d] {
    }
    forall i | 0 <= i < |data|
      ensures Hex(data)[2 * i] == "0123456789abcdef"[data[i] / 16]
      ensures Hex(data)[2 * i + 1] == "0123456789abcdef"[data[i] % 16]
    {
      hide Hex, HexDigit;
      HexDigits(data, i);
    }
  }

  lemma HexRoundTrip(data: seq<Byte>)
    ensures IsHex(Hex(data)) && Unhex(Hex(data)) == data
  {
    var s := Hex(data);
    forall i | 0 <= i < |s| ensures HexValue(s[i]).Some? {
      HexDigitValue(if i % 2 == 0 then data[i / 2] / 16 else data[i / 2] % 16);
    }
    hide HexValue, HexDigit;
    forall i | 0 <= i < |data| ensures Unhex(s)[i] == data[i] {
      HexDigitValue(data[i] / 16);
      HexDigitValue(data[i] % 16);
      HexDigits(data, i);
    }
  }

  method ToHex(data: seq<Byte>) returns (output: string)
    ensures output == Hex(data) && |output| == 2 * |data|
    ensures forall i :: 0 <= i < |data| ==>
              && output[2 * i] == "0123456789abcdef"[data[i] / 16]
              && output[2 * i + 1] == "0123456789abcdef"[data[i] % 16]
  {
    output := "";
    for index := 0 to |data|
      invariant output == Hex(data[..index])
    {
      output := output + [HexDigit(data[index] / 16)];
      output := output + [HexDigit(data[index] % 16)];
    }
    assert data[..|data|] == data;
    HexText(data);
  }

  method FromHex(hex: string) returns (output: Option<seq<Byte>>)
    ensures output == if IsHex(hex) then Some(Unhex(hex)) else None
    ensures output.Some? <==> |hex| % 2 == 0 && forall i :: 0 <= i < |hex| ==> HexChar(hex[i])
    ensures output.Some? ==>
              && |output.value| == |hex| / 2
              && forall i :: 0 <= i < |output.value| ==>
                   Stands(hex[2 * i], output.value[i] / 16) && Stands(hex[2 * i + 1], output.value[i] % 16)
  {
    hide HexValue, Stands, HexChar;
    UnhexText(hex);
    if |hex| % 2 != 0 { return None; }
    var bytes: seq<Byte> := [];
    var index := 0;
    while index < |hex|
      invariant index % 2 == 0 && index <= |hex|
      invariant IsHex(hex[..index]) && bytes == Unhex(hex[..index])
    {
      var high, low := HexValue(hex[index]), HexValue(hex[index + 1]);
      if high.None? || low.None? { return None; }
      ghost var before := hex[..index];
      bytes := bytes + [16 * high.value + low.value];
      index := index + 2;
      assert hex[..index] == before + [hex[index - 2], hex[index - 1]];
    }
    assert hex[..index] == hex;
    output := Some(bytes);
  }

  // ---- encoded hashes ----

  /** HashPassword: empty when no key can be derived. */
  function HashPassword(derive: Derivation, password: seq<Byte>, salt: seq<Byte>, iterations: Int32): string
  {
    if iterations <= 0 || derive(password, salt, iterations).None? then ""
    else Hex(derive(password, salt, iterations).value)
  }

  function Encoded(iterations: string, salt: string, hash: string): string
  {
    SCHEME + ("$" + (iterations + ("$" + (salt + ("$" + hash)))))
  }

  function BuildEncodedHash(derive: Derivation, password: seq<Byte>, salt: seq<Byte>, iterations: Int32): Option<string>
  {
    var hashed := HashPassword(derive, password, salt, iterations);
    if hashed == "" then None else Some(Encoded(PrintInt(iterations), Hex(salt), hashed))
  }

  datatype Fields = Fields(scheme: string, iterations: string, salt: string, hash: string)

  /** Cut at the first three dollar signs. */
  function Split(encoded: string): Option<Fields>
  {
    var first := Find(encoded, "$", 0);
    if first.None? then None else
    var second := Find(encoded, "$", first.value + 1);
    if second.None? then None else
    var third := Find(encoded, "$", second.value + 1);
    if third.None? then None else
    Some(Fields(encoded[..first.value], encoded[first.value + 1..second.value],
                encoded[second.value + 1..third.value], encoded[third.value + 1..]))
  }

  function VerifyPassword(derive: Derivation, password: seq<Byte>, encoded: string): bool
  {
    var fields := Split(encoded);
    if fields.None? || fields.value.scheme != SCHEME then false
    else
      var iterations := Stoi(fields.value.iterations);
      if iterations.None? || !IsHex(fields.value.salt) then false
      else HashPassword(derive, password, Unhex(fields.value.salt), iterations.value) == fields.value.hash
  }

  predicate NoDollar(s: string) { Find(s, "$", 0).None? }

  lemma NoDollarIn(s: string)
    requires forall i :: 0 <= i < |s| ==> s[i] != '$'
    ensures NoDollar(s)
  {
    NotIn(s, '$');
  }

  /** Three fields without a dollar sign, and whatever follows, are cut apart where they were joined. */
  lemma SplitJoined(a: string, b: string, c: string, d: string)
    requires NoDollar(a) && NoDollar(b) && NoDollar(c)
    ensures Split(a + ("$" + (b + ("$" + (c + ("$" + d)))))) == Some(Fields(a, b, c, d))
  {
    hide Find;
    var afterB := c + ("$" + d);
    var afterA := b + ("$" + afterB);
    var s := a + ("$" + afterA);
    FoundAfter(a, "$", afterA);
    Regroup(a, "$", afterA);
    FoundBehind(a + "$", b, "$", afterB);
    Regroup(a + "$" + b, "$", afterB);
    Regroup(a + "$", b, "$" + afterB);
    FoundBehind(a + "$" + b + "$", c, "$", d);
    Layout(a, "$", b, "$", afterB);
    Layout(a + "$" + b, "$", c, "$", d);
    assert s[..|a|] == s[0..|a|];
  }

  lemma JoinedAt(s: string, i: nat)
    requires i < |s| && s[i] == '$'
    ensures s == s[..i] + ("$" + s[i + 1..])
  {
  }

  /** Where the three dollar signs are. */
  lemma SplitAt(encoded: string) returns (i: nat, j: nat, k: nat)
    requires Split(encoded).Some?
    ensures OccursAt(encoded, "$", i) && i < j && OccursAt(encoded, "$", j) && j < k && OccursAt(encoded, "$", k)
    ensures k < |encoded|
    ensures Split(encoded) == Some(Fields(encoded[..i], encoded[i + 1..j], encoded[j + 1..k], encoded[k + 1..]))
    ensures NoDollar(encoded[..i]) && NoDollar(encoded[i + 1..j]) && NoDollar(encoded[j + 1..k])
  {
    hide Find;
    i := Find(encoded, "$", 0).value;
    j := Find(encoded, "$", i + 1).value;
    k := Find(encoded, "$", j + 1).value;
    NothingBefore(encoded, "$", 0, i);
    NothingBefore(encoded, "$", i + 1, j);
    NothingBefore(encoded, "$", j + 1, k);
    assert encoded[0..i] == encoded[..i];
  }

  /** What is cut apart is put together again by dollar signs. */
  lemma SplitJoins(encoded: string)
    requires Split(encoded).Some?
    ensures var f := Split(encoded).value;
            && NoDollar(f.scheme) && NoDollar(f.iterations) && NoDollar(f.salt)
            && encoded == f.scheme + ("$" + (f.iterations + ("$" + (f.salt + ("$" + f.hash)))))
  {
    hide Split, NoDollar, OccursAt;
    var i, j, k := SplitAt(encoded);
    JoinedAtThree(encoded, i, j, k);
  }

  lemma JoinedAtThree(s: string, i: nat, j: nat, k: nat)
    requires OccursAt(s, "$", i) && i < j && OccursAt(s, "$", j) && j < k && OccursAt(s, "$", k)
    ensures k < |s|
    ensures s == s[..i] + ("$" + (s[i + 1..j] + ("$" + (s[j + 1..k] + ("$" + s[k + 1..])))))
  {
    assert s[i] == s[i..i + 1][0] && s[j] == s[j..j + 1][0] && s[k] == s[k..k + 1][0];
    var second, third := s[i + 1..], s[j + 1..];
    JoinedAt(s, i);
    JoinedAt(second, j - i - 1);
    JoinedAt(third, k - j - 1);
    assert second[..j - i - 1] == s[i + 1..j] && second[j - i..] == third;
    assert third[..k - j - 1] == s[j + 1..k] && third[k - j..] == s[k + 1..];
  }

  /** The entry is made of the scheme, a readable count, a hexadecimal salt and the hash of the password under
      these, with dollar signs in between. */
  predicate HashedAs(derive: Derivation, password: seq<Byte>, encoded: string, count: string, salt: string)
  {
    && NoDollar(count) && NoDollar(salt) && Stoi(count).Some? && IsHex(salt)
    && encoded == "pbkdf2_sha256$" +
                    (count + ("$" + (salt + ("$" + HashPassword(derive, password, Unhex(salt), Stoi(count).value)))))
  }

  /** An entry, well-formed or not, is accepted exactly when it is made like that. */
  lemma VerifyExactly(derive: Derivation, password: seq<Byte>, encoded: string)
    ensures VerifyPassword(derive, password, encoded) <==>
            exists count: string, salt: string :: HashedAs(derive, password, encoded, count, salt)
  {
    hide Find, Split, HashPassword, IsHex, Unhex, NoDollar;
    if VerifyPassword(derive, password, encoded) {
      SplitJoins(encoded);
      var f := Split(encoded).value;
      EncodedText(f.iterations, f.salt, f.hash);
      assert HashedAs(derive, password, encoded, f.iterations, f.salt);
    }
    if exists count: string, salt: string :: HashedAs(derive, password, encoded, count, salt) {
      var count: string, salt: string :| HashedAs(derive, password, encoded, count, salt);
      var hash := HashPassword(derive, password, Unhex(salt), Stoi(count).value);
      EncodedText(count, salt, hash);
      SplitJoined(SCHEME, count, salt, hash);
    }
  }

  lemma EncodedText(iterations: string, salt: string, hash: string)
    ensures Encoded(iterations, salt, hash) == "pbkdf2_sha256$" + (iterations + ("$" + (salt + ("$" + hash))))
    ensures Encoded(iterations, salt, hash) == SCHEME + ("$" + (iterations + ("$" + (salt + ("$" + hash)))))
    ensures NoDollar(SCHEME)
  {
    NoDollarIn(SCHEME);
  }

  lemma PrintedHasNoDollar(x: int)
    ensures NoDollar(PrintInt(x))
  {
    var magnitude := if x < 0 then -x else x;
    assert forall i :: 0 <= i < |PrintNat(magnitude)| ==> PrintNat(magnitude)[i] != '$';
    NoDollarIn(PrintInt(x));
  }

  /** What verification asks of an encoded hash that was put together from any count, salt and hash. */
  lemma VerifyEncoded(derive: Derivation, password: seq<Byte>, salt: seq<Byte>, iterations: Int32, hash: string)
    ensures VerifyPassword(derive, password, Encoded(PrintInt(iterations), Hex(salt), hash))
       <==> HashPassword(derive, password, salt, iterations) == hash
  {
    NoDollarIn(SCHEME);
    PrintedHasNoDollar(iterations);
    NoDollarIn(Hex(salt));
    hide NoDollar, Hex, Unhex, PrintInt, Split, HashPassword;
    SplitJoined(SCHEME, PrintInt(iterations), Hex(salt), hash);
    StoiPrinted(iterations);
    HexRoundTrip(salt);
  }

  lemma HexInjective(a: seq<Byte>, b: seq<Byte>)
    requires Hex(a) == Hex(b)
    ensures a == b
  {
    HexRoundTrip(a);
    HexRoundTrip(b);
  }

  /** A hash is built exactly when a key can be derived, and it is then accepted for exactly the
      passwords from which the same key is derived - the original among them. */
  lemma EncodedHashRoundTrip(derive: Derivation, password: seq<Byte>, salt: seq<Byte>, iterations: Int32,
                             other: seq<Byte>)
    requires YieldsKeys(derive)
    ensures var built := BuildEncodedHash(derive, password, salt, iterations);
            && (built.Some? <==> iterations > 0 && derive(password, salt, iterations).Some?)
            && (built.Some? ==>
                  built.value == "pbkdf2_sha256$" + (PrintInt(iterations) + ("$" + (Hex(salt) + ("$" +
                    Hex(derive(password, salt, iterations).value))))))
            && (built.Some? ==> VerifyPassword(derive, password, built.value))
            && (built.Some? ==>
                  (VerifyPassword(derive, other, built.value) <==>
                     derive(other, salt, iterations) == derive(password, salt, iterations)))
  {
    hide VerifyPassword, Encoded;
    var built := BuildEncodedHash(derive, password, salt, iterations);
    if iterations > 0 && derive(password, salt, iterations).Some? {
      var hashed := Hex(derive(password, salt, iterations).value);
      assert |hashed| == 2 * DERIVED_KEY_LENGTH;
      EncodedText(PrintInt(iterations), Hex(salt), hashed);
      VerifyEncoded(derive, password, salt, iterations, hashed);
      VerifyEncoded(derive, other, salt, iterations, hashed);
      if derive(other, salt, iterations).Some? && Hex(derive(other, salt, iterations).value) == hashed {
        HexInjective(derive(other, salt, iterations).value, derive(password, salt, iterations).value);
      }
    }
  }

  /** When no key can be derived for a stored count and salt, the failure compares equal to an empty
      hash: such an entry is accepted exactly when its hash field is empty. */
  lemma UnderivableMatchesEmptyHash(derive: Derivation, password: seq<Byte>, salt: seq<Byte>, iterations: Int32,
                                    hash: string)
    requires iterations <= 0 || derive(password, salt, iterations).None?
    ensures VerifyPassword(derive, password, Encoded(PrintInt(iterations), Hex(salt), hash)) <==> hash == ""
  {
    hide VerifyPassword, Encoded;
    VerifyEncoded(derive, password, salt, iterations, hash);
  }
}
