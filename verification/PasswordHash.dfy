/** The self-describing password hash of the account service. */
module PasswordHash {
  import opened Bytes
  import opened Text
  import Base64
  import Pbkdf2

  const ALGORITHM := "pbkdf2-sha256"
  const ITERATIONS: nat := 210_000
  const MAX_ITERATIONS: nat := 5_000_000
  const SALT_BYTES: nat := 16
  const KEY_BYTES: nat := 32
  const MIN_LENGTH: nat := 8
  const MAX_LENGTH: nat := 256

  datatype Stored = Stored(iterations: int, salt: seq<Byte>, key: seq<Byte>)

  function SignedItoa(n: int): (s: string) {
    if n < 0 then "-" + Itoa(-n) else Itoa(n)
  }

  function Encode(h: Stored): (s: string) {
    Join([ALGORITHM, SignedItoa(h.iterations), Base64.Encode(h.salt), Base64.Encode(h.key)], "$")
  }

  function Decode(encoded: string): (r: Option<Stored>) {
    var parts := Split(TrimSpace(encoded), '$');
    if |parts| != 4 || parts[0] != ALGORITHM then None
    else
      match (Atoi(parts[1]), Base64.Decode(parts[2]), Base64.Decode(parts[3]))
      case (Some(iterations), Some(salt), Some(key)) =>
        if iterations <= 0 || iterations > MAX_ITERATIONS || |salt| == 0 || |key| == 0 then None
        else Some(Stored(iterations, salt, key))
      case _ => None
  }

  predicate Storable(h: Stored) {
    0 < h.iterations <= MAX_ITERATIONS && h.salt != [] && h.key != []
  }

  lemma SignedItoaShape(n: int)
    ensures SignedItoa(n) != ""
    ensures forall c :: c in SignedItoa(n) ==> IsDigit(c) || c == '-'
    ensures Atoi(SignedItoa(n)) == if INT64_MIN <= n <= INT64_MAX then Some(n) else None
  {
    var s := SignedItoa(n);
    var digits := if n < 0 then Itoa(-n) else Itoa(n);
    DigitsValueItoa(if n < 0 then -n else n);
    assert forall i :: 0 <= i < |digits| ==> digits[i] in digits;
    if n < 0 {
      assert s[0] == '-' && s[1..] == digits;
    } else {
      assert s[0] in s;
    }
  }

  lemma JoinFour(a: string, b: string, c: string, d: string)
    ensures Join([a, b, c, d], "$") == a + "$" + b + "$" + c + "$" + d
  {
    var cd, bcd := [c, d], [b, c, d];
    assert cd[1..] == [d] && bcd[1..] == cd && [a, b, c, d][1..] == bcd;
    assert Join(cd, "$") == c + "$" + d;
    assert Join(bcd, "$") == b + "$" + Join(cd, "$");
    assert Join([a, b, c, d], "$") == a + "$" + Join(bcd, "$");
  }

  /** The printed form neither starts nor ends with a blank. */
  lemma EncodeTrimmed(h: Stored)
    ensures TrimSpace(Encode(h)) == Encode(h)
  {
    var s, key := Encode(h), Base64.Encode(h.key);
    JoinFour(ALGORITHM, SignedItoa(h.iterations), Base64.Encode(h.salt), key);
    assert s[0] == 'p';
    if key == "" {
      assert s[|s| - 1] == '$';
    } else {
      assert s[|s| - 1] == key[|key| - 1] && key[|key| - 1] in key;
    }
    TrimSpaceFixed(s);
  }

  /** Splitting the printed form gives back the four printed fields. */
  lemma EncodeParts(h: Stored)
    ensures Split(TrimSpace(Encode(h)), '$')
         == [ALGORITHM, SignedItoa(h.iterations), Base64.Encode(h.salt), Base64.Encode(h.key)]
  {
    var parts := [ALGORITHM, SignedItoa(h.iterations), Base64.Encode(h.salt), Base64.Encode(h.key)];
    SignedItoaShape(h.iterations);
    SplitJoin(parts, '$');
    EncodeTrimmed(h);
  }

  /** The printer and the parser agree exactly on the storable triples; nothing else survives. */
  lemma DecodeEncode(h: Stored)
    ensures Decode(Encode(h)) == if Storable(h) then Some(h) else None
  {
    EncodeParts(h);
    SignedItoaShape(h.iterations);
    Base64.DecodeEncode(h.salt);
    Base64.DecodeEncode(h.key);
  }

  /** The four fields of a stored hash, in any spelling the readers of the fields accept. */
  predicate Spells(encoded: string, h: Stored, count: string, salt: string, key: string) {
    && '$' !in count && '$' !in salt && '$' !in key
    && TrimSpace(encoded) == "pbkdf2-sha256$" + count + "$" + salt + "$" + key
    && Atoi(count) == Some(h.iterations) && Base64.Decode(salt) == Some(h.salt) && Base64.Decode(key) == Some(h.key)
  }

  lemma ReadSpells(encoded: string, h: Stored)
    requires Decode(encoded) == Some(h)
    ensures exists count, salt, key :: Spells(encoded, h, count, salt, key)
  {
    var parts := Split(TrimSpace(encoded), '$');
    JoinSplit(TrimSpace(encoded), '$');
    JoinFour(parts[0], parts[1], parts[2], parts[3]);
    assert parts == [parts[0], parts[1], parts[2], parts[3]];
    assert parts[1] in parts && parts[2] in parts && parts[3] in parts;
    assert ALGORITHM + "$" == "pbkdf2-sha256$";
    assert Spells(encoded, h, parts[1], parts[2], parts[3]);
  }

  lemma SpelledReads(encoded: string, h: Stored, count: string, salt: string, key: string)
    requires Spells(encoded, h, count, salt, key) && Storable(h)
    ensures Decode(encoded) == Some(h)
  {
    JoinFour(ALGORITHM, count, salt, key);
    assert ALGORITHM + "$" == "pbkdf2-sha256$";
    SplitJoin([ALGORITHM, count, salt, key], '$');
  }

  /** A text is read as a stored hash exactly if it spells a storable one. */
  lemma ReadIff(encoded: string, h: Stored)
    ensures Decode(encoded) == Some(h) <==>
              Storable(h) && exists count, salt, key :: Spells(encoded, h, count, salt, key)
  {
    if Decode(encoded) == Some(h) {
      ReadSpells(encoded, h);
    }
    if Storable(h) {
      forall count, salt, key | Spells(encoded, h, count, salt, key)
        ensures Decode(encoded) == Some(h)
      {
        SpelledReads(encoded, h, count, salt, key);
      }
    }
  }

  // ----- hashing and verification -----

  function HashOf(prf: Pbkdf2.Prf, password: seq<Byte>, salt: seq<Byte>): (encoded: string) {
    Encode(Stored(ITERATIONS, salt, Pbkdf2.DerivedKey(prf, password, salt, ITERATIONS, KEY_BYTES)))
  }

  /** A stored hash fits a password when it parses and the derived key equals the stored key. */
  predicate Matches(prf: Pbkdf2.Prf, password: seq<Byte>, encoded: string) {
    match Decode(encoded)
    case None => false
    case Some(h) => Pbkdf2.DerivedKey(prf, password, h.salt, h.iterations, |h.key|) == h.key
  }

  /** A fresh hash fits exactly the passwords with the same derived key, so always its own password. */
  lemma MatchesHashOf(prf: Pbkdf2.Prf, password: seq<Byte>, other: seq<Byte>, salt: seq<Byte>)
    requires salt != []
    ensures Matches(prf, other, HashOf(prf, password, salt))
       <==> Pbkdf2.DerivedKey(prf, other, salt, ITERATIONS, KEY_BYTES)
            == Pbkdf2.DerivedKey(prf, password, salt, ITERATIONS, KEY_BYTES)
    ensures Matches(prf, password, HashOf(prf, password, salt))
  {
    DecodeEncode(Stored(ITERATIONS, salt, Pbkdf2.DerivedKey(prf, password, salt, ITERATIONS, KEY_BYTES)));
  }

  /** HashPassword; the salt stands for the random generator's answer, runes for the rune count of the password. */
  method HashPassword(prf: Pbkdf2.Prf, password: seq<Byte>, runes: nat, salt: seq<Byte>)
    returns (encoded: Option<string>)
    requires |salt| == SALT_BYTES
    ensures encoded.Some? <==> 8 <= runes && |password| <= 256
    ensures encoded.Some? ==> encoded.value == HashOf(prf, password, salt) && Matches(prf, password, encoded.value)
  {
    if runes < MIN_LENGTH || |password| > MAX_LENGTH {
      return None;
    }
    var key := Pbkdf2.Pbkdf2SHA256(prf, password, salt, ITERATIONS, KEY_BYTES);
    MatchesHashOf(prf, password, password, salt);
    encoded := Some(Encode(Stored(ITERATIONS, salt, key)));
  }

  method VerifyPassword(prf: Pbkdf2.Prf, password: seq<Byte>, encoded: string) returns (ok: bool)
    ensures ok <==> Matches(prf, password, encoded)
  {
    var decoded := Decode(encoded);
    if decoded.None? {
      return false;
    }
    var h := decoded.value;
    var got := Pbkdf2.Pbkdf2SHA256(prf, password, h.salt, h.iterations, |h.key|);
    ok := got == h.key;
  }
}
