/** base64.RawStdEncoding: the alphabet of section 4 of RFC 4648 without padding. */
module Base64 {
  import opened Bytes
  import opened Text

  type Sextet = n: int | 0 <= n < 64

  function SextetChar(n: Sextet): (c: char)
    ensures InAlphabet(c)
  {
    if n < 26 then 'A' + n as char
    else if n < 52 then 'a' + (n - 26) as char
    else if n < 62 then '0' + (n - 52) as char
    else if n == 62 then '+'
    else '/'
  }

  predicate InAlphabet(c: char) {
    'A' <= c <= 'Z' || 'a' <= c <= 'z' || '0' <= c <= '9' || c == '+' || c == '/'
  }

  function CharSextet(c: char): (n: Sextet)
    requires InAlphabet(c)
  {
    if 'A' <= c <= 'Z' then c as int - 'A' as int
    else if 'a' <= c <= 'z' then c as int - 'a' as int + 26
    else if '0' <= c <= '9' then c as int - '0' as int + 52
    else if c == '+' then 62
    else 63
  }

  lemma SextetRoundTrip(n: Sextet)
    ensures CharSextet(SextetChar(n)) == n
  {
  }

  /** One, two or three octets as two, three or four characters. */
  function Group1(x: Byte): (s: string)
    ensures |s| == 2 && forall c :: c in s ==> InAlphabet(c)
  {
    [SextetChar(x / 4), SextetChar(x % 4 * 16)]
  }

  function Group2(x: Byte, y: Byte): (s: string)
    ensures |s| == 3 && forall c :: c in s ==> InAlphabet(c)
  {
    [SextetChar(x / 4), SextetChar(x % 4 * 16 + y / 16), SextetChar(y % 16 * 4)]
  }

  function Group3(x: Byte, y: Byte, z: Byte): (s: string)
    ensures |s| == 4 && forall c :: c in s ==> InAlphabet(c)
  {
    [SextetChar(x / 4), SextetChar(x % 4 * 16 + y / 16), SextetChar(y % 16 * 4 + z / 64), SextetChar(z % 64)]
  }

  function Encode(b: seq<Byte>): (s: string)
    ensures forall c :: c in s ==> InAlphabet(c)
    ensures s == "" <==> b == []
    ensures |s| % 4 != 1
  {
    if |b| == 0 then ""
    else if |b| == 1 then Group1(b[0])
    else if |b| == 2 then Group2(b[0], b[1])
    else Group3(b[0], b[1], b[2]) + Encode(b[3..])
  }

  /** The decoder skips line ends wherever they stand. */
  function StripLineEnds(s: string): (r: string) {
    if s == "" then "" else (if s[0] in {'\r', '\n'} then [] else [s[0]]) + StripLineEnds(s[1..])
  }

  /** Four sextets put together to three octets. */
  function Octets(a: Sextet, b: Sextet, c: Sextet, d: Sextet): (r: seq<Byte>)
    ensures |r| == 3
  {
    [a * 4 + b / 16, b % 16 * 16 + c / 4, c % 4 * 64 + d]
  }

  function DecodeGroups(s: string): (r: seq<Byte>)
    requires forall c :: c in s ==> InAlphabet(c)
    requires |s| % 4 != 1
  {
    if |s| == 0 then []
    else if |s| == 2 then Octets(CharSextet(s[0]), CharSextet(s[1]), 0, 0)[..1]
    else if |s| == 3 then Octets(CharSextet(s[0]), CharSextet(s[1]), CharSextet(s[2]), 0)[..2]
    else Octets(CharSextet(s[0]), CharSextet(s[1]), CharSextet(s[2]), CharSextet(s[3])) + DecodeGroups(s[4..])
  }

  /** DecodeString: any foreign character, or a single trailing character, is an error. */
  function Decode(s: string): (r: Option<seq<Byte>>) {
    var text := StripLineEnds(s);
    if (exists i :: 0 <= i < |text| && !InAlphabet(text[i])) || |text| % 4 == 1 then None
    else
      assert forall c :: c in text ==> InAlphabet(c);
      Some(DecodeGroups(text))
  }

  lemma {:induction false} StripAlphabet(s: string)
    requires forall c :: c in s ==> InAlphabet(c)
    ensures StripLineEnds(s) == s
  {
    if s != "" {
      assert s[0] in s;
      StripAlphabet(s[1..]);
      assert [s[0]] + s[1..] == s;
    }
  }

  /** Three octets cut into four sextets and put together again. */
  lemma Regroup(x: Byte, y: Byte, z: Byte)
    ensures Octets(x / 4, x % 4 * 16 + y / 16, y % 16 * 4 + z / 64, z % 64) == [x, y, z]
  {
  }

  lemma DecodeGroup1(x: Byte)
    ensures DecodeGroups(Group1(x)) == [x]
  {
    Regroup(x, 0, 0);
    SextetRoundTrip(x / 4);
    SextetRoundTrip(x % 4 * 16);
  }

  lemma DecodeGroup2(x: Byte, y: Byte)
    ensures DecodeGroups(Group2(x, y)) == [x, y]
  {
    Regroup(x, y, 0);
    SextetRoundTrip(x / 4);
    SextetRoundTrip(x % 4 * 16 + y / 16);
    SextetRoundTrip(y % 16 * 4);
  }

  lemma Group3Sextets(x: Byte, y: Byte, z: Byte)
    ensures var s := Group3(x, y, z);
            && InAlphabet(s[0]) && InAlphabet(s[1]) && InAlphabet(s[2]) && InAlphabet(s[3])
            && Octets(CharSextet(s[0]), CharSextet(s[1]), CharSextet(s[2]), CharSextet(s[3])) == [x, y, z]
  {
    Regroup(x, y, z);
    SextetRoundTrip(x / 4);
    SextetRoundTrip(x % 4 * 16 + y / 16);
    SextetRoundTrip(y % 16 * 4 + z / 64);
    SextetRoundTrip(z % 64);
  }

  lemma DecodeGroup3(group: string, rest: string)
    requires |group| == 4 && |rest| % 4 != 1
    requires forall c :: c in group + rest ==> InAlphabet(c)
    ensures InAlphabet(group[0]) && InAlphabet(group[1]) && InAlphabet(group[2]) && InAlphabet(group[3])
    ensures forall c :: c in rest ==> InAlphabet(c)
    ensures DecodeGroups(group + rest)
         == Octets(CharSextet(group[0]), CharSextet(group[1]), CharSextet(group[2]), CharSextet(group[3]))
            + DecodeGroups(rest)
  {
    var s := group + rest;
    assert s[0] in s && s[1] in s && s[2] in s && s[3] in s;
    assert forall c :: c in rest ==> c in s;
    assert s[4..] == rest;
  }

  lemma DecodeStep(x: Byte, y: Byte, z: Byte, group: string, rest: string)
    requires group == Group3(x, y, z) && |rest| % 4 != 1 && |group + rest| % 4 != 1
    requires (forall c :: c in rest ==> InAlphabet(c)) && (forall c :: c in group + rest ==> InAlphabet(c))
    ensures DecodeGroups(group + rest) == [x, y, z] + DecodeGroups(rest)
  {
    DecodeGroup3(group, rest);
    Group3Sextets(x, y, z);
  }

  lemma DecodeShort(b: seq<Byte>)
    requires |b| <= 2
    ensures DecodeGroups(Encode(b)) == b
  {
    if |b| == 1 {
      DecodeGroup1(b[0]);
    } else if |b| == 2 {
      DecodeGroup2(b[0], b[1]);
    }
  }

  lemma {:induction false} DecodeGroupsEncode(b: seq<Byte>)
    ensures DecodeGroups(Encode(b)) == b
  {
    if |b| <= 2 {
      DecodeShort(b);
    } else {
      var rest := Encode(b[3..]);
      calc {
        DecodeGroups(Encode(b));
        DecodeGroups(Group3(b[0], b[1], b[2]) + rest);
        { DecodeStep(b[0], b[1], b[2], Group3(b[0], b[1], b[2]), rest); }
        [b[0], b[1], b[2]] + DecodeGroups(rest);
        { DecodeGroupsEncode(b[3..]); }
        [b[0], b[1], b[2]] + b[3..];
        b;
      }
    }
  }

  /** Decoding undoes encoding for every octet string. */
  lemma DecodeEncode(b: seq<Byte>)
    ensures Decode(Encode(b)) == Some(b)
  {
    var s := Encode(b);
    assert forall i :: 0 <= i < |s| ==> s[i] in s;
    StripAlphabet(s);
    DecodeGroupsEncode(b);
  }

  lemma {:induction false} StripConcat(a: string, b: string)
    ensures StripLineEnds(a + b) == StripLineEnds(a) + StripLineEnds(b)
  {
    if a == "" {
      assert a + b == b;
    } else {
      assert (a + b)[1..] == a[1..] + b;
      StripConcat(a[1..], b);
    }
  }

  lemma SameText(s: string, s': string)
    requires StripLineEnds(s) == StripLineEnds(s')
    ensures Decode(s) == Decode(s')
  {
  }

  /** A line end changes nothing, wherever it stands. */
  lemma LineEndsAreSkipped(a: string, b: string, c: char)
    requires c in {'\r', '\n'}
    ensures Decode(a + [c] + b) == Decode(a + b)
  {
    StripConcat(a + [c], b);
    StripConcat(a, [c]);
    StripConcat(a, b);
    assert [c][1..] == "" && StripLineEnds([c]) == "";
    assert StripLineEnds(a) + "" == StripLineEnds(a);
    SameText(a + [c] + b, a + b);
  }
}
