/** The string primitives of the Go standard library that the lobby relies on. */
module Text {

  datatype Option<+T> = None | Some(value: T) {
    function GetOr(default: T): (r: T) {
      if Some? then value else default
    }
  }

  /** unicode.IsSpace. */
  predicate IsSpace(c: char) {
    || c in {'\t', '\n', '\U{0B}', '\U{0C}', '\r', ' ', '\U{85}', '\U{A0}', '\U{1680}'}
    || '\U{2000}' <= c <= '\U{200A}'
    || c in {'\U{2028}', '\U{2029}', '\U{202F}', '\U{205F}', '\U{3000}'}
  }

  function TrimLeft(s: string): (r: string)
    ensures r != "" ==> !IsSpace(r[0])
    ensures |r| <= |s|
  {
    if s != "" && IsSpace(s[0]) then TrimLeft(s[1..]) else s
  }

  function TrimRight(s: string): (r: string)
    ensures r <= s
    ensures r != "" ==> !IsSpace(r[|r| - 1])
  {
    if s != "" && IsSpace(s[|s| - 1]) then TrimRight(s[..|s| - 1]) else s
  }

  /** strings.TrimSpace. */
  function TrimSpace(s: string): (r: string)
    ensures r != "" ==> !IsSpace(r[0]) && !IsSpace(r[|r| - 1])
  {
    TrimRight(TrimLeft(s))
  }

  /** A string whose two ends are not blank is its own trimming. */
  lemma TrimSpaceFixed(s: string)
    requires s != "" ==> !IsSpace(s[0]) && !IsSpace(s[|s| - 1])
    ensures TrimSpace(s) == s
  {
  }

  /** Trimming cuts blanks off the two ends, and nothing else. */
  lemma {:induction false} TrimSpaceCuts(s: string) returns (front: string, back: string)
    ensures s == front + TrimSpace(s) + back
    ensures forall c :: c in front + back ==> IsSpace(c)
  {
    front := TrimLeftCuts(s);
    back := TrimRightCuts(TrimLeft(s));
  }

  lemma {:induction false} TrimLeftCuts(s: string) returns (front: string)
    ensures s == front + TrimLeft(s) && forall c :: c in front ==> IsSpace(c)
  {
    front := "";
    if s != "" && IsSpace(s[0]) {
      var rest := TrimLeftCuts(s[1..]);
      front := [s[0]] + rest;
    }
  }

  lemma {:induction false} TrimRightCuts(s: string) returns (back: string)
    ensures s == TrimRight(s) + back && forall c :: c in back ==> IsSpace(c)
  {
    back := "";
    if s != "" && IsSpace(s[|s| - 1]) {
      var rest := TrimRightCuts(s[..|s| - 1]);
      back := rest + [s[|s| - 1]];
    }
  }

  /** strings.Join. */
  function Join(parts: seq<string>, sep: string): (r: string) {
    if |parts| == 0 then ""
    else if |parts| == 1 then parts[0]
    else parts[0] + sep + Join(parts[1..], sep)
  }

  /** strings.Split with a one-character separator. */
  function Split(s: string, sep: char): (r: seq<string>)
    ensures |r| >= 1
    ensures forall p :: p in r ==> sep !in p
  {
    if s == "" then [""]
    else if s[0] == sep then [""] + Split(s[1..], sep)
    else
      var rest := Split(s[1..], sep);
      [[s[0]] + rest[0]] + rest[1..]
  }

  lemma {:induction false} SplitNoSeparator(s: string, sep: char)
    requires sep !in s
    ensures Split(s, sep) == [s]
  {
    if s != "" {
      SplitNoSeparator(s[1..], sep);
      assert [s[0]] + s[1..] == s;
    }
  }

  lemma {:induction false} SplitAtSeparator(head: string, sep: char, tail: string)
    requires sep !in head
    ensures Split(head + [sep] + tail, sep) == [head] + Split(tail, sep)
  {
    var s := head + [sep] + tail;
    if head == "" {
      assert s[1..] == tail;
    } else {
      assert s[1..] == head[1..] + [sep] + tail;
      SplitAtSeparator(head[1..], sep, tail);
      assert [s[0]] + head[1..] == head;
    }
  }

  /** Splitting undoes joining when no part holds the separator. */
  lemma {:induction false} SplitJoin(parts: seq<string>, sep: char)
    requires |parts| >= 1
    requires forall p :: p in parts ==> sep !in p
    ensures Split(Join(parts, [sep]), sep) == parts
  {
    if |parts| == 1 {
      SplitNoSeparator(parts[0], sep);
    } else {
      SplitJoin(parts[1..], sep);
      SplitAtSeparator(parts[0], sep, Join(parts[1..], [sep]));
      assert Join(parts, [sep]) == parts[0] + [sep] + Join(parts[1..], [sep]);
    }
  }

  /** Joining undoes splitting. */
  lemma {:induction false} JoinSplit(s: string, sep: char)
    ensures Join(Split(s, sep), [sep]) == s
  {
    if s != "" {
      var rest := Split(s[1..], sep);
      JoinSplit(s[1..], sep);
      assert s == [s[0]] + s[1..];
      if s[0] == sep {
        assert ([""] + rest)[1..] == rest;
      } else if |rest| > 1 {
        assert ([[s[0]] + rest[0]] + rest[1..])[1..] == rest[1..];
      }
    }
  }

  /** strings.ToLower on the ASCII letters, the only ones a hexadecimal digest can hold. */
  function ToLower(s: string): (r: string)
    ensures |r| == |s|
  {
    seq(|s|, i requires 0 <= i < |s| => if 'A' <= s[i] <= 'Z' then s[i] - 'A' + 'a' else s[i])
  }

  // ----- byte order of strings -----

  /** Go's `<` on strings. */
  predicate Less(a: string, b: string) {
    if b == "" then false
    else if a == "" then true
    else if a[0] != b[0] then a[0] < b[0]
    else Less(a[1..], b[1..])
  }

  lemma {:induction false} LessTotal(a: string, b: string)
    ensures a == b || Less(a, b) || Less(b, a)
    ensures !(Less(a, b) && Less(b, a))
    ensures a == b ==> !Less(a, b)
  {
    if a != "" && b != "" && a[0] == b[0] {
      LessTotal(a[1..], b[1..]);
      assert a == [a[0]] + a[1..] && b == [b[0]] + b[1..];
    }
  }

  lemma {:induction false} LessTransitive(a: string, b: string, c: string)
    requires Less(a, b) && Less(b, c)
    ensures Less(a, c)
  {
    if a != "" && a[0] == b[0] && b[0] == c[0] {
      LessTransitive(a[1..], b[1..], c[1..]);
    }
  }

  /** No string occurs twice. */
  predicate NoRepeats(s: seq<string>) {
    forall i, j :: 0 <= i < j < |s| ==> s[i] != s[j]
  }

  // ----- decimal numbers -----

  predicate IsDigit(c: char) { '0' <= c <= '9' }

  function DigitChar(d: nat): (c: char)
    requires d < 10
    ensures IsDigit(c) && DigitValue(c) == d
  {
    '0' + d as char
  }

  function DigitValue(c: char): (d: nat)
    requires IsDigit(c)
    ensures d < 10
  {
    c as int - '0' as int
  }

  /** strconv.Itoa on a non-negative number. */
  function Itoa(n: nat): (s: string)
    ensures s != ""
    ensures forall c :: c in s ==> IsDigit(c)
  {
    if n < 10 then [DigitChar(n)] else Itoa(n / 10) + [DigitChar(n % 10)]
  }

  /** The number a string of digits denotes. */
  function DigitsValue(s: string): (n: nat)
    requires forall c :: c in s ==> IsDigit(c)
  {
    if s == "" then 0 else 10 * DigitsValue(s[..|s| - 1]) + DigitValue(s[|s| - 1])
  }

  const INT64_MAX: int := 0x7FFF_FFFF_FFFF_FFFF
  const INT64_MIN: int := -0x8000_0000_0000_0000

  /** strconv.Atoi (and ParseInt with base 10) on a 64-bit platform. */
  function Atoi(s: string): (r: Option<int>)
    ensures r.Some? ==> INT64_MIN <= r.value <= INT64_MAX
  {
    var signed := s != "" && s[0] in {'+', '-'};
    var digits := if signed then s[1..] else s;
    if digits == "" || exists i :: 0 <= i < |digits| && !IsDigit(digits[i]) then None
    else
      var magnitude: int := DigitsValue(digits);
      var value := if signed && s[0] == '-' then -magnitude else magnitude;
      if INT64_MIN <= value <= INT64_MAX then Some(value) else None
  }

  lemma {:induction false} DigitsValueItoa(n: nat)
    ensures DigitsValue(Itoa(n)) == n
  {
    var s := Itoa(n);
    if n < 10 {
      assert s == [DigitChar(n)] && s[..|s| - 1] == "";
    } else {
      DigitsValueItoa(n / 10);
      assert s[..|s| - 1] == Itoa(n / 10);
    }
  }
}
