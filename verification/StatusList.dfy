/**
 * The status filter of the SQL room store: statusListForSQL prints the filter as
 * a PostgreSQL array literal, and the server parses it (section 8.15.2 of the
 * PostgreSQL documentation).
 */
module StatusList {
  import opened Text

  /** The statuses that survive the blank filter, trimmed, in order. */
  function Filtered(statuses: seq<string>): (r: seq<string>)
    ensures forall p :: p in r ==> p != ""
  {
    if statuses == [] then []
    else
      var trimmed := TrimSpace(statuses[0]);
      (if trimmed != "" then [trimmed] else []) + Filtered(statuses[1..])
  }

  /** strings.ReplaceAll for a one-character pattern. */
  function ReplaceAll(s: string, old_: char, new_: string): (r: string) {
    if s == "" then "" else (if s[0] == old_ then new_ else [s[0]]) + ReplaceAll(s[1..], old_, new_)
  }

  /** The two replacements of the printer, backslashes first. */
  function Escape(s: string): (r: string) {
    ReplaceAll(ReplaceAll(s, '\\', "\\\\"), '\"', "\\\"")
  }

  function Quote(s: string): (r: string) { "\"" + Escape(s) + "\"" }

  function QuoteAll(parts: seq<string>): (r: seq<string>)
    ensures |r| == |parts|
    ensures forall i :: 0 <= i < |r| ==> r[i] == Quote(parts[i])
  {
    seq(|parts|, i requires 0 <= i < |parts| => Quote(parts[i]))
  }

  function Literal(parts: seq<string>): (r: string) {
    "{" + Join(QuoteAll(parts), ",") + "}"
  }

  // ----- the array literal grammar, read from left to right -----

  /** The rest of a double-quoted element: a backslash takes the next character literally. */
  function ParseQuoted(s: string): (r: Option<(string, string)>)
    ensures r.Some? ==> |r.value.1| < |s|
  {
    if s == "" then None
    else if s[0] == '\"' then Some(("", s[1..]))
    else if s[0] == '\\' then
      if |s| < 2 then None
      else
        match ParseQuoted(s[2..])
        case None => None
        case Some((element, rest)) => Some(([s[1]] + element, rest))
    else
      match ParseQuoted(s[1..])
      case None => None
      case Some((element, rest)) => Some(([s[0]] + element, rest))
  }

  /** One or more double-quoted elements separated by commas and closed by a brace. */
  function ParseElements(s: string): (r: Option<seq<string>>)
    decreases |s|
  {
    if s == "" || s[0] != '\"' then None
    else
      match ParseQuoted(s[1..])
      case None => None
      case Some((element, rest)) =>
        if rest == "}" then Some([element])
        else if rest != "" && rest[0] == ',' then
          match ParseElements(rest[1..])
          case None => None
          case Some(elements) => Some([element] + elements)
        else None
  }

  function ParseArray(s: string): (r: Option<seq<string>>) {
    if s == "{}" then Some([])
    else if s != "" && s[0] == '{' then ParseElements(s[1..])
    else None
  }

  // ----- printing and parsing agree -----

  /** Escaping works character by character although the code escapes in two passes. */
  lemma EscapeFirst(s: string)
    requires s != ""
    ensures Escape(s) ==
            (if s[0] == '\\' then "\\\\" else if s[0] == '\"' then "\\\"" else [s[0]]) + Escape(s[1..])
  {
    var once := ReplaceAll(s[1..], '\\', "\\\\");
    if s[0] == '\\' {
      var both := "\\\\" + once;
      assert ReplaceAll(s, '\\', "\\\\") == both;
      assert both[1..] == "\\" + once && both[1..][1..] == once;
      assert ReplaceAll(both, '\"', "\\\"") == "\\" + ReplaceAll(both[1..], '\"', "\\\"");
    } else {
      var both := [s[0]] + once;
      assert ReplaceAll(s, '\\', "\\\\") == both;
      assert both[1..] == once;
    }
  }

  /** Reading back an escaped element stops exactly at the closing quote. */
  lemma {:induction false} ParseQuotedEscape(s: string, rest: string)
    ensures ParseQuoted(Escape(s) + "\"" + rest) == Some((s, rest))
  {
    var text := Escape(s) + "\"" + rest;
    if s == "" {
      assert text == "\"" + rest && text[1..] == rest;
    } else {
      EscapeFirst(s);
      ParseQuotedEscape(s[1..], rest);
      var tail := Escape(s[1..]) + "\"" + rest;
      assert [s[0]] + s[1..] == s;
      if s[0] == '\\' || s[0] == '\"' {
        assert text == ['\\', s[0]] + tail;
        assert text[2..] == tail;
      } else {
        assert text == [s[0]] + tail;
        assert text[1..] == tail;
      }
    }
  }

  lemma {:induction false} ParseElementsQuoted(parts: seq<string>)
    requires parts != []
    ensures ParseElements(Join(QuoteAll(parts), ",") + "}") == Some(parts)
  {
    var text := Join(QuoteAll(parts), ",") + "}";
    var quoted := QuoteAll(parts);
    if |parts| == 1 {
      assert text[1..] == Escape(parts[0]) + "\"" + "}";
      ParseQuotedEscape(parts[0], "}");
      assert [parts[0]] == parts;
    } else {
      assert quoted[1..] == QuoteAll(parts[1..]);
      var tail := Join(QuoteAll(parts[1..]), ",") + "}";
      assert text == quoted[0] + "," + tail;
      assert text[1..] == Escape(parts[0]) + "\"" + ("," + tail);
      ParseQuotedEscape(parts[0], "," + tail);
      assert ("," + tail)[1..] == tail;
      ParseElementsQuoted(parts[1..]);
      assert [parts[0]] + parts[1..] == parts;
    }
  }

  /**
   * The server reads back exactly the trimmed, nonblank statuses, whatever
   * quotes, backslashes, commas or braces they hold.
   */
  lemma ParseLiteral(statuses: seq<string>)
    ensures ParseArray(Literal(Filtered(statuses))) == Some(Filtered(statuses))
  {
    var parts := Filtered(statuses);
    var text := Literal(parts);
    if parts == [] {
      assert text == "{}";
    } else {
      var body := Join(QuoteAll(parts), ",") + "}";
      assert text == "{" + body && text[1..] == body;
      assert body[0] == '\"';
      ParseElementsQuoted(parts);
    }
  }

  /** A status is requested exactly when it equals, up to surrounding blanks, a nonblank filter entry. */
  lemma {:induction false} FilteredMembers(statuses: seq<string>, p: string)
    ensures p in Filtered(statuses) <==> p != "" && exists i :: 0 <= i < |statuses| && TrimSpace(statuses[i]) == p
  {
    if statuses != [] {
      FilteredMembers(statuses[1..], p);
      if i :| 0 <= i < |statuses[1..]| && TrimSpace(statuses[1..][i]) == p {
        assert statuses[i + 1] == statuses[1..][i];
      }
      if i :| 0 <= i < |statuses| && TrimSpace(statuses[i]) == p && i > 0 {
        assert statuses[1..][i - 1] == statuses[i];
      }
    }
  }

  /** The first loop: trimming and dropping blanks. */
  method FilterStatuses(statuses: seq<string>) returns (filtered: seq<string>)
    ensures filtered == Filtered(statuses)
  {
    filtered := [];
    for i := 0 to |statuses|
      invariant filtered + Filtered(statuses[i..]) == Filtered(statuses)
    {
      var trimmed := TrimSpace(statuses[i]);
      assert statuses[i..][1..] == statuses[i + 1..];
      if trimmed != "" {
        var rest := Filtered(statuses[i + 1..]);
        assert filtered + ([trimmed] + rest) == filtered + [trimmed] + rest;
        filtered := filtered + [trimmed];
      }
    }
    assert statuses[|statuses|..] == [];
  }

  /** statusListForSQL: two loops, one filtering and one quoting. */
  method StatusListForSQL(statuses: seq<string>) returns (literal: string)
    ensures literal == Literal(Filtered(statuses))
    ensures ParseArray(literal) == Some(Filtered(statuses))
  {
    var filtered := FilterStatuses(statuses);
    var parts: seq<string> := [];
    for i := 0 to |filtered|
      invariant parts == QuoteAll(filtered[..i])
    {
      var escaped := ReplaceAll(filtered[i], '\\', "\\\\");
      escaped := ReplaceAll(escaped, '\"', "\\\"");
      parts := parts + ["\"" + escaped + "\""];
    }
    assert filtered[..|filtered|] == filtered;
    literal := "{" + Join(parts, ",") + "}";
    ParseLiteral(statuses);
  }

  /** The statuses keep the order and the repeats of the filter. */
  lemma {:induction false} FilteredInOrder(statuses: seq<string>, last: string)
    ensures Filtered(statuses + [last]) == Filtered(statuses) + if TrimSpace(last) == "" then [] else [TrimSpace(last)]
  {
    if statuses == [] {
      assert (statuses + [last])[1..] == [];
    } else {
      assert (statuses + [last])[1..] == statuses[1..] + [last];
      FilteredInOrder(statuses[1..], last);
    }
  }
}
