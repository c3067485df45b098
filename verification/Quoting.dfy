/** Identifier quoting for the INSERT statement, against a reader of quoted
    identifiers (section 4.1.1 of the PostgreSQL documentation). */
module Quoting {
  import opened Wrappers

  /** The identifier body with every quote doubled. */
  function Escaped(s: string): string {
    if s == "" then "" else (if s[0] == '"' then "\"\"" else [s[0]]) + Escaped(s[1..])
  }

  function Quoted(s: string): string {
    "\"" + Escaped(s) + "\""
  }

  function Joined(cols: seq<string>): string {
    if cols == [] then "" else Quoted(cols[0]) + JoinedTail(cols[1..])
  }

  function JoinedTail(cols: seq<string>): string {
    if cols == [] then "" else ", " + Quoted(cols[0]) + JoinedTail(cols[1..])
  }

  lemma {:induction false} EscapedSnoc(s: string, c: char)
    ensures Escaped(s + [c]) == Escaped(s) + (if c == '"' then "\"\"" else [c])
  {
    if s == "" {
      assert s + [c] == [c];
    } else {
      EscapedSnoc(s[1..], c);
      assert (s + [c])[1..] == s[1..] + [c];
    }
  }

  lemma Assoc(a: string, b: string, c: string)
    ensures (a + b) + c == a + (b + c)
  {}

  lemma {:induction false} JoinedTailSnoc(cols: seq<string>, c: string)
    ensures JoinedTail(cols + [c]) == JoinedTail(cols) + (", " + Quoted(c))
  {
    if cols == [] {
      assert cols + [c] == [c] && [c][1..] == [];
      assert JoinedTail([c]) == ", " + Quoted(c) + JoinedTail([]);
    } else {
      JoinedTailSnoc(cols[1..], c);
      assert (cols + [c])[1..] == cols[1..] + [c];
      Assoc(", " + Quoted(cols[0]), JoinedTail(cols[1..]), ", " + Quoted(c));
    }
  }

  method QuoteIdent(s: string) returns (out: string)
    ensures out == Quoted(s)
  {
    out := "\"";
    for i := 0 to |s|
      invariant out == "\"" + Escaped(s[..i])
    {
      EscapedSnoc(s[..i], s[i]);
      assert s[..i + 1] == s[..i] + [s[i]];
      if s[i] == '"' {
        out := out + "\"\"";
        continue;
      }
      out := out + [s[i]];
    }
    assert s[..|s|] == s;
    out := out + "\"";
  }

  method JoinIdents(cols: seq<string>) returns (out: string)
    ensures out == Joined(cols)
  {
    if |cols| == 0 { return ""; }
    out := QuoteIdent(cols[0]);
    var rest := cols[1..];
    for i := 0 to |rest|
      invariant out == Quoted(cols[0]) + JoinedTail(rest[..i])
    {
      var q := QuoteIdent(rest[i]);
      JoinedTailSnoc(rest[..i], rest[i]);
      assert rest[..i + 1] == rest[..i] + [rest[i]];
      out := out + (", " + q);
    }
    assert rest[..|rest|] == rest;
  }

  /** What the server's lexer makes of the characters after an opening quote: the
      identifier up to the closing quote, and what follows it. A doubled quote is one quote. */
  function ReadBody(s: string): Option<(string, string)> {
    if s == "" then None
    else if s[0] != '"' then
      match ReadBody(s[1..])
      case None => None
      case Some((id, rest)) => Some(([s[0]] + id, rest))
    else if |s| >= 2 && s[1] == '"' then
      match ReadBody(s[2..])
      case None => None
      case Some((id, rest)) => Some(("\"" + id, rest))
    else Some(("", s[1..]))
  }

  function ReadIdent(s: string): (r: Option<(string, string)>)
    ensures r.Some? ==> |r.value.1| < |s|
  {
    if s != "" && s[0] == '"' then
      BodyShrinks(s[1..]);
      ReadBody(s[1..])
    else None
  }

  lemma {:induction false} BodyShrinks(s: string)
    ensures ReadBody(s).Some? ==> |ReadBody(s).value.1| <= |s|
    decreases |s|
  {
    if s != "" {
      BodyShrinks(s[1..]);
      if |s| >= 2 { BodyShrinks(s[2..]); }
    }
  }

  /** A comma-separated list of quoted identifiers, read to the end of the text. */
  function ReadList(s: string): Option<seq<string>>
    decreases |s|
  {
    match ReadIdent(s)
    case None => None
    case Some((id, rest)) =>
      if rest == "" then Some([id])
      else if ", " <= rest then
        match ReadList(rest[2..])
        case None => None
        case Some(ids) => Some([id] + ids)
      else None
  }

  lemma {:induction false} ReadBodyOfEscaped(s: string, rest: string)
    requires rest == "" || rest[0] != '"'
    ensures ReadBody(Escaped(s) + "\"" + rest) == Some((s, rest))
  {
    var text := Escaped(s) + "\"" + rest;
    if s == "" {
      assert text == "\"" + rest;
      assert text[1..] == rest;
    } else {
      ReadBodyOfEscaped(s[1..], rest);
      var tail := Escaped(s[1..]) + "\"" + rest;
      if s[0] == '"' {
        assert text == "\"\"" + tail;
        assert text[2..] == tail;
      } else {
        assert text == [s[0]] + tail;
        assert text[1..] == tail;
      }
      assert s == [s[0]] + s[1..];
    }
  }

  lemma ReadIdentOfQuoted(s: string, rest: string)
    requires rest == "" || rest[0] != '"'
    ensures ReadIdent(Quoted(s) + rest) == Some((s, rest))
  {
    ReadBodyOfEscaped(s, rest);
    assert (Quoted(s) + rest)[1..] == Escaped(s) + "\"" + rest;
  }

  lemma TwoThenRest(rest: string, tail: string)
    requires rest == ", " + tail
    ensures ", " <= rest && rest[2..] == tail
  {}

  lemma ReadListStep(s: string, id: string, tail: string, ids: seq<string>)
    requires ReadIdent(s) == Some((id, ", " + tail)) && ReadList(tail) == Some(ids)
    ensures ReadList(s) == Some([id] + ids)
  {
    TwoThenRest(", " + tail, tail);
  }

  lemma JoinedIsSteps(cols: seq<string>)
    requires |cols| > 1
    ensures Joined(cols) == Quoted(cols[0]) + (", " + Joined(cols[1..]))
  {
    Assoc(", ", Quoted(cols[1]), JoinedTail(cols[1..][1..]));
  }

  lemma {:induction false} ReadListOfJoined(cols: seq<string>)
    requires cols != []
    ensures ReadList(Joined(cols)) == Some(cols)
  {
    if |cols| == 1 {
      ReadIdentOfQuoted(cols[0], "");
      assert cols == [cols[0]];
    } else {
      ReadListOfJoined(cols[1..]);
      JoinedIsSteps(cols);
      ReadIdentOfQuoted(cols[0], ", " + Joined(cols[1..]));
      ReadListStep(Joined(cols), cols[0], Joined(cols[1..]), cols[1..]);
      assert cols == [cols[0]] + cols[1..];
    }
  }

  function ReadColumns(s: string): Option<seq<string>> {
    if s == "" then Some([]) else ReadList(s)
  }

  /** Round trip for every list of names, the empty list included. */
  lemma ReadColumnsOfJoined(cols: seq<string>)
    ensures ReadColumns(Joined(cols)) == Some(cols)
  {
    if cols != [] { ReadListOfJoined(cols); }
  }
}
