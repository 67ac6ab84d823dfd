/**
 * The record parser of leaky.go's `process`: one input line becomes a
 * credential record (domain, user, password) or a "separator not found"
 * error that carries the line.
 */
module Records {
  import opened Wrappers
  import opened Text

  /** One credential, in the column order of the `leak` table. */
  datatype Record = Record(domain: string, user: string, password: string)

  datatype ParseError = SeparatorNotFound(line: string)
  {
    /** The text `process` returns for this error. */
    function Message(): (m: string)
      ensures |m| >= |line| && m[|m| - |line|..] == line
    {
      "Separator not found in " + line
    }
  }

  /**
   * The separator `process` splits on: the first of ';', ',', ':' and '|'
   * (in that order of priority) that occurs anywhere in the line, or None
   * when the line has none of them.
   */
  function Delimiter(line: string): (d: Option<char>)
    ensures d == Some(';') <==> ';' in line
    ensures d == Some(',') <==> ';' !in line && ',' in line
    ensures d == Some(':') <==> ';' !in line && ',' !in line && ':' in line
    ensures d == Some('|') <==> ';' !in line && ',' !in line && ':' !in line && '|' in line
    ensures d == None <==> ';' !in line && ',' !in line && ':' !in line && '|' !in line
  {
    if ';' in line then Some(';')
    else if ',' in line then Some(',')
    else if ':' in line then Some(':')
    else if '|' in line then Some('|')
    else None
  }

  /** The secret: at most one trailing "\n" removed, then at most one trailing "\r". */
  function TrimPassword(s: string): string
  {
    TrimSuffix(TrimSuffix(s, '\n'), '\r')
  }

  /** The four ways the secret can end: "\r\n", "\n" alone, "\r" alone, or neither. */
  lemma TrimPasswordCases(s: string)
    ensures var r := TrimPassword(s);
         || s == r + "\r\n"
         || (s == r + "\n" && !EndsWith(r, '\r'))
         || (s == r + "\r" && !EndsWith(s, '\n'))
         || (s == r && !EndsWith(s, '\n') && !EndsWith(s, '\r'))
  {
    TrimSuffixRemovesOne(s, '\n');
    TrimSuffixRemovesOne(TrimSuffix(s, '\n'), '\r');
  }

  /** `process` without its call to `store`: the record it would store, or the error. */
  function Parse(line: string): (r: Result<Record, ParseError>)
    ensures r.Err? <==> Delimiter(line).None?
    ensures r.Err? ==> r.error == SeparatorNotFound(line)
  {
    match Delimiter(line)
    case None => Err(SeparatorNotFound(line))
    case Some(d) =>
      var (field1, field2) := SplitFirst(line, d);
      var segments := SplitAll(field1, '@');
      var email := if |segments| < 2 then segments + [""] else segments;
      Ok(Record(email[1], email[0], TrimPassword(field2)))
  }

  /** A parsed record has no '@' in its user or domain, and the line starts with the user. */
  lemma ParsedFields(line: string)
    requires Parse(line).Ok?
    ensures '@' !in Parse(line).value.user && '@' !in Parse(line).value.domain
    ensures HasPrefix(line, Parse(line).value.user)
  {
    var d := Delimiter(line).value;
    var (field1, field2) := SplitFirst(line, d);
    var segments := SplitAll(field1, '@');
    var email := if |segments| < 2 then segments + [""] else segments;
    assert Parse(line) == Ok(Record(email[1], email[0], TrimPassword(field2)));
    SplitAllSegments(field1, '@');
    assert '@' !in email[0] && '@' !in email[1];
    SplitAllHead(field1, '@');
    assert HasPrefix(line, field1);
    PrefixOfPrefix(line, field1, email[0]);
  }


  // ---- Properties of the parser ----

  /** Priority does not depend on position: a ';' anywhere beats every other separator. */
  lemma SemicolonWins(before: string, after: string)
    ensures Delimiter(before + ";" + after) == Some(';')
  {
    assert (before + ";" + after)[|before|] == ';';
  }

  /** A line without any of the four separators is rejected, and the message names the line. */
  lemma NoSeparatorRejected(line: string)
    requires ';' !in line && ',' !in line && ':' !in line && '|' !in line
    ensures Parse(line) == Err(SeparatorNotFound(line))
    ensures Parse(line).error.Message() == "Separator not found in " + line
  {
  }

  /**
   * The split is at the first occurrence of the chosen separator: when the
   * text before some occurrence of it holds none, `field1` is that text and
   * the secret comes from everything after it.  With no '@' in `field1` the
   * domain is empty and the user is the whole of `field1`.
   */
  lemma {:induction false} ParseWithoutAt(field1: string, d: char, field2: string)
    requires Delimiter(field1 + [d] + field2) == Some(d)
    requires d !in field1 && '@' !in field1
    ensures Parse(field1 + [d] + field2) == Ok(Record("", field1, TrimPassword(field2)))
  {
    SplitFirstUnique(field1 + [d] + field2, d, field1, field2);
  }

  /**
   * The '@' segments of `field1`: with at least one '@', the first segment is
   * the text before the first '@' and the second the text up to the next '@'
   * (or the end); whatever follows a second '@' (the `tail`) is ignored.
   */
  lemma EmailSegments(field1: string, user: string, domain: string, tail: string)
    requires field1 == user + "@" + domain + tail
    requires '@' !in user && '@' !in domain
    requires tail == [] || tail[0] == '@'
    ensures |SplitAll(field1, '@')| >= 2
    ensures SplitAll(field1, '@')[0] == user && SplitAll(field1, '@')[1] == domain
  {
    assert field1 == user + ['@'] + (domain + tail);
    SplitAllCons(user, '@', domain + tail);
    if tail != [] {
      assert domain + tail == domain + ['@'] + tail[1..];
      SplitAllCons(domain, '@', tail[1..]);
    }
  }

  /**
   * With '@' in `field1`, the user is the text before the first '@' and the
   * domain the text between the first and the second '@'; further
   * '@'-segments are dropped.  The split itself is at the first occurrence
   * of the chosen separator.
   */
  lemma {:induction false} ParseWithAt(field1: string, user: string, domain: string, tail: string, d: char, field2: string)
    requires field1 == user + "@" + domain + tail
    requires '@' !in user && '@' !in domain
    requires tail == [] || tail[0] == '@'
    requires Delimiter(field1 + [d] + field2) == Some(d)
    requires d !in field1
    ensures Parse(field1 + [d] + field2) == Ok(Record(domain, user, TrimPassword(field2)))
  {
    SplitFirstUnique(field1 + [d] + field2, d, field1, field2);
    EmailSegments(field1, user, domain, tail);
  }

  /** A CRLF terminator is removed whole, whatever precedes it. */
  lemma CrLfStripped(p: string)
    ensures TrimPassword(p + "\r\n") == p
  {
    assert (p + "\r\n")[..|p| + 1] == p + "\r";
  }

  /** A lone LF is removed exactly when the text before it does not end in CR. */
  lemma LfStripped(p: string)
    ensures TrimPassword(p + "\n") == p <==> !EndsWith(p, '\r')
  {
    assert (p + "\n")[..|p|] == p;
  }

  /** The order of the two trims matters: "\n\r" loses only its "\r". */
  lemma LfCrKeepsLf(p: string)
    ensures TrimPassword(p + "\n\r") == p + "\n"
  {
    assert (p + "\n\r")[..|p| + 1] == p + "\n";
  }

  /** A line with an address, a ';' separator and an LF terminator. */
  lemma ExampleWithAddress()
    ensures Parse("alice@example.com;hunter2\n") == Ok(Record("example.com", "alice", "hunter2"))
  {
    assert "alice@example.com;hunter2\n" == "alice@example.com" + [';'] + "hunter2\n";
    ExampleWithAddressParts("alice@example.com", "hunter2\n");
  }

  lemma ExampleWithAddressParts(field1: string, field2: string)
    requires field1 == "alice@example.com" && field2 == "hunter2\n"
    ensures Parse(field1 + [';'] + field2) == Ok(Record("example.com", "alice", "hunter2"))
  {
    assert Delimiter(field1 + [';'] + field2) == Some(';');
    assert field1 == "alice" + "@" + "example.com" + "";
    ParseWithAt(field1, "alice", "example.com", "", ';', field2);
    assert field2 == "hunter2" + "\n";
    LfStripped("hunter2");
  }

  /** A line without an address and with a CRLF terminator. */
  lemma ExampleWithoutAddress()
    ensures Parse("bob:secret\r\n") == Ok(Record("", "bob", "secret"))
  {
    assert "bob:secret\r\n" == "bob" + [':'] + "secret\r\n";
    ExampleWithoutAddressParts("bob", "secret\r\n");
  }

  lemma ExampleWithoutAddressParts(field1: string, field2: string)
    requires field1 == "bob" && field2 == "secret\r\n"
    ensures Parse(field1 + [':'] + field2) == Ok(Record("", "bob", "secret"))
  {
    assert Delimiter(field1 + [':'] + field2) == Some(':');
    ParseWithoutAt(field1, ':', field2);
    assert field2 == "secret" + "\r\n";
    CrLfStripped("secret");
  }

  /** A line with no separator at all. */
  lemma ExampleNoSeparator()
    ensures Parse("nodupe") == Err(SeparatorNotFound("nodupe"))
  {
    NoSeparatorRejected("nodupe");
  }

  /** A later ';' beats an earlier ','. */
  lemma ExampleLaterSemicolon()
    ensures Parse("a,b;c\n") == Ok(Record("", "a,b", "c"))
  {
    assert "a,b;c\n" == "a,b" + [';'] + "c\n";
    assert Delimiter("a,b;c\n") == Some(';');
    ParseWithoutAt("a,b", ';', "c\n");
    LfStripped("c");
    assert "c" + "\n" == "c\n";
  }
}
