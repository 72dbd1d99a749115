/**
 * CSV field escaping as the scraper writes it, and a CSV reader that undoes it.
 *
 * A field is wrapped in double quotes when it contains a double quote, a comma
 * or a line feed, and each double quote inside it is doubled. This follows
 * rules 6 and 7 of section 2 of RFC 4180, except that a carriage return alone
 * does not cause quoting and records are separated by a line feed, not CRLF.
 *
 * The reader below undoes this writer: reading back what the writer wrote
 * gives the records back. Like the writer, it treats a carriage return inside
 * an unquoted field as data. A reader that
 * follows RFC 4180 would end the record at such a carriage return, so the
 * round trips proved here hold for this reader, not for every CSV reader.
 */
module Csv {
  import opened Wrappers
  import opened Text

  /** The characters that force a field into quotes. */
  predicate IsSpecial(c: char) {
    c == '"' || c == ',' || c == '\n'
  }

  predicate NeedsQuoting(s: string) {
    exists k :: 0 <= k < |s| && IsSpecial(s[k])
  }

  /** `s` with every double quote doubled. */
  function DoubleQuotes(s: string): (r: string)
    ensures |r| >= |s|
  {
    if s == [] then ""
    else (if s[0] == '"' then "\"\"" else [s[0]]) + DoubleQuotes(s[1..])
  }

  /** The escaping of a present string value. */
  function EscapeField(s: string): (r: string)
    ensures !NeedsQuoting(s) ==> r == s
    ensures NeedsQuoting(s) ==> |r| >= |s| + 2 && r[0] == '"' && r[|r| - 1] == '"'
  {
    if NeedsQuoting(s) then "\"" + DoubleQuotes(s) + "\"" else s
  }

  /** `escapeCSV`: `null` and `undefined` become the empty field. */
  function EscapeCSV(v: Option<string>): (r: string)
    ensures v.None? ==> r == ""
    ensures v.Some? && !NeedsQuoting(v.value) ==> r == v.value
  {
    match v
    case None => ""
    case Some(s) => EscapeField(s)
  }

  function EscapeAll(fields: seq<string>): (r: seq<string>)
    ensures |r| == |fields|
  {
    seq(|fields|, i requires 0 <= i < |fields| => EscapeField(fields[i]))
  }

  /** One CSV record: the escaped fields joined with commas. */
  function RecordLine(fields: seq<string>): string {
    Join(',', EscapeAll(fields))
  }

  /** The record lines of a document, in order. */
  function RecordLines(records: seq<seq<string>>): seq<string> {
    if records == [] then [] else [RecordLine(records[0])] + RecordLines(records[1..])
  }

  /** A CSV document: one line per record, joined with line feeds, no trailing line feed. */
  function DocumentText(records: seq<seq<string>>): string {
    Join('\n', RecordLines(records))
  }

  // ---------------------------------------------------------------------
  // Reading CSV back

  /**
   * The rest of a quoted field, read from just after its opening quote: a
   * doubled quote stands for one quote and a lone quote closes the field.
   * None when the closing quote is missing.
   */
  function ReadQuoted(s: string): (r: Option<(string, string)>)
    ensures r.Some? ==> |r.value.1| < |s|
  {
    if s == [] then None
    else if s[0] == '"' then
      if |s| >= 2 && s[1] == '"' then
        match ReadQuoted(s[2..])
        case None => None
        case Some(p) => Some(("\"" + p.0, p.1))
      else Some(("", s[1..]))
    else
      match ReadQuoted(s[1..])
      case None => None
      case Some(p) => Some(([s[0]] + p.0, p.1))
  }

  /** What may follow a field: the end of the text, a comma or a line feed. */
  predicate AtFieldEnd(rest: string) {
    rest == [] || rest[0] == ',' || rest[0] == '\n'
  }

  /** An unquoted field: everything up to the next comma or line feed. */
  function ReadPlain(s: string): (r: (string, string))
    ensures r.0 + r.1 == s
    ensures forall k :: 0 <= k < |r.0| ==> r.0[k] != ',' && r.0[k] != '\n'
    ensures AtFieldEnd(r.1)
  {
    if AtFieldEnd(s) then ("", s)
    else
      var p := ReadPlain(s[1..]);
      assert [s[0]] + p.0 + p.1 == [s[0]] + s[1..];
      ([s[0]] + p.0, p.1)
  }

  /** One field, quoted or not; None when a quoted field is unterminated or followed by anything but a separator. */
  function ReadField(s: string): (r: Option<(string, string)>)
    ensures r.Some? ==> |r.value.1| <= |s| && AtFieldEnd(r.value.1)
  {
    if s != [] && s[0] == '"' then
      match ReadQuoted(s[1..])
      case None => None
      case Some(p) => if AtFieldEnd(p.1) then Some(p) else None
    else Some(ReadPlain(s))
  }

  /** The fields of one record, up to the end of the text or a line feed. */
  function ReadRecord(s: string): (r: Option<(seq<string>, string)>)
    ensures r.Some? ==> |r.value.1| <= |s| && (r.value.1 == [] || r.value.1[0] == '\n')
    decreases |s|
  {
    match ReadField(s)
    case None => None
    case Some(p) =>
      if p.1 != [] && p.1[0] == ',' then
        match ReadRecord(p.1[1..])
        case None => None
        case Some(q) => Some(([p.0] + q.0, q.1))
      else Some(([p.0], p.1))
  }

  /** All records of a document. */
  function ReadDocument(s: string): Option<seq<seq<string>>>
    decreases |s|
  {
    match ReadRecord(s)
    case None => None
    case Some(p) =>
      if p.1 == [] then Some([p.0])
      else
        match ReadDocument(p.1[1..])
        case None => None
        case Some(rs) => Some([p.0] + rs)
  }

  // ---------------------------------------------------------------------
  // Round trips

  lemma {:induction false} QuotedRoundTrip(s: string, rest: string)
    requires rest == [] || rest[0] != '"'
    ensures ReadQuoted(DoubleQuotes(s) + "\"" + rest) == Some((s, rest))
  {
    var u := DoubleQuotes(s) + "\"" + rest;
    if s == [] {
      assert u == "\"" + rest;
      assert u[1..] == rest;
    } else {
      var t := DoubleQuotes(s[1..]) + "\"" + rest;
      QuotedRoundTrip(s[1..], rest);
      if s[0] == '"' {
        assert u == "\"\"" + t;
        assert u[0] == '"' && u[1] == '"' && u[2..] == t;
        assert "\"" + s[1..] == s;
      } else {
        assert u == [s[0]] + t;
        assert u[0] == s[0] && u[1..] == t;
        assert [s[0]] + s[1..] == s;
      }
    }
  }

  lemma {:induction false} PlainRoundTrip(s: string, rest: string)
    requires !NeedsQuoting(s)
    requires AtFieldEnd(rest)
    ensures ReadPlain(s + rest) == (s, rest)
  {
    if s == [] {
      assert s + rest == rest;
    } else {
      assert !IsSpecial(s[0]);
      assert !NeedsQuoting(s[1..]) by {
        forall k | 0 <= k < |s[1..]| ensures !IsSpecial(s[1..][k]) {
          assert s[1..][k] == s[k + 1];
        }
      }
      PlainRoundTrip(s[1..], rest);
      assert (s + rest)[1..] == s[1..] + rest;
      assert [s[0]] + s[1..] == s;
    }
  }

  /** Reading an escaped field gives back the value, whatever separator follows it. */
  lemma FieldRoundTrip(s: string, rest: string)
    requires AtFieldEnd(rest)
    ensures ReadField(EscapeField(s) + rest) == Some((s, rest))
  {
    if NeedsQuoting(s) {
      QuotedFieldRoundTrip(s, rest);
    } else {
      PlainFieldRoundTrip(s, rest);
    }
  }

  lemma QuotedFieldRoundTrip(s: string, rest: string)
    requires NeedsQuoting(s) && AtFieldEnd(rest)
    ensures ReadField(EscapeField(s) + rest) == Some((s, rest))
  {
    var body := DoubleQuotes(s) + "\"" + rest;
    var e := EscapeField(s) + rest;
    assert e == "\"" + body;
    assert e[0] == '"' && e[1..] == body;
    QuotedRoundTrip(s, rest);
  }

  lemma PlainFieldRoundTrip(s: string, rest: string)
    requires !NeedsQuoting(s) && AtFieldEnd(rest)
    ensures ReadField(EscapeField(s) + rest) == Some((s, rest))
  {
    PlainRoundTrip(s, rest);
    assert s != [] ==> !IsSpecial(s[0]);
    assert s == [] ==> s + rest == rest;
  }

  /** Reading a record line gives back its fields. */
  lemma {:induction false} RecordRoundTrip(fields: seq<string>, rest: string)
    requires |fields| >= 1
    requires rest == [] || rest[0] == '\n'
    ensures ReadRecord(RecordLine(fields) + rest) == Some((fields, rest))
  {
    var es := EscapeAll(fields);
    if |fields| == 1 {
      assert RecordLine(fields) == EscapeField(fields[0]);
      FieldRoundTrip(fields[0], rest);
      assert [fields[0]] == fields;
    } else {
      var tail := RecordLine(fields[1..]) + rest;
      assert es[1..] == EscapeAll(fields[1..]);
      assert RecordLine(fields) + rest == EscapeField(fields[0]) + ("," + tail);
      FieldRoundTrip(fields[0], "," + tail);
      assert ("," + tail)[1..] == tail;
      RecordRoundTrip(fields[1..], rest);
      assert [fields[0]] + fields[1..] == fields;
    }
  }

  /** Reading a document gives back its records, provided no record is empty. */
  lemma {:induction false} DocumentRoundTrip(records: seq<seq<string>>)
    requires |records| >= 1
    requires forall i :: 0 <= i < |records| ==> |records[i]| >= 1
    ensures ReadDocument(DocumentText(records)) == Some(records)
  {
    var lines := RecordLines(records);
    if |records| == 1 {
      assert lines == [RecordLine(records[0])];
      assert DocumentText(records) == RecordLine(records[0]) + "";
      RecordRoundTrip(records[0], "");
      assert [records[0]] == records;
    } else {
      var tail := DocumentText(records[1..]);
      RecordLinesAt(records[1..]);
      assert DocumentText(records) == RecordLine(records[0]) + ("\n" + tail);
      RecordRoundTrip(records[0], "\n" + tail);
      assert ("\n" + tail)[1..] == tail;
      DocumentRoundTrip(records[1..]);
      assert [records[0]] + records[1..] == records;
    }
  }

  /** A record of at least two fields never ends with a line feed. */
  lemma {:induction false} RecordLineEnd(fields: seq<string>)
    requires |fields| >= 2
    ensures var l := RecordLine(fields); l != [] && l[|l| - 1] != '\n'
  {
    var es := EscapeAll(fields);
    var last := es[|es| - 1];
    if last == [] {
      assert es[1..] == EscapeAll(fields[1..]);
      RecordLineEndEmptyLast(fields);
    } else {
      JoinEndsWithLastPart(',', es);
      var f := fields[|fields| - 1];
      if NeedsQuoting(f) {
      } else {
        assert last == f;
        assert !IsSpecial(f[|f| - 1]);
      }
    }
  }

  /** When the last field is empty, the record ends with the comma before it. */
  lemma {:induction false} RecordLineEndEmptyLast(fields: seq<string>)
    requires |fields| >= 2
    requires EscapeAll(fields)[|fields| - 1] == []
    ensures var l := RecordLine(fields); l != [] && l[|l| - 1] == ','
  {
    var es := EscapeAll(fields);
    assert es[1..] == EscapeAll(fields[1..]);
    if |fields| == 2 {
      assert Join(',', es[1..]) == es[1];
      assert RecordLine(fields) == es[0] + [','] + es[1];
    } else {
      RecordLineEndEmptyLast(fields[1..]);
    }
  }

  /** A document whose records all have at least two fields has no trailing line feed. */
  lemma NoTrailingLineFeed(records: seq<seq<string>>)
    requires |records| >= 1
    requires forall i :: 0 <= i < |records| ==> |records[i]| >= 2
    ensures var d := DocumentText(records); d != [] && d[|d| - 1] != '\n'
  {
    var lines := RecordLines(records);
    RecordLinesAt(records);
    RecordLineEnd(records[|records| - 1]);
    JoinEndsWithLastPart('\n', lines);
  }

  /** The i-th record line is the line of the i-th record. */
  lemma {:induction false} RecordLinesAt(records: seq<seq<string>>)
    ensures |RecordLines(records)| == |records|
    ensures forall i :: 0 <= i < |records| ==> RecordLines(records)[i] == RecordLine(records[i])
  {
    if records != [] {
      RecordLinesAt(records[1..]);
    }
  }

  /** Without double quotes there is nothing to double. */
  lemma {:induction false} DoubleQuotesNoQuote(s: string)
    requires '"' !in s
    ensures DoubleQuotes(s) == s
  {
    if s != [] {
      assert s[0] in s;
      assert forall c :: c in s[1..] ==> c in s;
      DoubleQuotesNoQuote(s[1..]);
      assert [s[0]] + s[1..] == s;
    }
  }

  /** Doubling distributes over concatenation. */
  lemma {:induction false} DoubleQuotesAppend(a: string, b: string)
    ensures DoubleQuotes(a + b) == DoubleQuotes(a) + DoubleQuotes(b)
  {
    if a != [] {
      assert (a + b)[0] == a[0];
      assert (a + b)[1..] == a[1..] + b;
      DoubleQuotesAppend(a[1..], b);
    } else {
      assert a + b == b;
    }
  }

  /** A field that needs quoting but holds no double quote is only wrapped in quotes. */
  lemma QuotedVerbatim(s: string)
    requires NeedsQuoting(s) && '"' !in s
    ensures EscapeField(s) == "\"" + s + "\""
  {
    DoubleQuotesNoQuote(s);
  }

  /** A name with a comma comes out quoted. */
  lemma CommaQuoted()
    ensures EscapeField("Smith, J.") == "\"" + "Smith, J." + "\""
  {
    assert IsSpecial("Smith, J."[5]);
    QuotedVerbatim("Smith, J.");
  }

  /** A value ending in a double quote comes out quoted, with that quote doubled. */
  lemma QuoteDoubled()
    ensures EscapeField("6-4\"") == "\"" + ("6-4" + "\"\"") + "\""
  {
    var score, quote := "6-4", "\"";
    assert score + quote == "6-4\"";
    assert IsSpecial((score + quote)[3]);
    DoubleQuotesNoQuote(score);
    DoubleQuotesAppend(score, quote);
    assert quote[1..] == [];
    assert DoubleQuotes(quote) == "\"\"";
    assert EscapeField(score + quote) == "\"" + (score + "\"\"") + "\"";
  }

  /** A value with a line feed comes out quoted. */
  lemma LineFeedQuoted()
    ensures EscapeField("a\nb") == "\"" + "a\nb" + "\""
  {
    assert IsSpecial("a\nb"[1]);
    QuotedVerbatim("a\nb");
  }

  /** A carriage return alone does not cause quoting, unlike RFC 4180. */
  lemma CarriageReturnNotQuoted()
    ensures EscapeField("a\rb") == "a\rb"
  {
  }
}
