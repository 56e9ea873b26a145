/**
 Comma separated values: the printing of the payout report (src/admin/admin-finance.service.ts)
 and, written independently of it, a reader for the grammar of RFC 4180, section 2, that allows
 any character but comma, quote, CR and LF as TEXTDATA and refuses everything else it does not derive.
 */
module Csv {
  import opened Wrappers
  import opened Strings

  // ---------------------------------------------------------------------------
  // The printer
  // ---------------------------------------------------------------------------

  const CRLF := "\r\n"

  /** Quote a field and double any inner quotes. */
  function CsvEscape(value: string): string {
    "\"" + Replace(value, '"', "\"\"") + "\""
  }

  function Escaped(cols: seq<string>): (r: seq<string>)
    ensures |r| == |cols|
  {
    seq(|cols|, i requires 0 <= i < |cols| => CsvEscape(cols[i]))
  }

  function PrintRow(cols: seq<string>): string
    requires 0 < |cols|
  {
    Join(Escaped(cols), ",")
  }

  function PrintRows(rows: seq<seq<string>>): (r: seq<string>)
    requires forall row :: row in rows ==> 0 < |row|
    ensures |r| == |rows|
  {
    seq(|rows|, i requires 0 <= i < |rows| => PrintRow(rows[i]))
  }

  /** The file: the header as it is, then the rows, every line ended. */
  function PrintFile(header: seq<string>, rows: seq<seq<string>>): string
    requires 0 < |header| && forall row :: row in rows ==> 0 < |row|
  {
    Join([Join(header, ",")] + PrintRows(rows), CRLF) + CRLF
  }

  // ---------------------------------------------------------------------------
  // The reader
  // ---------------------------------------------------------------------------

  predicate IsSpecial(c: char) {
    c == ',' || c == '"' || c == '\r' || c == '\n'
  }

  predicate IsPlain(s: string) {
    forall c :: c in s ==> !IsSpecial(c)
  }

  /** The rest of an escaped field behind its opening quote. */
  function ReadEscaped(s: string): (r: Option<(string, string)>)
    ensures r.Some? ==> |r.value.1| < |s|
  {
    if s == "" then None
    else if s[0] != '"' then Prepend(s[0], ReadEscaped(s[1..]))
    else if 1 < |s| && s[1] == '"' then Prepend('"', ReadEscaped(s[2..]))
    else Some(("", s[1..]))
  }

  function Prepend(c: char, r: Option<(string, string)>): Option<(string, string)> {
    match r
    case None => None
    case Some(p) => Some(([c] + p.0, p.1))
  }

  function ReadPlain(s: string): (r: (string, string))
    ensures |r.1| <= |s|
  {
    if s == "" || IsSpecial(s[0]) then ("", s)
    else
      var r := ReadPlain(s[1..]);
      ([s[0]] + r.0, r.1)
  }

  function ReadField(s: string): (r: Option<(string, string)>)
    ensures r.Some? ==> |r.value.1| <= |s|
  {
    if s != "" && s[0] == '"' then ReadEscaped(s[1..]) else Some(ReadPlain(s))
  }

  /** Fields up to the first place where no comma follows. */
  function ReadRecord(s: string): (r: Option<(seq<string>, string)>)
    ensures r.Some? ==> |r.value.1| <= |s|
    decreases |s|
  {
    match ReadField(s)
    case None => None
    case Some((field, rest)) =>
      if rest == "" || rest[0] != ',' then Some(([field], rest))
      else
        match ReadRecord(rest[1..])
        case None => None
        case Some((fields, rest')) => Some(([field] + fields, rest'))
  }

  /** Records with line breaks between them; the last one may or may not be ended by one. */
  function ReadFile(s: string): Option<seq<seq<string>>>
    decreases |s|
  {
    match ReadRecord(s)
    case None => None
    case Some((fields, rest)) =>
      if rest == "" || rest == CRLF then Some([fields])
      else if !(CRLF <= rest) then None
      else
        match ReadFile(rest[2..])
        case None => None
        case Some(more) => Some([fields] + more)
  }

  // ---------------------------------------------------------------------------
  // The round trip
  // ---------------------------------------------------------------------------

  lemma {:induction false} EscapedReadsBack(v: string, rest: string)
    requires rest == "" || rest[0] != '"'
    ensures ReadEscaped(Replace(v, '"', "\"\"") + "\"" + rest) == Some((v, rest))
  {
    var text := Replace(v, '"', "\"\"") + "\"" + rest;
    if v == "" {
      assert text == "\"" + rest && text[1..] == rest;
    } else {
      EscapedReadsBack(v[1..], rest);
      var tail := Replace(v[1..], '"', "\"\"") + "\"" + rest;
      assert v == [v[0]] + v[1..];
      if v[0] == '"' {
        assert text == "\"\"" + tail && text[2..] == tail;
      } else {
        assert text == [v[0]] + tail && text[1..] == tail;
      }
    }
  }

  /** Every field is put in quotes, plain or not. */
  lemma EscapedIsQuoted(v: string)
    ensures var text := CsvEscape(v); 2 <= |text| && text[0] == '"' && text[|text| - 1] == '"'
  {
  }

  lemma {:induction false} PlainReadsBack(v: string, rest: string)
    requires IsPlain(v) && (rest == "" || IsSpecial(rest[0]))
    ensures ReadPlain(v + rest) == (v, rest)
  {
    if v == "" {
      assert v + rest == rest;
    } else {
      PlainReadsBack(v[1..], rest);
      assert v[0] in v && v == [v[0]] + v[1..];
      assert (v + rest)[1..] == v[1..] + rest;
    }
  }

  /** One way or the other, the text of a field reads back as its value. */
  ghost predicate Prints(text: string, value: string) {
    text == CsvEscape(value) || (text == value && IsPlain(value))
  }

  lemma FieldReadsBack(text: string, value: string, rest: string)
    requires Prints(text, value) && (rest == "" || (IsSpecial(rest[0]) && rest[0] != '"'))
    ensures ReadField(text + rest) == Some((value, rest))
  {
    if text == CsvEscape(value) {
      EscapedReadsBack(value, rest);
      assert (text + rest)[1..] == Replace(value, '"', "\"\"") + "\"" + rest;
    } else {
      PlainReadsBack(value, rest);
      if value != "" { assert value[0] in value && (text + rest)[0] == value[0]; }
    }
  }

  lemma {:induction false} RecordReadsBack(texts: seq<string>, values: seq<string>, rest: string)
    requires |texts| == |values| && 0 < |texts|
    requires forall i :: 0 <= i < |texts| ==> Prints(texts[i], values[i])
    requires rest == "" || rest[0] == '\r'
    ensures ReadRecord(Join(texts, ",") + rest) == Some((values, rest))
  {
    hide ReadField, Prints;
    if |texts| == 1 {
      FieldReadsBack(texts[0], values[0], rest);
      assert values == [values[0]];
    } else {
      var behind := "," + (Join(texts[1..], ",") + rest);
      RecordReadsBack(texts[1..], values[1..], rest);
      FieldReadsBack(texts[0], values[0], behind);
      assert Join(texts, ",") + rest == texts[0] + behind;
      assert behind[1..] == Join(texts[1..], ",") + rest;
      assert values == [values[0]] + values[1..];
    }
  }

  /** A line, up to a line break, reads as one record. */
  ghost predicate ReadsAs(line: string, record: seq<string>) {
    forall rest :: rest != "" && rest[0] == '\r' ==> ReadRecord(line + rest) == Some((record, rest))
  }

  lemma {:induction false} LinesReadBack(lines: seq<string>, records: seq<seq<string>>)
    requires |lines| == |records| && 0 < |lines|
    requires forall i :: 0 <= i < |lines| ==> ReadsAs(lines[i], records[i])
    ensures ReadFile(Join(lines, CRLF) + CRLF) == Some(records)
  {
    hide ReadRecord, IsPlain;
    if |lines| == 1 {
      assert CRLF[0] == '\r' && ReadsAs(lines[0], records[0]);
      assert ReadRecord(lines[0] + CRLF) == Some((records[0], CRLF));
      assert records == [records[0]];
    } else {
      var behind := CRLF + (Join(lines[1..], CRLF) + CRLF);
      LinesReadBack(lines[1..], records[1..]);
      assert Join(lines, CRLF) + CRLF == lines[0] + behind;
      assert behind[0] == '\r' && ReadsAs(lines[0], records[0]);
      assert ReadRecord(lines[0] + behind) == Some((records[0], behind));
      assert behind[2..] == Join(lines[1..], CRLF) + CRLF;
      assert behind != CRLF && CRLF <= behind;
      assert records == [records[0]] + records[1..];
    }
  }

  /** Whatever the fields hold, reading the printed file gives back the header and the table. */
  lemma FileReadsBack(header: seq<string>, rows: seq<seq<string>>)
    requires 0 < |header| && forall f :: f in header ==> IsPlain(f)
    requires forall row :: row in rows ==> 0 < |row|
    ensures ReadFile(PrintFile(header, rows)) == Some([header] + rows)
  {
    hide ReadRecord, ReadFile, IsPlain, CsvEscape, Join;
    var lines := [Join(header, ",")] + PrintRows(rows);
    var records := [header] + rows;
    forall i | 0 <= i < |lines|
      ensures ReadsAs(lines[i], records[i])
    {
      forall rest | rest != "" && rest[0] == '\r'
        ensures ReadRecord(lines[i] + rest) == Some((records[i], rest))
      {
        if i == 0 {
          RecordReadsBack(header, header, rest);
        } else {
          RecordReadsBack(Escaped(rows[i - 1]), rows[i - 1], rest);
        }
      }
    }
    LinesReadBack(lines, records);
  }
}
