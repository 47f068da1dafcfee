/** CSV field escaping and document assembly as both exports do it, and a reader for the
    same line-feed dialect: fields separated by ',', records by "\n", quoting as in section
    2, rules 5 to 7, of RFC 4180, and a carriage return treated as ordinary data. Against
    this reader the encoding is proved lossless. A reader that ends records at CRLF or a lone
    carriage return is not this reader (see `LoneCarriageReturn`). */
module Csv {
  import opened Wrappers
  import opened Text
  import opened Records

  const Quote: char := '"'

  /** A value must be quoted when it contains a comma, a double quote or a line feed.
      A carriage return alone does not trigger quoting. */
  predicate NeedsQuoting(s: string) {
    ',' in s || Quote in s || '\n' in s
  }

  /** `s.replace(/"/g, '""')`. */
  function DoubleQuotes(s: string): (r: string)
    ensures |r| >= |s|
    ensures ',' in r <==> ',' in s
    ensures '\n' in r <==> '\n' in s
  {
    if s == [] then [] else EscapeChar(s[0]) + DoubleQuotes(s[1..])
  }

  /** One character inside a quoted field: a quote is doubled, anything else kept. */
  function EscapeChar(c: char): (r: string)
    ensures r == [c] || r == [Quote, Quote]
  {
    if c == Quote then [Quote, Quote] else [c]
  }

  /** `escapeCsvValue`. */
  function EscapeValue(v: Option<string>): (r: string)
    ensures v.None? ==> r == ""
    ensures v.Some? && !NeedsQuoting(v.value) ==> r == v.value
    ensures v.Some? && NeedsQuoting(v.value) ==>
      |r| >= 2 && r[0] == Quote && r[|r| - 1] == Quote && r[1..|r| - 1] == DoubleQuotes(v.value)
  {
    match v
    case None => ""
    case Some(s) => if NeedsQuoting(s) then [Quote] + DoubleQuotes(s) + [Quote] else s
  }

  /** The escaped values of a row, in order. */
  function EscapeAll(vs: seq<Option<string>>): (r: seq<string>)
    ensures |r| == |vs|
    ensures forall k :: 0 <= k < |vs| ==> r[k] == EscapeValue(vs[k])
  {
    if vs == [] then [] else [EscapeValue(vs[0])] + EscapeAll(vs[1..])
  }

  /** One line of the document: `row.map(escapeCsvValue).join(",")`. */
  function RenderRow(vs: seq<Option<string>>): string {
    Join(EscapeAll(vs), ",")
  }

  /** The lines of a document: one rendered line per row. */
  function RenderRows(rows: seq<seq<Option<string>>>): (r: seq<string>)
    ensures |r| == |rows|
    ensures forall k :: 0 <= k < |rows| ==> r[k] == RenderRow(rows[k])
  {
    if rows == [] then [] else [RenderRow(rows[0])] + RenderRows(rows[1..])
  }

  /** What a reader sees of a row: each value, with an absent one read as "". */
  function Plain(vs: seq<Option<string>>): (r: seq<string>)
    ensures |r| == |vs|
    ensures forall k :: 0 <= k < |vs| ==> r[k] == OrEmpty(vs[k])
  {
    if vs == [] then [] else [OrEmpty(vs[0])] + Plain(vs[1..])
  }

  function PlainRows(rows: seq<seq<Option<string>>>): (r: seq<seq<string>>)
    ensures |r| == |rows|
    ensures forall k :: 0 <= k < |rows| ==> r[k] == Plain(rows[k])
  {
    if rows == [] then [] else [Plain(rows[0])] + PlainRows(rows[1..])
  }

  /** Present values, for rows whose cells are plain strings. */
  function Present(ss: seq<string>): (r: seq<Option<string>>)
    ensures |r| == |ss|
    ensures forall k :: 0 <= k < |ss| ==> r[k] == Some(ss[k])
  {
    if ss == [] then [] else [Some(ss[0])] + Present(ss[1..])
  }

  // ---------------------------------------------------------------------------------
  // Decoder

  /** Reads the inside of a quoted field up to its closing quote, turning each doubled quote
      into one. Returns the content and what follows the closing quote, or None when the
      field is not closed. */
  function ParseQuoted(s: string): (r: Option<(string, string)>)
    ensures r.Some? ==> |r.value.1| < |s|
    decreases |s|
  {
    if s == [] then None
    else if s[0] == Quote then
      if |s| >= 2 && s[1] == Quote then
        match ParseQuoted(s[2..])
        case None => None
        case Some((c, rest)) => Some(([Quote] + c, rest))
      else Some(("", s[1..]))
    else
      match ParseQuoted(s[1..])
      case None => None
      case Some((c, rest)) => Some(([s[0]] + c, rest))
  }

  /** Reads an unquoted field: everything up to the next ',' or line feed. */
  function ParseUnquoted(s: string): (r: (string, string))
    ensures r.0 + r.1 == s
    decreases |s|
  {
    if s == [] || s[0] == ',' || s[0] == '\n' then ("", s)
    else
      var (f, rest) := ParseUnquoted(s[1..]);
      ([s[0]] + f, rest)
  }

  /** Reads one field, quoted or not, and returns it with the remaining input. */
  function ParseField(s: string): (r: Option<(string, string)>)
    ensures r.Some? ==> |r.value.1| <= |s|
  {
    if s != [] && s[0] == Quote then ParseQuoted(s[1..])
    else
      var (f, rest) := ParseUnquoted(s);
      Some((f, rest))
  }

  /** Reads the comma-separated fields of one record, stopping before a line feed or at the
      end of the input. */
  function ParseRecord(s: string): (r: Option<(seq<string>, string)>)
    ensures r.Some? ==> |r.value.1| <= |s|
    decreases |s|
  {
    match ParseField(s)
    case None => None
    case Some((f, rest)) =>
      if rest != [] && rest[0] == ',' then
        match ParseRecord(rest[1..])
        case None => None
        case Some((fs, rest')) => Some(([f] + fs, rest'))
      else Some(([f], rest))
  }

  /** Reads a whole document: records separated by line feeds. */
  function ParseDocument(s: string): Option<seq<seq<string>>>
    decreases |s|
  {
    match ParseRecord(s)
    case None => None
    case Some((fs, rest)) =>
      if rest == [] then Some([fs])
      else if rest[0] == '\n' then
        match ParseDocument(rest[1..])
        case None => None
        case Some(records) => Some([fs] + records)
      else None
  }

  // ---------------------------------------------------------------------------------
  // Round trip

  /** Input that may follow a field: nothing, or a field or record separator. */
  predicate FieldEnd(t: string) {
    t == [] || t[0] == ',' || t[0] == '\n'
  }

  lemma {:induction false} ParseQuotedDoubled(v: string, t: string)
    requires t == [] || t[0] != Quote
    ensures ParseQuoted(DoubleQuotes(v) + [Quote] + t) == Some((v, t))
    decreases |v|
  {
    if v == [] {
      assert DoubleQuotes(v) + [Quote] + t == [Quote] + t;
      assert ([Quote] + t)[1..] == t;
    } else {
      var d := DoubleQuotes(v[1..]) + [Quote] + t;
      ParseQuotedDoubled(v[1..], t);
      var head := EscapeChar(v[0]);
      assert DoubleQuotes(v) == head + DoubleQuotes(v[1..]);
      assert DoubleQuotes(v) + [Quote] + t == head + d;
      ParseQuotedCons(v[0], d);
      assert v == [v[0]] + v[1..];
    }
  }

  /** Decoding one escaped character in front of a quoted field's content. */
  lemma ParseQuotedCons(c: char, d: string)
    requires ParseQuoted(d).Some?
    ensures ParseQuoted(EscapeChar(c) + d) == Some(([c] + ParseQuoted(d).value.0, ParseQuoted(d).value.1))
  {
    var s := EscapeChar(c) + d;
    if c == Quote {
      assert s[0] == Quote && s[1] == Quote && s[2..] == d;
    } else {
      assert s[0] == c && s[1..] == d;
    }
  }

  lemma {:induction false} ParseUnquotedPlain(v: string, t: string)
    requires ',' !in v && '\n' !in v
    requires FieldEnd(t)
    ensures ParseUnquoted(v + t) == (v, t)
    decreases |v|
  {
    if v == [] {
      assert v + t == t;
    } else {
      assert v[0] in v;
      assert (v + t)[0] == v[0];
      assert (v + t)[1..] == v[1..] + t;
      ParseUnquotedPlain(v[1..], t);
      assert v == [v[0]] + v[1..];
    }
  }

  /** A field decoder reads an escaped value back, whatever separator follows it. */
  lemma FieldRoundTrip(v: Option<string>, t: string)
    requires FieldEnd(t)
    ensures ParseField(EscapeValue(v) + t) == Some((OrEmpty(v), t))
  {
    var e := EscapeValue(v);
    if v.Some? && NeedsQuoting(v.value) {
      assert e + t == [Quote] + (DoubleQuotes(v.value) + [Quote] + t);
      ParseQuotedDoubled(v.value, t);
    } else {
      ParseUnquotedPlain(OrEmpty(v), t);
      if OrEmpty(v) == [] {
        assert e + t == t;
      } else {
        assert (e + t)[0] == OrEmpty(v)[0];
      }
    }
  }

  /** `escapeCsvValue` is undone by the line-feed dialect's field reader: the decoded field is the
      original value, or "" for an absent one. */
  lemma EscapeRoundTrip(v: Option<string>)
    ensures ParseField(EscapeValue(v)) == Some((OrEmpty(v), ""))
  {
    FieldRoundTrip(v, "");
    assert EscapeValue(v) + "" == EscapeValue(v);
  }

  /** A carriage return alone does not trigger quoting: a value holding one, but no comma,
      double quote or line feed, is written bare, and only a reader that treats the carriage
      return as data reads it back unchanged. */
  lemma LoneCarriageReturn(v: string)
    requires '\r' in v && !NeedsQuoting(v)
    ensures EscapeValue(Some(v)) == v
    ensures ParseField(v) == Some((v, ""))
  {
    EscapeRoundTrip(Some(v));
  }

  /** A rendered row of two or more values is the first escaped value, a comma, and the
      rendering of the others. */
  lemma RenderRowCons(vs: seq<Option<string>>)
    requires |vs| >= 2
    ensures RenderRow(vs) == EscapeValue(vs[0]) + [','] + RenderRow(vs[1..])
  {
    assert EscapeAll(vs)[1..] == EscapeAll(vs[1..]);
  }

  /** One step of record decoding: a field followed by a comma, then the other fields. */
  lemma RecordStep(v: Option<string>, rest: string, fs: seq<string>, t: string)
    requires ParseRecord(rest) == Some((fs, t))
    ensures ParseRecord(EscapeValue(v) + [','] + rest) == Some(([OrEmpty(v)] + fs, t))
  {
    var s := EscapeValue(v) + [','] + rest;
    assert s == EscapeValue(v) + ([','] + rest);
    FieldRoundTrip(v, [','] + rest);
    assert ([','] + rest)[1..] == rest;
  }

  lemma {:induction false} RecordRoundTrip(vs: seq<Option<string>>, t: string)
    requires |vs| >= 1
    requires t == [] || t[0] == '\n'
    ensures ParseRecord(RenderRow(vs) + t) == Some((Plain(vs), t))
    decreases |vs|
  {
    if |vs| == 1 {
      FieldRoundTrip(vs[0], t);
      assert Plain(vs) == [OrEmpty(vs[0])];
    } else {
      var e := EscapeValue(vs[0]);
      var rest := RenderRow(vs[1..]);
      RenderRowCons(vs);
      RecordRoundTrip(vs[1..], t);
      RecordStep(vs[0], rest + t, Plain(vs[1..]), t);
      AppendAssoc(e + [','], rest, t);
      assert Plain(vs) == [OrEmpty(vs[0])] + Plain(vs[1..]);
    }
  }

  /** A document rendered from rows of at least one value each decodes to those rows. */
  lemma {:induction false} DocumentRoundTrip(rows: seq<seq<Option<string>>>)
    requires |rows| >= 1
    requires forall k :: 0 <= k < |rows| ==> |rows[k]| >= 1
    ensures ParseDocument(Join(RenderRows(rows), "\n")) == Some(PlainRows(rows))
    decreases |rows|
  {
    if |rows| == 1 {
      RecordRoundTrip(rows[0], "");
      assert Join(RenderRows(rows), "\n") == RenderRow(rows[0]) + "";
      assert PlainRows(rows) == [Plain(rows[0])];
    } else {
      var rest := Join(RenderRows(rows[1..]), "\n");
      DocumentSplit(rows);
      AppendAssoc(RenderRow(rows[0]), "\n", rest);
      RecordRoundTrip(rows[0], ['\n'] + rest);
      assert (['\n'] + rest)[1..] == rest;
      DocumentRoundTrip(rows[1..]);
      assert PlainRows(rows) == [Plain(rows[0])] + PlainRows(rows[1..]);
    }
  }

  /** A document of two or more rows is the first line, a line feed and the other lines. */
  lemma DocumentSplit(rows: seq<seq<Option<string>>>)
    requires |rows| >= 2
    ensures Join(RenderRows(rows), "\n") == RenderRow(rows[0]) + "\n" + Join(RenderRows(rows[1..]), "\n")
  {
    var lines := RenderRows(rows);
    assert lines[1..] == RenderRows(rows[1..]);
  }

  /** A header line joined without escaping equals its escaped rendering when no header
      needs quoting. */
  lemma {:induction false} UnescapedHeaders(headers: seq<string>)
    requires forall k :: 0 <= k < |headers| ==> !NeedsQuoting(headers[k])
    ensures Join(headers, ",") == RenderRow(Present(headers))
  {
    var es := EscapeAll(Present(headers));
    assert es == headers;
  }
}
