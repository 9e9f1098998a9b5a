/** The CSV printer, and a parser for section 2 of RFC 4180 with LF line ends that reads its output back. */
module Csv {
  import opened Prelude

  // ---------------------------------------------------------------- printing

  predicate FormulaStart(s: string) {
    s != "" && s[0] in {'=', '+', '-', '@', '\t', '\r'}
  }

  /** A field that a spreadsheet would run as a formula gets a leading apostrophe. */
  function Guard(s: string): string {
    if FormulaStart(s) then "'" + s else s
  }

  predicate NeedsQuotes(s: string) {
    ',' in s || '"' in s || '\n' in s
  }

  function DoubleQuotes(s: string): string {
    if s == "" then ""
    else if s[0] == '"' then ['"', '"'] + DoubleQuotes(s[1..])
    else [s[0]] + DoubleQuotes(s[1..])
  }

  function EscapeField(value: string): string {
    var s := Guard(value);
    if NeedsQuotes(s) then ['"'] + DoubleQuotes(s) + ['"'] else s
  }

  function Join(parts: seq<string>, separator: char): string {
    if parts == [] then ""
    else if |parts| == 1 then parts[0]
    else parts[0] + [separator] + Join(parts[1..], separator)
  }

  function EscapeAll(fields: seq<string>): (r: seq<string>)
    ensures |r| == |fields|
  {
    if fields == [] then [] else [EscapeField(fields[0])] + EscapeAll(fields[1..])
  }

  /** A record's value under a header, as text; a missing one prints as `undefined`. */
  function ValueOf(row: map<string, string>, header: string): string {
    if header in row then row[header] else "undefined"
  }

  function Values(row: map<string, string>, headers: seq<string>): (r: seq<string>)
    ensures |r| == |headers|
    ensures forall i :: 0 <= i < |headers| ==> r[i] == ValueOf(row, headers[i])
  {
    if headers == [] then [] else [ValueOf(row, headers[0])] + Values(row, headers[1..])
  }

  function Line(fields: seq<string>): string {
    Join(EscapeAll(fields), ',')
  }

  /** The table as the printer sees it: the header line and one line per record. */
  function Table(rows: seq<map<string, string>>, headers: seq<string>): (t: seq<seq<string>>)
    ensures |t| == |rows| + 1 && t[0] == headers
    ensures forall i :: 0 <= i < |rows| ==> t[i + 1] == Values(rows[i], headers)
  {
    [headers] + seq(|rows|, i requires 0 <= i < |rows| => Values(rows[i], headers))
  }

  function Lines(table: seq<seq<string>>): (r: seq<string>)
    ensures |r| == |table|
  {
    if table == [] then [] else [Line(table[0])] + Lines(table[1..])
  }

  function ToCsv(rows: seq<map<string, string>>, headers: seq<string>): string {
    Join(Lines(Table(rows, headers)), '\n')
  }

  // ---------------------------------------------------------------- parsing

  predicate Ends(s: string) {
    s == "" || s[0] == ',' || s[0] == '\n'
  }

  /** An unquoted field and what follows it; a quote inside one is malformed. */
  function ParseBare(s: string): (r: Option<(string, string)>)
    ensures r.Some? ==> |r.value.1| <= |s| && Ends(r.value.1)
  {
    if Ends(s) then Some(("", s))
    else if s[0] == '"' then None
    else match ParseBare(s[1..])
      case None => None
      case Some(r) => Some(([s[0]] + r.0, r.1))
  }

  /** A quoted field after its opening quote: a doubled quote is a quote, a single one closes the field. */
  function ParseQuoted(s: string): (r: Option<(string, string)>)
    ensures r.Some? ==> |r.value.1| < |s| && Ends(r.value.1)
  {
    if s == "" then None
    else if s[0] != '"' then
      match ParseQuoted(s[1..]) { case None => None case Some(r) => Some(([s[0]] + r.0, r.1)) }
    else if |s| > 1 && s[1] == '"' then
      match ParseQuoted(s[2..]) { case None => None case Some(r) => Some((['"'] + r.0, r.1)) }
    else if Ends(s[1..]) then Some(("", s[1..]))
    else None
  }

  function ParseField(s: string): (r: Option<(string, string)>)
    ensures r.Some? ==> |r.value.1| <= |s| && Ends(r.value.1)
  {
    if s != "" && s[0] == '"' then ParseQuoted(s[1..]) else ParseBare(s)
  }

  /** One record, and the text after its line end if there is one. */
  function ParseRecord(s: string): (r: Option<(seq<string>, Option<string>)>)
    ensures r.Some? && r.value.1.Some? ==> |r.value.1.value| < |s|
    decreases |s|
  {
    match ParseField(s)
    case None => None
    case Some((field, rest)) =>
      if rest == "" then Some(([field], None))
      else if rest[0] == '\n' then Some(([field], Some(rest[1..])))
      else
        match ParseRecord(rest[1..])
        case None => None
        case Some((fields, after)) => Some(([field] + fields, after))
  }

  function Parse(s: string): Option<seq<seq<string>>>
    decreases |s|
  {
    match ParseRecord(s)
    case None => None
    case Some((fields, None)) => Some([fields])
    case Some((fields, Some(after))) =>
      match Parse(after) { case None => None case Some(records) => Some([fields] + records) }
  }

  // ---------------------------------------------------------------- round trip

  lemma {:induction false} BareBack(s: string, rest: string)
    requires !NeedsQuotes(s) && Ends(rest)
    ensures ParseBare(s + rest) == Some((s, rest))
  {
    if s == "" {
      assert s + rest == rest;
    } else {
      assert s[0] in s;
      assert (s + rest)[1..] == s[1..] + rest;
      BareBack(s[1..], rest);
      assert [s[0]] + s[1..] == s;
    }
  }

  lemma {:induction false} QuotedBack(s: string, rest: string)
    requires Ends(rest)
    ensures ParseQuoted(DoubleQuotes(s) + ['"'] + rest) == Some((s, rest))
  {
    var text := DoubleQuotes(s) + ['"'] + rest;
    if s == "" {
      assert text == ['"'] + rest && text[1..] == rest;
    } else {
      QuotedBack(s[1..], rest);
      assert [s[0]] + s[1..] == s;
      if s[0] == '"' {
        assert text[2..] == DoubleQuotes(s[1..]) + ['"'] + rest;
      } else {
        assert text[1..] == DoubleQuotes(s[1..]) + ['"'] + rest;
      }
    }
  }

  /** Whatever a field contains, the parser finds its end and returns it, guarded. */
  lemma FieldBack(value: string, rest: string)
    requires Ends(rest)
    ensures ParseField(EscapeField(value) + rest) == Some((Guard(value), rest))
  {
    hide DoubleQuotes, ParseQuoted, ParseBare, Guard;
    var s := Guard(value);
    if NeedsQuotes(s) {
      QuotedBack(s, rest);
      assert (EscapeField(value) + rest)[1..] == DoubleQuotes(s) + ['"'] + rest;
    } else {
      BareBack(s, rest);
      if s != "" { assert s[0] in s; }
    }
  }

  function GuardAll(fields: seq<string>): (r: seq<string>)
    ensures |r| == |fields| && forall i :: 0 <= i < |fields| ==> r[i] == Guard(fields[i])
  {
    if fields == [] then [] else [Guard(fields[0])] + GuardAll(fields[1..])
  }

  lemma {:induction false} RecordBack(fields: seq<string>, rest: string)
    requires fields != [] && (rest == "" || rest[0] == '\n')
    ensures ParseRecord(Line(fields) + rest) ==
            Some((GuardAll(fields), if rest == "" then None else Some(rest[1..])))
    decreases |fields|
  {
    hide ParseField, EscapeField, Guard;
    if |fields| == 1 {
      FieldBack(fields[0], rest);
      assert Line(fields) == EscapeField(fields[0]);
      assert GuardAll(fields) == [Guard(fields[0])];
    } else {
      var tail := Line(fields[1..]) + rest;
      assert Line(fields) + rest == EscapeField(fields[0]) + ([','] + tail);
      FieldBack(fields[0], [','] + tail);
      assert ([','] + tail)[1..] == tail;
      RecordBack(fields[1..], rest);
    }
  }

  function GuardTable(table: seq<seq<string>>): (r: seq<seq<string>>)
    ensures |r| == |table| && forall i :: 0 <= i < |table| ==> r[i] == GuardAll(table[i])
  {
    if table == [] then [] else [GuardAll(table[0])] + GuardTable(table[1..])
  }

  lemma {:induction false} TableBack(table: seq<seq<string>>)
    requires table != [] && forall i :: 0 <= i < |table| ==> table[i] != []
    ensures Parse(Join(Lines(table), '\n')) == Some(GuardTable(table))
    decreases |table|
  {
    var text := Join(Lines(table), '\n');
    if |table| == 1 {
      assert Lines(table) == [Line(table[0])];
      assert text == Line(table[0]) + "";
      RecordBack(table[0], "");
      assert GuardTable(table) == [GuardAll(table[0])];
    } else {
      var rest := ['\n'] + Join(Lines(table[1..]), '\n');
      assert text == Line(table[0]) + rest;
      RecordBack(table[0], rest);
      assert rest[1..] == Join(Lines(table[1..]), '\n');
      TableBack(table[1..]);
    }
  }

  /** A cell as a spreadsheet shall see it: text that would start a formula is led by an apostrophe. */
  ghost predicate SafeCell(value: string, cell: string) {
    if value != "" && (value[0] == '=' || value[0] == '+' || value[0] == '-' || value[0] == '@' || value[0] == '\t'
                       || value[0] == '\r')
    then cell == ['\''] + value else cell == value
  }

  /** The value of row `i`, column `j`, where row 0 is the header and a missing value prints as `undefined`. */
  ghost function CellValue(rows: seq<map<string, string>>, headers: seq<string>, i: nat, j: nat): string
    requires i <= |rows| && j < |headers|
  {
    if i == 0 then headers[j] else if headers[j] in rows[i - 1] then rows[i - 1][headers[j]] else "undefined"
  }

  lemma GuardIsSafe(s: string)
    ensures !FormulaStart(Guard(s)) && SafeCell(s, Guard(s))
  {
  }

  lemma GuardedCells(rows: seq<map<string, string>>, headers: seq<string>, i: nat)
    requires i <= |rows|
    ensures var cells := GuardTable(Table(rows, headers))[i];
            && |cells| == |headers|
            && (forall j :: 0 <= j < |headers| ==>
                  SafeCell(CellValue(rows, headers, i, j), cells[j]) && !FormulaStart(cells[j]))
  {
    hide Guard, FormulaStart, SafeCell;
    var cells := GuardTable(Table(rows, headers))[i];
    if i > 0 {
      assert Table(rows, headers)[(i - 1) + 1] == Values(rows[i - 1], headers);
    }
    forall j | 0 <= j < |headers|
      ensures SafeCell(CellValue(rows, headers, i, j), cells[j]) && !FormulaStart(cells[j])
    {
      GuardIsSafe(CellValue(rows, headers, i, j));
    }
  }

  /**
   For every table with a header, parsing the printed text gives back the header and every record, field by field,
   guarded and nothing else, and no recovered field starts like a formula.
  */
  lemma RoundTrip(rows: seq<map<string, string>>, headers: seq<string>)
    requires headers != []
    ensures Parse(ToCsv(rows, headers)).Some?
    ensures var parsed := Parse(ToCsv(rows, headers)).value;
            && |parsed| == |rows| + 1
            && forall i :: 0 <= i <= |rows| ==>
                 && |parsed[i]| == |headers|
                 && forall j :: 0 <= j < |headers| ==>
                      SafeCell(CellValue(rows, headers, i, j), parsed[i][j]) && !FormulaStart(parsed[i][j])
  {
    var table := Table(rows, headers);
    forall i | 0 <= i < |table| ensures table[i] != [] {
      GuardedCells(rows, headers, i);
    }
    TableBack(table);
    forall i | 0 <= i <= |rows|
      ensures var cells := GuardTable(table)[i];
              && |cells| == |headers|
              && forall j :: 0 <= j < |headers| ==>
                   SafeCell(CellValue(rows, headers, i, j), cells[j]) && !FormulaStart(cells[j])
    {
      GuardedCells(rows, headers, i);
    }
  }

  /** The guard loses exactly one distinction: a formula and the same text with an apostrophe already in front. */
  lemma GuardCollidesIff(s: string, t: string)
    ensures Guard(s) == Guard(t) <==> s == t || (FormulaStart(s) && t == "'" + s) || (FormulaStart(t) && s == "'" + t)
  {
    if FormulaStart(s) && FormulaStart(t) && "'" + s == "'" + t {
      assert ("'" + s)[1..] == s && ("'" + t)[1..] == t;
    }
  }
}
