/**
 * The download button's content computation: for each export format, the
 * text written to the file, its MIME type and the file name
 * `filename.format`. The CSV export takes an array of records: a header
 * line of the first record's keys, then one line per record of its values,
 * a string value quoted with inner quotes doubled.
 *
 * Values are the JSON-like data the pages hand to the button; numbers are
 * integers. Pretty-printed JSON (`JSON.stringify(data, null, 2)`) is a
 * library rendering and stays abstract as `Stringified(value)`.
 */
module Download {
  import opened Wrappers
  import opened Text

  datatype Value =
    | Str(s: string)
    | Num(n: int)
    | Bool(b: bool)
    | Null
    | Arr(items: seq<Value>)
    | Obj(fields: seq<(string, Value)>)

  datatype Format = Pdf | Png | Json | Txt | Csv

  function FormatName(format: Format): string {
    match format
    case Pdf => "pdf"
    case Png => "png"
    case Json => "json"
    case Txt => "txt"
    case Csv => "csv"
  }

  /** What is written to the file: plain text, or the pretty-printed JSON of a value. */
  datatype Content = Text(text: string) | Stringified(value: Value)

  /** A file offered for download; a format with no exporter (only a notice); or an export that threw. */
  datatype Outcome = Downloaded(name: string, content: Content, mimeType: string) | NotImplemented | Failed

  predicate IsDigit(c: char) {
    '0' <= c <= '9'
  }

  predicate AllDigits(s: string) {
    forall i :: 0 <= i < |s| ==> IsDigit(s[i])
  }

  /** The number a string of decimal digits denotes, most significant digit first. */
  function DigitsValue(s: string): nat
    requires AllDigits(s)
  {
    if s == [] then 0 else 10 * DigitsValue(s[..|s| - 1]) + (s[|s| - 1] as int - '0' as int)
  }

  /** Decimal digits of a natural number, with no leading zero. */
  function NatToString(n: nat): (r: string)
    ensures |r| > 0 && AllDigits(r)
    ensures r[0] == '0' <==> n == 0
  {
    var d := ['0' + (n % 10) as char];
    if n < 10 then d else NatToString(n / 10) + d
  }

  /** The digits read back give the number they were written from. */
  lemma {:induction false} NatToStringValue(n: nat)
    ensures DigitsValue(NatToString(n)) == n
  {
    var s := NatToString(n);
    if n >= 10 {
      NatToStringValue(n / 10);
      assert s == NatToString(n / 10) + ['0' + (n % 10) as char];
      assert s[..|s| - 1] == NatToString(n / 10);
    }
  }

  /** `String(n)` for an integer. */
  function IntToString(n: int): (r: string)
    ensures |r| > 0
    ensures forall i :: 0 <= i < |r| ==> IsDigit(r[i]) || r[i] == '-'
  {
    if n < 0 then "-" + NatToString(-n) else NatToString(n)
  }

  /** Reading a decimal integer back: an optional minus sign, then at least one digit. */
  function ParseInt(s: string): Option<int> {
    if |s| > 1 && s[0] == '-' && AllDigits(s[1..]) then Some(-(DigitsValue(s[1..]) as int))
    else if |s| > 0 && AllDigits(s) then Some(DigitsValue(s))
    else None
  }

  /** An integer's text reads back as the integer; it starts with a minus sign exactly when negative. */
  lemma IntToStringValue(n: int)
    ensures ParseInt(IntToString(n)) == Some(n)
    ensures IntToString(n)[0] == '-' <==> n < 0
  {
    if n < 0 {
      assert IntToString(n)[1..] == NatToString(-n);
      NatToStringValue(-n);
    } else {
      NatToStringValue(n);
    }
  }

  /** The string JavaScript makes of a value when it joins it into text. */
  function AsText(v: Value): string
    decreases v
  {
    match v
    case Str(s) => s
    case Num(n) => IntToString(n)
    case Bool(b) => if b then "true" else "false"
    case Null => "null"
    case Arr(items) => Join(seq(|items|, i requires 0 <= i < |items| => if items[i].Null? then "" else AsText(items[i])), ",")
    case Obj(_) => "[object Object]"
  }

  /** `val.replace(/"/g, '""')`: every double quote doubled. */
  function Escape(s: string): (r: string)
    ensures |r| >= |s|
  {
    if s == [] then []
    else (if s[0] == '"' then "\"\"" else [s[0]]) + Escape(s[1..])
  }

  /**
   * How a CSV reader takes the inside of a quoted field (section 2, rule 7
   * of RFC 4180): a doubled quote stands for one quote, and a quote that is
   * not doubled is malformed.
   */
  function ReadQuoted(t: string): Option<string>
    decreases |t|
  {
    if t == [] then Some([])
    else if t[0] != '"' then
      match ReadQuoted(t[1..])
      case None => None
      case Some(rest) => Some([t[0]] + rest)
    else if |t| >= 2 && t[1] == '"' then
      match ReadQuoted(t[2..])
      case None => None
      case Some(rest) => Some("\"" + rest)
    else None
  }

  /** Reading past escaped text gives that text back, followed by whatever the rest reads as. */
  lemma {:induction false} ReadQuotedAfterEscape(s: string, t: string)
    ensures ReadQuoted(Escape(s) + t) ==
      match ReadQuoted(t)
      case None => None
      case Some(rest) => Some(s + rest)
  {
    if s != [] {
      ReadQuotedAfterEscape(s[1..], t);
      var e := Escape(s) + t;
      var inner := ReadQuoted(Escape(s[1..]) + t);
      if s[0] == '"' {
        assert e == "\"\"" + (Escape(s[1..]) + t);
        assert e[0] == '"' && e[1] == '"' && e[2..] == Escape(s[1..]) + t;
        assert ReadQuoted(e) == if inner.None? then None else Some("\"" + inner.value);
      } else {
        assert e == [s[0]] + (Escape(s[1..]) + t);
        assert e[0] == s[0] && e[1..] == Escape(s[1..]) + t;
        assert ReadQuoted(e) == if inner.None? then None else Some([s[0]] + inner.value);
      }
      if ReadQuoted(t).Some? {
        var rest := ReadQuoted(t).value;
        assert s + rest == [s[0]] + (s[1..] + rest);
      }
    } else {
      assert Escape(s) + t == t;
      if ReadQuoted(t).Some? {
        assert s + ReadQuoted(t).value == ReadQuoted(t).value;
      }
    }
  }

  /** Escaping loses nothing and leaves no quote undoubled: a strict reader recovers the original text. */
  lemma ReadQuotedEscape(s: string)
    ensures ReadQuoted(Escape(s)) == Some(s)
  {
    ReadQuotedAfterEscape(s, []);
    assert Escape(s) + [] == Escape(s);
    assert s + [] == s;
  }

  /** A quote left single, wherever it stands after escaped text, makes the field unreadable. */
  lemma LoneQuoteRejected(s: string, t: string)
    requires t == [] || t[0] != '"'
    ensures ReadQuoted(Escape(s) + "\"" + t) == None
  {
    ReadQuotedAfterEscape(s, "\"" + t);
    assert Escape(s) + "\"" + t == Escape(s) + ("\"" + t);
  }

  /** One CSV cell: a string quoted and escaped, `null` empty (as `join` renders it), anything else as its text. */
  function Cell(v: Value): string {
    if v.Str? then "\"" + Escape(v.s) + "\""
    else if v.Null? then ""
    else AsText(v)
  }

  /** A string cell is one quoted field that a strict reader takes back as the string. */
  lemma StringCellRoundTrip(s: string)
    ensures |Cell(Str(s))| >= 2
    ensures Cell(Str(s))[0] == '"' && Cell(Str(s))[|Cell(Str(s))| - 1] == '"'
    ensures ReadQuoted(Cell(Str(s))[1..|Cell(Str(s))| - 1]) == Some(s)
  {
    var c := Cell(Str(s));
    assert c[1..|c| - 1] == Escape(s);
    ReadQuotedEscape(s);
  }

  /** Numbers, booleans and `null` are written bare: a number as digits and a minus sign, never quoted. */
  lemma ScalarCellsUnquoted(n: int, b: bool)
    ensures Cell(Num(n)) == IntToString(n)
    ensures forall i :: 0 <= i < |Cell(Num(n))| ==> Cell(Num(n))[i] != '"'
    ensures Cell(Bool(b)) == if b then "true" else "false"
    ensures Cell(Null) == ""
  {
  }

  /** `Object.keys`: field names; an array's or a string's positions; nothing for a number or boolean. */
  function Keys(v: Value): seq<string> {
    match v
    case Obj(fields) => seq(|fields|, i requires 0 <= i < |fields| => fields[i].0)
    case Arr(items) => seq(|items|, i requires 0 <= i < |items| => NatToString(i))
    case Str(s) => seq(|s|, i requires 0 <= i < |s| => NatToString(i))
    case _ => []
  }

  /** `Object.values`: field values; an array's items; a string's characters; nothing for a number or boolean. */
  function Values(v: Value): seq<Value> {
    match v
    case Obj(fields) => seq(|fields|, i requires 0 <= i < |fields| => fields[i].1)
    case Arr(items) => items
    case Str(s) => seq(|s|, i requires 0 <= i < |s| => Str([s[i]]))
    case _ => []
  }

  /** The header line: the first record's keys, unescaped, separated by commas. */
  function Header(first: Value): string {
    Join(Keys(first), ",")
  }

  /** One record's line: its own values as cells, separated by commas. */
  function Row(item: Value): string {
    Join(seq(|Values(item)|, i requires 0 <= i < |Values(item)| => Cell(Values(item)[i])), ",")
  }

  function Rows(items: seq<Value>): (r: seq<string>)
    ensures |r| == |items|
    ensures forall i :: 0 <= i < |items| ==> r[i] == Row(items[i])
  {
    if items == [] then [] else [Row(items[0])] + Rows(items[1..])
  }

  /** Whether some record is `null` (which `Object.keys`/`Object.values` reject by throwing). */
  predicate HasNull(items: seq<Value>) {
    exists i :: 0 <= i < |items| && items[i].Null?
  }

  /**
   * The CSV export: "No data" unless the data is a non-empty array; `None`
   * when a `null` record makes the conversion throw; otherwise the header
   * and the rows, one per line.
   */
  function CsvText(data: Value): Option<string> {
    if !data.Arr? || |data.items| == 0 then Some("No data")
    else if HasNull(data.items) then None
    else Some(Join([Header(data.items[0])] + Rows(data.items), "\n"))
  }

  /** An empty array or any data that is not an array exports as "No data". */
  lemma CsvNoData(data: Value)
    requires !data.Arr? || data.items == []
    ensures CsvText(data) == Some("No data")
  {
  }

  /** The export starts with the header of the first record and then that record's own row. */
  lemma CsvFirstLines(first: Value)
    requires !first.Null?
    ensures CsvText(Arr([first])) == Some(Header(first) + "\n" + Row(first))
  {
    assert !HasNull([first]);
    assert Rows([first]) == [Row(first)];
    var lines := [Header(first)] + Rows([first]);
    assert lines == [Header(first), Row(first)];
    assert lines[1..] == [Row(first)];
    assert Join(lines, "\n") == Header(first) + "\n" + Join([Row(first)], "\n");
  }

  /** Each further record adds exactly one line, its own row, at the end. */
  lemma CsvAppendRecord(items: seq<Value>, item: Value)
    requires items != [] && !HasNull(items) && !item.Null?
    ensures CsvText(Arr(items + [item])).Some?
    ensures CsvText(Arr(items + [item])).value == CsvText(Arr(items)).value + "\n" + Row(item)
  {
    assert !HasNull(items + [item]) by {
      forall i | 0 <= i < |items + [item]| ensures !(items + [item])[i].Null? {
        if i < |items| {
          assert (items + [item])[i] == items[i];
        }
      }
    }
    assert Rows(items + [item]) == Rows(items) + [Row(item)];
    assert [Header(items[0])] + Rows(items + [item]) == ([Header(items[0])] + Rows(items)) + [Row(item)];
    JoinSnoc([Header(items[0])] + Rows(items), Row(item), "\n");
  }

  /** A `null` record makes the CSV export fail. */
  lemma CsvNullFails(items: seq<Value>, i: int)
    requires 0 <= i < |items| && items[i].Null?
    ensures CsvText(Arr(items)) == None
  {
  }

  /** `handleDownload`'s content, MIME type and file name for one format. */
  function Download(data: Value, filename: string, format: Format): (r: Outcome)
    ensures r.Downloaded? ==> r.name == filename + "." + FormatName(format)
    ensures r.NotImplemented? <==> format == Pdf || format == Png
    ensures r.Failed? <==> format == Csv && CsvText(data).None?
    ensures format == Txt && data.Str? ==> r == Downloaded(filename + ".txt", Text(data.s), "text/plain")
  {
    match format
    case Json => Downloaded(filename + "." + FormatName(format), Stringified(data), "application/json")
    case Txt => Downloaded(filename + "." + FormatName(format), if data.Str? then Text(data.s) else Stringified(data), "text/plain")
    case Csv =>
      (match CsvText(data)
       case None => Failed
       case Some(text) => Downloaded(filename + "." + FormatName(format), Text(text), "text/csv"))
    case Pdf => NotImplemented
    case Png => NotImplemented
  }

  /**
   * The button's state: the data and file name it was given, the
   * `isDownloading` flag, the downloads whose 500 ms timer has not yet
   * fired (oldest first), and the files offered so far.
   */
  class DownloadButton {
    const data: Value
    const filename: string
    var isDownloading: bool
    var scheduled: seq<Format>
    var offered: seq<Outcome>

    /** Every file offered is a real file named `filename.format`, never a PDF or PNG. */
    ghost predicate Valid()
      reads this
    {
      forall i :: 0 <= i < |offered| ==>
        offered[i].Downloaded? &&
        exists f :: f != Pdf && f != Png && offered[i].name == filename + "." + FormatName(f)
    }

    constructor(data: Value, filename: string)
      ensures Valid()
      ensures this.data == data && this.filename == filename
      ensures !isDownloading && scheduled == [] && offered == []
    {
      this.data := data;
      this.filename := filename;
      isDownloading := false;
      scheduled := [];
      offered := [];
    }

    /** `handleDownload(format)`: the flag goes up and the export is scheduled. */
    method HandleDownload(format: Format)
      requires Valid()
      modifies this
      ensures Valid()
      ensures isDownloading
      ensures scheduled == old(scheduled) + [format]
      ensures offered == old(offered)
    {
      isDownloading := true;
      scheduled := scheduled + [format];
    }

    /**
     * The oldest export timer fires: the file is offered when the format has
     * an exporter and the conversion does not throw; in every case the flag
     * comes down, even while later exports are still scheduled.
     */
    method Fire() returns (outcome: Outcome)
      requires Valid() && scheduled != []
      modifies this
      ensures Valid()
      ensures outcome == Download(data, filename, old(scheduled)[0])
      ensures offered == old(offered) + (if outcome.Downloaded? then [outcome] else [])
      ensures scheduled == old(scheduled)[1..]
      ensures !isDownloading
    {
      var format := scheduled[0];
      outcome := Download(data, filename, format);
      if outcome.Downloaded? {
        assert format != Pdf && format != Png && outcome.name == filename + "." + FormatName(format);
        offered := offered + [outcome];
      }
      scheduled := scheduled[1..];
      isDownloading := false;
    }
  }
}
