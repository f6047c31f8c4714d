/** The hand-written CSV reader of the app: it keeps the non-blank lines,
    picks ',' or ';' as delimiter, scans every line character by character
    with a quote toggle, and keeps the data rows as wide as the header row. */
module Csv {
  import opened Text

  /** The reader's result: the header fields and the accepted data rows. */
  datatype Parsed = Parsed(headers: seq<string>, data: seq<seq<string>>)

  /** `text.split('\n').filter(line => line.trim())`: the lines that are not
      blank, in order. */
  function NonBlankLines(text: string): (r: seq<string>) {
    KeepNonBlank(Split(text, '\n'))
  }

  function KeepNonBlank(lines: seq<string>): (r: seq<string>)
    ensures |r| <= |lines|
    ensures forall l :: l in r <==> l in lines && Trim(l) != ""
  {
    if lines == [] then []
    else
      var rest := KeepNonBlank(lines[1..]);
      assert lines == [lines[0]] + lines[1..];
      if Trim(lines[0]) != "" then [lines[0]] + rest else rest
  }

  /** Filtering two runs of lines one after the other is filtering their
      concatenation: kept lines keep their order and multiplicity. */
  lemma {:induction false} KeepNonBlankAppend(a: seq<string>, b: seq<string>)
    ensures KeepNonBlank(a + b) == KeepNonBlank(a) + KeepNonBlank(b)
  {
    if a != [] {
      assert (a + b)[0] == a[0] && (a + b)[1..] == a[1..] + b;
      KeepNonBlankAppend(a[1..], b);
    } else {
      assert a + b == b;
    }
  }

  /** The first kept line is the first non-blank line: every line before it
      is blank. */
  lemma {:induction false} FirstNonBlank(lines: seq<string>, k: nat)
    requires k < |lines| && Trim(lines[k]) != ""
    requires forall j :: 0 <= j < k ==> Trim(lines[j]) == ""
    ensures KeepNonBlank(lines) != [] && KeepNonBlank(lines)[0] == lines[k]
  {
    if k > 0 {
      FirstNonBlank(lines[1..], k - 1);
    }
  }

  /** Every kept line is non-blank and holds no line break; none of the
      non-blank lines of the text is lost. */
  lemma NonBlankLinesSound(text: string)
    ensures forall l :: l in NonBlankLines(text) ==> Trim(l) != "" && '\n' !in l
    ensures forall k :: 0 <= k < |Split(text, '\n')| && Trim(Split(text, '\n')[k]) != ""
              ==> Split(text, '\n')[k] in NonBlankLines(text)
  {
  }

  /** `text.includes(',') ? ',' : ';'` — decided on the whole text. */
  function Delimiter(text: string): (d: char)
    ensures d == ',' <==> (exists k :: 0 <= k < |text| && text[k] == ',')
    ensures d != ',' ==> d == ';'
  {
    if ',' in text then ',' else ';'
  }

  /** `.replace(/^"|"$/g, '')`: one leading and one trailing quote removed. */
  function StripEdgeQuotes(s: string): string {
    var a := if |s| > 0 && s[0] == '"' then s[1..] else s;
    if |a| > 0 && a[|a| - 1] == '"' then a[..|a| - 1] else a
  }

  /** What a completed field becomes: trimmed, then edge quotes stripped. */
  function CleanField(s: string): string {
    StripEdgeQuotes(Trim(s))
  }

  function CleanAll(raw: seq<string>): (r: seq<string>)
    ensures |r| == |raw|
    ensures forall k :: 0 <= k < |r| ==> r[k] == CleanField(raw[k])
  {
    seq(|raw|, k requires 0 <= k < |raw| => CleanField(raw[k]))
  }

  /** Reference reading of a line: the text between delimiters that stand
      outside quotes, with every quote character dropped (a quote only flips
      the in-quotes state). `inQuotes` is the state at the start of `s`. */
  function RawFields(s: string, delim: char, inQuotes: bool): (r: seq<string>)
    ensures |r| >= 1
    decreases |s|
  {
    if s == [] then [""]
    else if s[0] == '"' then RawFields(s[1..], delim, !inQuotes)
    else if s[0] == delim && !inQuotes then [""] + RawFields(s[1..], delim, inQuotes)
    else
      var t := RawFields(s[1..], delim, inQuotes);
      [[s[0]] + t[0]] + t[1..]
  }

  /** The fields `parseLine` returns for `line`. */
  function Fields(line: string, delim: char): seq<string> {
    CleanAll(RawFields(line, delim, false))
  }

  /** The number of delimiters that stand outside quotes. */
  function OutsideDelims(s: string, delim: char, inQuotes: bool): nat
    decreases |s|
  {
    if s == [] then 0
    else if s[0] == '"' then OutsideDelims(s[1..], delim, !inQuotes)
    else if s[0] == delim && !inQuotes then 1 + OutsideDelims(s[1..], delim, inQuotes)
    else OutsideDelims(s[1..], delim, inQuotes)
  }

  /** `s` with every quote character removed. */
  function Unquoted(s: string): (r: string)
    ensures '"' !in r
  {
    if s == [] then ""
    else if s[0] == '"' then Unquoted(s[1..])
    else [s[0]] + Unquoted(s[1..])
  }

  /** A line has one field more than it has delimiters outside quotes. */
  lemma {:induction false} FieldCount(s: string, delim: char, inQuotes: bool)
    ensures |RawFields(s, delim, inQuotes)| == 1 + OutsideDelims(s, delim, inQuotes)
    decreases |s|
  {
    if s != [] {
      if s[0] == '"' {
        FieldCount(s[1..], delim, !inQuotes);
      } else {
        FieldCount(s[1..], delim, inQuotes);
      }
    }
  }

  /** No field ever holds a quote character. */
  lemma {:induction false} NoQuoteInFields(s: string, delim: char, inQuotes: bool)
    ensures forall k :: 0 <= k < |RawFields(s, delim, inQuotes)| ==> '"' !in RawFields(s, delim, inQuotes)[k]
    decreases |s|
  {
    if s != [] {
      if s[0] == '"' {
        NoQuoteInFields(s[1..], delim, !inQuotes);
      } else {
        NoQuoteInFields(s[1..], delim, inQuotes);
        var t := RawFields(s[1..], delim, inQuotes);
        var r := RawFields(s, delim, inQuotes);
        forall k | 0 <= k < |r| ensures '"' !in r[k] {
          if k > 0 {
            if s[0] == delim && !inQuotes {
              assert r[k] == t[k - 1];
            } else {
              assert r[k] == t[k];
            }
          }
        }
      }
    }
  }

  /** Nothing but the quotes is lost: gluing the fields back together with
      the delimiter gives the line without its quote characters, so a
      delimiter inside quotes stays inside its field. */
  lemma {:induction false} JoinFields(s: string, delim: char, inQuotes: bool)
    requires delim != '"'
    ensures Join(RawFields(s, delim, inQuotes), delim) == Unquoted(s)
    decreases |s|
  {
    if s != [] {
      if s[0] == '"' {
        JoinFields(s[1..], delim, !inQuotes);
      } else {
        JoinFields(s[1..], delim, inQuotes);
        var t := RawFields(s[1..], delim, inQuotes);
        if s[0] == delim && !inQuotes {
          assert ([""] + t)[1..] == t;
        } else {
          JoinPrepend(s[0], t, delim);
        }
      }
    }
  }

  /** On a quote-free field the quote stripping does nothing: cleaning is
      trimming. */
  lemma CleanIsTrim(s: string)
    requires '"' !in s
    ensures CleanField(s) == Trim(s)
  {
    assert '"' !in Trim(s);
  }

  /** Every field of a line is trimmed and holds no quote character. */
  lemma FieldsClean(line: string, delim: char)
    ensures forall k :: 0 <= k < |Fields(line, delim)| ==>
              '"' !in Fields(line, delim)[k] && Trimmed(Fields(line, delim)[k])
  {
    var raw := RawFields(line, delim, false);
    NoQuoteInFields(line, delim, false);
    forall k | 0 <= k < |raw|
      ensures '"' !in CleanField(raw[k]) && Trimmed(CleanField(raw[k]))
    {
      CleanIsTrim(raw[k]);
    }
  }

  /** Cleaning one more field appends its cleaned form. */
  lemma CleanAllSnoc(raw: seq<string>, x: string)
    ensures CleanAll(raw + [x]) == CleanAll(raw) + [CleanField(x)]
  {
  }

  /** `parseLine`: scans the line once, toggling `inQuotes` on a quote,
      closing the current field on a delimiter outside quotes, and otherwise
      appending the character to the current field. */
  method ParseLine(line: string, delim: char) returns (row: seq<string>)
    ensures row == Fields(line, delim)
    ensures |row| == 1 + OutsideDelims(line, delim, false)
    ensures forall k :: 0 <= k < |row| ==> '"' !in row[k] && Trimmed(row[k])
  {
    row := [];
    var current := "";
    var inQuotes := false;
    ghost var raw: seq<string> := [];
    var i := 0;
    assert line[0..] == line;
    ghost var all := RawFields(line, delim, false);
    assert current + all[0] == all[0] && all == [all[0]] + all[1..];
    while i < |line|
      invariant 0 <= i <= |line|
      invariant row == CleanAll(raw)
      invariant all == raw + [current + RawFields(line[i..], delim, inQuotes)[0]] + RawFields(line[i..], delim, inQuotes)[1..]
    {
      var ch := line[i];
      ghost var here := RawFields(line[i..], delim, inQuotes);
      assert line[i..][0] == ch && line[i..][1..] == line[i + 1..];
      if ch == '"' {
        inQuotes := !inQuotes;
        assert here == RawFields(line[i + 1..], delim, inQuotes);
      } else if ch == delim && !inQuotes {
        ghost var next := RawFields(line[i + 1..], delim, inQuotes);
        assert here == [""] + next;
        assert current + here[0] == current && here[1..] == next == [next[0]] + next[1..];
        assert all == (raw + [current]) + [next[0]] + next[1..];
        CleanAllSnoc(raw, current);
        row := row + [CleanField(current)];
        raw := raw + [current];
        current := "";
        assert current + next[0] == next[0];
      } else {
        ghost var next := RawFields(line[i + 1..], delim, inQuotes);
        assert here == [[ch] + next[0]] + next[1..];
        assert current + here[0] == (current + [ch]) + next[0];
        current := current + [ch];
      }
      i := i + 1;
    }
    assert line[i..] == [] && current + "" == current;
    CleanAllSnoc(raw, current);
    row := row + [CleanField(current)];
    raw := raw + [current];
    assert RawFields(line, delim, false) == raw;
    FieldCount(line, delim, false);
    FieldsClean(line, delim);
  }

  /** The data rows the reader keeps from the lines after the header: each
      line trimmed, blank ones skipped, and only rows of `width` fields. */
  function DataRows(lines: seq<string>, delim: char, width: nat): (r: seq<seq<string>>)
    ensures |r| <= |lines|
    ensures forall k :: 0 <= k < |r| ==> |r[k]| == width
  {
    if lines == [] then []
    else
      var rest := DataRows(lines[1..], delim, width);
      var line := Trim(lines[0]);
      var row := Fields(line, delim);
      if line == "" || |row| != width then rest
      else [row] + rest
  }

  /** Rows are kept in the order of their lines. */
  lemma {:induction false} DataRowsAppend(a: seq<string>, b: seq<string>, delim: char, width: nat)
    ensures DataRows(a + b, delim, width) == DataRows(a, delim, width) + DataRows(b, delim, width)
  {
    if a != [] {
      assert (a + b)[0] == a[0] && (a + b)[1..] == a[1..] + b;
      DataRowsAppend(a[1..], b, delim, width);
    } else {
      assert a + b == b;
    }
  }

  /** A row is kept exactly when it comes from a non-blank line and has the
      header's width. */
  lemma {:induction false} DataRowsMember(lines: seq<string>, delim: char, width: nat, row: seq<string>)
    ensures row in DataRows(lines, delim, width) <==>
      |row| == width && exists k :: 0 <= k < |lines| && Trim(lines[k]) != "" && Fields(Trim(lines[k]), delim) == row
  {
    if lines != [] {
      DataRowsMember(lines[1..], delim, width, row);
      if exists k :: 0 <= k < |lines| && Trim(lines[k]) != "" && Fields(Trim(lines[k]), delim) == row {
        var k :| 0 <= k < |lines| && Trim(lines[k]) != "" && Fields(Trim(lines[k]), delim) == row;
        if k > 0 {
          assert lines[1..][k - 1] == lines[k];
        }
      }
      if exists k :: 0 <= k < |lines[1..]| && Trim(lines[1..][k]) != "" && Fields(Trim(lines[1..][k]), delim) == row {
        var k :| 0 <= k < |lines[1..]| && Trim(lines[1..][k]) != "" && Fields(Trim(lines[1..][k]), delim) == row;
        assert lines[k + 1] == lines[1..][k];
      }
    }
  }

  /** What `parseCSV` returns for `text`: no headers and no data when every
      line is blank; otherwise the fields of the first non-blank line as
      headers and the data rows of the lines after it. */
  function Reading(text: string): (p: Parsed)
    ensures NonBlankLines(text) == [] ==> p == Parsed([], [])
    ensures NonBlankLines(text) != [] ==> p.headers == Fields(NonBlankLines(text)[0], Delimiter(text))
    ensures NonBlankLines(text) != [] ==> |p.data| <= |NonBlankLines(text)| - 1
    ensures forall k :: 0 <= k < |p.data| ==> |p.data[k]| == |p.headers|
  {
    var lines := NonBlankLines(text);
    if lines == [] then Parsed([], [])
    else
      var headers := Fields(lines[0], Delimiter(text));
      Parsed(headers, DataRows(lines[1..], Delimiter(text), |headers|))
  }

  /** The loop of `parseCSV` over the lines after the header: each trimmed,
      blank ones skipped, rows of the header's width appended to `data`. */
  method CollectRows(lines: seq<string>, delim: char, width: nat) returns (data: seq<seq<string>>)
    ensures data == DataRows(lines, delim, width)
  {
    data := [];
    for i := 0 to |lines|
      invariant data == DataRows(lines[..i], delim, width)
    {
      assert lines[..i + 1] == lines[..i] + [lines[i]];
      DataRowsAppend(lines[..i], [lines[i]], delim, width);
      var line := Trim(lines[i]);
      if line == "" {
        continue;
      }
      var row := ParseLine(line, delim);
      if |row| == width {
        data := data + [row];
      }
    }
    assert lines[..|lines|] == lines;
  }

  /** `parseCSV`. */
  method ParseCsv(text: string) returns (p: Parsed)
    ensures p == Reading(text)
  {
    var lines := NonBlankLines(text);
    if |lines| == 0 {
      return Parsed([], []);
    }
    var delim := Delimiter(text);
    var headers := ParseLine(lines[0], delim);
    var data := CollectRows(lines[1..], delim, |headers|);
    p := Parsed(headers, data);
  }
}
