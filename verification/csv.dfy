/**
 * Reading a published spreadsheet's CSV text: the document is cut into
 * lines at '\n', the header line is dropped, blank lines are skipped, and
 * each remaining line is cut into fields either at every comma or only at
 * the commas that an even number of '"' characters follow up to the end of
 * the line (the regular expression `/,(?=(?:(?:[^"]*"){2})*[^"]*$)/`).
 * Quoted fields may therefore hold commas, but `""` is not read as an
 * escaped quote. Fields are cleaned by removing every '"' and trimming.
 */
module Csv {
  import opened Wrappers
  import opened Seqs
  import opened Text

  /** Where a line is cut. */
  datatype SplitRule = OnChar(sep: char) | OnUnquotedComma

  function SepChar(rule: SplitRule): char {
    match rule
    case OnChar(c) => c
    case OnUnquotedComma => ','
  }

  /** Whether the first character of `rest`, a non-empty suffix of the line, is a cut point. */
  predicate SplitsAt(rule: SplitRule, rest: string)
    requires |rest| > 0
  {
    match rule
    case OnChar(c) => rest[0] == c
    case OnUnquotedComma => rest[0] == ',' && CountChar(rest[1..], '"') % 2 == 0
  }

  /** `s.split(separator)`: the pieces between the cut points, in order. */
  function Split(s: string, rule: SplitRule): (fields: seq<string>)
    ensures |fields| >= 1
    decreases |s|
  {
    if |s| == 0 then [""]
    else
      var rest := Split(s[1..], rule);
      if SplitsAt(rule, s) then [""] + rest
      else [[s[0]] + rest[0]] + rest[1..]
  }

  /** `parts.join(c)`. */
  function Join(parts: seq<string>, c: char): (s: string)
    requires |parts| >= 1
    decreases |parts|
  {
    if |parts| == 1 then parts[0] else parts[0] + [c] + Join(parts[1..], c)
  }

  lemma JoinPrependFirst(x: string, parts: seq<string>, c: char)
    requires |parts| >= 1
    ensures Join([x + parts[0]] + parts[1..], c) == x + Join(parts, c)
  {
    if |parts| > 1 {
      assert ([x + parts[0]] + parts[1..])[1..] == parts[1..];
    }
  }

  /** Joining the fields with the separator character gives back the line exactly. */
  lemma {:induction false} JoinSplit(s: string, rule: SplitRule)
    ensures Join(Split(s, rule), SepChar(rule)) == s
    decreases |s|
  {
    if |s| > 0 {
      var rest := Split(s[1..], rule);
      JoinSplit(s[1..], rule);
      if SplitsAt(rule, s) {
        assert ([""] + rest)[1..] == rest;
        assert s == [s[0]] + s[1..];
      } else {
        JoinPrependFirst([s[0]], rest, SepChar(rule));
        assert s == [s[0]] + s[1..];
      }
    }
  }

  /** Cutting at a character gives one more piece than there are occurrences, and no piece holds it. */
  lemma {:induction false} SplitOnCharCount(s: string, c: char)
    ensures |Split(s, OnChar(c))| == CountChar(s, c) + 1
    ensures forall i :: 0 <= i < |Split(s, OnChar(c))| ==> c !in Split(s, OnChar(c))[i]
    decreases |s|
  {
    if |s| > 0 {
      SplitOnCharCount(s[1..], c);
      var rest := Split(s[1..], OnChar(c));
      if s[0] != c {
        var r := Split(s, OnChar(c));
        assert r == [[s[0]] + rest[0]] + rest[1..];
        forall i | 0 <= i < |r| ensures c !in r[i] {
          if i > 0 { assert r[i] == rest[i]; }
        }
      }
    }
  }

  lemma CountCharAppend(a: string, b: string, c: char)
    ensures CountChar(a + b, c) == CountChar(a, c) + CountChar(b, c)
  {
    if |a| > 0 {
      assert (a + b)[1..] == a[1..] + b;
      CountCharAppend(a[1..], b, c);
    } else {
      assert a + b == b;
    }
  }

  /** A cut point in the tail stays a cut point once a prefix is put in front of it. */
  lemma {:induction false} SplitAppend(x: string, tail: string, rule: SplitRule)
    requires forall i :: 0 <= i < |x| ==> !SplitsAt(rule, x[i..] + tail)
    ensures Split(x + tail, rule) == [x + Split(tail, rule)[0]] + Split(tail, rule)[1..]
    decreases |x|
  {
    if |x| > 0 {
      var s := x + tail;
      assert s[1..] == x[1..] + tail;
      forall i | 0 <= i < |x| - 1 ensures !SplitsAt(rule, x[1..][i..] + tail) {
        assert x[1..][i..] == x[i + 1..];
      }
      SplitAppend(x[1..], tail, rule);
      var t := Split(tail, rule);
      var rest := Split(s[1..], rule);
      assert rest == [x[1..] + t[0]] + t[1..];
      assert x[0..] == x;
      assert !SplitsAt(rule, s);
      assert Split(s, rule) == [[s[0]] + rest[0]] + rest[1..];
      assert [s[0]] + rest[0] == x + t[0];
    } else {
      var t := Split(tail, rule);
      assert x + tail == tail;
      assert x + t[0] == t[0];
      assert [t[0]] + t[1..] == t;
    }
  }

  /** Cutting the join of pieces that do not hold the separator gives the pieces back. */
  lemma {:induction false} SplitJoinOnChar(parts: seq<string>, c: char)
    requires |parts| >= 1
    requires forall i :: 0 <= i < |parts| ==> c !in parts[i]
    ensures Split(Join(parts, c), OnChar(c)) == parts
    decreases |parts|
  {
    var x := parts[0];
    forall i | 0 <= i < |x| ensures !SplitsAt(OnChar(c), x[i..] + []) {
      assert x[i] != c;
    }
    if |parts| == 1 {
      SplitAppend(x, [], OnChar(c));
      assert x + [] == x;
    } else {
      var rest := Join(parts[1..], c);
      SplitJoinOnChar(parts[1..], c);
      var tail := [c] + rest;
      forall i | 0 <= i < |x| ensures !SplitsAt(OnChar(c), x[i..] + tail) {
        assert x[i] != c;
      }
      SplitAppend(x, tail, OnChar(c));
      assert tail[1..] == rest;
      assert SplitsAt(OnChar(c), tail);
      assert Split(tail, OnChar(c)) == [""] + Split(rest, OnChar(c));
      assert Join(parts, c) == x + tail;
      assert x + "" == x;
      assert parts == [x] + parts[1..];
    }
  }

  /** A line without any '"' is cut at every comma by the quote-aware rule. */
  lemma {:induction false} QuoteFreeSplit(s: string)
    requires '"' !in s
    ensures Split(s, OnUnquotedComma) == Split(s, OnChar(','))
    decreases |s|
  {
    if |s| > 0 {
      assert '"' !in s[1..];
      QuoteFreeSplit(s[1..]);
    }
  }

  /** `"cell"`: a cell wrapped in quotes. */
  function Quote(cell: string): string {
    "\"" + cell + "\""
  }

  /** `row.map(cell => `"${cell}"`)`. */
  function QuoteAll(cells: seq<string>): (quoted: seq<string>)
    ensures |quoted| == |cells|
    ensures forall i :: 0 <= i < |cells| ==> quoted[i] == Quote(cells[i])
  {
    seq(|cells|, i requires 0 <= i < |cells| => Quote(cells[i]))
  }

  /** One CSV row of quoted cells: `row.map(cell => `"${cell}"`).join(",")`. */
  function QuotedRow(cells: seq<string>): string
    requires |cells| >= 1
  {
    Join(QuoteAll(cells), ',')
  }

  lemma QuotedRowCons(cells: seq<string>)
    requires |cells| >= 2
    ensures QuotedRow(cells) == Quote(cells[0]) + [','] + QuotedRow(cells[1..])
  {
    assert QuoteAll(cells)[1..] == QuoteAll(cells[1..]);
  }

  lemma {:induction false} QuotedRowQuotes(cells: seq<string>)
    requires |cells| >= 1
    requires forall i :: 0 <= i < |cells| ==> '"' !in cells[i]
    ensures CountChar(QuotedRow(cells), '"') == 2 * |cells|
    decreases |cells|
  {
    var q := Quote(cells[0]);
    CountCharAppend("\"" + cells[0], "\"", '"');
    CountCharAppend("\"", cells[0], '"');
    assert CountChar(q, '"') == 2;
    if |cells| > 1 {
      QuotedRowQuotes(cells[1..]);
      QuotedRowCons(cells);
      CountCharAppend(q + [','], QuotedRow(cells[1..]), '"');
      CountCharAppend(q, [','], '"');
    }
  }

  /** Putting an odd number of quotes in front of an even number gives an odd number. */
  lemma OddQuotesBefore(inner: string, tail: string)
    requires '"' !in inner
    requires CountChar(tail, '"') % 2 == 0
    ensures CountChar(inner + "\"" + tail, '"') % 2 == 1
  {
    CountCharAppend(inner + "\"", tail, '"');
    CountCharAppend(inner, "\"", '"');
    assert CountChar("\"", '"') == 1;
    var k := CountChar(tail, '"') / 2;
    assert CountChar(inner + "\"" + tail, '"') == 2 * k + 1;
  }

  /** A comma inside a quoted, quote-free cell has an odd number of quotes after it. */
  lemma NoCutAt(cell: string, tail: string, i: nat)
    requires '"' !in cell
    requires CountChar(tail, '"') % 2 == 0
    requires i < |Quote(cell)|
    ensures !SplitsAt(OnUnquotedComma, Quote(cell)[i..] + tail)
  {
    var q := Quote(cell);
    var rest := q[i..] + tail;
    if i == 0 || i == |q| - 1 {
      assert q[i] == '"';
      assert rest[0] == q[i];
    } else {
      var inner := cell[i..];
      assert q[i + 1..] == inner + "\"";
      assert rest[1..] == inner + "\"" + tail;
      OddQuotesBefore(inner, tail);
    }
  }

  /** No comma of a quoted, quote-free cell is a cut point when an even number of quotes follow the cell. */
  lemma NoCutInsideQuotedCell(cell: string, tail: string)
    requires '"' !in cell
    requires CountChar(tail, '"') % 2 == 0
    ensures forall i :: 0 <= i < |Quote(cell)| ==> !SplitsAt(OnUnquotedComma, Quote(cell)[i..] + tail)
  {
    forall i | 0 <= i < |Quote(cell)| ensures !SplitsAt(OnUnquotedComma, Quote(cell)[i..] + tail) {
      NoCutAt(cell, tail, i);
    }
  }

  /** The comma in front of a row of quoted cells is a cut point. */
  lemma CutBeforeQuotedRow(cells: seq<string>)
    requires |cells| >= 1
    requires forall i :: 0 <= i < |cells| ==> '"' !in cells[i]
    ensures CountChar([','] + QuotedRow(cells), '"') % 2 == 0
    ensures Split([','] + QuotedRow(cells), OnUnquotedComma) == [""] + Split(QuotedRow(cells), OnUnquotedComma)
  {
    QuotedRowQuotes(cells);
    CutBeforeEvenQuotes(QuotedRow(cells));
  }

  /** A comma followed by an even number of quotes is a cut point. */
  lemma CutBeforeEvenQuotes(rest: string)
    requires CountChar(rest, '"') % 2 == 0
    ensures CountChar([','] + rest, '"') % 2 == 0
    ensures Split([','] + rest, OnUnquotedComma) == [""] + Split(rest, OnUnquotedComma)
  {
    var tail := [','] + rest;
    CountCharAppend([','], rest, '"');
    assert tail[1..] == rest;
    assert SplitsAt(OnUnquotedComma, tail);
  }

  /** A quoted cell in front of a cut point becomes a field of its own. */
  lemma PrependQuotedCell(cell: string, tail: string, fields: seq<string>)
    requires '"' !in cell
    requires CountChar(tail, '"') % 2 == 0
    requires Split(tail, OnUnquotedComma) == [""] + fields
    ensures Split(Quote(cell) + tail, OnUnquotedComma) == [Quote(cell)] + fields
  {
    NoCutInsideQuotedCell(cell, tail);
    SplitAppend(Quote(cell), tail, OnUnquotedComma);
    assert Quote(cell) + "" == Quote(cell);
  }

  /**
   * The quote-aware rule cuts a row of quoted, quote-free cells exactly
   * between the cells: a comma inside a cell has an odd number of quotes
   * after it, a comma between cells an even number.
   */
  lemma {:induction false} SplitQuotedRow(cells: seq<string>)
    requires |cells| >= 1
    requires forall i :: 0 <= i < |cells| ==> '"' !in cells[i]
    ensures Split(QuotedRow(cells), OnUnquotedComma) == QuoteAll(cells)
    decreases |cells|
  {
    if |cells| == 1 {
      var q := Quote(cells[0]);
      assert QuoteAll(cells) == [q];
      assert QuotedRow(cells) == q + [];
      PrependQuotedCell(cells[0], [], []);
    } else {
      SplitQuotedRow(cells[1..]);
      SplitQuotedRowStep(cells);
    }
  }

  /** The cell in front of a row that splits into its quoted cells becomes the first field. */
  lemma SplitQuotedRowStep(cells: seq<string>)
    requires |cells| >= 2
    requires forall i :: 0 <= i < |cells| ==> '"' !in cells[i]
    requires Split(QuotedRow(cells[1..]), OnUnquotedComma) == QuoteAll(cells[1..])
    ensures Split(QuotedRow(cells), OnUnquotedComma) == QuoteAll(cells)
  {
    var q := Quote(cells[0]);
    var tail := [','] + QuotedRow(cells[1..]);
    CutBeforeQuotedRow(cells[1..]);
    QuotedRowCons(cells);
    assert QuotedRow(cells) == q + tail;
    PrependQuotedCell(cells[0], tail, QuoteAll(cells[1..]));
    assert QuoteAll(cells) == [q] + QuoteAll(cells[1..]);
  }

  predicate NotQuote(c: char) {
    c != '"'
  }

  /** Exactly the quote characters are dropped. */
  lemma {:induction false} FilterNotQuoteLength(s: string)
    ensures |Filter(NotQuote, s)| == |s| - CountChar(s, '"')
    decreases |s|
  {
    if |s| > 0 {
      FilterNotQuoteLength(s[1..]);
    }
  }

  /** `field.replace(/"/g, '')`. */
  function RemoveQuotes(field: string): (r: string)
    ensures '"' !in r
  {
    var r := Filter(NotQuote, field);
    assert forall i :: 0 <= i < |r| ==> NotQuote(r[i]);
    r
  }

  /**
   * Removing quotes keeps the other characters of the field, in order, and
   * only they: a quote-free subsequence as long as the field without its
   * quotes can only be that one.
   */
  lemma RemoveQuotesKeeps(field: string)
    ensures IsSubseq(RemoveQuotes(field), field)
    ensures |RemoveQuotes(field)| == |field| - CountChar(field, '"')
  {
    FilterNotQuoteLength(field);
  }

  /** A field without quotes loses nothing to `RemoveQuotes`. */
  lemma RemoveQuotesNoOp(field: string)
    requires '"' !in field
    ensures RemoveQuotes(field) == field
  {
    FilterAll(NotQuote, field);
  }

  /** `field.replace(/"/g, '').trim()`: no quote and no surrounding whitespace is left. */
  function Clean(field: string): (r: string)
    ensures '"' !in r
    ensures NoOuterSpace(r)
  {
    TrimKeepsAbsent(RemoveQuotes(field), '"');
    Trim(RemoveQuotes(field))
  }

  /**
   * Cleaning keeps the quote-free field whole except for the whitespace runs
   * cut off at its two ends.
   */
  lemma CleanIsTrimmed(field: string)
    ensures var u := RemoveQuotes(field);
            var r := Clean(field);
            exists i :: 0 <= i && i + |r| <= |u| && r == u[i..i + |r|]
                        && AllSpace(u[..i]) && AllSpace(u[i + |r|..])
  {
    assert Clean(field) == Trim(RemoveQuotes(field));
  }

  /** A field without quotes or surrounding whitespace is its own cleaning. */
  lemma CleanNoOp(field: string)
    requires '"' !in field && NoOuterSpace(field)
    ensures Clean(field) == field
  {
    RemoveQuotesNoOp(field);
    TrimNoOp(field);
  }

  /** Removing the quotes of a quoted cell and trimming it recovers the cell. */
  lemma CleanQuote(cell: string)
    requires '"' !in cell && NoOuterSpace(cell)
    ensures Clean(Quote(cell)) == cell
  {
    assert Quote(cell) == ("\"" + cell) + "\"";
    FilterAppend(NotQuote, "\"" + cell, "\"");
    FilterAppend(NotQuote, "\"", cell);
    FilterAll(NotQuote, cell);
    assert RemoveQuotes(Quote(cell)) == cell;
    TrimNoOp(cell);
  }

  /** Joining adds no character other than the separator. */
  lemma {:induction false} JoinAvoids(parts: seq<string>, c: char, x: char)
    requires |parts| >= 1 && x != c
    requires forall i :: 0 <= i < |parts| ==> x !in parts[i]
    ensures x !in Join(parts, c)
    decreases |parts|
  {
    if |parts| > 1 {
      JoinAvoids(parts[1..], c, x);
    }
  }

  /**
   * A line of cells holding no comma, no quote and no surrounding whitespace
   * is cut back into exactly those cells by either rule, and removing quotes
   * or cleaning leaves each cell as it is.
   */
  lemma PlainRowCells(cells: seq<string>)
    requires |cells| >= 1
    requires forall i :: 0 <= i < |cells| ==> ',' !in cells[i] && '"' !in cells[i] && NoOuterSpace(cells[i])
    ensures Split(Join(cells, ','), OnUnquotedComma) == cells
    ensures Split(Join(cells, ','), OnChar(',')) == cells
    ensures forall i :: 0 <= i < |cells| ==> RemoveQuotes(cells[i]) == cells[i] && Clean(cells[i]) == cells[i]
  {
    JoinAvoids(cells, ',', '"');
    QuoteFreeSplit(Join(cells, ','));
    SplitJoinOnChar(cells, ',');
    forall i | 0 <= i < |cells| ensures RemoveQuotes(cells[i]) == cells[i] && Clean(cells[i]) == cells[i] {
      CleanNoOp(cells[i]);
    }
  }

  /** `values[k]`, or `undefined` past the end. */
  function Field(values: seq<string>, k: nat): (f: Option<string>)
    ensures f.Some? <==> k < |values|
  {
    if k < |values| then Some(values[k]) else None
  }

  /** `values[k]?.replace(/"/g, '').trim() || fallback`. */
  function CleanFieldOr(values: seq<string>, k: nat, fallback: string): (r: string)
    ensures r == fallback || (k < |values| && r == Clean(values[k]) && r != "")
    ensures k < |values| && Clean(values[k]) != "" ==> r == Clean(values[k])
  {
    match Field(values, k)
    case None => fallback
    case Some(v) => if Clean(v) == "" then fallback else Clean(v)
  }

  /** Column `k` as the quote-aware readers take it: the cleaned cell when there is one and it is not empty, otherwise `fallback`. */
  predicate CleanedOr(values: seq<string>, k: nat, fallback: string, field: string) {
    (k < |values| && Clean(values[k]) != "" ==> field == Clean(values[k]))
    && (k >= |values| || Clean(values[k]) == "" ==> field == fallback)
  }

  /** Column `k` as the call-centre reader takes it: the cell without quotes when there is one and it is not empty, otherwise `fallback`. */
  predicate UnquotedOr(values: seq<string>, k: nat, fallback: string, field: string) {
    (k < |values| && RemoveQuotes(values[k]) != "" ==> field == RemoveQuotes(values[k]))
    && (k >= |values| || RemoveQuotes(values[k]) == "" ==> field == fallback)
  }

  /** `values[k]?.replace(/"/g, '') || fallback`: the variant without trimming. */
  function UntrimmedFieldOr(values: seq<string>, k: nat, fallback: string): (r: string)
    ensures '"' !in fallback ==> '"' !in r
    ensures r == fallback || (k < |values| && r == RemoveQuotes(values[k]) && r != "")
    ensures k < |values| && RemoveQuotes(values[k]) != "" ==> r == RemoveQuotes(values[k])
    ensures k >= |values| || RemoveQuotes(values[k]) == "" ==> r == fallback
  {
    match Field(values, k)
    case None => fallback
    case Some(v) => if RemoveQuotes(v) == "" then fallback else RemoveQuotes(v)
  }

  /**
   * `parseInt(values[k]) || 15`, read from the raw field: NaN (no field, no
   * digits) and zero both give 15; every other value, negative ones too, is kept.
   */
  function DurationField(values: seq<string>, k: nat): (d: int)
    ensures d != 0
    ensures k < |values| && ParseInt(values[k]).Some? && ParseInt(values[k]).value != 0
            ==> d == ParseInt(values[k]).value
    ensures k >= |values| || ParseInt(values[k]).None? || ParseInt(values[k]) == Some(0) ==> d == 15
  {
    match Field(values, k)
    case None => 15
    case Some(v) =>
      match ParseInt(v)
      case None => 15
      case Some(n) => if n == 0 then 15 else n
  }

  /** `text.split('\n')`. */
  function Lines(text: string): (lines: seq<string>)
    ensures |lines| == CountChar(text, '\n') + 1
  {
    SplitOnCharCount(text, '\n');
    Split(text, OnChar('\n'))
  }

  /** A line that `line.trim()` does not reduce to the empty string. */
  predicate IsContentLine(line: string) {
    Trim(line) != ""
  }

  /**
   * `lines.slice(1).filter(line => line.trim() !== '')`: the non-blank lines
   * after the header, in file order; every non-blank line after the header
   * is kept, and the kept and the blank ones together are all of them.
   */
  function DataLines(text: string): (rows: seq<string>)
    ensures forall i :: 0 <= i < |rows| ==> !AllSpace(rows[i])
    ensures IsSubseq(rows, Lines(text)[1..])
    ensures forall i :: 1 <= i < |Lines(text)| && !AllSpace(Lines(text)[i]) ==> Lines(text)[i] in rows
    ensures |rows| + |Filter(AllSpace, Lines(text)[1..])| == |Lines(text)| - 1
  {
    var tail := Lines(text)[1..];
    var rows := Filter(IsContentLine, tail);
    assert forall i :: 0 <= i < |rows| ==> !AllSpace(rows[i]) by {
      forall i | 0 <= i < |rows| ensures !AllSpace(rows[i]) {
        TrimEmptyIffBlank(rows[i]);
      }
    }
    forall i | 1 <= i < |Lines(text)| && !AllSpace(Lines(text)[i]) ensures Lines(text)[i] in rows {
      TrimEmptyIffBlank(Lines(text)[i]);
      assert tail[i - 1] == Lines(text)[i];
    }
    forall x: string ensures AllSpace(x) == !IsContentLine(x) {
      TrimEmptyIffBlank(x);
    }
    FilterPartition(IsContentLine, AllSpace, tail);
    rows
  }

  const EditPath: string := "/edit"
  const ExportSuffix: string := "/export?format=csv"

  predicate NoLineTerminator(s: string) {
    forall i :: 0 <= i < |s| ==> !IsLineTerminator(s[i])
  }

  /**
   * Where `/\/edit.*$/` matches, searching from position `from`: the first
   * "/edit" after which no line terminator follows (`.` stops at one).
   */
  function EditMatchFrom(url: string, from: nat): (m: Option<nat>)
    requires from <= |url|
    ensures m.Some? ==> from <= m.value && OccursAt(url, EditPath, m.value)
                        && NoLineTerminator(url[m.value + |EditPath|..])
    decreases |url| - from
  {
    if from + |EditPath| > |url| then None
    else if OccursAt(url, EditPath, from) && NoLineTerminator(url[from + |EditPath|..]) then Some(from)
    else EditMatchFrom(url, from + 1)
  }

  /**
   * The URL that is fetched: when it includes "/edit", the regular
   * expression match and everything after it is replaced by the CSV export
   * path; otherwise it is used unchanged.
   */
  function FetchUrl(url: string): (fetched: string)
    ensures !Contains(url, EditPath) ==> fetched == url
    ensures fetched == url || exists i :: OccursAt(url, EditPath, i) && fetched == url[..i] + ExportSuffix
  {
    if Contains(url, EditPath) then
      match EditMatchFrom(url, 0)
      case Some(i) => url[..i] + ExportSuffix
      case None => url
    else url
  }

  lemma {:induction false} EditMatchFirst(url: string, from: nat)
    requires from <= |url| && NoLineTerminator(url)
    ensures EditMatchFrom(url, from).None? ==> forall j :: from <= j ==> !OccursAt(url, EditPath, j)
    ensures EditMatchFrom(url, from).Some? ==>
      forall j :: from <= j < EditMatchFrom(url, from).value ==> !OccursAt(url, EditPath, j)
    decreases |url| - from
  {
    if from + |EditPath| <= |url| {
      var rest := url[from + |EditPath|..];
      assert NoLineTerminator(rest) by {
        forall i | 0 <= i < |rest| ensures !IsLineTerminator(rest[i]) {
          assert rest[i] == url[from + |EditPath| + i];
        }
      }
      if !OccursAt(url, EditPath, from) {
        EditMatchFirst(url, from + 1);
      }
    }
  }

  /**
   * For a single-line URL: one that includes "/edit" is cut at its first
   * "/edit" and given the export suffix; any other URL is fetched unchanged.
   */
  lemma FetchUrlRewrite(url: string)
    requires NoLineTerminator(url)
    ensures !Contains(url, EditPath) ==> FetchUrl(url) == url
    ensures Contains(url, EditPath) ==>
      exists i :: OccursAt(url, EditPath, i)
                  && (forall j :: 0 <= j < i ==> !OccursAt(url, EditPath, j))
                  && FetchUrl(url) == url[..i] + ExportSuffix
  {
    EditMatchFirst(url, 0);
    ContainsAt(url, EditPath);
    if Contains(url, EditPath) {
      var k :| OccursAt(url, EditPath, k);
      assert EditMatchFrom(url, 0).Some?;
    }
  }
}
