/** Ingestion of the MNIST training set from CSV text.

    The file's contents are the input `text`.  The first line is a header
    and is discarded; each further line is a tag, a comma, and pixel
    values separated by commas.  The first 784 values of a line are read,
    each becomes `true` exactly when it is at least 128, and any further
    values are ignored.  A line with fewer than 784 values or with a value
    that is not a number aborts the whole parse: nothing is returned. */
module Mnist {

  /** Pixels per image (28 × 28). */
  const Pixels: nat := 784
  /** Grey level from which a pixel counts as set. */
  const Threshold: int := 128
  /** Range of a 32-bit `int`. */
  const IntMin: int := -0x8000_0000
  const IntMax: int := 0x7FFF_FFFF

  /** Why a parse is aborted: a line with only `readValues` values, or a
      value the integer conversion rejects (no digits, or outside `int`). */
  datatype ParseError = ShortRow(readValues: nat) | InvalidArgument | OutOfRange

  datatype Result<T> = Ok(value: T) | Err(error: ParseError)

  // ---------------------------------------------------------------------
  // Scanning

  /** The position of the first `c` in `s`, or |s| when there is none. */
  function IndexOf(s: string, c: char): (i: nat)
    ensures i <= |s|
    ensures i < |s| ==> s[i] == c
  {
    if |s| == 0 then 0 else if s[0] == c then 0 else 1 + IndexOf(s[1..], c)
  }

  /** No `c` comes before the position IndexOf finds. */
  lemma {:induction false} IndexOfIsFirst(s: string, c: char)
    ensures forall k :: 0 <= k < IndexOf(s, c) ==> s[k] != c
  {
    if |s| > 0 && s[0] != c {
      IndexOfIsFirst(s[1..], c);
      assert forall k :: 1 <= k <= |s[1..]| ==> s[k] == s[1..][k - 1];
    }
  }

  /** The pieces of `s` between commas: what repeated reads up to the next
      comma return until the end of the text.  An empty text is one empty
      piece. */
  function Split(s: string): (fs: seq<string>)
    decreases |s|
    ensures |fs| >= 1
  {
    var i := IndexOf(s, ',');
    if i == |s| then [s] else [s[..i]] + Split(s[i + 1..])
  }

  /** The pieces joined with a comma between consecutive ones. */
  function Join(fs: seq<string>): string
  {
    if |fs| == 0 then [] else if |fs| == 1 then fs[0] else fs[0] + [','] + Join(fs[1..])
  }

  /** The lines that repeated line reads return: pieces between newlines,
      where a final newline does not start another (empty) line. */
  function Lines(s: string): seq<string>
    decreases |s|
  {
    if s == [] then []
    else
      var i := IndexOf(s, '\n');
      if i == |s| then [s] else [s[..i]] + Lines(s[i + 1..])
  }

  /** Every line followed by a newline. */
  function Terminated(ls: seq<string>): string
  {
    if |ls| == 0 then [] else ls[0] + ['\n'] + Terminated(ls[1..])
  }

  /** What is left after discarding everything up to and including the
      first newline (all of it when there is none). */
  function Body(text: string): (b: string)
    ensures |b| <= |text|
  {
    var i := IndexOf(text, '\n');
    if i == |text| then [] else text[i + 1..]
  }

  // ---------------------------------------------------------------------
  // Integer conversion

  predicate IsSpace(c: char)
  {
    c == ' ' || '\t' <= c <= '\r'
  }

  predicate IsDigit(c: char)
  {
    '0' <= c <= '9'
  }

  /** The text after its leading white space. */
  function SkipSpaces(s: string): (t: string)
    ensures |t| <= |s|
  {
    if |s| > 0 && IsSpace(s[0]) then SkipSpaces(s[1..]) else s
  }

  /** The value of the leading run of digits of `s`, accumulated onto
      `acc` most significant digit first. */
  function LeadingValue(s: string, acc: nat): nat
  {
    if |s| > 0 && IsDigit(s[0]) then LeadingValue(s[1..], acc * 10 + (s[0] as int - '0' as int)) else acc
  }

  /** Decimal string-to-int conversion: leading white space is skipped, one
      optional sign is accepted, then the longest run of digits is the
      number; anything after it is ignored.  No digit is an invalid
      argument and a value outside `int` is out of range. */
  function Stoi(s: string): (r: Result<int>)
    ensures r.Ok? ==> IntMin <= r.value <= IntMax
    ensures r.Err? ==> r.error == InvalidArgument || r.error == OutOfRange
  {
    var t := SkipSpaces(s);
    var signed := |t| > 0 && (t[0] == '-' || t[0] == '+');
    var u := if signed then t[1..] else t;
    if |u| == 0 || !IsDigit(u[0]) then Err(InvalidArgument)
    else
      var m := LeadingValue(u, 0);
      var v: int := if signed && t[0] == '-' then -(m as int) else m;
      if v < IntMin || IntMax < v then Err(OutOfRange) else Ok(v)
  }

  /** The decimal digits of n, most significant first. */
  function Show(n: nat): (s: string)
    ensures |s| > 0 && forall k :: 0 <= k < |s| ==> IsDigit(s[k])
  {
    if n < 10 then ['0' + n as char] else Show(n / 10) + ['0' + (n % 10) as char]
  }

  // ---------------------------------------------------------------------
  // Rows and files

  /** The conversion of every field, in order. */
  function Numbers(fs: seq<string>): (vs: seq<Result<int>>)
    ensures |vs| == |fs|
  {
    seq(|fs|, k requires 0 <= k < |fs| => Stoi(fs[k]))
  }

  /** The first n converted values, thresholded, in order; the first value
      the conversion rejected decides the error. */
  function Convert(vs: seq<Result<int>>, n: nat): (r: Result<seq<bool>>)
    requires n <= |vs|
    ensures r.Ok? <==> forall k :: 0 <= k < n ==> vs[k].Ok?
    ensures r.Ok? ==> |r.value| == n
    ensures r.Ok? ==> forall k :: 0 <= k < n ==> r.value[k] == (vs[k].value >= Threshold)
  {
    if n == 0 then Ok([])
    else
      match Convert(vs, n - 1)
      case Err(e) => Err(e)
      case Ok(bits) =>
        match vs[n - 1]
        case Err(e) => Err(e)
        case Ok(v) => Ok(bits + [v >= Threshold])
  }

  /** The value fields of a line: everything after the label's comma, split
      at commas; a line without a comma has none. */
  function Fields(line: string): seq<string>
  {
    if |line| == 0 then [] else if line[0] == ',' then Split(line[1..]) else Fields(line[1..])
  }

  /** The value fields are the pieces after the first comma. */
  lemma {:induction false} FieldsAfterComma(line: string)
    ensures IndexOf(line, ',') == |line| ==> Fields(line) == []
    ensures IndexOf(line, ',') < |line| ==> Fields(line) == Split(line[IndexOf(line, ',') + 1..])
  {
    if |line| > 0 && line[0] != ',' {
      FieldsAfterComma(line[1..]);
      var i := IndexOf(line[1..], ',');
      if i < |line[1..]| {
        assert line[1..][i + 1..] == line[i + 2..];
      }
    }
  }

  /** At most 784 of the fields are read. */
  function Limit(fs: seq<string>): (n: nat)
    ensures n <= Pixels && n <= |fs|
    ensures n < Pixels ==> n == |fs|
  {
    if |fs| < Pixels then |fs| else Pixels
  }

  /** The value fields of one line: the first 784 thresholded, or why
      they abort the parse. */
  function ParseFields(fs: seq<string>): (r: Result<seq<bool>>)
    ensures r.Ok? ==> |r.value| == Pixels
  {
    match Convert(Numbers(fs), Limit(fs))
    case Err(e) => Err(e)
    case Ok(bits) => if Limit(fs) < Pixels then Err(ShortRow(Limit(fs))) else Ok(bits)
  }

  /** One data line. */
  function ParseRow(line: string): (r: Result<seq<bool>>)
    ensures r.Ok? ==> |r.value| == Pixels
  {
    ParseFields(Fields(line))
  }

  /** All data lines in order; the first line that aborts decides the
      error. */
  function ParseRows(lines: seq<string>): Result<seq<seq<bool>>>
  {
    if |lines| == 0 then Ok([]) else Cons(ParseRow(lines[0]), ParseRows(lines[1..]))
  }

  /** The outcome of one row followed by the outcome of the rows after it. */
  function Cons(row: Result<seq<bool>>, rest: Result<seq<seq<bool>>>): Result<seq<seq<bool>>>
  {
    match row
    case Err(e) => Err(e)
    case Ok(bits) =>
      match rest
      case Err(e) => Err(e)
      case Ok(rows) => Ok([bits] + rows)
  }

  /** The whole file: the header line is discarded, every other line is a
      data line. */
  function ParseCsv(text: string): Result<seq<seq<bool>>>
  {
    ParseRows(Lines(Body(text)))
  }

  /** Rows already read, followed by the outcome for the rest. */
  function Prepend(rows: seq<seq<bool>>, r: Result<seq<seq<bool>>>): Result<seq<seq<bool>>>
  {
    match r
    case Ok(rest) => Ok(rows + rest)
    case Err(e) => Err(e)
  }

  // ---------------------------------------------------------------------
  // The parser

  /** Reads from position `from` up to the next `c` or the end of `s`. */
  method FindFrom(s: string, from: nat, c: char) returns (e: nat)
    requires from <= |s|
    ensures e == from + IndexOf(s[from..], c)
    ensures from <= e <= |s|
  {
    e := from;
    while e < |s| && s[e] != c
      invariant from <= e <= |s|
      invariant forall k :: from <= k < e ==> s[k] != c
    {
      e := e + 1;
    }
    IndexOfIsFirst(s[from..], c);
  }

  /** One read up to the next comma or the end of the line. */
  method GetField(str: string, pos: nat) returns (value: string, next: nat, eof: bool)
    requires pos <= |str|
    ensures next <= |str|
    ensures eof ==> Split(str[pos..]) == [value]
    ensures !eof ==> Split(str[pos..]) == [value] + Split(str[next..])
  {
    var e := FindFrom(str, pos, ',');
    SplitStep(str, pos, e);
    value := str[pos..e];
    eof := e == |str|;
    next := if eof then e else e + 1;
  }

  /** Reads the next field and converts it. */
  method NextValue(str: string, pos: nat, ghost fs: seq<string>, ghost read: nat)
    returns (number: Result<int>, next: nat, eof: bool)
    requires pos <= |str| && read < |fs| && fs[read..] == Split(str[pos..])
    ensures number == Numbers(fs)[read] && next <= |str|
    ensures eof ==> read + 1 == |fs|
    ensures !eof ==> read + 1 < |fs| && fs[read + 1..] == Split(str[next..])
  {
    var value;
    value, next, eof := GetField(str, pos);
    if eof {
      Advance(fs, read, value, []);
    } else {
      Advance(fs, read, value, Split(str[next..]));
    }
    number := Stoi(value);
  }

  /** The value loop of one line: from `start`, values are read up to the
      next comma into a 784-entry buffer until 784 are read or the line
      ends; a value the conversion rejects stops it.  The result holds the
      values read. */
  method ReadValues(str: string, start: nat, atEnd: bool, ghost fs: seq<string>) returns (r: Result<seq<bool>>)
    requires start <= |str|
    requires atEnd ==> fs == []
    requires !atEnd ==> fs == Split(str[start..])
    ensures r == Convert(Numbers(fs), Limit(fs))
  {
    ghost var vs := Numbers(fs);
    var line: seq<bool> := seq(Pixels, _ => false);
    var pos: nat := start;
    var eof := atEnd;
    var readValues: nat := 0;
    while readValues < Pixels && !eof
      invariant readValues <= Pixels && pos <= |str| && |line| == Pixels
      invariant !eof ==> readValues < |fs| && fs[readValues..] == Split(str[pos..])
      invariant eof ==> readValues == |fs|
      invariant forall k :: 0 <= k < readValues ==> vs[k].Ok? && line[k] == (vs[k].value >= Threshold)
    {
      var number, next, last := NextValue(str, pos, fs, readValues);
      pos, eof := next, last;
      if number.Err? {
        ConvertStopsAtError(vs, readValues + 1, Limit(fs));
        return Err(number.error);
      }
      line := line[readValues := number.value >= Threshold];
      readValues := readValues + 1;
    }
    ConvertAllOk(vs, readValues, line);
    return Ok(line[..readValues]);
  }

  /** When the first n values all convert, the conversion holds exactly
      the thresholded values. */
  lemma ConvertAllOk(vs: seq<Result<int>>, n: nat, bits: seq<bool>)
    requires n <= |vs| && n <= |bits|
    requires forall k :: 0 <= k < n ==> vs[k].Ok? && bits[k] == (vs[k].value >= Threshold)
    ensures Convert(vs, n) == Ok(bits[..n])
  {
    assert Convert(vs, n).value == bits[..n];
  }

  /** One data line: the label is skipped up to the first comma, then the
      values are read; fewer than 784 aborts. */
  method ReadRow(str: string) returns (r: Result<seq<bool>>)
    ensures r == ParseRow(str)
  {
    var pos: nat := FindFrom(str, 0, ',');
    assert str[0..] == str;
    var eof := pos == |str|;
    if !eof {
      pos := pos + 1;
    }
    FieldsAfterComma(str);
    var read := ReadValues(str, pos, eof, Fields(str));
    if read.Err? {
      return Err(read.error);
    }
    if |read.value| != Pixels {
      return Err(ShortRow(|read.value|));
    }
    return Ok(read.value);
  }

  /** Taking the head off the unread pieces. */
  lemma Advance(fs: seq<string>, i: nat, value: string, later: seq<string>)
    requires i <= |fs| && fs[i..] == [value] + later
    ensures i < |fs| && fs[i] == value && fs[i + 1..] == later && |fs| == i + 1 + |later|
  {
    assert fs[i] == fs[i..][0];
    assert fs[i + 1..] == fs[i..][1..];
  }

  /** The whole file: the header is skipped, then every line read in turn is
      appended as one entry; any line that aborts aborts the parse and
      nothing is returned. */
  method ParseMnistCsv(text: string) returns (r: Result<seq<seq<bool>>>)
    ensures r == ParseCsv(text)
  {
    var pos: nat := FindFrom(text, 0, '\n');
    assert text[0..] == text;
    if pos < |text| {
      pos := pos + 1;
    }
    assert text[pos..] == Body(text);
    var rows: seq<seq<bool>> := [];
    assert Prepend(rows, ParseRows(Lines(text[pos..]))) == ParseCsv(text) by {
      PrependNothing(ParseRows(Lines(text[pos..])));
    }
    while pos < |text|
      invariant pos <= |text|
      invariant ParseCsv(text) == Prepend(rows, ParseRows(Lines(text[pos..])))
      decreases |text| - pos
    {
      var e := FindFrom(text, pos, '\n');
      LinesStep(text, pos, e);
      var str := text[pos..e];
      pos := if e < |text| then e + 1 else e;
      var row := ReadRow(str);
      RowsStep(str, Lines(text[pos..]));
      PrependStep(rows, row, ParseRows(Lines(text[pos..])));
      if row.Err? {
        return Err(row.error);
      }
      rows := rows + [row.value];
    }
    assert rows + [] == rows;
    return Ok(rows);
  }

  /** No rows read yet: the outcome is that of the rest. */
  lemma PrependNothing(r: Result<seq<seq<bool>>>)
    ensures Prepend([], r) == r
  {
    if r.Ok? {
      assert [] + r.value == r.value;
    }
  }

  /** Reading one more line: an accepted line moves to the rows read, an
      aborted one decides the outcome. */
  lemma PrependStep(rows: seq<seq<bool>>, row: Result<seq<bool>>, rest: Result<seq<seq<bool>>>)
    ensures row.Err? ==> Prepend(rows, Cons(row, rest)) == Err(row.error)
    ensures row.Ok? ==> Prepend(rows, Cons(row, rest)) == Prepend(rows + [row.value], rest)
  {
    if row.Ok? && rest.Ok? {
      assert rows + ([row.value] + rest.value) == rows + [row.value] + rest.value;
    }
  }

  /** The rows of a line followed by more lines. */
  lemma RowsStep(line: string, rest: seq<string>)
    ensures ParseRows([line] + rest) == Cons(ParseRow(line), ParseRows(rest))
  {
    var lines := [line] + rest;
    assert lines[0] == line && lines[1..] == rest;
  }

  /** One read up to the next comma from `pos`: the piece it returns
      heads the pieces from `pos`, and the rest follow the comma. */
  lemma SplitStep(s: string, pos: nat, e: nat)
    requires pos <= e <= |s| && e == pos + IndexOf(s[pos..], ',')
    ensures e == |s| ==> Split(s[pos..]) == [s[pos..e]]
    ensures e < |s| ==> Split(s[pos..]) == [s[pos..e]] + Split(s[e + 1..])
  {
    var t := s[pos..];
    assert t[..e - pos] == s[pos..e];
    if e < |s| {
      assert t[e - pos + 1..] == s[e + 1..];
      assert Split(t) == [t[..e - pos]] + Split(t[e - pos + 1..]);
    } else {
      assert t == s[pos..e];
      assert Split(t) == [t];
    }
  }

  /** One line read from `pos`: the line it returns heads the lines from
      `pos`, and the rest follow the newline. */
  lemma LinesStep(s: string, pos: nat, e: nat)
    requires pos < |s| && pos <= e <= |s| && e == pos + IndexOf(s[pos..], '\n')
    ensures e == |s| ==> Lines(s[pos..]) == [s[pos..e]] && Lines(s[e..]) == []
    ensures e < |s| ==> Lines(s[pos..]) == [s[pos..e]] + Lines(s[e + 1..])
  {
    var t := s[pos..];
    assert t[..e - pos] == s[pos..e];
    if e < |s| {
      assert t[e - pos + 1..] == s[e + 1..];
      assert Lines(t) == [t[..e - pos]] + Lines(t[e - pos + 1..]);
    } else {
      assert t == s[pos..e];
      assert Lines(t) == [t];
    }
  }

  // ---------------------------------------------------------------------
  // Properties

  /** No piece holds a comma. */
  lemma {:induction false} SplitHasNoComma(s: string)
    ensures forall k, m :: 0 <= k < |Split(s)| && 0 <= m < |Split(s)[k]| ==> Split(s)[k][m] != ','
    decreases |s|
  {
    var i := IndexOf(s, ',');
    IndexOfIsFirst(s, ',');
    if i < |s| {
      var rest := Split(s[i + 1..]);
      SplitHasNoComma(s[i + 1..]);
      assert Split(s) == [s[..i]] + rest;
      forall k, m | 0 <= k < |Split(s)| && 0 <= m < |Split(s)[k]|
        ensures Split(s)[k][m] != ','
      {
        if k > 0 {
          assert Split(s)[k] == rest[k - 1];
        }
      }
    }
  }

  /** Once a field fails to convert, reading further fields does not
      change the outcome. */
  lemma {:induction false} ConvertStopsAtError(vs: seq<Result<int>>, k: nat, n: nat)
    requires k <= n <= |vs| && Convert(vs, k).Err?
    ensures Convert(vs, n) == Convert(vs, k)
    decreases n
  {
    if n > k {
      ConvertStopsAtError(vs, k, n - 1);
    }
  }

  /** The error of a rejected row is that of its first value the
      conversion rejects. */
  lemma {:induction false} ConvertReportsFirstError(vs: seq<Result<int>>, n: nat)
    requires n <= |vs| && Convert(vs, n).Err?
    ensures exists k :: 0 <= k < n && vs[k].Err? && Convert(vs, n).error == vs[k].error &&
                         forall m :: 0 <= m < k ==> vs[m].Ok?
  {
    if Convert(vs, n - 1).Err? {
      ConvertReportsFirstError(vs, n - 1);
      var k :| 0 <= k < n - 1 && vs[k].Err? && Convert(vs, n - 1).error == vs[k].error &&
                forall m :: 0 <= m < k ==> vs[m].Ok?;
      assert Convert(vs, n) == Convert(vs, n - 1);
      assert 0 <= k < n && Convert(vs, n).error == vs[k].error;
    } else {
      var k := n - 1;
      assert vs[k].Err? && Convert(vs, n).error == vs[k].error;
      assert forall m :: 0 <= m < k ==> vs[m].Ok?;
    }
  }

  /** Conversion of the first n fields only looks at those fields. */
  lemma {:induction false} ConvertReadsPrefix(vs: seq<Result<int>>, ws: seq<Result<int>>, n: nat)
    requires n <= |vs| && n <= |ws| && vs[..n] == ws[..n]
    ensures Convert(vs, n) == Convert(ws, n)
  {
    if n > 0 {
      assert vs[n - 1] == vs[..n][n - 1] && ws[n - 1] == ws[..n][n - 1];
      assert vs[..n - 1] == vs[..n][..n - 1] && ws[..n - 1] == ws[..n][..n - 1];
      ConvertReadsPrefix(vs, ws, n - 1);
    }
  }

  /** Splitting and joining at commas are inverse: joining the pieces gives
      back the text. */
  lemma {:induction false} JoinSplit(s: string)
    ensures Join(Split(s)) == s
    decreases |s|
  {
    var i := IndexOf(s, ',');
    if i < |s| {
      var rest := Split(s[i + 1..]);
      JoinSplit(s[i + 1..]);
      assert Split(s) == [s[..i]] + rest;
      JoinCons(s[..i], rest);
      assert s == s[..i] + [','] + s[i + 1..];
    }
  }

  /** Joining a piece in front of further pieces puts a comma between. */
  lemma JoinCons(piece: string, rest: seq<string>)
    requires |rest| >= 1
    ensures Join([piece] + rest) == piece + [','] + Join(rest)
  {
    var fs := [piece] + rest;
    assert fs[0] == piece && fs[1..] == rest;
  }

  /** The first comma of `a + [','] + b`, when `a` has none, is right after `a`. */
  lemma IndexAfter(a: string, c: char, b: string)
    requires forall k :: 0 <= k < |a| ==> a[k] != c
    ensures IndexOf(a + [c] + b, c) == |a|
    ensures (a + [c] + b)[..|a|] == a && (a + [c] + b)[|a| + 1..] == b
  {
    var s := a + [c] + b;
    IndexOfIsFirst(s, c);
    assert s[|a|] == c;
    assert forall k :: 0 <= k < |a| ==> s[k] == a[k];
  }

  /** Pieces without commas survive joining and splitting. */
  lemma {:induction false} SplitJoin(fs: seq<string>)
    requires |fs| >= 1
    requires forall k, m :: 0 <= k < |fs| && 0 <= m < |fs[k]| ==> fs[k][m] != ','
    ensures Split(Join(fs)) == fs
  {
    if |fs| == 1 {
      assert IndexOf(fs[0], ',') == |fs[0]|;
    } else {
      IndexAfter(fs[0], ',', Join(fs[1..]));
      SplitJoin(fs[1..]);
      assert fs == [fs[0]] + fs[1..];
    }
  }

  /** Lines without newlines, each terminated, are read back as they were. */
  lemma {:induction false} LinesOfTerminated(ls: seq<string>)
    requires forall k, m :: 0 <= k < |ls| && 0 <= m < |ls[k]| ==> ls[k][m] != '\n'
    ensures Lines(Terminated(ls)) == ls
  {
    if |ls| > 0 {
      IndexAfter(ls[0], '\n', Terminated(ls[1..]));
      LinesOfTerminated(ls[1..]);
      assert ls == [ls[0]] + ls[1..];
    }
  }

  /** The header line is never parsed: two files that differ only in
      their first line parse alike. */
  lemma HeaderDiscarded(header1: string, header2: string, body: string)
    requires forall k :: 0 <= k < |header1| ==> header1[k] != '\n'
    requires forall k :: 0 <= k < |header2| ==> header2[k] != '\n'
    ensures ParseCsv(header1 + ['\n'] + body) == ParseRows(Lines(body))
    ensures ParseCsv(header1 + ['\n'] + body) == ParseCsv(header2 + ['\n'] + body)
  {
    IndexAfter(header1, '\n', body);
    IndexAfter(header2, '\n', body);
  }

  /** The label is never parsed: two lines that differ only before their
      first comma parse alike. */
  lemma LabelSkipped(label1: string, label2: string, values: string)
    requires forall k :: 0 <= k < |label1| ==> label1[k] != ','
    requires forall k :: 0 <= k < |label2| ==> label2[k] != ','
    ensures Fields(label1 + [','] + values) == Split(values)
    ensures ParseRow(label1 + [','] + values) == ParseRow(label2 + [','] + values)
  {
    IndexAfter(label1, ',', values);
    IndexAfter(label2, ',', values);
    FieldsAfterComma(label1 + [','] + values);
    FieldsAfterComma(label2 + [','] + values);
  }

  /** The value fields are accepted exactly when there are at least 784
      of them and the first 784 convert; pixel k is then set exactly when
      value k is at least 128. */
  lemma RowAccepted(fs: seq<string>)
    ensures ParseFields(fs).Ok? <==> |fs| >= Pixels && forall k :: 0 <= k < Pixels ==> Stoi(fs[k]).Ok?
    ensures ParseFields(fs).Ok? ==>
              forall k :: 0 <= k < Pixels ==> ParseFields(fs).value[k] == (Stoi(fs[k]).value >= Threshold)
  {
    assert forall k :: 0 <= k < |fs| ==> Numbers(fs)[k] == Stoi(fs[k]);
  }

  /** Fewer than 784 value fields that all convert abort the parse with
      their count. */
  lemma ShortRowReportsCount(fs: seq<string>)
    requires |fs| < Pixels
    requires forall k :: 0 <= k < |fs| ==> Stoi(fs[k]).Ok?
    ensures ParseFields(fs) == Err(ShortRow(|fs|))
  {
  }

  /** Values after the 784th are never converted: extra fields leave the
      outcome unchanged, even when they are not numbers. */
  lemma ExtraValuesIgnored(fs: seq<string>, extra: seq<string>)
    requires |fs| >= Pixels
    ensures ParseFields(fs + extra) == ParseFields(fs)
  {
    assert Numbers(fs + extra)[..Pixels] == Numbers(fs)[..Pixels];
    ConvertReadsPrefix(Numbers(fs + extra), Numbers(fs), Pixels);
  }

  /** A comma found in a prefix is found at the same place in the whole. */
  lemma {:induction false} IndexOfPrefix(a: string, b: string, c: char)
    requires IndexOf(a, c) < |a|
    ensures IndexOf(a + b, c) == IndexOf(a, c)
  {
    if a[0] != c {
      assert (a + b)[1..] == a[1..] + b;
      IndexOfPrefix(a[1..], b, c);
    }
  }

  /** Splitting at commas distributes over a comma-separated concatenation. */
  lemma {:induction false} SplitAppend(a: string, b: string)
    ensures Split(a + [','] + b) == Split(a) + Split(b)
    decreases |a|
  {
    var i := IndexOf(a, ',');
    if i < |a| {
      SplitAppendAt(a, b, i);
    } else {
      IndexOfIsFirst(a, ',');
      IndexAfter(a, ',', b);
    }
  }

  /** The inductive step of SplitAppend, where `a` holds a comma at `i`. */
  lemma {:induction false} SplitAppendAt(a: string, b: string, i: nat)
    requires i == IndexOf(a, ',') < |a|
    ensures Split(a + [','] + b) == Split(a) + Split(b)
    decreases |a|, 0
  {
    var s := a + [','] + b;
    var tail := a[i + 1..];
    IndexOfPrefix(a, [','] + b, ',');
    assert s == a + ([','] + b);
    assert IndexOf(s, ',') == i;
    assert s[..i] == a[..i];
    assert s[i + 1..] == tail + [','] + b;
    SplitAppend(tail, b);
    var head, rest, more := [a[..i]], Split(tail), Split(b);
    assert Split(s) == head + Split(s[i + 1..]);
    assert Split(s[i + 1..]) == rest + more;
    assert Split(a) == head + rest;
    AppendAssociates(head, rest, more);
  }

  /** Concatenation of lists of fields is associative; `SplitAppend`
      needs it, as a separate lemma is cheaper than an inline assertion. */
  lemma AppendAssociates(x: seq<string>, y: seq<string>, z: seq<string>)
    ensures x + (y + z) == (x + y) + z
  {
  }

  /** Text appended after a line that already holds 784 values, behind a
      further comma, does not change how the line parses. */
  lemma TrailingTextIgnored(line: string, more: string)
    requires IndexOf(line, ',') < |line| && |Fields(line)| >= Pixels
    ensures ParseRow(line + [','] + more) == ParseRow(line)
  {
    var i := IndexOf(line, ',');
    IndexOfPrefix(line, [','] + more, ',');
    assert line + [','] + more == line + ([','] + more);
    assert (line + [','] + more)[i + 1..] == line[i + 1..] + [','] + more;
    SplitAppend(line[i + 1..], more);
    FieldsAfterComma(line);
    FieldsAfterComma(line + [','] + more);
    ExtraValuesIgnored(Fields(line), Split(more));
  }

  /** The data lines are accepted exactly when every one of them is, and
      then the result holds one entry per line, in order. */
  lemma {:induction false} ParseRowsSpec(lines: seq<string>)
    ensures ParseRows(lines).Ok? <==> forall k :: 0 <= k < |lines| ==> ParseRow(lines[k]).Ok?
    ensures ParseRows(lines).Ok? ==> |ParseRows(lines).value| == |lines|
    ensures ParseRows(lines).Ok? ==>
              forall k :: 0 <= k < |lines| ==> ParseRows(lines).value[k] == ParseRow(lines[k]).value
  {
    if |lines| > 0 {
      ParseRowsSpec(lines[1..]);
      assert forall k :: 1 <= k < |lines| ==> lines[k] == lines[1..][k - 1];
    }
  }

  /** Reading a run of digits followed by more text continues the
      accumulation where the run left off. */
  lemma {:induction false} LeadingValueAppend(a: string, b: string, acc: nat)
    requires forall k :: 0 <= k < |a| ==> IsDigit(a[k])
    ensures LeadingValue(a + b, acc) == LeadingValue(b, LeadingValue(a, acc))
  {
    if |a| > 0 {
      assert (a + b)[1..] == a[1..] + b;
      LeadingValueAppend(a[1..], b, acc * 10 + (a[0] as int - '0' as int));
    } else {
      assert a + b == b;
    }
  }

  /** The conversion reads back a number's decimal digits. */
  lemma {:induction false} LeadingValueOfShow(n: nat)
    ensures LeadingValue(Show(n), 0) == n
  {
    if n >= 10 {
      LeadingValueOfShow(n / 10);
      LeadingValueAppend(Show(n / 10), ['0' + (n % 10) as char], 0);
    }
  }

  /** A number written in decimal, with or without a minus sign, converts
      back to itself when it fits in an `int` and is out of range
      otherwise. */
  lemma StoiOfShow(n: nat)
    ensures n <= IntMax ==> Stoi(Show(n)) == Ok(n)
    ensures n > IntMax ==> Stoi(Show(n)) == Err(OutOfRange)
    ensures n <= -IntMin ==> Stoi(['-'] + Show(n)) == Ok(-(n as int))
    ensures n > -IntMin ==> Stoi(['-'] + Show(n)) == Err(OutOfRange)
  {
    LeadingValueOfShow(n);
    assert IsDigit(Show(n)[0]);
    assert (['-'] + Show(n))[1..] == Show(n);
  }

  /** Grey levels written in decimal. */
  function ShowAll(pixels: seq<nat>): (fs: seq<string>)
    ensures |fs| == |pixels|
  {
    seq(|pixels|, k requires 0 <= k < |pixels| => Show(pixels[k]))
  }

  /** The CSV line of one image: its label, then its grey levels. */
  function EncodeRow(tag: nat, pixels: seq<nat>): string
  {
    Show(tag) + [','] + Join(ShowAll(pixels))
  }

  /** The image a row of grey levels becomes: pixel k is set exactly when
      grey level k is at least 128. */
  function Binarize(pixels: seq<nat>): (bits: seq<bool>)
    ensures |bits| == |pixels|
  {
    seq(|pixels|, k requires 0 <= k < |pixels| => pixels[k] >= Threshold)
  }

  /** The value fields of an encoded line are the grey levels in decimal. */
  lemma FieldsOfEncodeRow(tag: nat, pixels: seq<nat>)
    requires |pixels| > 0
    ensures Fields(EncodeRow(tag, pixels)) == ShowAll(pixels)
  {
    var fs := ShowAll(pixels);
    forall k, m | 0 <= k < |fs| && 0 <= m < |fs[k]|
      ensures fs[k][m] != ','
    {
      assert IsDigit(fs[k][m]);
    }
    LabelSkipped(Show(tag), Show(tag), Join(fs));
    SplitJoin(fs);
  }

  /** Encoding an image as a CSV line and parsing it back gives its
      thresholded pixels. */
  lemma ParseEncodedRow(tag: nat, pixels: seq<nat>)
    requires |pixels| == Pixels && forall k :: 0 <= k < Pixels ==> pixels[k] <= IntMax
    ensures ParseRow(EncodeRow(tag, pixels)) == Ok(Binarize(pixels))
  {
    var fs := ShowAll(pixels);
    FieldsOfEncodeRow(tag, pixels);
    var vs := Numbers(fs);
    forall k | 0 <= k < Pixels
      ensures vs[k] == Ok(pixels[k])
    {
      StoiOfShow(pixels[k]);
    }
    var r := Convert(vs, Pixels);
    assert r.Ok?;
    assert r.value == Binarize(pixels);
  }

  /** An encoded line holds digits and commas only. */
  lemma EncodeRowHasNoNewline(tag: nat, pixels: seq<nat>)
    ensures forall m :: 0 <= m < |EncodeRow(tag, pixels)| ==> EncodeRow(tag, pixels)[m] != '\n'
  {
    var head := Show(tag);
    var values := Join(ShowAll(pixels));
    JoinHasOnly(ShowAll(pixels));
    var line := head + [','] + values;
    forall m | 0 <= m < |line|
      ensures line[m] != '\n'
    {
      if m < |head| {
        assert line[m] == head[m];
      } else if m > |head| {
        assert line[m] == values[m - |head| - 1];
      }
    }
  }

  /** Encoding a set of images as a CSV file under any header and parsing
      it gives one thresholded entry per image, in order. */
  lemma ParseEncodedFile(header: string, labels: seq<nat>, images: seq<seq<nat>>)
    requires forall k :: 0 <= k < |header| ==> header[k] != '\n'
    requires |labels| == |images|
    requires forall r :: 0 <= r < |images| ==> |images[r]| == Pixels
    requires forall r, k :: 0 <= r < |images| && 0 <= k < Pixels ==> images[r][k] <= IntMax
    ensures ParseCsv(header + ['\n'] + Terminated(seq(|images|, r requires 0 <= r < |images| =>
              EncodeRow(labels[r], images[r]))))
         == Ok(seq(|images|, r requires 0 <= r < |images| => Binarize(images[r])))
  {
    var ls := seq(|images|, r requires 0 <= r < |images| => EncodeRow(labels[r], images[r]));
    forall r, m | 0 <= r < |ls| && 0 <= m < |ls[r]|
      ensures ls[r][m] != '\n'
    {
      EncodeRowHasNoNewline(labels[r], images[r]);
    }
    LinesOfTerminated(ls);
    HeaderDiscarded(header, header, Terminated(ls));
    forall r | 0 <= r < |ls|
      ensures ParseRow(ls[r]) == Ok(Binarize(images[r]))
    {
      ParseEncodedRow(labels[r], images[r]);
    }
    ParseRowsSpec(ls);
    var out := ParseRows(ls);
    assert out.Ok?;
    assert out.value == seq(|images|, r requires 0 <= r < |images| => Binarize(images[r]));
  }

  /** A join of digit strings holds only digits and commas. */
  lemma {:induction false} JoinHasOnly(fs: seq<string>)
    requires forall k, m :: 0 <= k < |fs| && 0 <= m < |fs[k]| ==> IsDigit(fs[k][m])
    ensures forall m :: 0 <= m < |Join(fs)| ==> Join(fs)[m] == ',' || IsDigit(Join(fs)[m])
  {
    if |fs| > 1 {
      JoinHasOnly(fs[1..]);
      var rest := Join(fs[1..]);
      assert Join(fs) == fs[0] + [','] + rest;
      forall m | 0 <= m < |Join(fs)|
        ensures Join(fs)[m] == ',' || IsDigit(Join(fs)[m])
      {
        if m < |fs[0]| {
          assert Join(fs)[m] == fs[0][m];
        } else if m > |fs[0]| {
          assert Join(fs)[m] == rest[m - |fs[0]| - 1];
        }
      }
    }
  }
}
