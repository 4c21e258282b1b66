// The command-line tool's CSV reader (tools/sppu_search.c). A line is a C string without its
// terminator; the number scanner (strtof) is any function that reports where it stopped.
module Csv {
  import opened Words
  import opened Database

  // Value and end position of the number scanned from a position; an end equal to the start
  // means there was none.
  type Scanner = (string, nat) -> (real, nat)

  function ScanAt(scan: Scanner, line: string, p: nat): (r: (real, nat))
    requires p <= |line|
    ensures p <= r.1 <= |line|
  {
    var (v, end) := scan(line, p);
    (v, if end < p then p else if end > |line| then |line| else end)
  }

  predicate IsDelim(c: char) {
    c == ',' || c == ';' || c == ' ' || c == '\t'
  }

  predicate AtEnd(line: string, p: nat) {
    p >= |line| || line[p] == '\n' || line[p] == '\r'
  }

  function SkipDelims(line: string, p: nat): (q: nat)
    requires p <= |line|
    ensures p <= q <= |line|
    decreases |line| - p
  {
    if p < |line| && IsDelim(line[p]) then SkipDelims(line, p + 1) else p
  }

  // The numbers of a line from a position on, up to its end or the first non-number.
  function Fields(scan: Scanner, line: string, p: nat): seq<real>
    requires p <= |line|
    decreases |line| - p
  {
    var q := SkipDelims(line, p);
    if AtEnd(line, q) then []
    else
      var (v, end) := ScanAt(scan, line, q);
      if end == q then [] else [v] + Fields(scan, line, end)
  }

  // Commas, semicolons, blanks and tabs are skipped, and nothing else.
  ghost predicate SkippedTo(line: string, p: nat, q: nat) {
    && p <= q <= |line| && (forall j :: p <= j < q ==> line[j] in {',', ';', ' ', '\t'})
    && (q < |line| ==> line[q] !in {',', ';', ' ', '\t'})
  }

  lemma {:induction false} SkipDelimsIs(line: string, p: nat)
    requires p <= |line|
    ensures SkippedTo(line, p, SkipDelims(line, p))
    decreases |line| - p
  {
    if p < |line| && IsDelim(line[p]) {
      SkipDelimsIs(line, p + 1);
    }
  }

  // The numbers of a line: none at its end, at a line end, or where the scanner stops at once;
  // else the scanned number and those after it.
  lemma FieldsAre(scan: Scanner, line: string, p: nat, q: nat)
    requires p <= |line| && SkippedTo(line, p, q)
    ensures Fields(scan, line, p) ==
      if q == |line| || line[q] in {'\n', '\r'} || ScanAt(scan, line, q).1 == q then []
      else [ScanAt(scan, line, q).0] + Fields(scan, line, ScanAt(scan, line, q).1)
  {
    SkipDelimsIs(line, p);
    var d := SkipDelims(line, p);
    assert d == q;
  }

  method Skip(line: string, p: nat) returns (q: nat)
    requires p <= |line|
    ensures q == SkipDelims(line, p) && SkippedTo(line, p, q)
  {
    SkipDelimsIs(line, p);
    q := p;
    while q < |line| && IsDelim(line[q])
      invariant p <= q <= |line| && SkipDelims(line, q) == SkipDelims(line, p)
    {
      q := q + 1;
    }
  }

  // parse_csv_line
  method ParseLine(scan: Scanner, line: string, dim: nat) returns (r: Option<seq<real>>)
    ensures r.Some? <==> |Fields(scan, line, 0)| >= dim
    ensures r.Some? ==> r.value == Fields(scan, line, 0)[..dim]
  {
    var vec: seq<real> := [];
    var p := 0;
    while |vec| < dim
      invariant p <= |line| && |vec| <= dim
      invariant vec + Fields(scan, line, p) == Fields(scan, line, 0)
    {
      var q := Skip(line, p);
      if AtEnd(line, q) {
        return None;
      }
      var (v, end) := ScanAt(scan, line, q);
      if end == q {
        return None;
      }
      assert Fields(scan, line, p) == [v] + Fields(scan, line, end);
      assert vec + ([v] + Fields(scan, line, end)) == (vec + [v]) + Fields(scan, line, end);
      vec := vec + [v];
      p := end;
    }
    return Some(vec);
  }

  // count_csv_columns
  method CountColumns(scan: Scanner, line: string) returns (d: nat)
    ensures d == |Fields(scan, line, 0)|
  {
    d := 0;
    var p := 0;
    while !AtEnd(line, p)
      invariant p <= |line| && d + |Fields(scan, line, p)| == |Fields(scan, line, 0)|
      decreases |line| - p
    {
      p := Skip(line, p);
      if AtEnd(line, p) {
        break;
      }
      var (_, end) := ScanAt(scan, line, p);
      if end == p {
        break;
      }
      d := d + 1;
      p := end;
    }
  }

  // ---- the file ----

  function SkipBlanks(line: string, p: nat): (q: nat)
    requires p <= |line|
    ensures q <= |line|
    decreases |line| - p
  {
    if p < |line| && (line[p] == ' ' || line[p] == '\t') then SkipBlanks(line, p + 1) else p
  }

  // The text both passes read from a line: leading blanks dropped.
  function Trimmed(line: string): string {
    line[SkipBlanks(line, 0)..]
  }

  // Both passes skip newlines, carriage returns and comments; a line that is nothing but
  // blanks at the very end of the file counts as data.
  predicate IsData(line: string) {
    var t := Trimmed(line);
    t == "" || (t[0] != '\n' && t[0] != '\r' && t[0] != '#')
  }

  // The first character that is neither a blank nor a tab tells data from the rest.
  lemma {:induction false} SkipBlanksIs(line: string, p: nat)
    requires p <= |line|
    ensures var q := SkipBlanks(line, p);
      && p <= q && (forall j :: p <= j < q ==> line[j] in {' ', '\t'})
      && (q < |line| ==> line[q] !in {' ', '\t'})
    decreases |line| - p
  {
    if p < |line| && (line[p] == ' ' || line[p] == '\t') {
      SkipBlanksIs(line, p + 1);
    }
  }

  lemma DataIs(line: string, q: nat)
    requires q <= |line| && (forall j :: 0 <= j < q ==> line[j] in {' ', '\t'})
    requires q < |line| ==> line[q] !in {' ', '\t'}
    ensures IsData(line) <==> q == |line| || line[q] !in {'\n', '\r', '#'}
    ensures Trimmed(line) == line[q..]
  {
    SkipBlanksIs(line, 0);
    assert SkipBlanks(line, 0) == q;
  }

  // The data lines, trimmed.
  function DataLines(lines: seq<string>): (r: seq<string>)
    ensures |r| <= |lines|
  {
    if lines == [] then []
    else
      var n := |lines| - 1;
      var rest := DataLines(lines[..n]);
      if IsData(lines[n]) then rest + [Trimmed(lines[n])] else rest
  }

  // The dimension the first pass settles on: the first column count that is not zero.
  function Dimension(scan: Scanner, lines: seq<string>): nat {
    if lines == [] then 0
    else
      var before := Dimension(scan, lines[..|lines| - 1]);
      if before != 0 then before else |Fields(scan, lines[|lines| - 1], 0)|
  }

  // No line has numbers, or the first one that has tells how many.
  lemma {:induction false} DimensionIs(scan: Scanner, lines: seq<string>, k: nat)
    requires k <= |lines| && forall j :: 0 <= j < k ==> Fields(scan, lines[j], 0) == []
    requires k < |lines| ==> Fields(scan, lines[k], 0) != []
    ensures Dimension(scan, lines) == if k < |lines| then |Fields(scan, lines[k], 0)| else 0
    decreases |lines|
  {
    if lines != [] {
      var n := |lines| - 1;
      DimensionIs(scan, lines[..n], if k < n then k else n);
    }
  }

  ghost predicate LongEnough(scan: Scanner, data: seq<string>, dim: nat) {
    forall k :: 0 <= k < |data| ==> |Fields(scan, data[k], 0)| >= dim
  }

  // Each data line's leading numbers, one after the other, up to a line that is too short.
  function Flat(scan: Scanner, data: seq<string>, dim: nat): Option<seq<real>> {
    if data == [] then Some([])
    else
      var before, fields := Flat(scan, data[..|data| - 1], dim), Fields(scan, data[|data| - 1], 0);
      if before.None? || |fields| < dim then None else Some(before.value + fields[..dim])
  }

  lemma {:induction false} FlatIff(scan: Scanner, data: seq<string>, dim: nat)
    ensures Flat(scan, data, dim).Some? <==> LongEnough(scan, data, dim)
  {
    if data != [] {
      var n := |data| - 1;
      FlatIff(scan, data[..n], dim);
      assert LongEnough(scan, data, dim) <==> LongEnough(scan, data[..n], dim) && |Fields(scan, data[n], 0)| >= dim;
    }
  }

  lemma {:induction false} FlatLength(scan: Scanner, data: seq<string>, dim: nat)
    requires Flat(scan, data, dim).Some?
    ensures |Flat(scan, data, dim).value| == |data| * dim
  {
    if data != [] {
      var n := |data| - 1;
      FlatLength(scan, data[..n], dim);
      assert |data| * dim == n * dim + dim;
    }
  }

  // A line that is too short spoils every longer file.
  lemma {:induction false} FlatPrefix(scan: Scanner, data: seq<string>, dim: nat, k: nat)
    requires k <= |data| && Flat(scan, data[..k], dim).None?
    ensures Flat(scan, data, dim).None?
  {
    if k == |data| {
      assert data[..k] == data;
    } else {
      assert data[..|data| - 1][..k] == data[..k];
      FlatPrefix(scan, data[..|data| - 1], dim, k);
    }
  }

  // Row i of the flat data is the first dim numbers of data line i.
  lemma {:induction false} FlatRow(scan: Scanner, data: seq<string>, dim: nat, i: nat)
    requires Flat(scan, data, dim).Some? && i < |data|
    ensures 0 <= i * dim <= i * dim + dim <= |Flat(scan, data, dim).value|
    ensures |Fields(scan, data[i], 0)| >= dim
    ensures Flat(scan, data, dim).value[i * dim..i * dim + dim] == Fields(scan, data[i], 0)[..dim]
  {
    var n := |data| - 1;
    FlatLength(scan, data, dim);
    FlatLength(scan, data[..n], dim);
    if i < n {
      FlatRow(scan, data[..n], dim, i);
    }
  }

  // What makes a file loadable.
  ghost predicate Loadable(scan: Scanner, data: seq<string>) {
    var dim := Dimension(scan, data);
    data != [] && 0 < dim <= MAX_DIMENSION && LongEnough(scan, data, dim)
  }

  // The first pass of load_csv: how many data lines, and the dimension.
  method Measure(scan: Scanner, lines: seq<string>) returns (count: nat, dim: nat)
    ensures count == |DataLines(lines)| && dim == Dimension(scan, DataLines(lines))
  {
    count, dim := 0, 0;
    var k := 0;
    while k < |lines|
      invariant 0 <= k <= |lines|
      invariant count == |DataLines(lines[..k])| && dim == Dimension(scan, DataLines(lines[..k]))
    {
      assert lines[..k + 1][..k] == lines[..k];
      if IsData(lines[k]) {
        if dim == 0 {
          dim := CountColumns(scan, Trimmed(lines[k]));
        }
        count := count + 1;
      }
      k := k + 1;
    }
    assert lines[..|lines|] == lines;
  }

  // The second pass: one row per data line, until a line is too short.
  method Fill(scan: Scanner, lines: seq<string>, dim: nat) returns (r: Option<seq<real>>)
    ensures r == Flat(scan, DataLines(lines), dim)
  {
    var data: seq<real> := [];
    var k := 0;
    while k < |lines|
      invariant 0 <= k <= |lines|
      invariant Flat(scan, DataLines(lines[..k]), dim) == Some(data)
    {
      assert lines[..k + 1][..k] == lines[..k];
      if IsData(lines[k]) {
        var vec := ParseLine(scan, Trimmed(lines[k]), dim);
        ghost var now := DataLines(lines[..k + 1]);
        assert now[..|now| - 1] == DataLines(lines[..k]);
        if vec.None? {
          DataLinesPrefix(lines, k + 1);
          FlatPrefix(scan, DataLines(lines), dim, |now|);
          return None;
        }
        data := data + vec.value;
      }
      k := k + 1;
    }
    assert lines[..|lines|] == lines;
    return Some(data);
  }

  lemma {:induction false} DataLinesPrefix(lines: seq<string>, k: nat)
    requires k <= |lines|
    ensures |DataLines(lines[..k])| <= |DataLines(lines)|
    ensures DataLines(lines)[..|DataLines(lines[..k])|] == DataLines(lines[..k])
  {
    if k < |lines| {
      var n := |lines| - 1;
      assert lines[..n][..k] == lines[..k];
      DataLinesPrefix(lines[..n], k);
    } else {
      assert lines[..k] == lines;
    }
  }

  // Data line k is the one after all data lines before it; other lines leave no trace.
  lemma DataLinesAre(lines: seq<string>, k: nat)
    requires k < |lines|
    ensures var before := |DataLines(lines[..k])|;
      && |DataLines(lines[..k + 1])| == before + (if IsData(lines[k]) then 1 else 0)
      && (IsData(lines[k]) ==> before < |DataLines(lines)| && DataLines(lines)[before] == Trimmed(lines[k]))
  {
    assert lines[..k + 1][..k] == lines[..k];
    DataLinesPrefix(lines, k + 1);
    if IsData(lines[k]) {
      assert DataLines(lines)[|DataLines(lines[..k])|] == DataLines(lines[..k + 1])[|DataLines(lines[..k])|];
    }
  }

  // load_csv: a file loads exactly when the first column count found is in range and every
  // data line has at least that many numbers; then each row is its line's leading numbers.
  method LoadCsv(scan: Scanner, lines: seq<string>) returns (r: Option<Db>)
    requires |lines| < TWO32
    ensures r.Some? <==> Loadable(scan, DataLines(lines))
    ensures r.Some? ==> r.value.Valid() && r.value.count == |DataLines(lines)|
    ensures r.Some? ==> RowsMatch(scan, DataLines(lines), r.value)
  {
    ghost var lines' := DataLines(lines);
    var count, dim := Measure(scan, lines);
    if dim == 0 || count == 0 || dim > MAX_DIMENSION {
      return None;
    }
    var data := Fill(scan, lines, dim);
    FlatIff(scan, lines', dim);
    if data.None? {
      return None;
    }
    FlatLength(scan, lines', dim);
    var db := Db(count, dim, data.value);
    forall i | 0 <= i < count
      ensures |Fields(scan, lines'[i], 0)| >= dim && db.Row(i) == Fields(scan, lines'[i], 0)[..dim]
    {
      FlatRow(scan, lines', dim, i);
    }
    return Some(db);
  }

  ghost predicate RowsMatch(scan: Scanner, data: seq<string>, db: Db)
    requires db.Valid() && db.count == |data|
  {
    forall i :: 0 <= i < db.count ==>
      |Fields(scan, data[i], 0)| >= db.dim && db.Row(i) == Fields(scan, data[i], 0)[..db.dim]
  }
}
