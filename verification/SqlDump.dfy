// The rows of a SQL dump: literals, INSERT statements, and a reader that takes them
// back. Strings stand for byte strings, one character a byte.
module SqlDump {
  import opened Text

  datatype Value = Null | Integer(n: int) | Bool(b: bool) | Textual(s: string) | Blob(bytes: string)

  predicate Bytes(s: string) {
    forall i :: 0 <= i < |s| ==> s[i] as int < 256
  }

  predicate Within(c: char, lo: int, hi: int) {
    lo <= c as int <= hi
  }

  // Well-formed UTF-8: no overlong forms, no surrogates, nothing above U+10FFFF.
  predicate ValidUtf8(s: string) {
    s == "" ||
    (if Within(s[0], 0, 0x7f) then ValidUtf8(s[1..])
     else if Within(s[0], 0xc2, 0xdf) then |s| >= 2 && Within(s[1], 0x80, 0xbf) && ValidUtf8(s[2..])
     else if Within(s[0], 0xe0, 0xef) then
       |s| >= 3 && Within(s[1], if s[0] as int == 0xe0 then 0xa0 else 0x80, if s[0] as int == 0xed then 0x9f else 0xbf) &&
       Within(s[2], 0x80, 0xbf) && ValidUtf8(s[3..])
     else
       Within(s[0], 0xf0, 0xf4) && |s| >= 4 &&
       Within(s[1], if s[0] as int == 0xf0 then 0x90 else 0x80, if s[0] as int == 0xf4 then 0x8f else 0xbf) &&
       Within(s[2], 0x80, 0xbf) && Within(s[3], 0x80, 0xbf) && ValidUtf8(s[4..]))
  }

  // ---------- printing ----------

  // Every quote doubled.
  function Doubled(s: string): string {
    if s == "" then "" else (if s[0] == '\'' then "''" else [s[0]]) + Doubled(s[1..])
  }

  function QuoteSqliteText(s: string): string {
    "'" + Doubled(s) + "'"
  }

  function HexDigit(n: nat): (c: char)
    requires n < 16
    ensures HexValue(c) == Some(n) && c != '\''
  {
    if n < 10 then ('0' as int + n) as char else ('a' as int + (n - 10)) as char
  }

  function HexPair(c: char): (s: string)
    requires c as int < 256
    ensures |s| == 2
  {
    [HexDigit(c as int / 16), HexDigit(c as int % 16)]
  }

  function HexBytes(s: string): (r: string)
    requires Bytes(s)
    ensures |r| == 2 * |s|
  {
    if s == "" then "" else HexBytes(s[..|s| - 1]) + HexPair(s[|s| - 1])
  }

  predicate Printable(v: Value) {
    v.Blob? ==> Bytes(v.bytes)
  }

  function Literal(v: Value): string
    requires Printable(v)
  {
    match v
    case Null => "NULL"
    case Integer(n) => FormatInt(n)
    case Bool(b) => if b then "1" else "0"
    case Textual(s) => QuoteSqliteText(s)
    case Blob(bytes) => if ValidUtf8(bytes) then QuoteSqliteText(bytes) else "X'" + HexBytes(bytes) + "'"
  }

  method SqliteLiteral(v: Value) returns (s: string)
    requires Printable(v)
    ensures s == Literal(v)
  {
    match v
    case Null => s := "NULL";
    case Integer(n) => s := FormatInt(n);
    case Bool(b) =>
      s := "0";
      if b {
        s := "1";
      }
    case Textual(t) => s := QuoteSqliteText(t);
    case Blob(bytes) =>
      if ValidUtf8(bytes) {
        return QuoteSqliteText(bytes);
      }
      s := "X'";
      for i := 0 to |bytes|
        invariant s == "X'" + HexBytes(bytes[..i])
      {
        assert bytes[..i + 1][..i] == bytes[..i];
        s := s + [HexDigit(bytes[i] as int / 16)] + [HexDigit(bytes[i] as int % 16)];
        assert s == "X'" + HexBytes(bytes[..i]) + HexPair(bytes[i]);
      }
      assert bytes[..|bytes|] == bytes;
      s := s + "'";
  }

  predicate PrintableRow(row: seq<Value>) {
    forall i :: 0 <= i < |row| ==> Printable(row[i])
  }

  // The comma-separated literals.
  function Literals(row: seq<Value>): string
    requires PrintableRow(row)
  {
    if row == [] then ""
    else if |row| == 1 then Literal(row[0])
    else Literal(row[0]) + "," + Literals(row[1..])
  }

  function Prefix(table: string): string {
    "INSERT INTO \"" + table + "\" VALUES("
  }

  function Statement(table: string, row: seq<Value>): string
    requires PrintableRow(row)
  {
    Prefix(table) + Literals(row) + ");\n"
  }

  predicate PrintableRows(rows: seq<seq<Value>>) {
    forall i :: 0 <= i < |rows| ==> PrintableRow(rows[i])
  }

  function Dump(table: string, rows: seq<seq<Value>>): string
    requires PrintableRows(rows)
  {
    if rows == [] then "" else Dump(table, rows[..|rows| - 1]) + Statement(table, rows[|rows| - 1])
  }

  lemma {:induction false} LiteralsAppend(row: seq<Value>, v: Value)
    requires PrintableRow(row) && Printable(v)
    ensures Literals(row + [v]) == if row == [] then Literal(v) else Literals(row) + "," + Literal(v)
  {
    hide Literal;
    if |row| > 0 {
      LiteralsAppend(row[1..], v);
      assert (row + [v])[1..] == row[1..] + [v];
      if |row| > 1 {
        assert Literal(row[0]) + "," + (Literals(row[1..]) + "," + Literal(v)) ==
               Literal(row[0]) + "," + Literals(row[1..]) + "," + Literal(v);
      }
    }
  }

  method WriteRow(row: seq<Value>) returns (s: string)
    requires PrintableRow(row)
    ensures s == Literals(row)
  {
    hide Literal;
    s := "";
    for i := 0 to |row|
      invariant s == Literals(row[..i])
    {
      assert row[..i + 1] == row[..i] + [row[i]];
      LiteralsAppend(row[..i], row[i]);
      var literal := SqliteLiteral(row[i]);
      if i > 0 {
        s := s + ",";
      }
      s := s + literal;
    }
    assert row[..|row|] == row;
  }

  method DumpTableData(table: string, rows: seq<seq<Value>>, b: string) returns (out: string)
    requires PrintableRows(rows)
    ensures out == b + Dump(table, rows)
  {
    hide Prefix, Literals;
    var prefix := Prefix(table);
    out := b;
    for r := 0 to |rows|
      invariant out == b + Dump(table, rows[..r])
    {
      assert rows[..r + 1][..r] == rows[..r];
      var literals := WriteRow(rows[r]);
      ghost var before := Dump(table, rows[..r]);
      out := out + prefix;
      out := out + literals;
      out := out + ");\n";
      assert out == b + (before + (prefix + literals + ");\n"));
    }
    assert rows[..|rows|] == rows;
  }

  // ---------- reading back ----------

  datatype Read<T> = Read(value: T, rest: string)

  // The text up to the first quote that is not doubled.
  function ReadText(s: string): Option<Read<string>> {
    if s == "" then None
    else if s[0] != '\'' then
      var r := ReadText(s[1..]);
      if r.None? then None else Some(Read([s[0]] + r.value.value, r.value.rest))
    else if |s| > 1 && s[1] == '\'' then
      var r := ReadText(s[2..]);
      if r.None? then None else Some(Read("'" + r.value.value, r.value.rest))
    else Some(Read("", s[1..]))
  }

  function ReadHex(s: string): Option<Read<string>> {
    if s == "" then None
    else if s[0] == '\'' then Some(Read("", s[1..]))
    else if |s| < 2 then None
    else
      var hi, lo, r := HexValue(s[0]), HexValue(s[1]), ReadHex(s[2..]);
      if hi.None? || lo.None? || r.None? then None
      else Some(Read([(16 * hi.value + lo.value) as char] + r.value.value, r.value.rest))
  }

  // A sign is part of the number.
  function ReadInteger(s: string): Option<Read<int>> {
    var sign := if s != "" && s[0] == '-' then 1 else 0;
    var n := DigitRun(s[sign..]);
    if n == 0 then None
    else
      var k := sign + n;
      assert s[sign..][..n] == s[sign..k];
      assert s[..k][1..] == s[1..k];
      Some(Read(if sign == 1 then -(NatValue(s[1..k]) as int) else NatValue(s[..k]), s[k..]))
  }

  function ReadLiteral(s: string): Option<Read<Value>> {
    if s == "" then None
    else if s[0] == 'N' then
      if |s| >= 4 && s[..4] == "NULL" then Some(Read(Null, s[4..])) else None
    else if s[0] == '\'' then
      var r := ReadText(s[1..]);
      if r.None? then None else Some(Read(Textual(r.value.value), r.value.rest))
    else if s[0] == 'X' then
      if |s| < 2 || s[1] != '\'' then None
      else
        var r := ReadHex(s[2..]);
        if r.None? then None else Some(Read(Blob(r.value.value), r.value.rest))
    else
      var r := ReadInteger(s);
      if r.None? then None else Some(Read(Integer(r.value.value), r.value.rest))
  }

  // Literals up to the closing parenthesis, which is left in place.
  function ReadLiterals(s: string): Option<Read<seq<Value>>>
    decreases |s|
  {
    var first := ReadLiteral(s);
    if first.None? then None
    else
      var rest := first.value.rest;
      if rest == "" then None
      else if rest[0] == ')' then Some(Read([first.value.value], rest))
      else if rest[0] != ',' || |rest| > |s| then None
      else
        var more := ReadLiterals(rest[1..]);
        if more.None? then None else Some(Read([first.value.value] + more.value.value, more.value.rest))
  }

  function ReadRow(s: string): Option<Read<seq<Value>>> {
    if s != "" && s[0] == ')' then Some(Read([], s)) else ReadLiterals(s)
  }

  predicate StartsWith(s: string, p: string) {
    |p| <= |s| && s[..|p|] == p
  }

  // The rows of the table's INSERT statements.
  function ReadDump(table: string, s: string): Option<seq<seq<Value>>>
    decreases |s|
  {
    var prefix := Prefix(table);
    if s == "" then Some([])
    else if !StartsWith(s, prefix) then None
    else
      var row := ReadRow(s[|prefix|..]);
      if row.None? || !StartsWith(row.value.rest, ");\n") || |row.value.rest| > |s| then None
      else
        var more := ReadDump(table, row.value.rest[3..]);
        if more.None? then None else Some([row.value.value] + more.value)
  }

  // What a value comes back as: SQLite has no booleans, and a blob that is valid
  // UTF-8 was printed as text.
  function Stored(v: Value): Value {
    match v
    case Bool(b) => Integer(if b then 1 else 0)
    case Blob(bytes) => if ValidUtf8(bytes) then Textual(bytes) else v
    case _ => v
  }

  function StoredRow(row: seq<Value>): (r: seq<Value>)
    ensures |r| == |row|
  {
    seq(|row|, i requires 0 <= i < |row| => Stored(row[i]))
  }

  function StoredRows(rows: seq<seq<Value>>): (r: seq<seq<Value>>)
    ensures |r| == |rows|
  {
    seq(|rows|, i requires 0 <= i < |rows| => StoredRow(rows[i]))
  }

  // ---------- round trips ----------

  predicate Ends(rest: string) {
    rest != "" && rest[0] in {',', ')'}
  }

  lemma {:induction false} TextReads(s: string, rest: string)
    requires Ends(rest)
    ensures ReadText(Doubled(s) + "'" + rest) == Some(Read(s, rest))
  {
    var t := Doubled(s) + "'" + rest;
    if s == "" {
      assert t[1..] == rest;
    } else {
      TextReads(s[1..], rest);
      var k := if s[0] == '\'' then 2 else 1;
      assert t[k..] == Doubled(s[1..]) + "'" + rest;
      assert s == [s[0]] + s[1..];
    }
  }

  lemma HexByteReads(c: char, more: string)
    requires c as int < 256
    ensures var r := ReadHex(more);
            ReadHex(HexPair(c) + more) == if r.None? then None else Some(Read([c] + r.value.value, r.value.rest))
  {
    var t := HexPair(c) + more;
    assert t[2..] == more;
    assert 16 * (c as int / 16) + c as int % 16 == c as int;
  }

  lemma {:induction false} HexIndexed(s: string, i: nat)
    requires Bytes(s) && i < |s|
    ensures HexBytes(s)[2 * i..2 * (i + 1)] == HexPair(s[i])
  {
    hide HexPair;
    var n := |s| - 1;
    var front := HexBytes(s[..n]);
    assert HexBytes(s) == front + HexPair(s[n]);
    if i < n {
      HexIndexed(s[..n], i);
      assert (front + HexPair(s[n]))[2 * i..2 * (i + 1)] == front[2 * i..2 * (i + 1)];
    }
  }

  lemma HexUnfolds(s: string, done: nat, rest: string)
    requires Bytes(s) && done < |s|
    ensures HexBytes(s)[2 * done..] + "'" + rest == HexPair(s[done]) + (HexBytes(s)[2 * (done + 1)..] + "'" + rest)
  {
    hide Bytes, HexBytes, HexPair;
    HexIndexed(s, done);
    SplitTwo(HexBytes(s), 2 * done, 2 * (done + 1), rest);
  }

  lemma SplitTwo(h: string, a: nat, b: nat, rest: string)
    requires a <= b <= |h|
    ensures h[a..] + "'" + rest == h[a..b] + (h[b..] + "'" + rest)
  {
    assert h[a..] == h[a..b] + h[b..];
  }

  lemma {:induction false} HexReads(s: string, done: nat, rest: string)
    requires Bytes(s) && done <= |s|
    ensures ReadHex(HexBytes(s)[2 * done..] + "'" + rest) == Some(Read(s[done..], rest))
    decreases |s| - done
  {
    if done == |s| {
      hide HexBytes;
      assert HexBytes(s)[2 * done..] == "" && s[done..] == "";
      var t := "'" + rest;
      assert "" + "'" + rest == t && t[1..] == rest;
    } else {
      hide ReadHex, HexBytes, HexPair;
      HexReads(s, done + 1, rest);
      HexByteReads(s[done], HexBytes(s)[2 * (done + 1)..] + "'" + rest);
      HexUnfolds(s, done, rest);
      assert s[done..] == [s[done]] + s[done + 1..];
    }
  }

  lemma DigitsRead(digits: string, rest: string)
    requires AllDigits(digits) && Ends(rest)
    ensures DigitRun(digits + rest) == |digits|
  {
    assert (digits + rest)[..|digits|] == digits;
    DigitRunUnique(digits + rest, |digits|);
  }

  lemma NaturalReads(digits: string, rest: string)
    requires digits != "" && AllDigits(digits) && Ends(rest)
    ensures ReadInteger(digits + rest) == Some(Read(NatValue(digits) as int, rest))
    ensures ReadInteger("-" + digits + rest) == Some(Read(-(NatValue(digits) as int), rest))
  {
    hide NatValue, DigitRun;
    DigitsRead(digits, rest);
    var s, t := digits + rest, "-" + digits + rest;
    assert IsDigit(s[0]);
    assert s[0..] == s && s[..|digits|] == digits && s[|digits|..] == rest;
    assert t[1..] == s && t[1..|digits| + 1] == digits && t[|digits| + 1..] == rest;
  }

  lemma IntegerReads(n: int, rest: string)
    requires Ends(rest)
    ensures ReadInteger(FormatInt(n) + rest) == Some(Read(n, rest))
  {
    hide FormatNat, NatValue, ReadInteger;
    var m := if n < 0 then -n else n;
    NaturalReads(FormatNat(m), rest);
    NatRoundTrip(m);
  }

  // One literal reads back as its value, whatever it holds.
  lemma LiteralReads(v: Value, rest: string)
    requires Printable(v) && Ends(rest)
    ensures ReadLiteral(Literal(v) + rest) == Some(Read(Stored(v), rest))
  {
    hide ReadText, ReadHex, ReadInteger, FormatInt, Doubled, HexBytes, ValidUtf8;
    match v
    case Null => assert ("NULL" + rest)[..4] == "NULL" && ("NULL" + rest)[4..] == rest;
    case Integer(n) => IntegerLiteralReads(n, rest);
    case Bool(b) => BitReads(b, rest);
    case Textual(s) => QuotedReads(s, rest);
    case Blob(bytes) =>
      if ValidUtf8(bytes) {
        QuotedReads(bytes, rest);
      } else {
        HexReads(bytes, 0, rest);
        assert bytes[0..] == bytes && HexBytes(bytes)[0..] == HexBytes(bytes);
        assert ("X'" + HexBytes(bytes) + "'" + rest)[2..] == HexBytes(bytes) + "'" + rest;
      }
  }

  lemma QuotedReads(s: string, rest: string)
    requires Ends(rest)
    ensures ReadLiteral(QuoteSqliteText(s) + rest) == Some(Read(Textual(s), rest))
  {
    TextReads(s, rest);
    assert (QuoteSqliteText(s) + rest)[1..] == Doubled(s) + "'" + rest;
  }

  lemma IntegerLiteralReads(n: int, rest: string)
    requires Ends(rest)
    ensures ReadLiteral(FormatInt(n) + rest) == Some(Read(Integer(n), rest))
  {
    IntegerReads(n, rest);
    IntRoundTrip(n);
    assert (FormatInt(n) + rest)[0] == FormatInt(n)[0];
  }

  lemma BitReads(b: bool, rest: string)
    requires Ends(rest)
    ensures ReadLiteral((if b then "1" else "0") + rest) == Some(Read(Integer(if b then 1 else 0), rest))
  {
    IntegerLiteralReads(if b then 1 else 0, rest);
    assert FormatInt(1) == "1" && FormatInt(0) == "0";
  }

  // A row of any length reads back, up to its closing parenthesis.
  lemma {:induction false} RowReads(row: seq<Value>, rest: string)
    requires row != [] && PrintableRow(row) && rest != "" && rest[0] == ')'
    ensures ReadLiterals(Literals(row) + rest) == Some(Read(StoredRow(row), rest))
  {
    hide ReadLiteral, Literal, Stored;
    var s := Literals(row) + rest;
    if |row| == 1 {
      LiteralReads(row[0], rest);
      assert StoredRow(row) == [Stored(row[0])];
    } else {
      var tail := "," + Literals(row[1..]) + rest;
      assert s == Literal(row[0]) + tail;
      LiteralReads(row[0], tail);
      RowReads(row[1..], rest);
      assert tail[1..] == Literals(row[1..]) + rest;
      assert StoredRow(row) == [Stored(row[0])] + StoredRow(row[1..]);
    }
  }

  lemma LiteralOpens(v: Value)
    requires Printable(v)
    ensures Literal(v) != "" && Literal(v)[0] != ')'
  {
    if v.Integer? { IntRoundTrip(v.n); }
  }

  lemma RowRoundTrip(row: seq<Value>, rest: string)
    requires PrintableRow(row) && rest != "" && rest[0] == ')'
    ensures ReadRow(Literals(row) + rest) == Some(Read(StoredRow(row), rest))
  {
    hide Literal, ReadLiterals;
    if row == [] {
      assert "" + rest == rest;
    } else {
      LiteralOpens(row[0]);
      assert (Literals(row) + rest)[0] == Literal(row[0])[0];
      RowReads(row, rest);
    }
  }

  lemma {:induction false} DumpUnfolds(table: string, rows: seq<seq<Value>>)
    requires rows != [] && PrintableRows(rows)
    ensures Dump(table, rows) == Statement(table, rows[0]) + Dump(table, rows[1..])
  {
    hide Statement;
    var n := |rows| - 1;
    if n == 0 {
      assert rows[..0] == [];
      assert Dump(table, []) == "";
      assert Statement(table, rows[0]) + "" == "" + Statement(table, rows[0]);
    } else {
      var inner := rows[1..][..n - 1];
      DumpUnfolds(table, rows[..n]);
      assert rows[..n][1..] == inner && rows[1..][n - 1] == rows[n];
      assert Dump(table, rows) == Dump(table, rows[..n]) + Statement(table, rows[n]);
      assert Dump(table, rows[1..]) == Dump(table, inner) + Statement(table, rows[n]);
      hide Dump, PrintableRows;
    }
  }

  // One statement is read off the front.
  lemma StatementReads(table: string, row: seq<Value>, more: string)
    requires PrintableRow(row)
    ensures var r := ReadDump(table, more);
      ReadDump(table, Statement(table, row) + more) == if r.None? then None else Some([StoredRow(row)] + r.value)
  {
    hide Prefix, Literals, ReadRow, StoredRow;
    var s, p, l := Statement(table, row) + more, Prefix(table), Literals(row);
    var rest := ");\n" + more;
    assert s == p + (l + rest);
    assert s[..|p|] == p && s[|p|..] == l + rest;
    assert rest[..3] == ");\n" && rest[3..] == more;
    RowRoundTrip(row, rest);
  }

  lemma StoredUnfolds(rows: seq<seq<Value>>)
    requires rows != []
    ensures StoredRows(rows) == [StoredRow(rows[0])] + StoredRows(rows[1..])
  {
    hide StoredRow;
  }

  // The whole table reads back row by row.
  lemma {:induction false} DumpRoundTrip(table: string, rows: seq<seq<Value>>)
    requires PrintableRows(rows)
    ensures ReadDump(table, Dump(table, rows)) == Some(StoredRows(rows))
  {
    if rows == [] {
      assert Dump(table, rows) == "";
    } else {
      assert PrintableRow(rows[0]) && PrintableRows(rows[1..]);
      hide Statement, StoredRow, StoredRows, ReadDump, Dump, PrintableRow, PrintableRows;
      DumpUnfolds(table, rows);
      DumpRoundTrip(table, rows[1..]);
      StatementReads(table, rows[0], Dump(table, rows[1..]));
      StoredUnfolds(rows);
    }
  }
}
