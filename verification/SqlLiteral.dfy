/**
 SQL literals as the fuzzer prints them (crates/synddb-fuzzer/src/operations.rs), against a lexer for
 SQLite's literal syntax written independently of the printer.
 */
module SqlLiteral {
  import opened Sequences
  import opened Words

  datatype SqlValue = Null | Integer(i: int) | Text(text: string) | Blob(bytes: seq<Byte>)

  // ---------------------------------------------------------------- printing

  function Digit(d: nat): (c: char)
    requires d < 16
  {
    if d < 10 then '0' + d as char else 'a' + (d - 10) as char
  }

  function Decimal(n: nat): (s: string)
    ensures |s| > 0
  {
    if n < 10 then [Digit(n)] else Decimal(n / 10) + [Digit(n % 10)]
  }

  function DoubleQuotes(s: string): string {
    if s == "" then ""
    else (if s[0] == '\'' then "''" else [s[0]]) + DoubleQuotes(s[1..])
  }

  function Hex(bytes: seq<Byte>): string {
    if bytes == [] then "" else [Digit(bytes[0] / 16), Digit(bytes[0] % 16)] + Hex(bytes[1..])
  }

  /** `to_sql_literal`. */
  function Literal(v: SqlValue): string {
    match v
    case Null => "NULL"
    case Integer(i) => if i < 0 then "-" + Decimal(-i) else Decimal(i)
    case Text(s) => "'" + DoubleQuotes(s) + "'"
    case Blob(b) => "X'" + Hex(b) + "'"
  }

  /** `vals.join(", ")`. */
  function Literals(values: seq<SqlValue>): string {
    if values == [] then ""
    else if |values| == 1 then Literal(values[0])
    else Literal(values[0]) + ", " + Literals(values[1..])
  }

  function JoinNames(names: seq<string>): string {
    if names == [] then "" else if |names| == 1 then names[0] else names[0] + ", " + JoinNames(names[1..])
  }

  /** `DmlOperation::to_sql` for an INSERT. */
  function Insert(table: string, columns: seq<string>, values: seq<SqlValue>): string {
    "INSERT INTO " + table + " (" + JoinNames(columns) + ") VALUES (" + Literals(values) + ")"
  }

  // ---------------------------------------------------------------- lexing

  /** A token read from the front of the text, and the text after it. */
  datatype Lexed<T> = Lexed(value: T, rest: string) | Stuck

  predicate IsDigit(c: char) {
    '0' <= c <= '9'
  }

  function HexValue(c: char): int {
    if '0' <= c <= '9' then (c - '0') as int else if 'a' <= c <= 'f' then (c - 'a') as int + 10 else -1
  }

  /** As many digits as there are, on top of the number read so far. */
  function LexDigits(s: string, sofar: nat): (r: (nat, string))
    ensures |r.1| <= |s|
  {
    if s != "" && IsDigit(s[0]) then LexDigits(s[1..], sofar * 10 + (s[0] - '0') as int) else (sofar, s)
  }

  /** The inside of a string literal: a doubled quote is a quote, a single one ends the literal. */
  function LexQuoted(s: string): (r: Lexed<string>)
    ensures r.Lexed? ==> |r.rest| < |s|
  {
    if s == "" then Stuck
    else if s[0] != '\'' then Prepend(s[0], LexQuoted(s[1..]))
    else if |s| >= 2 && s[1] == '\'' then Prepend('\'', LexQuoted(s[2..]))
    else Lexed("", s[1..])
  }

  function Prepend<T>(x: T, r: Lexed<seq<T>>): Lexed<seq<T>> {
    if r.Stuck? then Stuck else Lexed([x] + r.value, r.rest)
  }

  function LexHex(s: string): (r: Lexed<seq<Byte>>)
    ensures r.Lexed? ==> |r.rest| < |s|
  {
    if s == "" then Stuck
    else if s[0] == '\'' then Lexed([], s[1..])
    else if |s| < 2 || HexValue(s[0]) < 0 || HexValue(s[1]) < 0 then Stuck
    else Prepend(HexValue(s[0]) * 16 + HexValue(s[1]), LexHex(s[2..]))
  }

  function LexLiteral(s: string): (r: Lexed<SqlValue>)
    ensures r.Lexed? ==> |r.rest| < |s|
  {
    if s == "" then Stuck
    else if s[0] == '\'' then
      var r := LexQuoted(s[1..]);
      if r.Stuck? then Stuck else Lexed(Text(r.value), r.rest)
    else if s[0] == 'X' && |s| >= 2 && s[1] == '\'' then
      var r := LexHex(s[2..]);
      if r.Stuck? then Stuck else Lexed(Blob(r.value), r.rest)
    else if s[0] == '-' && |s| >= 2 && IsDigit(s[1]) then
      var r := LexDigits(s[1..], 0);
      Lexed(Integer(0 - r.0), r.1)
    else if IsDigit(s[0]) then
      var r := LexDigits(s, 0);
      Lexed(Integer(r.0), r.1)
    else if s[..Min(4, |s|)] == "NULL" then Lexed(Null, s[4..])
    else Stuck
  }

  /** Literals separated by a comma and a blank, up to the end or a closing parenthesis. */
  function LexList(s: string): Lexed<seq<SqlValue>>
    decreases |s|
  {
    if s == "" || s[0] == ')' then Lexed([], s)
    else
      var first := LexLiteral(s);
      if first.Stuck? then Stuck
      else if |first.rest| < 2 || first.rest[..2] != ", " then Lexed([first.value], first.rest)
      else Prepend(first.value, LexList(first.rest[2..]))
  }

  // ---------------------------------------------------------------- one literal

  /** What may follow a literal without becoming part of it. */
  predicate Ends(rest: string) {
    rest == "" || rest[0] == ',' || rest[0] == ')'
  }

  lemma DigitValue(d: nat)
    requires d < 16
    ensures HexValue(Digit(d)) == d && Digit(d) != '\''
    ensures d < 10 ==> IsDigit(Digit(d)) && (Digit(d) - '0') as int == d
  {
  }

  lemma {:induction false} DecimalDigits(n: nat)
    ensures forall i :: 0 <= i < |Decimal(n)| ==> IsDigit(Decimal(n)[i])
  {
    DigitValue(n % 10);
    if n >= 10 {
      DecimalDigits(n / 10);
    }
  }

  lemma {:induction false} LexDigitsConcat(a: string, b: string, sofar: nat)
    requires forall i :: 0 <= i < |a| ==> IsDigit(a[i])
    ensures LexDigits(a + b, sofar) == LexDigits(b, LexDigits(a, sofar).0)
    ensures LexDigits(a, sofar).1 == ""
  {
    if a == "" {
      assert a + b == b;
    } else {
      assert (a + b)[1..] == a[1..] + b;
      LexDigitsConcat(a[1..], b, sofar * 10 + (a[0] - '0') as int);
    }
  }

  lemma {:induction false} LexDecimal(n: nat)
    ensures LexDigits(Decimal(n), 0).0 == n
  {
    DigitValue(n % 10);
    if n >= 10 {
      LexDecimal(n / 10);
      DecimalDigits(n / 10);
      LexDigitsConcat(Decimal(n / 10), [Digit(n % 10)], 0);
    }
  }

  lemma LexNumber(n: nat, rest: string)
    requires Ends(rest)
    ensures LexDigits(Decimal(n) + rest, 0) == (n, rest)
    ensures IsDigit(Decimal(n)[0])
  {
    DecimalDigits(n);
    LexDigitsConcat(Decimal(n), rest, 0);
    LexDecimal(n);
  }

  lemma {:induction false} LexText(text: string, rest: string)
    requires rest == "" || rest[0] != '\''
    ensures LexQuoted(DoubleQuotes(text) + "'" + rest) == Lexed(text, rest)
  {
    var s := DoubleQuotes(text) + "'" + rest;
    if text == "" {
      assert s == "'" + rest && s[1..] == rest;
    } else {
      var tail := DoubleQuotes(text[1..]) + "'" + rest;
      LexText(text[1..], rest);
      if text[0] == '\'' {
        assert s == "''" + tail && s[2..] == tail;
      } else {
        assert s == [text[0]] + tail && s[1..] == tail;
      }
      assert text == [text[0]] + text[1..];
    }
  }

  lemma LexHexByte(byte: Byte, tail: string)
    ensures LexHex([Digit(byte / 16), Digit(byte % 16)] + tail) == Prepend(byte, LexHex(tail))
  {
    DigitValue(byte / 16);
    DigitValue(byte % 16);
    var s := [Digit(byte / 16), Digit(byte % 16)] + tail;
    hide Digit, HexValue;
    assert s[0] == Digit(byte / 16) && s[1] == Digit(byte % 16) && s[2..] == tail;
  }

  lemma {:induction false} LexBlob(bytes: seq<Byte>, rest: string)
    ensures LexHex(Hex(bytes) + "'" + rest) == Lexed(bytes, rest)
  {
    hide Digit;
    var s := Hex(bytes) + "'" + rest;
    if bytes == [] {
      assert s == "'" + rest && s[1..] == rest;
    } else {
      var tail := Hex(bytes[1..]) + "'" + rest;
      assert s == [Digit(bytes[0] / 16), Digit(bytes[0] % 16)] + tail;
      LexBlob(bytes[1..], rest);
      hide LexHex;
      LexHexByte(bytes[0], tail);
      assert bytes == [bytes[0]] + bytes[1..];
    }
  }

  lemma LexPrintedInteger(i: int, rest: string)
    requires Ends(rest)
    ensures LexLiteral(Literal(Integer(i)) + rest) == Lexed(Integer(i), rest)
  {
    hide Decimal;
    var s := Literal(Integer(i)) + rest;
    var n := if i < 0 then -i else i;
    LexNumber(n, rest);
    var number := Decimal(n) + rest;
    assert number[0] == Decimal(n)[0];
    if i < 0 {
      assert s == "-" + number && s[1..] == number && s[1] == number[0];
    }
  }

  lemma LexPrintedText(text: string, rest: string)
    requires Ends(rest)
    ensures LexLiteral(Literal(Text(text)) + rest) == Lexed(Text(text), rest)
  {
    var inside := DoubleQuotes(text) + "'" + rest;
    LexText(text, rest);
    assert Literal(Text(text)) + rest == "'" + inside && ("'" + inside)[1..] == inside;
  }

  lemma LexPrintedBlob(bytes: seq<Byte>, rest: string)
    requires Ends(rest)
    ensures LexLiteral(Literal(Blob(bytes)) + rest) == Lexed(Blob(bytes), rest)
  {
    var inside := Hex(bytes) + "'" + rest;
    LexBlob(bytes, rest);
    assert Literal(Blob(bytes)) + rest == "X'" + inside && ("X'" + inside)[2..] == inside;
  }

  lemma LexPrintedNull(rest: string)
    ensures LexLiteral(Literal(Null) + rest) == Lexed(Null, rest)
  {
    var s := "NULL" + rest;
    assert s[..4] == "NULL" && s[4..] == rest && s[0] == 'N';
  }

  /** A printed literal is read back as its value, up to exactly where it ends. */
  lemma LexPrinted(v: SqlValue, rest: string)
    requires Ends(rest)
    ensures LexLiteral(Literal(v) + rest) == Lexed(v, rest)
  {
    hide LexLiteral, Literal;
    match v
    case Null => LexPrintedNull(rest);
    case Integer(i) => LexPrintedInteger(i, rest);
    case Text(text) => LexPrintedText(text, rest);
    case Blob(bytes) => LexPrintedBlob(bytes, rest);
  }

  lemma LiteralStarts(v: SqlValue)
    ensures Literal(v) != "" && Literal(v)[0] != ')'
  {
    if v.Integer? {
      DecimalDigits(if v.i < 0 then -v.i else v.i);
    }
  }

  // ---------------------------------------------------------------- the list

  /**
   For every list of NULL, integer, text and blob values, the literals printed for an INSERT are read
   back as the same list, whatever quotes, commas or parentheses the texts contain.
   */
  lemma {:induction false} LexPrintedList(values: seq<SqlValue>, rest: string)
    requires rest == "" || rest[0] == ')'
    ensures LexList(Literals(values) + rest) == Lexed(values, rest)
  {
    hide LexLiteral, Literal;
    var s := Literals(values) + rest;
    if |values| == 0 {
      assert s == rest;
    } else {
      LiteralStarts(values[0]);
      assert s[0] == Literal(values[0])[0];
      if |values| == 1 {
        LexPrinted(values[0], rest);
        assert values == [values[0]];
      } else {
        var tail := Literals(values[1..]) + rest;
        var more := ", " + tail;
        assert s == Literal(values[0]) + more;
        LexPrinted(values[0], more);
        LexPrintedList(values[1..], rest);
        assert more[..2] == ", " && more[2..] == tail;
        assert values == [values[0]] + values[1..];
      }
    }
  }

  /** Two lists that print the same are the same. */
  lemma PrintedOnce(a: seq<SqlValue>, b: seq<SqlValue>)
    requires Literals(a) == Literals(b)
    ensures a == b
  {
    LexPrintedList(a, "");
    LexPrintedList(b, "");
  }

  /** The values part of an INSERT statement, with the statement around it. */
  lemma InsertValues(table: string, columns: seq<string>, values: seq<SqlValue>)
    ensures var front := "INSERT INTO " + table + " (" + JoinNames(columns) + ") VALUES (";
            && |front| <= |Insert(table, columns, values)|
            && LexList(Insert(table, columns, values)[|front|..]) == Lexed(values, ")")
  {
    var front := "INSERT INTO " + table + " (" + JoinNames(columns) + ") VALUES (";
    assert Insert(table, columns, values) == front + (Literals(values) + ")");
    assert Insert(table, columns, values)[|front|..] == Literals(values) + ")";
    LexPrintedList(values, ")");
  }

  // ---------------------------------------------------------------- the whole statement

  /** Characters that end a name. */
  predicate Delimits(c: char) {
    c == ' ' || c == ',' || c == '(' || c == ')'
  }

  /** A plain name, as the generators produce them. */
  predicate IsName(name: string) {
    name != "" && forall i :: 0 <= i < |name| ==> !Delimits(name[i])
  }

  function LexName(s: string): (r: (string, string))
    ensures |r.1| <= |s| && (s != "" && !Delimits(s[0]) ==> |r.1| < |s|)
  {
    if s == "" || Delimits(s[0]) then ("", s)
    else var r := LexName(s[1..]); ([s[0]] + r.0, r.1)
  }

  /** Names separated by a comma and a blank, up to a closing parenthesis. */
  function LexNames(s: string): Lexed<seq<string>>
    decreases |s|
  {
    if s == "" then Stuck
    else if s[0] == ')' then Lexed([], s)
    else
      var (name, rest) := LexName(s);
      if name == "" then Stuck
      else if |rest| >= 2 && rest[..2] == ", " then Prepend(name, LexNames(rest[2..]))
      else Lexed([name], rest)
  }

  /** What follows `token` at the front of the text. */
  function After(s: string, token: string): Option<string> {
    if |token| <= |s| && s[..|token|] == token then Some(s[|token|..]) else None
  }

  datatype Statement = Statement(table: string, columns: seq<string>, values: seq<SqlValue>)

  function LexInsert(s: string): Option<Statement> {
    var s1 := After(s, "INSERT INTO ");
    if s1.None? then None
    else
      var (table, r1) := LexName(s1.value);
      var s2 := After(r1, " (");
      if s2.None? then None
      else
        var names := LexNames(s2.value);
        if names.Stuck? then None
        else
          var s3 := After(names.rest, ") VALUES (");
          if s3.None? then None
          else
            var values := LexList(s3.value);
            if values.Stuck? || values.rest != ")" then None
            else Some(Statement(table, names.value, values.value))
  }

  lemma {:induction false} LexPlainName(name: string, rest: string)
    requires forall i :: 0 <= i < |name| ==> !Delimits(name[i])
    requires rest == "" || Delimits(rest[0])
    ensures LexName(name + rest) == (name, rest)
  {
    if name == "" {
      assert name + rest == rest;
    } else {
      LexPlainName(name[1..], rest);
      assert (name + rest)[1..] == name[1..] + rest;
      assert name == [name[0]] + name[1..];
    }
  }

  lemma {:induction false} LexJoinedNames(names: seq<string>, rest: string)
    requires (forall i :: 0 <= i < |names| ==> IsName(names[i])) && rest != "" && rest[0] == ')'
    ensures LexNames(JoinNames(names) + rest) == Lexed(names, rest)
  {
    var s := JoinNames(names) + rest;
    if |names| == 0 {
      assert s == rest;
    } else {
      assert s[0] == names[0][0];
      if |names| == 1 {
        LexPlainName(names[0], rest);
        assert names == [names[0]];
      } else {
        var tail := JoinNames(names[1..]) + rest;
        var more := ", " + tail;
        assert s == names[0] + more;
        LexPlainName(names[0], more);
        LexJoinedNames(names[1..], rest);
        assert more[..2] == ", " && more[2..] == tail;
        assert names == [names[0]] + names[1..];
      }
    }
  }

  lemma AfterToken(token: string, rest: string)
    ensures After(token + rest, token) == Some(rest)
  {
  }

  /**
   A whole INSERT statement is read back: its table, its columns in order, and its values in order,
   whatever the texts and blobs contain.
   */
  lemma LexPrintedInsert(table: string, columns: seq<string>, values: seq<SqlValue>)
    requires IsName(table) && forall i :: 0 <= i < |columns| ==> IsName(columns[i])
    ensures LexInsert(Insert(table, columns, values)) == Some(Statement(table, columns, values))
  {
    hide LexNames, JoinNames, Literals, LexName, LexList;
    var r4 := Literals(values) + ")";
    var r3 := ") VALUES (" + r4;
    var r2 := JoinNames(columns) + r3;
    var r1 := " (" + r2;
    assert Insert(table, columns, values) == "INSERT INTO " + (table + r1);
    AfterToken("INSERT INTO ", table + r1);
    LexPlainName(table, r1);
    AfterToken(" (", r2);
    LexJoinedNames(columns, r3);
    AfterToken(") VALUES (", r4);
    LexPrintedList(values, ")");
  }
}
