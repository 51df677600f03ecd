/**
 * The CSV text of the exporters (apps/frontend/src/lib/exportToCSV.ts) and a
 * reader for the format of section 2 of RFC 4180, with a line feed as the line
 * break.  Handing the text to the browser is not part of this model.
 */
module Csv {
  import opened Prelude

  type Cells = seq<string>

  // ---------------------------------------------------------------- the printer

  function Escape(cell: string): string {
    if cell == "" then ""
    else (if cell[0] == '"' then "\"\"" else [cell[0]]) + Escape(cell[1..])
  }

  function Quote(cell: string): string {
    "\"" + Escape(cell) + "\""
  }

  /** `Array.prototype.join` */
  function Join(parts: seq<string>, separator: string): string {
    if parts == [] then ""
    else if |parts| == 1 then parts[0]
    else parts[0] + separator + Join(parts[1..], separator)
  }

  function Quotes(cells: Cells): seq<string> {
    if cells == [] then [] else [Quote(cells[0])] + Quotes(cells[1..])
  }

  function Line(cells: Cells): string {
    Join(Quotes(cells), ",")
  }

  function Lines(table: seq<Cells>): seq<string> {
    if table == [] then [] else [Line(table[0])] + Lines(table[1..])
  }

  /** `csvContent` */
  function Content(headers: Cells, rows: seq<Cells>): string {
    Join(Lines([headers] + rows), "\n")
  }

  // ---------------------------------------------------------------- the reader

  datatype Mode = Start | Bare | Quoted | QuoteSeen

  /**
   * Reads on from inside a record: `field` and `row` are what has been read of
   * the current field and record.  A doubled quote inside quotes is a quote;
   * a bare field holds none; the last line break may be missing.
   */
  function Scan(s: string, mode: Mode, field: string, row: Cells, done: seq<Cells>): Option<seq<Cells>> {
    if s == "" then
      if mode == Quoted then None
      else if mode == Start && row == [] && done != [] then Some(done)
      else Some(done + [row + [field]])
    else
      var c, rest := s[0], s[1..];
      match mode
      case Quoted => if c == '"' then Scan(rest, QuoteSeen, field, row, done) else Scan(rest, Quoted, field + [c], row, done)
      case _ =>
        if c == ',' then Scan(rest, Start, "", row + [field], done)
        else if c == '\n' then Scan(rest, Start, "", [], done + [row + [field]])
        else if c == '"' then
          match mode
          case Start => Scan(rest, Quoted, "", row, done)
          case QuoteSeen => Scan(rest, Quoted, field + [c], row, done)
          case _ => None
        else if mode == QuoteSeen then None
        else Scan(rest, Bare, field + [c], row, done)
  }

  function Read(text: string): Option<seq<Cells>> {
    Scan(text, Start, "", [], [])
  }

  // ---------------------------------------------------------------- round trip

  lemma {:induction false} ScanEscaped(cell: string, rest: string, field: string, row: Cells, done: seq<Cells>)
    ensures Scan(Escape(cell) + "\"" + rest, Quoted, field, row, done) == Scan(rest, QuoteSeen, field + cell, row, done)
  {
    var s := Escape(cell) + "\"" + rest;
    if cell == "" {
      assert s[1..] == rest && field + cell == field;
    } else {
      var c := cell[0];
      var tail := Escape(cell[1..]) + "\"" + rest;
      ScanEscaped(cell[1..], rest, field + [c], row, done);
      assert field + [c] + cell[1..] == field + cell;
      if c == '"' {
        assert s[1..] == "\"" + tail && s[1..][1..] == tail;
      } else {
        assert s[1..] == tail;
      }
    }
  }

  /** A quoted cell at the start of a field is read whole. */
  lemma {:induction false} ScanQuoted(cell: string, rest: string, row: Cells, done: seq<Cells>)
    ensures Scan(Quote(cell) + rest, Start, "", row, done) == Scan(rest, QuoteSeen, cell, row, done)
  {
    var s := Quote(cell) + rest;
    assert s[1..] == Escape(cell) + "\"" + rest;
    ScanEscaped(cell, rest, "", row, done);
    assert "" + cell == cell;
  }

  lemma {:induction false} ScanLine(cells: Cells, rest: string, row: Cells, done: seq<Cells>)
    requires cells != []
    ensures var n := |cells| - 1;
      Scan(Line(cells) + rest, Start, "", row, done) == Scan(rest, QuoteSeen, cells[n], row + cells[..n], done)
  {
    if |cells| == 1 {
      ScanQuoted(cells[0], rest, row, done);
      assert row + cells[..0] == row;
    } else {
      var tail := Line(cells[1..]) + rest;
      LineStarts(cells, rest);
      ScanQuoted(cells[0], "," + tail, row, done);
      ScanComma(cells[0], tail, row, done);
      ScanLine(cells[1..], rest, row + [cells[0]], done);
      RowSplit(row, cells);
    }
  }

  lemma {:induction false} LineStarts(cells: Cells, rest: string)
    requires |cells| > 1
    ensures Line(cells) + rest == Quote(cells[0]) + ("," + (Line(cells[1..]) + rest))
  {}

  lemma {:induction false} RowSplit(row: Cells, cells: Cells)
    requires |cells| > 1
    ensures row + [cells[0]] + cells[1..][..|cells| - 2] == row + cells[..|cells| - 1]
  {}

  lemma {:induction false} ScanComma(cell: string, tail: string, row: Cells, done: seq<Cells>)
    ensures Scan("," + tail, QuoteSeen, cell, row, done) == Scan(tail, Start, "", row + [cell], done)
  {
    assert ("," + tail)[1..] == tail;
  }

  lemma {:induction false} ScanBreak(cell: string, tail: string, row: Cells, done: seq<Cells>)
    ensures Scan("\n" + tail, QuoteSeen, cell, row, done) == Scan(tail, Start, "", [], done + [row + [cell]])
  {
    assert ("\n" + tail)[1..] == tail;
  }

  lemma {:induction false} ScanTable(table: seq<Cells>, done: seq<Cells>)
    requires table != [] && AllFilled(table)
    ensures Scan(Join(Lines(table), "\n"), Start, "", [], done) == Some(done + table)
  {
    var first := table[0];
    var n := |first| - 1;
    assert [] + first[..n] == first[..n] && first[..n] + [first[n]] == first;
    if |table| == 1 {
      ScanLine(first, "", [], done);
      assert Line(first) + "" == Line(first);
      assert done + [first] == done + table;
    } else {
      var tail := Join(Lines(table[1..]), "\n");
      assert Join(Lines(table), "\n") == Line(first) + ("\n" + tail);
      ScanLine(first, "\n" + tail, [], done);
      ScanBreak(first[n], tail, first[..n], done);
      ScanTable(table[1..], done + [first]);
      assert done + [first] + table[1..] == done + table;
    }
  }

  /** Every row has a cell. */
  predicate AllFilled(table: seq<Cells>) {
    forall i :: 0 <= i < |table| ==> table[i] != []
  }

  /** The reader never answers a record without a field. */
  lemma {:induction false} ScanFills(s: string, mode: Mode, field: string, row: Cells, done: seq<Cells>)
    requires AllFilled(done)
    ensures var read := Scan(s, mode, field, row, done); read.Some? ==> AllFilled(read.value)
    decreases |s|
  {
    if s != "" {
      var c, rest := s[0], s[1..];
      if mode == Quoted {
        if c == '"' { ScanFills(rest, QuoteSeen, field, row, done); } else { ScanFills(rest, Quoted, field + [c], row, done); }
      } else if c == ',' {
        ScanFills(rest, Start, "", row + [field], done);
      } else if c == '\n' {
        ScanFills(rest, Start, "", [], done + [row + [field]]);
      } else if c == '"' {
        ScanFills(rest, Quoted, "", row, done);
        ScanFills(rest, Quoted, field + [c], row, done);
      } else {
        ScanFills(rest, Bare, field + [c], row, done);
      }
    }
  }

  /**
   * Whatever the cells contain - quotes, commas, line breaks - reading the
   * text back gives exactly the header and the rows, if and only if each has
   * a cell; a record without cells cannot be written in the format.
   */
  lemma {:induction false} ReadsBackIff(headers: Cells, rows: seq<Cells>)
    ensures Read(Content(headers, rows)) == Some([headers] + rows) <==> headers != [] && AllFilled(rows)
  {
    var table := [headers] + rows;
    if headers != [] && AllFilled(rows) {
      ScanTable(table, []);
      assert [] + table == table;
    } else {
      ScanFills(Content(headers, rows), Start, "", [], []);
      assert !AllFilled(table) by {
        if headers != [] {
          var i :| 0 <= i < |rows| && rows[i] == [];
          assert table[i + 1] == [];
        } else {
          assert table[0] == [];
        }
      }
    }
  }

  /** Different tables have different texts. */
  lemma {:induction false} ContentInjective(headers: Cells, rows: seq<Cells>, headers': Cells, rows': seq<Cells>)
    requires headers != [] && AllFilled(rows) && headers' != [] && AllFilled(rows')
    requires Content(headers, rows) == Content(headers', rows')
    ensures headers == headers' && rows == rows'
  {
    ReadsBackIff(headers, rows);
    ReadsBackIff(headers', rows');
    assert ([headers] + rows)[0] == headers && ([headers] + rows)[1..] == rows;
    assert ([headers'] + rows')[0] == headers' && ([headers'] + rows')[1..] == rows';
  }

  // ---------------------------------------------------------------- the exporters

  datatype Transaction = Transaction(purchaseId: string, event: string, transferInitiated: string, transferCompleted: string, amount: real, status: string)

  datatype Wallet = Wallet(address: string, network: string, isPrimary: bool)

  const TRANSACTION_HEADERS: Cells := ["Purchase ID", "Event", "Transfer Initiated", "Transfer Completed", "Amount (USD)", "Status"]

  const WALLET_HEADERS: Cells := ["Address", "Network", "Primary"]

  function Digit(v: nat): char
    requires v < 10
  {
    '0' + v as char
  }

  /** The decimal digits of a number, without leading zeros. */
  function Decimal(n: nat): string {
    (if n < 10 then "" else Decimal(n / 10)) + [Digit(n % 10)]
  }

  /** The number of hundredths nearest to `x`, the larger one when two are. */
  function Hundredths(x: real): int {
    (x * 100.0 + 0.5).Floor
  }

  /** A number of hundredths with its two decimals. */
  function Hundreds(n: nat): string {
    Decimal(n / 100) + "." + [Digit(n / 10 % 10), Digit(n % 10)]
  }

  function Size(x: real): real {
    if x < 0.0 then 0.0 - x else x
  }

  /** `toFixed(2)`; the sign stays even where the digits are all zero. */
  function Fixed2(x: real): string {
    Signed(x < 0.0, Hundredths(Size(x)))
  }

  function Signed(negative: bool, n: nat): string {
    (if negative then "-" else "") + Hundreds(n)
  }

  function TransactionCells(t: Transaction): Cells {
    [t.purchaseId, t.event, t.transferInitiated, t.transferCompleted, Fixed2(t.amount), t.status]
  }

  function WalletCells(w: Wallet): Cells {
    [w.address, w.network, if w.isPrimary then "Yes" else "No"]
  }

  function TransactionRows(ts: seq<Transaction>): seq<Cells> {
    seq(|ts|, i requires 0 <= i < |ts| => TransactionCells(ts[i]))
  }

  function WalletRows(ws: seq<Wallet>): seq<Cells> {
    seq(|ws|, i requires 0 <= i < |ws| => WalletCells(ws[i]))
  }

  /** `exportTransactionsToCSV` */
  function TransactionsText(ts: seq<Transaction>): string {
    Content(TRANSACTION_HEADERS, TransactionRows(ts))
  }

  /** `exportWalletsToCSV` */
  function WalletsText(ws: seq<Wallet>): string {
    Content(WALLET_HEADERS, WalletRows(ws))
  }

  /** The same transaction, up to the rounding of the amount to hundredths. */
  predicate PrintsAs(t: Transaction, u: Transaction) {
    && t.purchaseId == u.purchaseId && t.event == u.event && t.status == u.status
    && t.transferInitiated == u.transferInitiated && t.transferCompleted == u.transferCompleted
    && (t.amount < 0.0 <==> u.amount < 0.0) && Hundredths(Size(t.amount)) == Hundredths(Size(u.amount))
  }

  /** The number that decimal digits stand for. */
  function NumberOf(s: string): int {
    if s == "" then 0 else NumberOf(s[..|s| - 1]) * 10 + (s[|s| - 1] as int - '0' as int)
  }

  lemma {:induction false} DecimalIs(n: nat)
    ensures NumberOf(Decimal(n)) == n && Decimal(n) != "" && '0' <= Decimal(n)[0] <= '9'
  {
    if n >= 10 {
      DecimalIs(n / 10);
      assert Decimal(n)[..|Decimal(n)| - 1] == Decimal(n / 10);
    } else {
      assert Decimal(n) == [Digit(n)] && [Digit(n)][..0] == "";
      assert NumberOf("") == 0;
    }
  }

  lemma {:induction false} HundredsDiffer(m: nat, n: nat)
    requires Hundreds(m) == Hundreds(n)
    ensures m == n
  {
    var x, y := Hundreds(m), Hundreds(n);
    var a, b := Decimal(m / 100), Decimal(n / 100);
    assert |x| == |a| + 3 && |y| == |b| + 3;
    assert a == x[..|a|] && b == y[..|b|];
    assert x[|a| + 1] == Digit(m / 10 % 10) && x[|a| + 2] == Digit(m % 10);
    assert y[|b| + 1] == Digit(n / 10 % 10) && y[|b| + 2] == Digit(n % 10);
    DecimalIs(m / 100);
    DecimalIs(n / 100);
    DigitsDecide(m, n);
  }

  lemma {:induction false} DigitsDecide(m: nat, n: nat)
    requires m / 100 == n / 100 && m / 10 % 10 == n / 10 % 10 && m % 10 == n % 10
    ensures m == n
  {
    TenthOfTenth(m);
    TenthOfTenth(n);
    assert m / 10 == m / 10 / 10 * 10 + m / 10 % 10 && n / 10 == n / 10 / 10 * 10 + n / 10 % 10;
    assert m == m / 10 * 10 + m % 10 && n == n / 10 * 10 + n % 10;
  }

  lemma {:induction false} TenthOfTenth(n: nat)
    ensures n / 10 / 10 == n / 100
  {}

  lemma {:induction false} SignShows(negative: bool, n: nat)
    ensures var s := Signed(negative, n); s != "" && (s[0] == '-' <==> negative) && Hundreds(n) == if negative then s[1..] else s
  {
    DecimalIs(n / 100);
    assert Hundreds(n)[0] == Decimal(n / 100)[0];
    assert ("-" + Hundreds(n))[1..] == Hundreds(n);
    assert "" + Hundreds(n) == Hundreds(n);
  }

  /** Two amounts print alike exactly when they have one sign and round to the same hundredth. */
  lemma {:induction false} Fixed2Iff(x: real, y: real)
    ensures Fixed2(x) == Fixed2(y) <==> (x < 0.0 <==> y < 0.0) && Hundredths(Size(x)) == Hundredths(Size(y))
  {
    SignedIff(x < 0.0, Hundredths(Size(x)), y < 0.0, Hundredths(Size(y)));
  }

  lemma {:induction false} SignedIff(a: bool, m: nat, b: bool, n: nat)
    ensures Signed(a, m) == Signed(b, n) <==> a == b && m == n
  {
    if Signed(a, m) == Signed(b, n) {
      SignShows(a, m);
      SignShows(b, n);
      HundredsDiffer(m, n);
    }
  }

  /** The number of hundredths nearest to an amount; of two equally near, the larger. */
  predicate IsNearest(n: int, hundredths: real) {
    n as real - 0.5 <= hundredths < n as real + 0.5
  }

  /**
   * The printed amount: a minus sign for negative ones, digits, a point and
   * two digits, which together are the nearest number of hundredths.
   */
  lemma {:induction false} Fixed2IsNearest(x: real)
    ensures var s := Fixed2(x); var digits := if x < 0.0 then s[1..] else s; var n := |digits| - 3;
      && s != "" && (s[0] == '-' <==> x < 0.0)
      && n >= 1 && digits[n] == '.'
      && IsNearest(NumberOf(digits[..n]) * 100 + NumberOf(digits[n + 1..]), (if x < 0.0 then 0.0 - x else x) * 100.0)
  {
    var m := Hundredths(Size(x));
    SignShows(x < 0.0, m);
    HundredsAre(m);
  }

  lemma {:induction false} HundredsAre(m: nat)
    ensures var digits := Hundreds(m); var n := |digits| - 3;
      n >= 1 && digits[n] == '.' && NumberOf(digits[..n]) * 100 + NumberOf(digits[n + 1..]) == m
  {
    var a := Decimal(m / 100);
    DecimalIs(m / 100);
    var digits := Hundreds(m);
    assert digits[..|a|] == a && digits[|a| + 1..] == [Digit(m / 10 % 10), Digit(m % 10)];
    TwoDigits(m / 10 % 10, m % 10);
    TenthOfTenth(m);
    assert m / 10 == m / 10 / 10 * 10 + m / 10 % 10 && m == m / 10 * 10 + m % 10;
  }

  lemma {:induction false} TwoDigits(a: nat, b: nat)
    requires a < 10 && b < 10
    ensures NumberOf([Digit(a), Digit(b)]) == a * 10 + b
  {
    assert [Digit(a), Digit(b)][..1] == [Digit(a)] && [Digit(a)][..0] == "";
    assert NumberOf("") == 0;
    assert NumberOf([Digit(a)]) == a;
  }

  lemma {:induction false} SameCells(t: Transaction, u: Transaction)
    ensures TransactionCells(t) == TransactionCells(u) <==> PrintsAs(t, u)
  {
    Fixed2Iff(t.amount, u.amount);
    SixCells(TransactionCells(t), TransactionCells(u));
  }

  lemma {:induction false} SixCells(a: Cells, b: Cells)
    requires |a| == |b| == 6
    ensures a == b <==> a[0] == b[0] && a[1] == b[1] && a[2] == b[2] && a[3] == b[3] && a[4] == b[4] && a[5] == b[5]
  {}

  lemma {:induction false} SameRows(ts: seq<Transaction>, us: seq<Transaction>)
    ensures TransactionRows(ts) == TransactionRows(us) <==>
      |ts| == |us| && forall i :: 0 <= i < |ts| ==> PrintsAs(ts[i], us[i])
  {
    var rows, rows' := TransactionRows(ts), TransactionRows(us);
    if |ts| == |us| {
      forall i | 0 <= i < |ts| ensures rows[i] == rows'[i] <==> PrintsAs(ts[i], us[i]) {
        SameCells(ts[i], us[i]);
      }
      assert rows == rows' <==> forall i :: 0 <= i < |ts| ==> rows[i] == rows'[i];
    } else {
      assert |rows| == |ts| && |rows'| == |us|;
    }
  }

  /** A row of the transaction table, column by column. */
  predicate ShowsTransaction(cells: Cells, t: Transaction) {
    && |cells| == 6
    && cells[0] == t.purchaseId && cells[1] == t.event && cells[2] == t.transferInitiated
    && cells[3] == t.transferCompleted && cells[4] == Fixed2(t.amount) && cells[5] == t.status
  }

  predicate ShowsWallet(cells: Cells, w: Wallet) {
    |cells| == 3 && cells[0] == w.address && cells[1] == w.network && cells[2] == if w.isPrimary then "Yes" else "No"
  }

  /** What an exported transaction list reads back as: the six headings, and one row for each transaction. */
  lemma {:induction false} TransactionsReadBack(ts: seq<Transaction>)
    ensures var read := Read(TransactionsText(ts));
      && read.Some? && |read.value| == |ts| + 1
      && read.value[0] == ["Purchase ID", "Event", "Transfer Initiated", "Transfer Completed", "Amount (USD)", "Status"]
      && forall i :: 0 <= i < |ts| ==> ShowsTransaction(read.value[i + 1], ts[i])
  {
    var rows := TransactionRows(ts);
    assert AllFilled(rows);
    assert Read(TransactionsText(ts)) == Some([TRANSACTION_HEADERS] + rows) by { ReadsBackIff(TRANSACTION_HEADERS, rows); }
    forall i | 0 <= i < |ts| ensures ShowsTransaction(([TRANSACTION_HEADERS] + rows)[i + 1], ts[i]) {
      assert ([TRANSACTION_HEADERS] + rows)[i + 1] == TransactionCells(ts[i]);
      CellsShow(ts[i]);
    }
  }

  lemma {:induction false} CellsShow(t: Transaction)
    ensures ShowsTransaction(TransactionCells(t), t)
  {}

  /** Two exported lists have one text exactly when every field is the same, amounts up to rounding to hundredths. */
  lemma {:induction false} TransactionsRecovered(ts: seq<Transaction>, us: seq<Transaction>)
    ensures TransactionsText(ts) == TransactionsText(us) <==>
      |ts| == |us| && forall i :: 0 <= i < |ts| ==> PrintsAs(ts[i], us[i])
  {
    SameRows(ts, us);
    SameText(TRANSACTION_HEADERS, TransactionRows(ts), TransactionRows(us));
  }

  lemma {:induction false} SameText(headers: Cells, rows: seq<Cells>, rows': seq<Cells>)
    requires headers != [] && AllFilled(rows) && AllFilled(rows')
    ensures Content(headers, rows) == Content(headers, rows') <==> rows == rows'
  {
    if Content(headers, rows) == Content(headers, rows') { ContentInjective(headers, rows, headers, rows'); }
  }

  lemma {:induction false} WalletCellsDiffer(w: Wallet, v: Wallet)
    requires WalletCells(w) == WalletCells(v)
    ensures w == v
  {
    var a, b := WalletCells(w), WalletCells(v);
    assert a[0] == b[0] && a[1] == b[1] && a[2] == b[2];
    assert "Yes"[0] != "No"[0];
  }

  lemma {:induction false} WalletRowsDiffer(ws: seq<Wallet>, vs: seq<Wallet>)
    requires WalletRows(ws) == WalletRows(vs)
    ensures ws == vs
  {
    assert |ws| == |WalletRows(ws)| == |vs|;
    forall i | 0 <= i < |ws| ensures ws[i] == vs[i] {
      assert WalletRows(ws)[i] == WalletRows(vs)[i];
      WalletCellsDiffer(ws[i], vs[i]);
    }
  }

  /** What an exported wallet list reads back as: the three headings, and one row for each wallet. */
  lemma {:induction false} WalletsReadBack(ws: seq<Wallet>)
    ensures var read := Read(WalletsText(ws));
      && read.Some? && |read.value| == |ws| + 1
      && read.value[0] == ["Address", "Network", "Primary"]
      && forall i :: 0 <= i < |ws| ==> ShowsWallet(read.value[i + 1], ws[i])
  {
    ReadsBackIff(WALLET_HEADERS, WalletRows(ws));
  }

  /** An exported wallet list determines the wallets. */
  lemma {:induction false} WalletsRecovered(ws: seq<Wallet>, vs: seq<Wallet>)
    ensures WalletsText(ws) == WalletsText(vs) ==> ws == vs
  {
    SameText(WALLET_HEADERS, WalletRows(ws), WalletRows(vs));
    if WalletsText(ws) == WalletsText(vs) { WalletRowsDiffer(ws, vs); }
  }
}
