/**
 * Employee contract records: the line-oriented reader `parseAndStoreData`,
 * which fills a map keyed by `"last first middle"`, the aggregate queries over
 * one employee's contracts, `removeEmployee`, and the relabelling of contract
 * numbers.
 *
 * The data file is the sequence of lines `getline` yields. A record is a name
 * line, one skipped line (the opening brace), then contract lines up to a line
 * that is exactly `}` or the end of the input; empty lines between records are
 * skipped.
 */
module EmployeeContracts {
  import opened Text
  import opened Seqs

  datatype Contract = Contract(number: string, startDate: string, endDate: string, work: string, cost: int)

  datatype Employee = Employee(lastName: string, firstName: string, middleName: string, contracts: seq<Contract>)

  /** The key of the employee map: `lastName + " " + firstName + " " + middleName`. */
  function KeyOf(lastName: string, firstName: string, middleName: string): string {
    lastName + " " + firstName + " " + middleName
  }

  function Key(e: Employee): string {
    KeyOf(e.lastName, e.firstName, e.middleName)
  }

  /* ---------- reading an `int` with `operator>>` ---------- */

  const INT_MIN := -0x8000_0000
  const INT_MAX := 0x7FFF_FFFF

  predicate IsDigit(c: char) {
    '0' <= c <= '9'
  }

  /** Length of the run of decimal digits at the start of `s`. */
  function DigitRun(s: string): (n: nat)
    ensures n <= |s|
  {
    if s == [] || !IsDigit(s[0]) then 0 else 1 + DigitRun(s[1..])
  }

  /** The run of digits is all of a string made of digits only. */
  lemma {:induction false} AllDigitsRun(s: string)
    requires forall i :: 0 <= i < |s| ==> IsDigit(s[i])
    ensures DigitRun(s) == |s|
    decreases |s|
  {
    if s != [] {
      AllDigitsRun(s[1..]);
    }
  }

  function DigitOf(c: char): nat {
    if IsDigit(c) then c as int - '0' as int else 0
  }

  /** The number a string of decimal digits denotes. */
  function DigitsValue(s: string): nat {
    if s == [] then 0 else 10 * DigitsValue(s[..|s| - 1]) + DigitOf(s[|s| - 1])
  }

  /** Out-of-range values are stored as the nearest limit of a 32-bit `int`. */
  function Clamp(x: int): (r: int)
    ensures INT_MIN <= r <= INT_MAX
    ensures INT_MIN <= x <= INT_MAX ==> r == x
    ensures x > INT_MAX ==> r == INT_MAX
    ensures x < INT_MIN ==> r == INT_MIN
  {
    if x > INT_MAX then INT_MAX else if x < INT_MIN then INT_MIN else x
  }

  /**
   * `stream >> cost` on a token: an optional sign and the decimal digits that
   * follow it; no digit at all is a failed extraction, which stores 0.
   */
  function ParseInt(tok: string): (r: int)
    ensures INT_MIN <= r <= INT_MAX
  {
    var signed := |tok| > 0 && (tok[0] == '-' || tok[0] == '+');
    var digits := if signed then tok[1..] else tok;
    var n := DigitRun(digits);
    if n == 0 then 0
    else
      var v: int := DigitsValue(digits[..n]);
      Clamp(if signed && tok[0] == '-' then -v else v)
  }

  /** The decimal digits of `n`, most significant first. */
  function NatDigits(n: nat): (s: string)
    ensures |s| > 0 && forall i :: 0 <= i < |s| ==> IsDigit(s[i])
  {
    var d := ['0' + (n % 10) as char];
    if n < 10 then d else NatDigits(n / 10) + d
  }

  /** How an `int` is written: a minus sign for negative values, then its digits. */
  function Decimal(n: int): string {
    if n < 0 then "-" + NatDigits(-n) else NatDigits(n)
  }

  lemma {:induction false} NatDigitsValue(n: nat)
    ensures DigitsValue(NatDigits(n)) == n
    decreases n
  {
    var s := NatDigits(n);
    if n >= 10 {
      NatDigitsValue(n / 10);
      assert s[..|s| - 1] == NatDigits(n / 10);
    }
  }

  /** Reading back a written `int` gives the same value. */
  lemma ParseDecimal(n: int)
    requires INT_MIN <= n <= INT_MAX
    ensures ParseInt(Decimal(n)) == n
  {
    var m: nat := if n < 0 then -n else n;
    var digits := NatDigits(m);
    NatDigitsValue(m);
    AllDigitsRun(digits);
    assert digits[..|digits|] == digits;
    if n < 0 {
      assert Decimal(n)[1..] == digits;
    }
  }

  /** A written `int` is one whitespace-free token. */
  lemma DecimalIsWord(n: int)
    ensures IsWord(Decimal(n))
  {
    var digits := NatDigits(if n < 0 then -n else n);
    var w := Decimal(n);
    forall i | 0 <= i < |w| ensures !IsSpace(w[i]) {
      if n < 0 && i > 0 {
        assert w[i] == digits[i - 1];
      } else if n >= 0 {
        assert IsDigit(digits[i]);
      }
    }
  }

  /* ---------- one contract line ---------- */

  /** Token `k`, or the empty string the target keeps when the extraction fails. */
  function TokenOr(ts: seq<string>, k: nat): string {
    if k < |ts| then ts[k] else ""
  }

  /**
   * A contract line read token by token into a fresh `Contract`: tokens 2, 4, 6
   * and 8 (counting from 1) are the number, start date, end date and work, token
   * 10 the cost; the others are labels read into `temp`. A line with one token
   * leaves that token in `temp`, and so in `number`. A missing cost is modelled
   * as 0.
   */
  function ParseContract(line: string): (c: Contract)
    ensures INT_MIN <= c.cost <= INT_MAX
  {
    var ts := Tokens(line);
    Contract(
      if |ts| >= 2 then ts[1] else TokenOr(ts, 0),
      TokenOr(ts, 3), TokenOr(ts, 5), TokenOr(ts, 7),
      if |ts| >= 10 then ParseInt(ts[9]) else 0)
  }

  /** The lines of a contract block read as contracts, in order. */
  function ParseLines(block: seq<string>): (r: seq<Contract>)
    ensures |r| == |block| && forall i :: 0 <= i < |block| ==> r[i] == ParseContract(block[i])
  {
    MapSeqEach(ParseContract, block);
    MapSeq(ParseContract, block)
  }

  /* ---------- records ---------- */

  /** The line that ends a contract block: exactly `}`. */
  predicate IsClosing(line: string) {
    line == "}"
  }

  /** The number of lines before the first line that is exactly `}` (all of them when there is none). */
  function BlockLen(lines: seq<string>): (n: nat)
    ensures n <= |lines|
  {
    if lines == [] || IsClosing(lines[0]) then 0 else 1 + BlockLen(lines[1..])
  }

  /** The employee a name line starts: its first three tokens, empty when missing. */
  function NameOf(line: string, contracts: seq<Contract>): Employee {
    var ts := Tokens(line);
    Employee(TokenOr(ts, 0), TokenOr(ts, 1), TokenOr(ts, 2), contracts)
  }

  /** A record as the file lays it out: its name line and the lines of its contract block. */
  datatype RecordText = RecordText(nameLine: string, block: seq<string>)

  /**
   * The records of `lines`, in file order: empty lines are skipped; a record is
   * a name line, one line that is skipped (the `{`), and the lines up to the
   * first `}` line or the end of the input; reading goes on after the `}`.
   */
  function Layout(lines: seq<string>): (rs: seq<RecordText>)
    ensures |rs| <= |lines|
    decreases |lines|
  {
    if lines == [] then []
    else if |lines[0]| == 0 then Layout(lines[1..])
    else
      var body := if |lines| >= 2 then lines[2..] else [];
      var n := BlockLen(body);
      [RecordText(lines[0], body[..n])] + Layout(if n < |body| then body[n + 1..] else [])
  }

  /**
   * A non-empty line at `i` starts a record whose block runs from `b` up to
   * `k`; reading goes on after the `}` at `k`, if there is one.
   */
  lemma LayoutAt(lines: seq<string>, i: nat, b: nat, k: nat)
    requires i < |lines| && |lines[i]| != 0
    requires b == if i + 2 <= |lines| then i + 2 else |lines|
    requires b <= k <= |lines| && k - b == BlockLen(lines[b..])
    ensures Layout(lines[i..])
         == [RecordText(lines[i], lines[b..k])] + Layout(lines[if k < |lines| then k + 1 else k..])
  {
    var s := lines[i..];
    var body := if |s| >= 2 then s[2..] else [];
    assert s[0] == lines[i];
    assert body == lines[b..];
    assert body[..k - b] == lines[b..k];
    if k < |lines| {
      assert body[k - b + 1..] == lines[k + 1..];
    } else {
      assert lines[k..] == [];
    }
  }

  /** An empty line is skipped. */
  lemma LayoutSkip(lines: seq<string>, i: nat)
    requires i < |lines| && |lines[i]| == 0
    ensures Layout(lines[i..]) == Layout(lines[i + 1..])
  {
    assert lines[i..][0] == lines[i];
    assert lines[i..][1..] == lines[i + 1..];
  }

  /** The employee a record describes. */
  function ReadRecordText(r: RecordText): Employee {
    NameOf(r.nameLine, ParseLines(r.block))
  }

  function ReadAll(rs: seq<RecordText>): seq<Employee> {
    MapSeq(ReadRecordText, rs)
  }

  /** The employees of a data file, in file order; each record takes at least one line. */
  function Records(lines: seq<string>): (r: seq<Employee>)
    ensures |r| <= |lines|
  {
    ReadAll(Layout(lines))
  }

  /** `employees[key] = e` for each record in turn. */
  function InsertAll(m: map<string, Employee>, es: seq<Employee>): (r: map<string, Employee>)
    ensures r.Keys == m.Keys + set e | e in es :: Key(e)
    decreases |es|
  {
    if es == [] then m else InsertAll(m[Key(es[0]) := es[0]], es[1..])
  }

  /** Every employee is stored under its own key. */
  predicate KeyedByName(m: map<string, Employee>) {
    forall k :: k in m ==> Key(m[k]) == k
  }

  lemma {:induction false} InsertAllKeyed(m: map<string, Employee>, es: seq<Employee>)
    requires KeyedByName(m)
    ensures KeyedByName(InsertAll(m, es))
    decreases |es|
  {
    if es != [] {
      InsertAllKeyed(m[Key(es[0]) := es[0]], es[1..]);
    }
  }

  /** A record is stored when no later record has its key: a later namesake replaces it. */
  lemma {:induction false} LastRecordWins(m: map<string, Employee>, es: seq<Employee>, j: nat)
    requires j < |es|
    requires forall j' :: j < j' < |es| ==> Key(es[j']) != Key(es[j])
    ensures Key(es[j]) in InsertAll(m, es) && InsertAll(m, es)[Key(es[j])] == es[j]
    decreases |es|
  {
    var m' := m[Key(es[0]) := es[0]];
    if j == 0 {
      KeyNotInserted(m', es[1..], Key(es[0]));
    } else {
      LastRecordWins(m', es[1..], j - 1);
    }
  }

  /** An entry no record touches is kept as it was. */
  lemma {:induction false} KeyNotInserted(m: map<string, Employee>, es: seq<Employee>, key: string)
    requires forall j :: 0 <= j < |es| ==> Key(es[j]) != key
    ensures key in InsertAll(m, es) <==> key in m
    ensures key in m ==> InsertAll(m, es)[key] == m[key]
    decreases |es|
  {
    if es != [] {
      KeyNotInserted(m[Key(es[0]) := es[0]], es[1..], key);
    }
  }

  /* ---------- writing a data file, and reading it back ---------- */

  /** A contract the line format can carry: one-token fields and a 32-bit cost. */
  predicate Writable(c: Contract) {
    IsWord(c.number) && IsWord(c.startDate) && IsWord(c.endDate) && IsWord(c.work) &&
    INT_MIN <= c.cost <= INT_MAX
  }

  /** A contract line with the five label words `labels` (e.g. `Договор`, `нач.`, ...). */
  function ContractLine(labels: seq<string>, c: Contract): string
    requires |labels| == 5
  {
    Spaced([labels[0], c.number, labels[1], c.startDate, labels[2], c.endDate,
            labels[3], c.work, labels[4], Decimal(c.cost)])
  }

  /** The writer of one contract line, for the given labels. */
  function LineWriter(labels: seq<string>): Contract -> string
    requires |labels| == 5
  {
    c => ContractLine(labels, c)
  }

  function ContractLines(labels: seq<string>, cs: seq<Contract>): seq<string>
    requires |labels| == 5
  {
    MapSeq(LineWriter(labels), cs)
  }

  /** A record as written: its name line and one line per contract. */
  function TextOf(labels: seq<string>, e: Employee): RecordText
    requires |labels| == 5
  {
    RecordText(Spaced([e.lastName, e.firstName, e.middleName]), ContractLines(labels, e.contracts))
  }

  /** The lines of a record in the file: name line, `{`, the block, `}`. */
  function TextLines(t: RecordText): seq<string> {
    [t.nameLine, "{"] + t.block + ["}"]
  }

  /** The records of a file, written one after the other. */
  function FileLines(ts: seq<RecordText>): seq<string> {
    if ts == [] then [] else TextLines(ts[0]) + FileLines(ts[1..])
  }

  /** The records written for a list of employees, in order. */
  function Texts(labels: seq<string>, es: seq<Employee>): seq<RecordText>
    requires |labels| == 5
  {
    MapSeq(TextWriter(labels), es)
  }

  /** The writer of one record, for the given labels. */
  function TextWriter(labels: seq<string>): Employee -> RecordText
    requires |labels| == 5
  {
    e => TextOf(labels, e)
  }

  /** A record the reader recognises as written: a non-empty name line and no `}` line in its block. */
  predicate WellFormedText(t: RecordText) {
    |t.nameLine| != 0 && forall j :: 0 <= j < |t.block| ==> !IsClosing(t.block[j])
  }

  predicate WritableEmployee(e: Employee) {
    IsWord(e.lastName) && IsWord(e.firstName) && IsWord(e.middleName) &&
    forall j :: 0 <= j < |e.contracts| ==> Writable(e.contracts[j])
  }

  predicate Labels(labels: seq<string>) {
    |labels| == 5 && forall j :: 0 <= j < 5 ==> IsWord(labels[j])
  }

  /** A written contract line is read back as the same contract. */
  lemma ParseContractLine(labels: seq<string>, c: Contract)
    requires Labels(labels) && Writable(c)
    ensures ParseContract(ContractLine(labels, c)) == c
    ensures !IsClosing(ContractLine(labels, c))
  {
    var ws := [labels[0], c.number, labels[1], c.startDate, labels[2], c.endDate,
               labels[3], c.work, labels[4], Decimal(c.cost)];
    DecimalIsWord(c.cost);
    TokensOfSpaced(ws);
    ParseDecimal(c.cost);
    SpacedLength(ws);
  }

  lemma {:induction false} SpacedLength(ws: seq<string>)
    ensures |Spaced(ws)| >= |ws|
    decreases |ws|
  {
    if ws != [] {
      SpacedLength(ws[..|ws| - 1]);
    }
  }

  /** The contract lines of a record are read back as its contracts. */
  lemma ParseContractLines(labels: seq<string>, cs: seq<Contract>)
    requires Labels(labels)
    requires forall j :: 0 <= j < |cs| ==> Writable(cs[j])
    ensures ParseLines(ContractLines(labels, cs)) == cs
  {
    forall j | 0 <= j < |cs| ensures ParseContract(LineWriter(labels)(cs[j])) == cs[j] {
      ParseContractLine(labels, cs[j]);
    }
    MapSeqInverse(LineWriter(labels), ParseContract, cs);
  }

  /** No contract line of a record ends its block. */
  lemma ContractLinesOpen(labels: seq<string>, cs: seq<Contract>)
    requires Labels(labels)
    requires forall j :: 0 <= j < |cs| ==> Writable(cs[j])
    ensures forall j :: 0 <= j < |cs| ==> !IsClosing(ContractLines(labels, cs)[j])
  {
    forall j | 0 <= j < |cs| ensures !IsClosing(ContractLines(labels, cs)[j]) {
      MapSeqAt(LineWriter(labels), cs, j);
      ParseContractLine(labels, cs[j]);
    }
  }

  /** The block ends at the first `}` line, or at the end of the input. */
  lemma {:induction false} BlockLenIs(lines: seq<string>, n: nat)
    requires n <= |lines|
    requires forall j :: 0 <= j < n ==> !IsClosing(lines[j])
    requires n < |lines| ==> IsClosing(lines[n])
    ensures BlockLen(lines) == n
    decreases n
  {
    if n > 0 {
      BlockLenIs(lines[1..], n - 1);
    }
  }

  /**
   * A record written with a non-empty name line and no `}` line in its block
   * is read back as that record, then reading goes on after its `}`.
   */
  lemma LayoutOfText(t: RecordText, rest: seq<string>)
    requires WellFormedText(t)
    ensures Layout(TextLines(t) + rest) == [t] + Layout(rest)
  {
    var lines := TextLines(t) + rest;
    var body := lines[2..];
    assert lines[0] == t.nameLine;
    assert body == t.block + ["}"] + rest;
    forall j | 0 <= j < |t.block| ensures !IsClosing(body[j]) {
      assert body[j] == t.block[j];
    }
    assert IsClosing(body[|t.block|]);
    BlockLenIs(body, |t.block|);
    assert body[..|t.block|] == t.block;
    assert body[|t.block| + 1..] == rest;
  }

  /**
   * A well-formed record is written with a non-empty name line and no `}` line
   * among its contracts, and its text is read back as the same employee.
   */
  lemma WrittenText(labels: seq<string>, e: Employee)
    requires Labels(labels) && WritableEmployee(e)
    ensures WellFormedText(TextOf(labels, e))
    ensures ReadRecordText(TextOf(labels, e)) == e
  {
    SpacedLength([e.lastName, e.firstName, e.middleName]);
    ContractLinesOpen(labels, e.contracts);
    TokensOfSpaced([e.lastName, e.firstName, e.middleName]);
    ParseContractLines(labels, e.contracts);
  }

  /** Well-formed records written one after the other are read back as exactly those records. */
  lemma {:induction false} LayoutOfFile(ts: seq<RecordText>)
    requires forall j :: 0 <= j < |ts| ==> WellFormedText(ts[j])
    ensures Layout(FileLines(ts)) == ts
    decreases |ts|
  {
    if ts != [] {
      LayoutOfText(ts[0], FileLines(ts[1..]));
      LayoutOfFile(ts[1..]);
      assert ts == [ts[0]] + ts[1..];
    }
  }

  /** The records written for well-formed employees are well-formed and read back as those employees. */
  lemma ReadTexts(labels: seq<string>, es: seq<Employee>)
    requires Labels(labels)
    requires forall j :: 0 <= j < |es| ==> WritableEmployee(es[j])
    ensures forall j :: 0 <= j < |es| ==> WellFormedText(Texts(labels, es)[j])
    ensures ReadAll(Texts(labels, es)) == es
  {
    forall j | 0 <= j < |es|
      ensures WellFormedText(Texts(labels, es)[j]) && ReadRecordText(TextWriter(labels)(es[j])) == es[j]
    {
      MapSeqAt(TextWriter(labels), es, j);
      WrittenText(labels, es[j]);
    }
    MapSeqInverse(TextWriter(labels), ReadRecordText, es);
  }

  /**
   * Reading a data file written from well-formed employees gives back exactly
   * those employees, in order.
   */
  lemma ReadWrittenFile(labels: seq<string>, es: seq<Employee>)
    requires Labels(labels)
    requires forall j :: 0 <= j < |es| ==> WritableEmployee(es[j])
    ensures Records(FileLines(Texts(labels, es))) == es
  {
    ReadTexts(labels, es);
    LayoutOfFile(Texts(labels, es));
  }

  /* ---------- queries over one employee ---------- */

  /** The sum of the contract costs. */
  function SumCosts(cs: seq<Contract>): (r: int)
    ensures (forall i :: 0 <= i < |cs| ==> cs[i].cost >= 0) ==> r >= 0
  {
    if cs == [] then 0 else SumCosts(cs[..|cs| - 1]) + cs[|cs| - 1].cost
  }

  /** The total of a list split in two is the sum of the totals of its parts. */
  lemma {:induction false} SumCostsAppend(a: seq<Contract>, b: seq<Contract>)
    ensures SumCosts(a + b) == SumCosts(a) + SumCosts(b)
    decreases |b|
  {
    if b == [] {
      assert a + b == a;
    } else {
      var init := b[..|b| - 1];
      SumCostsAppend(a, init);
      assert (a + b)[..|a + b| - 1] == a + init;
    }
  }

  /** `totalCostOfContracts`: 0 for no contracts, otherwise the sum of the costs. */
  method TotalCostOfContracts(e: Employee) returns (totalCost: int)
    ensures totalCost == SumCosts(e.contracts)
  {
    totalCost := 0;
    var i := 0;
    while i < |e.contracts|
      invariant 0 <= i <= |e.contracts|
      invariant totalCost == SumCosts(e.contracts[..i])
    {
      assert e.contracts[..i + 1][..i] == e.contracts[..i];
      totalCost := totalCost + e.contracts[i].cost;
      i := i + 1;
    }
    assert e.contracts[..i] == e.contracts;
  }

  /** The position `max_element` with `a.cost < b.cost` returns: the first maximal cost. */
  function MostExpensiveIndex(cs: seq<Contract>): (i: nat)
    requires |cs| > 0
    ensures i < |cs|
    ensures forall j :: 0 <= j < |cs| ==> cs[j].cost <= cs[i].cost
    ensures forall j :: 0 <= j < i ==> cs[j].cost < cs[i].cost
  {
    if |cs| == 1 then 0
    else
      var i := MostExpensiveIndex(cs[..|cs| - 1]);
      if cs[i].cost < cs[|cs| - 1].cost then |cs| - 1 else i
  }

  /** `mostExpensiveContract`: the source dereferences the result, so the list must not be empty. */
  function MostExpensiveContract(e: Employee): (c: Contract)
    requires |e.contracts| > 0
    ensures c in e.contracts
    ensures forall j :: 0 <= j < |e.contracts| ==> e.contracts[j].cost <= c.cost
    ensures exists i :: 0 <= i < |e.contracts| && c == e.contracts[i] &&
                        forall j :: 0 <= j < i ==> e.contracts[j].cost < c.cost
  {
    e.contracts[MostExpensiveIndex(e.contracts)]
  }

  /** The UTF-8 bytes of `№`. */
  const NumberSign: string := ['\U{E2}', '\U{84}', '\U{96}']

  /** `"contract №"` as the bytes the source literal holds. */
  const ContractPrefix: string := "contract " + NumberSign

  /** `number.replace(0, 3, "contract №")`: the first (up to) three bytes replaced by the prefix. */
  function Relabel(number: string): (r: string)
    ensures |r| == |ContractPrefix| + (if |number| < 3 then 0 else |number| - 3)
  {
    ContractPrefix + number[if |number| < 3 then |number| else 3..]
  }

  /** A number written as `№` and digits becomes `contract №` and the same digits. */
  lemma RelabelNumberSign(digits: string)
    ensures Relabel(NumberSign + digits) == ContractPrefix + digits
  {
    assert (NumberSign + digits)[3..] == digits;
  }

  /** Two numbers with the same first three bytes have the same label only if they are equal. */
  lemma RelabelInjective(a: string, b: string)
    requires |a| >= 3 && |b| >= 3 && a[..3] == b[..3]
    ensures Relabel(a) == Relabel(b) <==> a == b
  {
    if Relabel(a) == Relabel(b) {
      var n := |ContractPrefix|;
      assert a[3..] == Relabel(a)[n..] == Relabel(b)[n..] == b[3..];
      assert a == a[..3] + a[3..] && b == b[..3] + b[3..];
    }
  }

  /** The global `employees` map. */
  class EmployeeRegistry {
    var employees: map<string, Employee>

    /** The invariant the constructor sets up and both operations keep: each employee under its own key. */
    predicate Valid()
      reads this
    {
      KeyedByName(employees)
    }

    constructor ()
      ensures employees == map[] && Valid()
    {
      employees := map[];
    }

    /**
     * `parseAndStoreData` on the lines of the file: each record, in file order,
     * is stored under its key, a later record replacing an earlier namesake.
     */
    method ParseAndStoreData(lines: seq<string>)
      modifies this
      ensures employees == InsertAll(old(employees), Records(lines))
      ensures old(Valid()) ==> Valid()
    {
      var i := 0;
      while i < |lines|
        invariant 0 <= i <= |lines|
        invariant InsertAll(employees, ReadAll(Layout(lines[i..]))) == InsertAll(old(employees), Records(lines))
        decreases |lines| - i
      {
        var line := lines[i];
        i := i + 1;
        if |line| == 0 {
          LayoutSkip(lines, i - 1);
        } else {
          ghost var first := i - 1;
          var ts := Tokens(line);
          var lastName, firstName, middleName := TokenOr(ts, 0), TokenOr(ts, 1), TokenOr(ts, 2);
          if i < |lines| {
            i := i + 1;
          }
          ghost var b := i;
          var contracts, k := ReadContracts(lines, i);
          var e := Employee(lastName, firstName, middleName, contracts);
          i := if k < |lines| then k + 1 else k;
          ghost var text := RecordText(line, lines[b..k]);
          ghost var rest := Layout(lines[i..]);
          LayoutAt(lines, first, b, k);
          MapSeqCons(ReadRecordText, text, rest);
          assert ReadRecordText(text) == e;
          employees := employees[Key(e) := e];
        }
      }
      assert lines[..] == lines[0..];
      if old(Valid()) {
        StoreKeepsKeys(old(employees), lines);
      }
    }

    /**
     * The contract loop of `parseAndStoreData`: lines from `b` up to the first
     * `}` line or the end of the input, each read as a contract.
     */
    static method ReadContracts(lines: seq<string>, b: nat) returns (contracts: seq<Contract>, k: nat)
      requires b <= |lines|
      ensures b <= k <= |lines| && k - b == BlockLen(lines[b..])
      ensures contracts == ParseLines(lines[b..k])
    {
      k := b;
      contracts := [];
      while k < |lines| && !IsClosing(lines[k])
        invariant b <= k <= |lines|
        invariant k - b + BlockLen(lines[k..]) == BlockLen(lines[b..])
        invariant contracts == MapRange(ParseContract, lines, b, k)
      {
        assert lines[k..][1..] == lines[k + 1..];
        contracts := contracts + [ParseContract(lines[k])];
        k := k + 1;
      }
      MapRangeSlice(ParseContract, lines, b, k);
    }

    /** `removeEmployee`: erase exactly the key built from the three names. */
    method RemoveEmployee(lastName: string, firstName: string, middleName: string)
      modifies this
      ensures employees == old(employees) - {KeyOf(lastName, firstName, middleName)}
      ensures old(Valid()) ==> Valid()
    {
      employees := employees - {KeyOf(lastName, firstName, middleName)};
    }
  }

  /** Storing records keeps every employee under its own key. */
  lemma StoreKeepsKeys(m: map<string, Employee>, lines: seq<string>)
    requires KeyedByName(m)
    ensures KeyedByName(InsertAll(m, Records(lines)))
  {
    InsertAllKeyed(m, Records(lines));
  }
}
