/** The coin-ledger interpreter `calc_coins` and the token check
    `check_token` of calc_my_coins.py.

    A ledger is a sequence of lines `<denomination><token><amount><token><kind>`
    with `kind` either `w` (whole units) or `f` (hundredths). The interpreter
    strips each line, deletes its spaces, cuts it at `#`, skips it when nothing
    is left, splits it on the token, checks the fields in a fixed order and
    adds the line's worth to the total. The total is kept here as an exact
    count of hundredths. */
module CoinLedger {
  import opened PyStr

  const TOKEN := ":"
  const FILE := "coins"
  const WHOLE := "w"
  const FRACTIONS := "f"
  const COMMENT := '#'

  datatype Option<T> = None | Some(value: T)

  // ---------------------------------------------------------------------
  // Reserved tokens

  /** The elements of the source's `RESERVED` list, which mixes strings and
      integers. */
  datatype Reserved = Text(s: string) | Number(n: int)

  /** `RESERVED` as written: the two kind tags and the comment marker as
      strings, the digits as the integers 0 to 9. */
  const RESERVED: seq<Reserved> :=
    [Text(WHOLE), Text(FRACTIONS), Text([COMMENT]),
     Number(0), Number(1), Number(2), Number(3), Number(4),
     Number(5), Number(6), Number(7), Number(8), Number(9)]

  /** `check_token(token)`: true when it does not raise `ReservedTokenError`.
      A string is never equal to an integer, so only the two tags and the
      comment marker are refused. */
  function CheckToken(token: string): (allowed: bool)
    ensures !allowed <==> token == WHOLE || token == FRACTIONS || token == [COMMENT]
  {
    Text(token) !in RESERVED
  }

  /** The reserved list the source evidently means: the digits as
      one-character strings. */
  const RESERVED_INTENDED: seq<Reserved> :=
    [Text(WHOLE), Text(FRACTIONS), Text([COMMENT]),
     Text("0"), Text("1"), Text("2"), Text("3"), Text("4"),
     Text("5"), Text("6"), Text("7"), Text("8"), Text("9")]

  /** `check_token` over the intended reserved list. */
  function CheckTokenIntended(token: string): (allowed: bool)
    ensures !allowed <==>
      token == WHOLE || token == FRACTIONS || token == [COMMENT] || (|token| == 1 && IsDigit(token[0]))
  {
    assert |token| == 1 ==> token == [token[0]];
    Text(token) !in RESERVED_INTENDED
  }

  // ---------------------------------------------------------------------
  // Entries, line outcomes and ledger outcomes

  datatype Kind = Whole | Fractions

  /** One accepted ledger line. */
  datatype Entry = Entry(denomination: nat, amount: nat, kind: Kind)

  /** The exceptions one bad line raises. */
  datatype LineError = ParseError | InvalidType | InvalidAmount | InvalidDenomination

  /** What the loop body does with one line. */
  datatype LineOutcome = Skip | Accept(entry: Entry) | Reject(error: LineError)

  /** What `calc_coins` returns or raises. `TokenLengthError` is the
      `ValueError` for a token that is not one character long; the line
      errors carry the 1-based line number and the raw line, as the messages
      do. */
  datatype Outcome =
    | Total(hundredths: nat)
    | TokenLengthError
    | FileNotFound
    | ReservedToken
    | LineFailed(error: LineError, lineNo: nat, line: string)

  /** What one entry adds to the total, in hundredths: a whole entry adds the
      denomination `amount` times as units, a fractional one as hundredths. */
  function Hundredths(e: Entry): nat {
    match e.kind
    case Whole => e.denomination * e.amount * 100
    case Fractions => e.denomination * e.amount
  }

  // ---------------------------------------------------------------------
  // One line

  /** The line after `strip()`, `translate(None, ' ')` and the cut at the
      first `#`. */
  function Clean(line: string): string {
    var temp := DeleteSpaces(Strip(line));
    var commentIndex := Find(temp, COMMENT);
    if commentIndex == -1 then temp else temp[..commentIndex]
  }

  /** The loop body of `calc_coins` on one line, in the source's order of
      checks: field count, type, amount, denomination. */
  function ClassifyLine(line: string, token: char): LineOutcome {
    var temp := Clean(line);
    if |temp| == 0 then Skip
    else
      var info := Split(temp, token);
      if |info| != 3 then Reject(ParseError)
      else
        var denomination, amount, kind := info[0], info[1], info[2];
        if kind != WHOLE && kind != FRACTIONS then Reject(InvalidType)
        else if !IsDigits(amount) then Reject(InvalidAmount)
        else if !IsDigits(denomination) then Reject(InvalidDenomination)
        else Accept(Entry(DecimalValue(denomination), DecimalValue(amount),
                          if kind == WHOLE then Whole else Fractions))
  }

  // ---------------------------------------------------------------------
  // The whole ledger

  function AddTotal(o: Outcome, k: nat): Outcome {
    if o.Total? then Total(o.hundredths + k) else o
  }

  /** The loop body's treatment of one line under a given token. */
  function Classifier(token: char): string -> LineOutcome {
    line => ClassifyLine(line, token)
  }

  /** The lines processed in order by `classify`, the first one numbered
      `lineNo`; the first rejected line ends the scan. */
  function Scan(lines: seq<string>, classify: string -> LineOutcome, lineNo: nat): Outcome
    decreases |lines|
  {
    if lines == [] then Total(0)
    else
      match classify(lines[0])
      case Skip => Scan(lines[1..], classify, lineNo + 1)
      case Reject(e) => LineFailed(e, lineNo, lines[0])
      case Accept(e) => AddTotal(Scan(lines[1..], classify, lineNo + 1), Hundredths(e))
  }

  /** One step of the scan, unfolded at position `i`. */
  lemma ScanStep(lines: seq<string>, i: nat, classify: string -> LineOutcome, lineNo: nat)
    requires i < |lines|
    ensures var o := classify(lines[i]);
      Scan(lines[i..], classify, lineNo) ==
        if o.Skip? then Scan(lines[i + 1..], classify, lineNo + 1)
        else if o.Reject? then LineFailed(o.error, lineNo, lines[i])
        else AddTotal(Scan(lines[i + 1..], classify, lineNo + 1), Hundredths(o.entry))
  {
    assert lines[i..][0] == lines[i] && lines[i..][1..] == lines[i + 1..];
  }

  /** `calc_coins(coin_file, token)` as a function: `ledger` is the file's
      lines, or `None` when the file does not exist. */
  function Interpret(ledger: Option<seq<string>>, token: string): Outcome {
    if |token| != 1 then TokenLengthError
    else if ledger.None? then FileNotFound
    else Scan(ledger.value, Classifier(token[0]), 1)
  }

  /** A scan either totals or reports a failed line. */
  lemma {:induction false} ScanTotalsOrFails(lines: seq<string>, classify: string -> LineOutcome, lineNo: nat)
    ensures Scan(lines, classify, lineNo).Total? || Scan(lines, classify, lineNo).LineFailed?
  {
    if lines != [] {
      ScanTotalsOrFails(lines[1..], classify, lineNo + 1);
    }
  }

  /** Only the token decides whether `calc_coins` raises its `ValueError`,
      and only a token found first decides whether the file is missing. */
  lemma InterpretErrors(ledger: Option<seq<string>>, token: string)
    ensures Interpret(ledger, token) == TokenLengthError <==> |token| != 1
    ensures Interpret(ledger, token) == FileNotFound <==> |token| == 1 && ledger.None?
    ensures Interpret(ledger, token) != ReservedToken
  {
    if |token| == 1 && ledger.Some? {
      ScanTotalsOrFails(ledger.value, Classifier(token[0]), 1);
    }
  }

  /** Adding the entry's worth to the running sum, stated over the scan's
      outcomes only, so that the loop's proof need not see inside them. */
  lemma AcceptStep(whole: Outcome, here: Outcome, rest: Outcome, h: nat, before: nat, after: nat)
    requires whole == AddTotal(here, before) && here == AddTotal(rest, h)
    requires after == before + h
    ensures whole == AddTotal(rest, after)
  {
  }

  /** `step` added to zero `times` times, one addition at a time, as the
      inner `xrange` loops do. */
  ghost function Repeated(step: nat, times: nat): nat {
    if times == 0 then 0 else Repeated(step, times - 1) + step
  }

  /** A whole entry's worth as the inner loop adds it up: `n` steps of
      `d * 100`. */
  lemma WholeHundredths(d: nat, n: nat)
    ensures n * (d * 100) == Hundredths(Entry(d, n, Whole))
  {
  }

  /** Adding `step` `times` times adds `times * step`. */
  lemma {:induction false} RepeatedIsProduct(step: nat, times: nat)
    ensures Repeated(step, times) == times * step
  {
    if times > 0 {
      RepeatedIsProduct(step, times - 1);
    }
  }

  /** `calc_coins`: the token length is checked first, then the file, then
      the lines one by one, each accepted line adding its denomination
      `amount` times. */
  method CalcCoins(ledger: Option<seq<string>>, token: string) returns (r: Outcome)
    ensures r == Interpret(ledger, token)
    ensures |token| != 1 ==> r == TokenLengthError
    ensures |token| == 1 && ledger.None? ==> r == FileNotFound
  {
    if |token| != 1 {
      return TokenLengthError;
    }
    if ledger.None? {
      return FileNotFound;
    }
    var lines := ledger.value;
    var tok := token[0];
    ghost var classify := Classifier(tok);
    var result: nat := 0;
    var lineNum: nat := 1;
    for i := 0 to |lines|
      invariant lineNum == i + 1
      invariant Scan(lines, classify, 1) == AddTotal(Scan(lines[i..], classify, lineNum), result)
    {
      var line := lines[i];
      var outcome := ClassifyLine(line, tok);
      ScanStep(lines, i, classify, lineNum);
      assert classify(line) == outcome;
      if outcome.Skip? {
        lineNum := lineNum + 1;
        continue;
      }
      if outcome.Reject? {
        lineNum := lineNum + 1;
        return LineFailed(outcome.error, lineNum - 1, line);
      }
      var entry := outcome.entry;
      var d, n := entry.denomination, entry.amount;
      ghost var rest := Scan(lines[i + 1..], classify, lineNum + 1);
      ghost var before := result;
      if entry.kind == Whole {
        for k := 0 to n
          invariant result == before + Repeated(d * 100, k)
        {
          result := result + d * 100;
        }
        RepeatedIsProduct(d * 100, n);
        WholeHundredths(d, n);
      } else {
        for k := 0 to n
          invariant result == before + Repeated(d, k)
        {
          result := result + d;
        }
        RepeatedIsProduct(d, n);
      }
      assert result == before + Hundredths(entry);
      AcceptStep(Scan(lines, classify, 1), Scan(lines[i..], classify, lineNum), rest, Hundredths(entry), before, result);
      lineNum := lineNum + 1;
    }
    return Total(result);
  }
}
