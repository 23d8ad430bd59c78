/** Properties of the ledger interpreter: what decides one line's outcome,
    what the running total adds up to, and where a failing ledger stops. */
module CoinLedgerFacts {
  import opened PyStr
  import opened CoinLedger

  // ---------------------------------------------------------------------
  // One line

  /** A line with no spaces, no `#` and no whitespace at either end comes
      through the clean-up unchanged. */
  lemma CleanOfPlainLine(line: string)
    requires ' ' !in line && COMMENT !in line
    requires line != [] ==> !IsSpace(line[0]) && !IsSpace(line[|line| - 1])
    ensures Clean(line) == line
  {
    assert [] + line + [] == line;
    StripUnique([], line, []);
    DeleteSpacesFacts(line);
    FindFacts(line, COMMENT);
  }

  /** Once the clean-up leaves three fields, the kind is checked first,
      then the amount, then the denomination, and the line is accepted
      exactly when all three are well formed. */
  lemma ClassifyThreeFields(line: string, tok: char, d: string, a: string, k: string)
    requires Clean(line) != [] && Split(Clean(line), tok) == [d, a, k]
    ensures var o := ClassifyLine(line, tok);
      var known := k == WHOLE || k == FRACTIONS;
      (o == Reject(InvalidType) <==> !known) &&
      (o == Reject(InvalidAmount) <==> known && !IsDigits(a)) &&
      (o == Reject(InvalidDenomination) <==> known && IsDigits(a) && !IsDigits(d)) &&
      (o.Accept? <==> known && IsDigits(a) && IsDigits(d)) &&
      (o.Accept? ==> o.entry.denomination == DecimalValue(d) && o.entry.amount == DecimalValue(a)
                     && (o.entry.kind == Whole <==> k == WHOLE))
  {
  }

  /** A line written as three fields with the token between them, none of
      the fields holding a space, a `#` or the token: the clean-up leaves it
      as it is and the split gives the three fields back. */
  lemma PlainLineFields(d: string, a: string, k: string, tok: char)
    requires tok != ' ' && tok != COMMENT
    requires ' ' !in d && ' ' !in a && ' ' !in k
    requires COMMENT !in d && COMMENT !in a && COMMENT !in k
    requires tok !in d && tok !in a && tok !in k
    requires var line := d + [tok] + a + [tok] + k;
      !IsSpace(line[0]) && !IsSpace(line[|line| - 1])
    ensures var line := d + [tok] + a + [tok] + k;
      Clean(line) == line && Split(line, tok) == [d, a, k]
  {
    var line := d + [tok] + a + [tok] + k;
    CleanOfPlainLine(line);
    assert [d, a, k][1..] == [a, k] && [a, k][1..] == [k];
    assert Join([k], tok) == k;
    assert Join([a, k], tok) == a + [tok] + k;
    assert Join([d, a, k], tok) == d + [tok] + (a + [tok] + k);
    assert d + [tok] + (a + [tok] + k) == line;
    SplitJoin([d, a, k], tok);
  }

  /** A line fails to parse exactly when, after the clean-up, something is
      left and it does not hold the token exactly twice. */
  lemma ParseErrorIffWrongFieldCount(line: string, tok: char)
    ensures ClassifyLine(line, tok) == Reject(ParseError) <==>
      Clean(line) != [] && multiset(Clean(line))[tok] != 2
  {
    SplitCount(Clean(line), tok);
  }

  /** The raw line up to its first `#`. */
  function BeforeComment(line: string): string {
    var k := Find(line, COMMENT);
    if k == -1 then line else line[..k]
  }

  /** A line is skipped exactly when everything before its first `#` is
      whitespace: blank lines and comment lines. */
  lemma SkipIffBlankOrComment(line: string, tok: char)
    ensures ClassifyLine(line, tok) == Skip <==> AllSpace(BeforeComment(line))
  {
    var p, q := StripSplit(line);
    var m := Strip(line);
    var temp := DeleteSpaces(m);
    FindFacts(temp, COMMENT);
    FindFacts(line, COMMENT);
    var k := Find(line, COMMENT);
    if m == [] {
      assert line == p + q;
      AllSpaceAppend(p, q);
      assert temp == [];
      assert forall j :: 0 <= j < |BeforeComment(line)| ==> BeforeComment(line)[j] == line[j];
    } else {
      assert m == [m[0]] + m[1..];
      DeleteSpacesAppend([m[0]], m[1..]);
      assert DeleteSpaces([m[0]]) == [m[0]];
      assert temp[0] == m[0];
      assert line[|p|] == m[0];
      assert COMMENT !in p by {
        forall j | 0 <= j < |p| ensures p[j] != COMMENT {
          assert IsSpace(p[j]);
        }
      }
      if m[0] == COMMENT {
        assert COMMENT in line;
        assert k == |p|;
        assert line[..|p|] == p;
      } else {
        assert Find(temp, COMMENT) != 0;
        if k != -1 {
          assert k != |p|;
          assert BeforeComment(line)[|p|] == m[0];
        } else {
          assert BeforeComment(line)[|p|] == m[0];
        }
      }
    }
  }

  /** Whitespace around a line changes nothing, the line terminator
      included. */
  lemma WhitespacePaddingIgnored(w1: string, line: string, w2: string, tok: char)
    requires AllSpace(w1) && AllSpace(w2)
    ensures ClassifyLine(w1 + line + w2, tok) == ClassifyLine(line, tok)
  {
    StripIgnoresPadding(w1, line, w2);
  }

  /** A space anywhere in a line changes nothing. */
  lemma SpaceInsertionIgnored(a: string, b: string, tok: char)
    ensures ClassifyLine(a + " " + b, tok) == ClassifyLine(a + b, tok)
  {
    DeleteSpacesStripCommute(a + " " + b);
    DeleteSpacesStripCommute(a + b);
    DeleteSpacesAppend3(a, " ", b);
    DeleteSpacesAppend(a, b);
    assert DeleteSpaces(" ") == [];
    assert DeleteSpaces(a + " " + b) == DeleteSpaces(a + b);
  }

  /** An amount of zero passes the amount check: the source compares the
      amount string with the integer 0, which never holds. */
  lemma ZeroAmountAccepted(d: nat, k: Kind)
    ensures ClassifyLine(Format(Entry(d, 0, k), ':'), ':') == Accept(Entry(d, 0, k))
  {
    FormatRoundTrip(Entry(d, 0, k), ':');
  }

  // ---------------------------------------------------------------------
  // Writing an entry as a line

  function Tag(k: Kind): string {
    if k == Whole then WHOLE else FRACTIONS
  }

  /** The canonical line for an entry: denomination, amount and kind, the
      token between them. */
  function Format(e: Entry, tok: char): string {
    Decimal(e.denomination) + [tok] + Decimal(e.amount) + [tok] + Tag(e.kind)
  }

  /** With a token the intended reserved list admits (and that is not the
      space, which the clean-up deletes), every entry survives being written
      as a line and read back. */
  lemma FormatRoundTrip(e: Entry, tok: char)
    requires CheckTokenIntended([tok]) && tok != ' '
    ensures ClassifyLine(Format(e, tok), tok) == Accept(e)
  {
    var d, a, k := Decimal(e.denomination), Decimal(e.amount), Tag(e.kind);
    assert !IsDigit(tok);
    assert forall j :: 0 <= j < |d| ==> IsDigit(d[j]);
    assert forall j :: 0 <= j < |a| ==> IsDigit(a[j]);
    assert tok !in d && tok !in a && tok !in k;
    assert ' ' !in d && ' ' !in a && COMMENT !in d && COMMENT !in a;
    var line := d + [tok] + a + [tok] + k;
    assert line[0] == d[0];
    assert line[|line| - 1] == k[0];
    PlainLineFields(d, a, k, tok);
    ClassifyThreeFields(line, tok, d, a, k);
    DecimalRoundTrip(e.denomination);
    DecimalRoundTrip(e.amount);
  }

  /** The space passes both reserved lists, but the clean-up deletes every
      space before the split: with it as the token no line parses. */
  lemma SpaceTokenNeverParses(line: string)
    ensures CheckToken(" ") && CheckTokenIntended(" ")
    ensures ClassifyLine(line, ' ') == Skip || ClassifyLine(line, ' ') == Reject(ParseError)
  {
    var temp := DeleteSpaces(Strip(line));
    DeleteSpacesFacts(Strip(line));
    FindFacts(temp, COMMENT);
    assert ' ' !in Clean(line) by {
      var k := Find(temp, COMMENT);
      if k != -1 {
        assert forall j :: 0 <= j < k ==> temp[..k][j] == temp[j];
      }
    }
    SplitWithoutSeparator(Clean(line), ' ');
  }

  /** The reserved list as written lets the digit `5` through as a token,
      and then a denomination holding that digit no longer parses. */
  lemma DigitTokenBreaksRoundTrip()
    ensures CheckToken("5")
    ensures ClassifyLine(Format(Entry(15, 2, Whole), '5'), '5') == Reject(ParseError)
  {
    FormatFifteenTwo();
    FiveTokenLineFails();
  }

  lemma FiveTokenLineFails()
    ensures ClassifyLine("15525w", '5') == Reject(ParseError)
  {
    SplitOnFive();
    CleanOfPlainLine("15525w");
  }

  lemma FormatFifteenTwo()
    ensures Format(Entry(15, 2, Whole), '5') == "15525w"
  {
    assert Decimal(15) == "15" && Decimal(2) == "2";
  }

  lemma SplitOnFive()
    ensures |Split("15525w", '5')| == 4
  {
    assert "15525w" == "1" + ['5'] + "525w";
    SplitAtFirstSeparator("1", '5', "525w");
    assert "525w" == "" + ['5'] + "25w";
    SplitAtFirstSeparator("", '5', "25w");
    assert "25w" == "2" + ['5'] + "w";
    SplitAtFirstSeparator("2", '5', "w");
    SplitWithoutSeparator("w", '5');
  }

  // ---------------------------------------------------------------------
  // The whole ledger

  predicate NoRejects(lines: seq<string>, classify: string -> LineOutcome) {
    forall i :: 0 <= i < |lines| ==> !classify(lines[i]).Reject?
  }

  /** The accepted entries of a ledger, in order. */
  function Entries(lines: seq<string>, classify: string -> LineOutcome): seq<Entry> {
    if lines == [] then []
    else
      var o := classify(lines[0]);
      (if o.Accept? then [o.entry] else []) + Entries(lines[1..], classify)
  }

  /** The sum of the entries' worth, in hundredths. */
  function Worth(es: seq<Entry>): nat {
    if es == [] then 0 else Hundredths(es[0]) + Worth(es[1..])
  }

  /** A ledger totals exactly when none of its lines is rejected, and its
      total is then the worth of its accepted entries. */
  lemma {:induction false} TotalIsWorthOfEntries(lines: seq<string>, classify: string -> LineOutcome, lineNo: nat)
    ensures Scan(lines, classify, lineNo).Total? <==> NoRejects(lines, classify)
    ensures NoRejects(lines, classify) ==>
      Scan(lines, classify, lineNo) == Total(Worth(Entries(lines, classify)))
  {
    if lines != [] {
      TotalIsWorthOfEntries(lines[1..], classify, lineNo + 1);
      assert forall i :: 1 <= i < |lines| ==> lines[i] == lines[1..][i - 1];
      assert NoRejects(lines, classify) <==>
        !classify(lines[0]).Reject? && NoRejects(lines[1..], classify);
      var o := classify(lines[0]);
      if o.Accept? {
        assert Entries(lines, classify) == [o.entry] + Entries(lines[1..], classify);
        assert ([o.entry] + Entries(lines[1..], classify))[1..] == Entries(lines[1..], classify);
      } else {
        assert Entries(lines, classify) == Entries(lines[1..], classify);
      }
    }
  }

  /** A ledger of blank and comment lines totals zero. */
  lemma {:induction false} BlankLedgerTotalsZero(lines: seq<string>, tok: char, lineNo: nat)
    requires forall i :: 0 <= i < |lines| ==> AllSpace(BeforeComment(lines[i]))
    ensures Scan(lines, Classifier(tok), lineNo) == Total(0)
  {
    if lines != [] {
      SkipIffBlankOrComment(lines[0], tok);
      assert Classifier(tok)(lines[0]) == Skip;
      assert forall i :: 0 <= i < |lines[1..]| ==> lines[1..][i] == lines[i + 1];
      BlankLedgerTotalsZero(lines[1..], tok, lineNo + 1);
    }
  }

  /** The first rejected line ends the scan, reported with its line number
      and its raw text. */
  lemma {:induction false} FailsAtFirstReject(lines: seq<string>, classify: string -> LineOutcome, lineNo: nat, i: nat)
    requires i < |lines| && classify(lines[i]).Reject?
    requires forall j :: 0 <= j < i ==> !classify(lines[j]).Reject?
    ensures Scan(lines, classify, lineNo) == LineFailed(classify(lines[i]).error, lineNo + i, lines[i])
  {
    if i > 0 {
      assert forall j :: 0 <= j < i - 1 ==> lines[1..][j] == lines[j + 1];
      FailsAtFirstReject(lines[1..], classify, lineNo + 1, i - 1);
      assert !classify(lines[0]).Reject?;
    }
  }

  /** Conversely, a scan that does not total stopped at a rejected line
      with none before it, and reports that line. */
  lemma {:induction false} FailureIsFirstReject(lines: seq<string>, classify: string -> LineOutcome, lineNo: nat)
    requires !Scan(lines, classify, lineNo).Total?
    ensures var f := Scan(lines, classify, lineNo);
      f.LineFailed? && lineNo <= f.lineNo < lineNo + |lines| &&
      lines[f.lineNo - lineNo] == f.line && classify(f.line) == Reject(f.error) &&
      forall j :: 0 <= j < f.lineNo - lineNo ==> !classify(lines[j]).Reject?
  {
    if !classify(lines[0]).Reject? {
      FailureIsFirstReject(lines[1..], classify, lineNo + 1);
      assert forall j :: 1 <= j < |lines| ==> lines[j] == lines[1..][j - 1];
    }
  }

  /** Scanning two ledgers one after the other: the second one starts where
      the first left off, and nothing after a failure is looked at. */
  lemma {:induction false} ScanAppend(a: seq<string>, b: seq<string>, classify: string -> LineOutcome, lineNo: nat)
    ensures Scan(a + b, classify, lineNo) ==
      if Scan(a, classify, lineNo).Total?
      then AddTotal(Scan(b, classify, lineNo + |a|), Scan(a, classify, lineNo).hundredths)
      else Scan(a, classify, lineNo)
  {
    if a == [] {
      assert a + b == b;
    } else {
      assert (a + b)[0] == a[0] && (a + b)[1..] == a[1..] + b;
      ScanAppend(a[1..], b, classify, lineNo + 1);
    }
  }

  /** Lines after a failing one cannot change the outcome. */
  lemma SuffixIgnoredAfterFailure(a: seq<string>, b: seq<string>, classify: string -> LineOutcome, lineNo: nat)
    requires !Scan(a, classify, lineNo).Total?
    ensures Scan(a + b, classify, lineNo) == Scan(a, classify, lineNo)
  {
    ScanAppend(a, b, classify, lineNo);
  }

  /** Line numbers only matter to the error reports. */
  lemma {:induction false} TotalIgnoresLineNumbers(lines: seq<string>, classify: string -> LineOutcome, n: nat, m: nat)
    requires Scan(lines, classify, n).Total?
    ensures Scan(lines, classify, m) == Scan(lines, classify, n)
  {
    if lines != [] && !classify(lines[0]).Reject? {
      TotalIgnoresLineNumbers(lines[1..], classify, n + 1, m + 1);
    }
  }

  /** Swapping two parts of a ledger that totals leaves the total as it
      was. */
  lemma ReorderKeepsTotal(a: seq<string>, b: seq<string>, classify: string -> LineOutcome, lineNo: nat)
    requires Scan(a + b, classify, lineNo).Total?
    ensures Scan(b + a, classify, lineNo) == Scan(a + b, classify, lineNo)
  {
    ScanAppend(a, b, classify, lineNo);
    ScanAppend(b, a, classify, lineNo);
    TotalIgnoresLineNumbers(b, classify, lineNo + |a|, lineNo);
    TotalIgnoresLineNumbers(a, classify, lineNo, lineNo + |b|);
  }

  // ---------------------------------------------------------------------
  // Worked lines

  /** An empty amount is reported as an invalid amount. */
  lemma EmptyAmountExample()
    ensures ClassifyLine("5::w", ':') == Reject(InvalidAmount)
  {
    assert "5::w" == "5" + [':'] + "" + [':'] + "w";
    PlainLineFields("5", "", "w", ':');
    ClassifyThreeFields("5::w", ':', "5", "", "w");
  }

  /** A line wrong in all three fields is reported for its kind. */
  lemma TypeCheckedFirstExample()
    ensures ClassifyLine("x:y:z", ':') == Reject(InvalidType)
  {
    assert "x:y:z" == "x" + [':'] + "y" + [':'] + "z";
    PlainLineFields("x", "y", "z", ':');
    ClassifyThreeFields("x:y:z", ':', "x", "y", "z");
  }

  lemma TwoFieldsExample()
    ensures ClassifyLine("5:3", ':') == Reject(ParseError)
  {
    CleanOfPlainLine("5:3");
    ParseErrorIffWrongFieldCount("5:3", ':');
    assert multiset("5:3")[':'] == 1;
  }
}
