/** The few Python 2 `str` operations the ledger interpreter relies on:
    `strip()`, `translate(None, ' ')`, `find`, `split` on one character,
    `isdigit()` and `int()` of a digit string. Strings are byte strings in
    Python 2; here they are sequences of characters. */
module PyStr {

  /** The characters `str.strip()` removes when called without an argument
      (C-locale `isspace`: space, tab, newline, vertical tab, form feed,
      carriage return). */
  predicate IsSpace(c: char) {
    c == ' ' || c == '\t' || c == '\n' || c == '\r' || c == 11 as char || c == 12 as char
  }

  predicate AllSpace(s: string) {
    forall i :: 0 <= i < |s| ==> IsSpace(s[i])
  }

  /** The leading-whitespace half of `strip()`. */
  function LStrip(s: string): string {
    if s != [] && IsSpace(s[0]) then LStrip(s[1..]) else s
  }

  /** The trailing-whitespace half of `strip()`. */
  function RStrip(s: string): string {
    if s != [] && IsSpace(s[|s| - 1]) then RStrip(s[..|s| - 1]) else s
  }

  /** `s.strip()`. */
  function Strip(s: string): string {
    RStrip(LStrip(s))
  }

  /** `s.translate(None, ' ')`. */
  function DeleteSpaces(s: string): string {
    if s == [] then []
    else (if s[0] == ' ' then [] else [s[0]]) + DeleteSpaces(s[1..])
  }

  /** `s.find(c)`. */
  function Find(s: string, c: char): (i: int)
    ensures -1 <= i < |s|
  {
    if s == [] then -1
    else if s[0] == c then 0
    else
      var k := Find(s[1..], c);
      if k == -1 then -1 else k + 1
  }

  /** The inverse of `split`: the fields written out with `sep` between them. */
  function Join(fields: seq<string>, sep: char): string {
    if fields == [] then []
    else if |fields| == 1 then fields[0]
    else fields[0] + [sep] + Join(fields[1..], sep)
  }

  /** `s.split(sep)` for a one-character separator. */
  function Split(s: string, sep: char): (r: seq<string>)
    ensures r != []
  {
    if s == [] then [[]]
    else
      var rest := Split(s[1..], sep);
      if s[0] == sep then [[]] + rest
      else [[s[0]] + rest[0]] + rest[1..]
  }

  /** `split` gives one field more than there are separators. */
  lemma {:induction false} SplitCount(s: string, sep: char)
    ensures |Split(s, sep)| == multiset(s)[sep] + 1
  {
    if s != [] {
      SplitCount(s[1..], sep);
      assert s == [s[0]] + s[1..];
      assert multiset(s) == multiset([s[0]]) + multiset(s[1..]);
    }
  }

  /** Joining the fields of `split` with `sep` gives `s` back. */
  lemma {:induction false} SplitJoinBack(s: string, sep: char)
    ensures Join(Split(s, sep), sep) == s
  {
    if s != [] {
      SplitJoinBack(s[1..], sep);
      var rest := Split(s[1..], sep);
      assert s == [s[0]] + s[1..];
      if s[0] == sep {
        assert ([[]] + rest)[1..] == rest;
      } else {
        var fields := [[s[0]] + rest[0]] + rest[1..];
        assert fields[1..] == rest[1..];
        if |rest| > 1 {
          assert Join(rest, sep) == rest[0] + [sep] + Join(rest[1..], sep);
        }
      }
    }
  }

  /** No field of `split` holds the separator. */
  lemma {:induction false} SplitFieldsFree(s: string, sep: char)
    ensures forall i :: 0 <= i < |Split(s, sep)| ==> sep !in Split(s, sep)[i]
  {
    if s != [] {
      SplitFieldsFree(s[1..], sep);
      var rest := Split(s[1..], sep);
      if s[0] != sep {
        var fields := [[s[0]] + rest[0]] + rest[1..];
        assert forall i :: 1 <= i < |fields| ==> fields[i] == rest[i];
      } else {
        assert forall i :: 1 <= i < |rest| + 1 ==> ([[]] + rest)[i] == rest[i - 1];
      }
    }
  }

  predicate IsDigit(c: char) {
    '0' <= c <= '9'
  }

  /** `s.isdigit()`: true of a non-empty string of decimal digits only. */
  predicate IsDigits(s: string) {
    s != [] && forall i :: 0 <= i < |s| ==> IsDigit(s[i])
  }

  /** `int(s)` of a string of decimal digits (leading zeros allowed). */
  function DecimalValue(s: string): nat
    requires forall i :: 0 <= i < |s| ==> IsDigit(s[i])
  {
    if s == [] then 0
    else
      assert IsDigit(s[|s| - 1]);
      10 * DecimalValue(s[..|s| - 1]) + (s[|s| - 1] as int - '0' as int)
  }

  function DigitChar(d: nat): (c: char)
    requires d < 10
    ensures IsDigit(c) && c as int - '0' as int == d
  {
    ('0' as int + d) as char
  }

  /** `str(n)` for a natural number: its shortest decimal spelling. */
  function Decimal(n: nat): (s: string)
    ensures IsDigits(s)
  {
    if n < 10 then [DigitChar(n)] else Decimal(n / 10) + [DigitChar(n % 10)]
  }

  /** `int(str(n)) == n`. */
  lemma {:induction false} DecimalRoundTrip(n: nat)
    ensures DecimalValue(Decimal(n)) == n
  {
    if n >= 10 {
      var s := Decimal(n);
      assert s[..|s| - 1] == Decimal(n / 10);
      DecimalRoundTrip(n / 10);
    }
  }

  /** `int` ignores leading zeros: `int("0" + s) == int(s)`. */
  lemma {:induction false} LeadingZeroIgnored(s: string)
    requires forall i :: 0 <= i < |s| ==> IsDigit(s[i])
    ensures DecimalValue("0" + s) == DecimalValue(s)
  {
    if s != [] {
      var t := "0" + s;
      assert t[..|t| - 1] == "0" + s[..|s| - 1];
      LeadingZeroIgnored(s[..|s| - 1]);
    }
  }

  // ---------------------------------------------------------------------
  // Properties of strip

  /** `lstrip()` removes a whitespace prefix and nothing else: what is left is
      a suffix of `s` that does not begin with whitespace. */
  lemma {:induction false} LStripShape(s: string)
    ensures var r := LStrip(s);
      |r| <= |s| && r == s[|s| - |r|..] && AllSpace(s[..|s| - |r|]) &&
      (r != [] ==> !IsSpace(r[0]))
  {
    if s != [] && IsSpace(s[0]) {
      LStripShape(s[1..]);
      var r := LStrip(s[1..]);
      assert s[..|s| - |r|] == [s[0]] + s[1..][..|s| - 1 - |r|];
    }
  }

  /** `rstrip()` removes a whitespace suffix and nothing else. */
  lemma {:induction false} RStripShape(s: string)
    ensures var r := RStrip(s);
      |r| <= |s| && r == s[..|r|] && AllSpace(s[|r|..]) &&
      (r != [] ==> !IsSpace(r[|r| - 1]))
  {
    if s != [] && IsSpace(s[|s| - 1]) {
      RStripShape(s[..|s| - 1]);
      var r := RStrip(s[..|s| - 1]);
      assert s[|r|..] == s[..|s| - 1][|r|..] + [s[|s| - 1]];
    }
  }

  /** Every string is whitespace, then what `strip()` keeps, then whitespace;
      and what it keeps neither begins nor ends with whitespace. */
  lemma StripSplit(s: string) returns (p: string, q: string)
    ensures s == p + Strip(s) + q
    ensures AllSpace(p) && AllSpace(q)
    ensures var m := Strip(s); m != [] ==> !IsSpace(m[0]) && !IsSpace(m[|m| - 1])
  {
    var l := LStrip(s);
    LStripShape(s);
    RStripShape(l);
    p := s[..|s| - |l|];
    q := l[|Strip(s)|..];
    assert s == p + l;
    assert l == Strip(s) + q;
  }


  lemma {:induction false} LStripOfSpacePrefix(p: string, t: string)
    requires AllSpace(p)
    ensures LStrip(p + t) == LStrip(t)
  {
    if p != [] {
      assert IsSpace(p[0]) && (p + t)[0] == p[0];
      assert (p + t)[1..] == p[1..] + t;
      LStripOfSpacePrefix(p[1..], t);
    } else {
      assert p + t == t;
    }
  }

  lemma {:induction false} LStripOfAllSpace(q: string)
    requires AllSpace(q)
    ensures LStrip(q) == []
  {
    if q != [] {
      LStripOfAllSpace(q[1..]);
    }
  }

  lemma {:induction false} RStripOfSpaceSuffix(t: string, q: string)
    requires AllSpace(q)
    ensures RStrip(t + q) == RStrip(t)
  {
    if q != [] {
      assert IsSpace(q[|q| - 1]) && (t + q)[|t + q| - 1] == q[|q| - 1];
      assert (t + q)[..|t + q| - 1] == t + q[..|q| - 1];
      RStripOfSpaceSuffix(t, q[..|q| - 1]);
    } else {
      assert t + q == t;
    }
  }

  /** `strip()` returns exactly the middle part `m` of `p + m + q` when `p`
      and `q` are whitespace and `m` neither begins nor ends with it. */
  lemma StripUnique(p: string, m: string, q: string)
    requires AllSpace(p) && AllSpace(q)
    requires m != [] ==> !IsSpace(m[0]) && !IsSpace(m[|m| - 1])
    ensures Strip(p + m + q) == m
  {
    assert p + m + q == p + (m + q);
    LStripOfSpacePrefix(p, m + q);
    if m == [] {
      assert m + q == q;
      LStripOfAllSpace(q);
    } else {
      assert LStrip(m + q) == m + q;
      RStripOfSpaceSuffix(m, q);
    }
  }

  lemma AllSpaceAppend(a: string, b: string)
    requires AllSpace(a) && AllSpace(b)
    ensures AllSpace(a + b)
  {
    forall i | 0 <= i < |a + b|
      ensures IsSpace((a + b)[i])
    {
      if i < |a| {
        assert (a + b)[i] == a[i];
      } else {
        assert (a + b)[i] == b[i - |a|];
      }
    }
  }

  /** Whitespace added at either end does not change what `strip()` returns. */
  lemma StripIgnoresPadding(w1: string, s: string, w2: string)
    requires AllSpace(w1) && AllSpace(w2)
    ensures Strip(w1 + s + w2) == Strip(s)
  {
    var p, q := StripSplit(s);
    AllSpaceAppend(w1, p);
    AllSpaceAppend(q, w2);
    assert w1 + (p + Strip(s) + q) + w2 == (w1 + p) + Strip(s) + (q + w2);
    StripUnique(w1 + p, Strip(s), q + w2);
  }

  // ---------------------------------------------------------------------
  // Properties of translate(None, ' ')

  /** `translate(None, ' ')` leaves no space, keeps every other character as
      often as it occurs, and changes nothing in a string without spaces. */
  lemma {:induction false} DeleteSpacesFacts(s: string)
    ensures ' ' !in DeleteSpaces(s)
    ensures forall c :: c != ' ' ==> multiset(DeleteSpaces(s))[c] == multiset(s)[c]
    ensures ' ' !in s ==> DeleteSpaces(s) == s
  {
    if s != [] {
      DeleteSpacesFacts(s[1..]);
      assert s == [s[0]] + s[1..];
    }
  }

  lemma {:induction false} DeleteSpacesAppend(a: string, b: string)
    ensures DeleteSpaces(a + b) == DeleteSpaces(a) + DeleteSpaces(b)
  {
    if a != [] {
      assert (a + b)[0] == a[0];
      assert (a + b)[1..] == a[1..] + b;
      DeleteSpacesAppend(a[1..], b);
    } else {
      assert a + b == b;
    }
  }

  lemma {:induction false} DeleteSpacesKeepsAllSpace(s: string)
    requires AllSpace(s)
    ensures AllSpace(DeleteSpaces(s))
  {
    if s != [] {
      DeleteSpacesKeepsAllSpace(s[1..]);
    }
  }

  lemma DeleteSpacesAppend3(p: string, m: string, q: string)
    ensures DeleteSpaces(p + m + q) == DeleteSpaces(p) + DeleteSpaces(m) + DeleteSpaces(q)
  {
    DeleteSpacesAppend(p + m, q);
    DeleteSpacesAppend(p, m);
  }

  /** A string that begins and ends with a non-whitespace character still
      does after its spaces are deleted. */
  lemma DeleteSpacesKeepsEnds(m: string)
    requires m != [] ==> !IsSpace(m[0]) && !IsSpace(m[|m| - 1])
    ensures var d := DeleteSpaces(m); d != [] ==> !IsSpace(d[0]) && !IsSpace(d[|d| - 1])
  {
    if m != [] {
      var d := DeleteSpaces(m);
      assert m[0] != ' ';
      assert d[0] == m[0];
      assert m == m[..|m| - 1] + [m[|m| - 1]];
      DeleteSpacesAppend(m[..|m| - 1], [m[|m| - 1]]);
      assert d[|d| - 1] == m[|m| - 1];
    }
  }

  /** Deleting spaces before or after stripping gives the same string. */
  lemma DeleteSpacesStripCommute(s: string)
    ensures DeleteSpaces(Strip(s)) == Strip(DeleteSpaces(s))
  {
    var p, q := StripSplit(s);
    DeleteSpacesAppend3(p, Strip(s), q);
    assert DeleteSpaces(s) == DeleteSpaces(p) + DeleteSpaces(Strip(s)) + DeleteSpaces(q);
    DeleteSpacesKeepsAllSpace(p);
    DeleteSpacesKeepsAllSpace(q);
    DeleteSpacesKeepsEnds(Strip(s));
    StripUnique(DeleteSpaces(p), DeleteSpaces(Strip(s)), DeleteSpaces(q));
  }

  // ---------------------------------------------------------------------
  // Properties of find

  /** `find` returns -1 exactly when `c` does not occur, and otherwise the
      index of its first occurrence. */
  lemma {:induction false} FindFacts(s: string, c: char)
    ensures var i := Find(s, c);
      -1 <= i < |s| && (i == -1 <==> c !in s) && (0 <= i ==> s[i] == c && c !in s[..i])
  {
    if s != [] && s[0] != c {
      FindFacts(s[1..], c);
      assert s == [s[0]] + s[1..];
      var k := Find(s[1..], c);
      if k != -1 {
        assert s[..k + 1] == [s[0]] + s[1..][..k];
      }
    }
  }

  // ---------------------------------------------------------------------
  // Properties of split

  lemma {:induction false} SplitWithoutSeparator(s: string, sep: char)
    requires sep !in s
    ensures Split(s, sep) == [s]
  {
    if s != [] {
      SplitWithoutSeparator(s[1..], sep);
      assert s == [s[0]] + s[1..];
    }
  }

  lemma {:induction false} SplitAtFirstSeparator(f: string, sep: char, t: string)
    requires sep !in f
    ensures Split(f + [sep] + t, sep) == [f] + Split(t, sep)
  {
    if f == [] {
      assert [] + [sep] + t == [sep] + t;
      assert ([sep] + t)[1..] == t;
    } else {
      var s := f + [sep] + t;
      assert s[0] == f[0] && s[0] != sep;
      assert s[1..] == f[1..] + [sep] + t;
      SplitAtFirstSeparator(f[1..], sep, t);
      var rest := Split(s[1..], sep);
      assert rest == [f[1..]] + Split(t, sep);
      assert Split(s, sep) == [[s[0]] + rest[0]] + rest[1..];
      assert [f[0]] + f[1..] == f;
    }
  }

  /** `sep.join(fields).split(sep) == fields` when no field holds `sep`. */
  lemma {:induction false} SplitJoin(fields: seq<string>, sep: char)
    requires fields != []
    requires forall i :: 0 <= i < |fields| ==> sep !in fields[i]
    ensures Split(Join(fields, sep), sep) == fields
  {
    if |fields| == 1 {
      SplitWithoutSeparator(fields[0], sep);
    } else {
      SplitAtFirstSeparator(fields[0], sep, Join(fields[1..], sep));
      SplitJoin(fields[1..], sep);
      assert fields == [fields[0]] + fields[1..];
    }
  }
}
