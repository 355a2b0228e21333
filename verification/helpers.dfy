/** `FormatNumber` of internal/helpers/helpers.go: thousands grouping of a
    number already rendered by Go's `%.2f` verb.

    The rendering itself (float64 to decimal text, rounding, -0, Inf, NaN)
    is not modelled: the input here is the rendered string. */
module Helpers {
  import opened Wrappers
  import opened Strings

  predicate IsDigit(c: char)
  {
    '0' <= c <= '9'
  }

  predicate AllDigits(s: string)
  {
    forall i :: 0 <= i < |s| ==> IsDigit(s[i])
  }

  /** The shape `%.2f` gives a finite float64: an optional '-', one or more
      digits, '.', and exactly two digits. */
  predicate IsFixed2(s: string)
  {
    && |s| >= 4
    && s[|s| - 3] == '.'
    && AllDigits(s[|s| - 2..])
    && var integerPart := s[..|s| - 3];
    || AllDigits(integerPart)
    || (|integerPart| >= 2 && integerPart[0] == '-' && AllDigits(integerPart[1..]))
  }

  /** `s` contains exactly one '.'. */
  predicate HasOneDot(s: string)
  {
    '.' in s && '.' !in s[IndexOf(s, '.') + 1..]
  }

  // ---------------------------------------------------------------------
  // The grouping loop, as written

  /** The loop's test: a ',' goes before character `i` of a part of length
      `len` when `i` is not the first index and the number of characters
      from `i` to the end is a multiple of three. */
  predicate CommaBefore(len: nat, i: nat)
    requires i <= len
  {
    i > 0 && (len - i) % 3 == 0
  }

  /** What iteration `i` of the loop appends. */
  function Emit(s: string, i: nat): string
    requires i < |s|
  {
    if CommaBefore(|s|, i) then [',', s[i]] else [s[i]]
  }

  /** What the loop has built after its first `n` iterations. */
  function GroupPrefix(s: string, n: nat): string
    requires n <= |s|
  {
    if n == 0 then "" else GroupPrefix(s, n - 1) + Emit(s, n - 1)
  }

  /** What the loop builds from the whole integer part. */
  function Grouped(s: string): string
  {
    GroupPrefix(s, |s|)
  }

  // ---------------------------------------------------------------------
  // Reference definition: a ',' before every block of three, from the right

  /** Comma grouping stated independently of the loop: the last three
      characters form a group, and the rest is grouped the same way. Every
      character counts, so a leading '-' is grouped like a digit. */
  function ThreeFromRight(s: string): string
    decreases |s|
  {
    if |s| <= 3 then s
    else ThreeFromRight(s[..|s| - 3]) + "," + s[|s| - 3..]
  }

  // ---------------------------------------------------------------------
  // FormatNumber

  /** `FormatNumber` applied to the `%.2f` rendering `rendered`: split at '.',
      group the integer part, then re-append '.' and the part after the first
      '.'. `None` stands for Go's run-time panic when `parts[1]` does not
      exist, which happens exactly when the rendering has no '.' (the
      renderings of +Inf, -Inf and NaN). */
  function FormatNumber(rendered: string): (r: Option<string>)
    ensures r.None? <==> '.' !in rendered
    ensures r.Some? ==>
              var parts := Split(rendered, '.');
              r.value == ThreeFromRight(parts[0]) + "." + parts[1]
  {
    var parts := Split(rendered, '.');
    if |parts| < 2 then None
    else
      GroupedIsThreeFromRight(parts[0]);
      Some(Grouped(parts[0]) + "." + parts[1])
  }

  /** The same computation written as Go writes it: one pass over the
      integer part that appends a ',' and then the character. */
  method FormatNumberLoop(rendered: string) returns (r: Option<string>)
    ensures r == FormatNumber(rendered)
  {
    var parts := Split(rendered, '.');
    if |parts| < 2 {
      return None;
    }
    var integerPart := parts[0];
    var decimalPart := parts[1];
    var result := "";
    var i := 0;
    while i < |integerPart|
      invariant i <= |integerPart|
      invariant result == GroupPrefix(integerPart, i)
    {
      if i > 0 && (|integerPart| - i) % 3 == 0 {
        result := result + [','];
      }
      result := result + [integerPart[i]];
      i := i + 1;
    }
    r := Some(result + "." + decimalPart);
  }

  // ---------------------------------------------------------------------
  // The loop agrees with the reference definition

  /** Characters after the first `n` do not change the loop's first `n`
      iterations when three of them are appended. */
  lemma {:induction false} PrefixIgnoresLastGroup(t: string, u: string, n: nat)
    requires |u| == 3 && n <= |t|
    ensures GroupPrefix(t + u, n) == GroupPrefix(t, n)
    decreases n
  {
    if n > 0 {
      PrefixIgnoresLastGroup(t, u, n - 1);
      assert (t + u)[n - 1] == t[n - 1];
      assert CommaBefore(|t + u|, n - 1) == CommaBefore(|t|, n - 1);
    }
  }

  /** A part of at most three characters gets no comma at all. */
  lemma {:induction false} ShortPrefixUnchanged(s: string, n: nat)
    requires |s| <= 3 && n <= |s|
    ensures GroupPrefix(s, n) == s[..n]
    decreases n
  {
    if n > 0 {
      ShortPrefixUnchanged(s, n - 1);
      assert s[..n] == s[..n - 1] + [s[n - 1]];
    }
  }

  /** The loop's test `(len - i) % 3 == 0` places commas exactly where the
      right-to-left grouping does. */
  lemma {:induction false} GroupedIsThreeFromRight(s: string)
    ensures Grouped(s) == ThreeFromRight(s)
    decreases |s|
  {
    if |s| <= 3 {
      ShortPrefixUnchanged(s, |s|);
      assert s[..|s|] == s;
    } else {
      var n := |s| - 3;
      var t, u := s[..n], s[n..];
      assert s == t + u;
      GroupedIsThreeFromRight(t);
      PrefixIgnoresLastGroup(t, u, n);
      assert Emit(s, n) == [',', u[0]];
      assert Emit(s, n + 1) == [u[1]];
      assert Emit(s, n + 2) == [u[2]];
      calc {
        Grouped(s);
        GroupPrefix(s, n + 3);
        GroupPrefix(s, n + 2) + Emit(s, n + 2);
        GroupPrefix(s, n + 1) + Emit(s, n + 1) + Emit(s, n + 2);
        GroupPrefix(s, n) + Emit(s, n) + Emit(s, n + 1) + Emit(s, n + 2);
        ThreeFromRight(t) + [',', u[0]] + [u[1]] + [u[2]];
        { assert u == [u[0], u[1], u[2]]; }
        ThreeFromRight(t) + "," + u;
      }
    }
  }

  // ---------------------------------------------------------------------
  // Properties of the grouping

  /** Only commas are added: deleting them gives the part back. */
  lemma {:induction false} OnlyCommasAdded(s: string)
    requires ',' !in s
    ensures Without(ThreeFromRight(s), ',') == s
    decreases |s|
  {
    if |s| <= 3 {
      WithoutAbsent(s, ',');
    } else {
      var n := |s| - 3;
      var t, u := s[..n], s[n..];
      assert s == t + u;
      assert ',' !in t && ',' !in u;
      OnlyCommasAdded(t);
      WithoutAppend(ThreeFromRight(t) + ",", u, ',');
      WithoutAppend(ThreeFromRight(t), ",", ',');
      WithoutAbsent(u, ',');
    }
  }

  /** A part of length L >= 1 gains (L - 1) / 3 commas. */
  lemma {:induction false} CommaCount(s: string)
    requires |s| >= 1
    ensures Count(ThreeFromRight(s), ',') == Count(s, ',') + (|s| - 1) / 3
    ensures |ThreeFromRight(s)| == |s| + (|s| - 1) / 3
    decreases |s|
  {
    if |s| > 3 {
      var n := |s| - 3;
      var t, u := s[..n], s[n..];
      assert s == t + u;
      CommaCount(t);
      CountAppend(t, u, ',');
      CountAppend(ThreeFromRight(t) + ",", u, ',');
      CountAppend(ThreeFromRight(t), ",", ',');
    }
  }

  /** Group structure: in the grouped text r, position j holds a comma
      exactly when it is a multiple of four characters from the end. So the
      text is a first group of |r| % 4 characters (never zero, since no
      comma comes first) followed by groups of a comma and three characters. */
  lemma {:induction false} CommaPositions(s: string)
    requires ',' !in s
    ensures forall j :: 0 <= j < |ThreeFromRight(s)| ==>
              (ThreeFromRight(s)[j] == ',' <==> (|ThreeFromRight(s)| - j) % 4 == 0)
    decreases |s|
  {
    var r := ThreeFromRight(s);
    if |s| > 3 {
      var n := |s| - 3;
      var t, u := s[..n], s[n..];
      assert s == t + u;
      assert ',' !in t && ',' !in u;
      CommaPositions(t);
      var r' := ThreeFromRight(t);
      assert r == r' + [','] + u;
      forall j | 0 <= j < |r|
        ensures r[j] == ',' <==> (|r| - j) % 4 == 0
      {
        if j < |r'| {
          assert r[j] == r'[j];
          assert r'[j] == ',' <==> (|r'| - j) % 4 == 0;
          assert (|r| - j) % 4 == (|r'| - j) % 4;
        } else if j > |r'| {
          assert r[j] == u[j - |r'| - 1];
          assert u[j - |r'| - 1] != ',';
          assert 1 <= |r| - j <= 3;
        } else {
          assert |r| - j == 4;
        }
      }
    }
  }

  /** No comma is emitted before the first character. */
  lemma {:induction false} FirstCharacterKept(s: string)
    requires |s| >= 1
    ensures |ThreeFromRight(s)| >= 1 && ThreeFromRight(s)[0] == s[0]
    decreases |s|
  {
    if |s| > 3 {
      var t := s[..|s| - 3];
      FirstCharacterKept(t);
    }
  }

  /** A leading character (such as '-') is grouped like a digit: it gets a
      comma of its own exactly when the rest has a multiple of three
      characters. */
  lemma {:induction false} LeadingCharacterGrouped(c: char, d: string)
    requires |d| >= 1
    ensures ThreeFromRight([c] + d)
            == (if |d| % 3 == 0 then [c, ','] else [c]) + ThreeFromRight(d)
    decreases |d|
  {
    if |d| > 3 {
      var n := |d| - 3;
      var d', u := d[..n], d[n..];
      assert d == d' + u;
      assert [c] + d == ([c] + d') + u;
      assert ([c] + d)[..|[c] + d| - 3] == [c] + d';
      assert ([c] + d)[|[c] + d| - 3..] == u;
      LeadingCharacterGrouped(c, d');
    }
  }

  // ---------------------------------------------------------------------
  // Properties of FormatNumber

  /** Splitting a one-dot string gives the text before and after the dot. */
  lemma SplitOneDot(rendered: string)
    requires HasOneDot(rendered)
    ensures var k := IndexOf(rendered, '.');
            Split(rendered, '.') == [rendered[..k], rendered[k + 1..]]
  {
    var k := IndexOf(rendered, '.');
    var before, after := rendered[..k], rendered[k + 1..];
    assert rendered == before + ['.'] + after;
    SplitAppendLast(before, after, '.');
  }

  /** For a `%.2f` rendering, the output is the grouped integer part, then
      '.', then the two decimals unchanged. */
  lemma FormatFixed(rendered: string)
    requires IsFixed2(rendered)
    ensures var n := |rendered| - 3;
            FormatNumber(rendered)
            == Some(ThreeFromRight(rendered[..n]) + "." + rendered[n + 1..])
  {
    var n := |rendered| - 3;
    var integerPart := rendered[..n];
    assert forall i :: 0 <= i < |integerPart| ==> integerPart[i] != '.' by {
      if !AllDigits(integerPart) {
        assert forall i :: 1 <= i < |integerPart| ==> integerPart[1..][i - 1] == integerPart[i];
      }
    }
    var decimals := rendered[n + 1..];
    forall i | 0 <= i < |decimals|
      ensures decimals[i] != '.'
    {
      assert IsDigit(decimals[i]);
    }
    assert IndexOf(rendered, '.') == n;
    SplitOneDot(rendered);
  }

  /** Deleting every ',' from the output gives back the rendering exactly,
      whenever the rendering has one '.' and no ',' (as `%.2f` output does). */
  lemma OnlyCommasInserted(rendered: string)
    requires HasOneDot(rendered) && ',' !in rendered
    ensures FormatNumber(rendered).Some?
    ensures Without(FormatNumber(rendered).value, ',') == rendered
  {
    var k := IndexOf(rendered, '.');
    var before, after := rendered[..k], rendered[k + 1..];
    SplitOneDot(rendered);
    var grouped := ThreeFromRight(before);
    assert FormatNumber(rendered) == Some(grouped + "." + after);
    assert ',' !in before && ',' !in after by {
      assert rendered == before + "." + after;
    }
    OnlyCommasAdded(before);
    WithoutAppend(grouped + ".", after, ',');
    WithoutAppend(grouped, ".", ',');
    WithoutAbsent(after, ',');
    WithoutAbsent(".", ',');
    assert rendered == before + "." + after;
  }

  /** Renderings whose integer part has at most three characters come out
      unchanged. */
  lemma ShortRenderingUnchanged(rendered: string)
    requires IsFixed2(rendered) && |rendered| <= 6
    ensures FormatNumber(rendered) == Some(rendered)
  {
    FormatFixed(rendered);
    assert rendered == rendered[..|rendered| - 3] + "." + rendered[|rendered| - 2..];
  }

  /** The '-' sign counts toward the grouping length: a negative number
      whose digit count is a multiple of three gets a comma right after the
      sign. */
  lemma MinusSignGrouped(digits: string, decimals: string)
    requires |digits| >= 1 && AllDigits(digits)
    requires |decimals| == 2 && AllDigits(decimals)
    ensures FormatNumber("-" + digits + "." + decimals)
            == Some((if |digits| % 3 == 0 then "-," else "-")
                    + ThreeFromRight(digits) + "." + decimals)
  {
    var rendered := "-" + digits + "." + decimals;
    var n := |rendered| - 3;
    assert rendered[..n] == "-" + digits;
    assert rendered[n + 1..] == decimals;
    assert rendered[n + 1..] == rendered[|rendered| - 2..];
    assert rendered[..n][1..] == digits;
    FormatFixed(rendered);
    LeadingCharacterGrouped('-', digits);
  }

  /** The `%.2f` renderings of the inputs of helpers_test.go, each paired
      with the output that test expects, plus one negative number whose
      digit count is a multiple of three. */
  const FormatCases: seq<(string, string)> := [
    ("0.00", "0.00"),
    ("42.50", "42.50"),
    ("-42.50", "-42.50"),
    ("42.00", "42.00"),
    ("0.42", "0.42"),
    ("1234.56", "1,234.56"),
    ("1234567.89", "1,234,567.89"),
    ("-1234.56", "-1,234.56"),
    ("1234567890.12", "1,234,567,890.12"),
    ("-123.45", "-,123.45")
  ]

  /** Grouping of the digit strings that occur in `FormatCases`. */
  lemma GroupedDigitExamples()
    ensures ThreeFromRight("1234") == "1,234"
    ensures ThreeFromRight("1234567") == "1,234,567"
    ensures ThreeFromRight("1234567890") == "1,234,567,890"
    ensures ThreeFromRight("-1234") == "-1,234"
    ensures ThreeFromRight("-123") == "-,123"
  {
    assert "1234"[..1] == "1" && "1234"[1..] == "234";
    assert "1234567"[..4] == "1234" && "1234567"[4..] == "567";
    assert "1234567890"[..7] == "1234567" && "1234567890"[7..] == "890";
    assert "-1234"[..2] == "-1" && "-1234"[2..] == "234";
    assert "-123"[..1] == "-" && "-123"[1..] == "123";
  }

  /** How the cases of `FormatCases` with several groups split at their
      '.'; it exists only to spell out literals for `FormatCasesHold`. */
  lemma TableRowPieces()
    ensures "1234.56"[..4] == "1234" && "1234.56"[5..] == "56"
    ensures "1,234" + "." + "56" == "1,234.56"
    ensures "1234567.89"[..7] == "1234567" && "1234567.89"[8..] == "89"
    ensures "1,234,567" + "." + "89" == "1,234,567.89"
    ensures "-1234.56"[..5] == "-1234" && "-1234.56"[6..] == "56"
    ensures "-1,234" + "." + "56" == "-1,234.56"
    ensures "1234567890.12"[..10] == "1234567890" && "1234567890.12"[11..] == "12"
    ensures "1,234,567,890" + "." + "12" == "1,234,567,890.12"
    ensures "-123.45"[..4] == "-123" && "-123.45"[5..] == "45"
    ensures "-,123" + "." + "45" == "-,123.45"
  {
  }

  /** Every case of `FormatCases` holds. */
  lemma FormatCasesHold(i: nat)
    requires i < |FormatCases|
    ensures FormatNumber(FormatCases[i].0) == Some(FormatCases[i].1)
  {
    var rendered := FormatCases[i].0;
    if i < 5 {
      ShortRenderingUnchanged(rendered);
    } else {
      FormatFixed(rendered);
      GroupedDigitExamples();
      TableRowPieces();
    }
  }

  /** `%.2f` renders +Inf and NaN without a '.', and `FormatNumber` then
      panics. */
  lemma NonFiniteRenderingsPanic()
    ensures FormatNumber("+Inf").None?
    ensures FormatNumber("-Inf").None?
    ensures FormatNumber("NaN").None?
  {
  }
}
