/** String helpers that stand for the JavaScript string built-ins the
    source relies on: `Array.prototype.join`, `String.prototype.replace`
    with a string pattern, `toUpperCase` and `trim`. A string is a
    sequence of characters. */
module Text {

  import opened Wrappers

  /** `xs.join(sep)`. */
  function Join(xs: seq<string>, sep: string): (r: string)
    ensures |xs| == 0 ==> r == ""
    ensures |xs| == 1 ==> r == xs[0]
    ensures |xs| > 1 ==> r == xs[0] + sep + Join(xs[1..], sep)
  {
    if |xs| == 0 then ""
    else if |xs| == 1 then xs[0]
    else xs[0] + sep + Join(xs[1..], sep)
  }

  /** Splits `s` at every occurrence of `sep`, scanning left to right; the
      inverse of `Join` on pieces that do not contain `sep`'s first character
      (see `SplitJoin`). */
  function Split(s: string, sep: string): (r: seq<string>)
    requires |sep| > 0
    ensures |r| > 0
    decreases |s|
  {
    if |s| == 0 then [""]
    else if sep <= s then [""] + Split(s[|sep|..], sep)
    else
      var rest := Split(s[1..], sep);
      [[s[0]] + rest[0]] + rest[1..]
  }

  /** `sep` starts nowhere inside `x`, not even as an occurrence that runs
      on into a `sep` written right after `x`. */
  ghost predicate SeparatorFree(x: string, sep: string) {
    forall k :: 0 <= k < |x| ==> !(sep <= (x + sep)[k..])
  }

  /** A piece without the separator's first character is separator-free. */
  lemma FirstCharAbsent(x: string, sep: string)
    requires |sep| > 0 && sep[0] !in x
    ensures SeparatorFree(x, sep)
  {
    forall k | 0 <= k < |x| ensures !(sep <= (x + sep)[k..]) {
      assert (x + sep)[k..][0] == x[k];
    }
  }

  /** Dropping the first character keeps a piece separator-free. */
  lemma SeparatorFreeTail(x: string, sep: string)
    requires |x| > 0 && SeparatorFree(x, sep)
    ensures SeparatorFree(x[1..], sep)
  {
    forall k | 0 <= k < |x| - 1 ensures !(sep <= (x[1..] + sep)[k..]) {
      assert (x[1..] + sep)[k..] == (x + sep)[k + 1..];
    }
  }

  /** A piece with `sep` written inside it is not separator-free. */
  lemma SeparatorInside(a: string, sep: string, b: string)
    requires |sep| > 0
    ensures !SeparatorFree(a + sep + b, sep)
  {
    var x := a + sep + b;
    assert (x + sep)[|a|..][..|sep|] == sep;
  }

  /** A separator-free piece is never split. */
  lemma {:induction false} SplitSeparatorFree(x: string, sep: string)
    requires |sep| > 0 && SeparatorFree(x, sep)
    ensures Split(x, sep) == [x]
    decreases |x|
  {
    if |x| > 0 {
      assert !(sep <= x) by {
        assert (x + sep)[0..] == x + sep;
      }
      SeparatorFreeTail(x, sep);
      SplitSeparatorFree(x[1..], sep);
      assert [x[0]] + x[1..] == x;
    }
  }

  /** The first separator after a separator-free piece ends that piece. */
  lemma {:induction false} SplitAfterSeparatorFree(x: string, sep: string, rest: string)
    requires |sep| > 0 && SeparatorFree(x, sep)
    ensures Split(x + sep + rest, sep) == [x] + Split(rest, sep)
    decreases |x|
  {
    var s := x + sep + rest;
    if |x| == 0 {
      assert s == sep + rest;
      assert sep <= s;
      assert s[|sep|..] == rest;
    } else {
      assert !(sep <= s) by {
        assert (x + sep)[0..] == x + sep;
        assert |sep| <= |x + sep| && s[..|sep|] == (x + sep)[..|sep|];
      }
      assert s[1..] == x[1..] + sep + rest;
      SeparatorFreeTail(x, sep);
      SplitAfterSeparatorFree(x[1..], sep, rest);
      assert [x[0]] + x[1..] == x;
    }
  }

  /** Splitting a join of separator-free pieces gives back the pieces, in
      order. */
  lemma {:induction false} SplitJoinSeparatorFree(xs: seq<string>, sep: string)
    requires |xs| > 0 && |sep| > 0
    requires forall i :: 0 <= i < |xs| ==> SeparatorFree(xs[i], sep)
    ensures Split(Join(xs, sep), sep) == xs
    decreases |xs|
  {
    if |xs| == 1 {
      SplitSeparatorFree(xs[0], sep);
    } else {
      SplitJoinSeparatorFree(xs[1..], sep);
      SplitAfterSeparatorFree(xs[0], sep, Join(xs[1..], sep));
      assert [xs[0]] + xs[1..] == xs;
    }
  }

  /** A piece without the separator's first character is never split. */
  lemma SplitWithoutSeparator(x: string, sep: string)
    requires |sep| > 0 && sep[0] !in x
    ensures Split(x, sep) == [x]
  {
    FirstCharAbsent(x, sep);
    SplitSeparatorFree(x, sep);
  }

  /** The first separator after a piece without the separator's first
      character ends that piece. */
  lemma SplitAfterPiece(x: string, sep: string, rest: string)
    requires |sep| > 0 && sep[0] !in x
    ensures Split(x + sep + rest, sep) == [x] + Split(rest, sep)
  {
    FirstCharAbsent(x, sep);
    SplitAfterSeparatorFree(x, sep, rest);
  }

  /** Splitting a join gives back the joined pieces, in order, when no
      piece holds the separator's first character. */
  lemma SplitJoin(xs: seq<string>, sep: string)
    requires |xs| > 0 && |sep| > 0
    requires forall i :: 0 <= i < |xs| ==> sep[0] !in xs[i]
    ensures Split(Join(xs, sep), sep) == xs
  {
    forall i | 0 <= i < |xs| ensures SeparatorFree(xs[i], sep) {
      FirstCharAbsent(xs[i], sep);
    }
    SplitJoinSeparatorFree(xs, sep);
  }

  /** Number of occurrences of `c` in `s`. */
  function Count(s: string, c: char): (n: nat)
    ensures n <= |s|
    ensures n == 0 <==> c !in s
  {
    if |s| == 0 then 0 else (if s[0] == c then 1 else 0) + Count(s[1..], c)
  }

  lemma {:induction false} CountAppend(a: string, b: string, c: char)
    ensures Count(a + b, c) == Count(a, c) + Count(b, c)
    decreases |a|
  {
    if |a| > 0 {
      assert (a + b)[1..] == a[1..] + b;
      CountAppend(a[1..], b, c);
    } else {
      assert a + b == b;
    }
  }

  /** Index of the first `c` in `s`, or `|s|` when there is none. */
  function FirstIndexOf(s: string, c: char): (i: nat)
    ensures i <= |s|
    ensures c !in s[..i]
    ensures i < |s| ==> s[i] == c
  {
    if |s| == 0 then 0
    else if s[0] == c then 0
    else
      var j := FirstIndexOf(s[1..], c);
      assert s[..j + 1] == [s[0]] + s[1..][..j];
      j + 1
  }

  /** The first `c` after a `c`-free prefix is the one right after it. */
  lemma {:induction false} FirstIndexAfterPrefix(a: string, c: char, rest: string)
    requires c !in a
    ensures FirstIndexOf(a + [c] + rest, c) == |a|
    decreases |a|
  {
    if |a| > 0 {
      assert (a + [c] + rest)[1..] == a[1..] + [c] + rest;
      assert c !in a[1..];
      FirstIndexAfterPrefix(a[1..], c, rest);
    }
  }

  /** `s.replace("'", "''")`: a string pattern replaces only its FIRST
      occurrence, so only the first single quote is doubled. */
  function DoubleFirstQuote(s: string): (r: string)
    ensures '\'' !in s ==> r == s
    ensures Count(r, '\'') == Count(s, '\'') + (if '\'' in s then 1 else 0)
    ensures |r| == |s| + (if '\'' in s then 1 else 0)
    ensures s[..FirstIndexOf(s, '\'')] <= r
  {
    var i := FirstIndexOf(s, '\'');
    if i == |s| then
      assert s[..i] == s;
      s
    else
      assert s == s[..i] + [s[i]] + s[i + 1..];
      CountAppend(s[..i], [s[i]], '\'');
      CountAppend(s[..i] + [s[i]], s[i + 1..], '\'');
      CountAppend(s[..i], "''", '\'');
      CountAppend(s[..i] + "''", s[i + 1..], '\'');
      s[..i] + "''" + s[i + 1..]
  }

  /** Only the quote after a quote-free prefix is doubled. */
  lemma DoubleFirstQuoteAfter(a: string, rest: string)
    requires '\'' !in a
    ensures DoubleFirstQuote(a + "'" + rest) == a + "''" + rest
  {
    var s := a + "'" + rest;
    assert s == a + ['\''] + rest;
    FirstIndexAfterPrefix(a, '\'', rest);
    assert s[..|a|] == a;
    assert s[|a| + 1..] == rest;
  }

  /** Every single quote doubled: the standard SQL escape for a quote inside
      a quoted literal. Not what the source does; see `DoubleFirstQuote`. */
  function DoubleAllQuotes(s: string): (r: string)
    ensures Count(r, '\'') == 2 * Count(s, '\'')
    ensures '\'' !in s ==> r == s
  {
    if |s| == 0 then ""
    else
      var t := DoubleAllQuotes(s[1..]);
      var head := if s[0] == '\'' then "''" else [s[0]];
      CountAppend(head, t, '\'');
      assert '\'' !in s ==> [s[0]] + s[1..] == s;
      head + t
  }

  /** Escaping distributes over concatenation. */
  lemma {:induction false} DoubleAllQuotesAppend(a: string, b: string)
    ensures DoubleAllQuotes(a + b) == DoubleAllQuotes(a) + DoubleAllQuotes(b)
    decreases |a|
  {
    if |a| > 0 {
      assert (a + b)[0] == a[0];
      assert (a + b)[1..] == a[1..] + b;
      DoubleAllQuotesAppend(a[1..], b);
    } else {
      assert a + b == b;
    }
  }

  /** The one quote of `a'b` is doubled. */
  lemma DoubleAllQuotesOne(a: string, b: string)
    requires '\'' !in a && '\'' !in b
    ensures DoubleAllQuotes(a + "'" + b) == a + "''" + b
  {
    DoubleAllQuotesAppend(a + "'", b);
    DoubleAllQuotesAppend(a, "'");
    assert DoubleAllQuotes("'") == "''";
  }

  lemma SingleQuoteEscapesAgree(s: string)
    requires Count(s, '\'') == 1
    ensures DoubleFirstQuote(s) == DoubleAllQuotes(s)
  {
    var a, b := AroundOnlyQuote(s);
    DoubleFirstQuoteAfter(a, b);
    DoubleAllQuotesOne(a, b);
  }

  /** A string with exactly one quote is the text before it, the quote,
      and the text after it. */
  lemma AroundOnlyQuote(s: string) returns (a: string, b: string)
    requires Count(s, '\'') == 1
    ensures s == a + "'" + b && '\'' !in a && '\'' !in b
  {
    var i := FirstIndexOf(s, '\'');
    a, b := s[..i], s[i + 1..];
    assert s == a + [s[i]] + b;
    CountAppend(a, [s[i]], '\'');
    CountAppend(a + [s[i]], b, '\'');
    assert Count([s[i]], '\'') == 1;
  }

  /** Doubling only the first quote is the correct escape exactly when the
      string has at most one quote. */
  lemma FirstQuoteEscapeCorrectIffAtMostOneQuote(s: string)
    ensures DoubleFirstQuote(s) == DoubleAllQuotes(s) <==> Count(s, '\'') <= 1
  {
    var c := Count(s, '\'');
    if c == 1 {
      SingleQuoteEscapesAgree(s);
    } else if c > 1 {
      assert Count(DoubleFirstQuote(s), '\'') != Count(DoubleAllQuotes(s), '\'');
    }
  }

  /** A literal that reads successfully ends before the text does. */
  lemma {:induction false} ReadQuotedShortens(t: string)
    ensures ReadQuoted(t).Some? ==> |ReadQuoted(t).value.1| < |t|
    decreases |t|
  {
    if |t| > 0 {
      if t[0] == '\'' && |t| > 1 && t[1] == '\'' {
        ReadQuotedShortens(t[2..]);
      } else if t[0] != '\'' {
        ReadQuotedShortens(t[1..]);
      }
    }
  }

  /** Reads the body of a quoted SQL literal whose opening quote has been
      consumed: `''` stands for one quote, a lone `'` closes the literal.
      Returns the literal's value and the text after the closing quote, or
      None when the literal is never closed. */
  function ReadQuoted(t: string): (r: Option<(string, string)>)
    decreases |t|
  {
    if |t| == 0 then None
    else if t[0] == '\'' then
      if |t| > 1 && t[1] == '\'' then
        match ReadQuoted(t[2..])
        case None => None
        case Some(p) => Some(("'" + p.0, p.1))
      else Some(("", t[1..]))
    else
      match ReadQuoted(t[1..])
      case None => None
      case Some(p) => Some(([t[0]] + p.0, p.1))
  }

  /** Quote-free text before a literal's body is read as part of it. */
  lemma {:induction false} ReadQuotedPlainPrefix(a: string, t: string)
    requires '\'' !in a && ReadQuoted(t).Some?
    ensures ReadQuoted(a + t) == Some((a + ReadQuoted(t).value.0, ReadQuoted(t).value.1))
    decreases |a|
  {
    if |a| > 0 {
      assert (a + t)[1..] == a[1..] + t;
      assert '\'' !in a[1..];
      ReadQuotedPlainPrefix(a[1..], t);
      assert [a[0]] + (a[1..] + ReadQuoted(t).value.0) == a + ReadQuoted(t).value.0;
    } else {
      assert a + t == t;
      assert a + ReadQuoted(t).value.0 == ReadQuoted(t).value.0;
    }
  }

  /** A doubled quote inside a literal's body reads as one quote. */
  lemma ReadQuotedEscapedQuote(t: string)
    requires ReadQuoted(t).Some?
    ensures ReadQuoted("''" + t) == Some(("'" + ReadQuoted(t).value.0, ReadQuoted(t).value.1))
  {
    assert ("''" + t)[2..] == t;
  }

  /** A lone quote closes the literal. */
  lemma ReadQuotedCloses(t: string)
    requires |t| == 0 || t[0] != '\''
    ensures ReadQuoted("'" + t) == Some(("", t))
  {
    assert ("'" + t)[1..] == t;
  }

  /** Parses a quoted SQL literal at the start of `t`. */
  function ParseSqlLiteral(t: string): Option<(string, string)> {
    if |t| > 0 && t[0] == '\'' then ReadQuoted(t[1..]) else None
  }

  /** Quoting `DoubleAllQuotes(s)` yields a literal that reads back as exactly
      `s`, with the following text untouched. */
  lemma ReadQuotedDoubled(s: string, rest: string)
    requires |rest| == 0 || rest[0] != '\''
    ensures ReadQuoted(DoubleAllQuotes(s) + "'" + rest) == Some((s, rest))
  {
    var t := "'" + rest;
    ReadQuotedCloses(rest);
    ReadEscapedBody(s, t, "", rest);
    Regroup3(DoubleAllQuotes(s), "'", rest);
    assert s + "" == s;
  }

  /** An escaped body in front of text that reads as a literal's body
      (its value `u`, then `r`) reads as the body followed by `u`. */
  lemma {:induction false} ReadEscapedBody(s: string, t: string, u: string, r: string)
    requires ReadQuoted(t) == Some((u, r))
    ensures ReadQuoted(DoubleAllQuotes(s) + t) == Some((s + u, r))
    decreases |s|
  {
    if |s| == 0 {
      assert DoubleAllQuotes(s) + t == t;
      assert s + u == u;
    } else {
      var d := DoubleAllQuotes(s[1..]);
      ReadEscapedBody(s[1..], t, u, r);
      var head := DoubleAllQuotesHead(s);
      Regroup3(head, d, t);
      ReadQuotedStep(head, s[0], d + t, s[1..] + u, r);
      Regroup3([s[0]], s[1..], u);
      assert [s[0]] + s[1..] == s;
    }
  }

  lemma Regroup3(a: string, b: string, c: string)
    ensures (a + b) + c == a + (b + c)
  {
  }

  lemma Regroup4(a: string, b: string, c: string, d: string)
    ensures a + b + c + d == a + (b + (c + d))
  {
  }

  /** What follows a known prefix. */
  lemma DropPrefix(a: string, b: string)
    ensures (a + b)[|a|..] == b
  {
  }

  /** One escaped character in front of a literal's body. */
  lemma ReadQuotedStep(head: string, c: char, t: string, u: string, rest: string)
    requires head == (if c == '\'' then "''" else [c])
    requires ReadQuoted(t) == Some((u, rest))
    ensures ReadQuoted(head + t) == Some(([c] + u, rest))
  {
    if c == '\'' {
      ReadQuotedEscapedQuote(t);
    } else {
      assert (head + t)[1..] == t;
    }
  }

  /** The escape of a non-empty string, one character at a time. */
  lemma DoubleAllQuotesHead(s: string) returns (head: string)
    requires |s| > 0
    ensures head == (if s[0] == '\'' then "''" else [s[0]])
    ensures DoubleAllQuotes(s) == head + DoubleAllQuotes(s[1..])
  {
    head := if s[0] == '\'' then "''" else [s[0]];
  }

  /** ASCII part of `toUpperCase`. */
  function UpperChar(c: char): char {
    if 'a' <= c <= 'z' then (c as int - 32) as char else c
  }

  function ToUpper(s: string): (r: string)
    ensures |r| == |s|
    ensures forall i :: 0 <= i < |s| ==> r[i] == UpperChar(s[i])
  {
    if |s| == 0 then "" else [UpperChar(s[0])] + ToUpper(s[1..])
  }

  /** JavaScript WhiteSpace and LineTerminator code points: what `trim`
      removes and what `Number` skips around a numeral. */
  predicate IsJsSpace(c: char) {
    var n := c as int;
    n == 0x09 || n == 0x0A || n == 0x0B || n == 0x0C || n == 0x0D || n == 0x20
    || n == 0xA0 || n == 0x1680 || (0x2000 <= n <= 0x200A) || n == 0x2028
    || n == 0x2029 || n == 0x202F || n == 0x205F || n == 0x3000 || n == 0xFEFF
  }

  function TrimStart(s: string): (r: string)
    ensures |r| <= |s| && r == s[|s| - |r|..]
    ensures |r| > 0 ==> !IsJsSpace(r[0])
    ensures forall i :: 0 <= i < |s| - |r| ==> IsJsSpace(s[i])
  {
    if |s| > 0 && IsJsSpace(s[0]) then
      var r := TrimStart(s[1..]);
      assert s[1..][|s| - 1 - |r|..] == s[|s| - |r|..];
      assert forall i :: 1 <= i < |s| - |r| ==> s[i] == s[1..][i - 1];
      r
    else s
  }

  function TrimEnd(s: string): (r: string)
    ensures |r| <= |s| && r == s[..|r|]
    ensures |r| > 0 ==> !IsJsSpace(r[|r| - 1])
    ensures forall i :: |r| <= i < |s| ==> IsJsSpace(s[i])
  {
    if |s| > 0 && IsJsSpace(s[|s| - 1]) then
      var r := TrimEnd(s[..|s| - 1]);
      assert s[..|s| - 1][..|r|] == s[..|r|];
      assert forall i :: |r| <= i < |s| - 1 ==> s[i] == s[..|s| - 1][i];
      r
    else s
  }

  /** `s.trim()`. */
  function Trim(s: string): string {
    TrimEnd(TrimStart(s))
  }

  /** A trimmed string is empty exactly when every character is white space. */
  lemma TrimEmptyIffAllSpace(s: string)
    ensures |Trim(s)| == 0 <==> forall i :: 0 <= i < |s| ==> IsJsSpace(s[i])
  {
    var a := TrimStart(s);
    if |Trim(s)| != 0 {
      assert !IsJsSpace(a[0]);
    }
  }
}
