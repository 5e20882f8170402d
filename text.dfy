/** The string operations the SQL helpers are built from: decimal numbers in
    template literals, `Array.prototype.join`, `String.prototype.indexOf`,
    `replace` with a string pattern (first occurrence only), `replaceAll`,
    `trim` and `toLowerCase`; and a reader for the `$n` parameter
    placeholders that PostgreSQL finds in query text. */
module Text {

  predicate IsDigit(c: char)
  {
    '0' <= c <= '9'
  }

  predicate AllDigits(s: string)
  {
    forall i :: 0 <= i < |s| ==> IsDigit(s[i])
  }

  function DigitChar(d: nat): (c: char)
    requires d < 10
    ensures IsDigit(c)
  {
    ('0' as int + d) as char
  }

  function DigitValue(c: char): (d: nat)
    requires IsDigit(c)
    ensures d < 10 && DigitChar(d) == c
  {
    c as int - '0' as int
  }

  /** `${n}` for a whole number `n >= 0`: its decimal digits, no leading zero. */
  function DecimalString(n: nat): (s: string)
    ensures |s| > 0 && AllDigits(s)
    ensures s[0] == '0' ==> n == 0
    decreases n
  {
    if n < 10 then [DigitChar(n)] else DecimalString(n / 10) + [DigitChar(n % 10)]
  }

  /** The number a run of decimal digits denotes. */
  function ParseDecimal(s: string): nat
    requires AllDigits(s)
  {
    if s == [] then 0 else ParseDecimal(s[..|s| - 1]) * 10 + DigitValue(s[|s| - 1])
  }

  /** Reading back the digits of a placeholder number gives the number. */
  lemma {:induction false} DecimalRoundTrip(n: nat)
    ensures ParseDecimal(DecimalString(n)) == n
    decreases n
  {
    if n >= 10 {
      var s := DecimalString(n);
      assert s[..|s| - 1] == DecimalString(n / 10);
      DecimalRoundTrip(n / 10);
    }
  }

  /** `parts.join(sep)` */
  function Join(parts: seq<string>, sep: string): string
  {
    if |parts| == 0 then ""
    else if |parts| == 1 then parts[0]
    else parts[0] + sep + Join(parts[1..], sep)
  }

  predicate OccursAt(s: string, pat: string, i: int)
  {
    0 <= i && i + |pat| <= |s| && s[i..i + |pat|] == pat
  }

  /** `s.indexOf(pat)`: the first position where `pat` occurs, or -1. */
  function IndexOf(s: string, pat: string): int
    decreases |s|
  {
    if |pat| <= |s| && s[..|pat|] == pat then 0
    else if s == [] then -1
    else
      var k := IndexOf(s[1..], pat);
      if k < 0 then -1 else k + 1
  }

  /** `IndexOf` finds an occurrence, and none comes before it; -1 means there
      is none at all. */
  lemma {:induction false} IndexOfFirst(s: string, pat: string)
    ensures var i := IndexOf(s, pat);
      && -1 <= i <= |s|
      && (i >= 0 ==> OccursAt(s, pat, i))
      && (forall j :: 0 <= j && (i < 0 || j < i) ==> !OccursAt(s, pat, j))
    decreases |s|
  {
    if !(|pat| <= |s| && s[..|pat|] == pat) && s != [] {
      IndexOfFirst(s[1..], pat);
      forall j | 1 <= j ensures OccursAt(s, pat, j) <==> OccursAt(s[1..], pat, j - 1) {
        OccursShift(s, pat, j);
      }
    }
  }

  /** An occurrence past the first character is one in the rest. */
  lemma OccursShift(s: string, pat: string, j: int)
    requires s != [] && 1 <= j
    ensures OccursAt(s, pat, j) <==> OccursAt(s[1..], pat, j - 1)
  {
    if j + |pat| <= |s| {
      var a, b := s[j..j + |pat|], s[1..][j - 1..j - 1 + |pat|];
      forall k | 0 <= k < |pat| ensures a[k] == b[k] {
        assert a[k] == s[j + k] == b[k];
      }
      assert a == b;
    }
  }

  /** `s.replace(pat, rep)` with a string pattern: only the first occurrence
      is replaced, and `s` is returned as it is when there is none. */
  function ReplaceFirst(s: string, pat: string, rep: string): string
  {
    var i := IndexOf(s, pat);
    if 0 <= i && i + |pat| <= |s| then s[..i] + rep + s[i + |pat|..] else s
  }

  /** A pattern the text starts with is the occurrence that gets replaced. */
  lemma ReplaceFirstAtStart(pat: string, rest: string, rep: string)
    ensures ReplaceFirst(pat + rest, pat, rep) == rep + rest
  {
    IndexOfFirst(pat + rest, pat);
    assert OccursAt(pat + rest, pat, 0);
    assert (pat + rest)[|pat|..] == rest;
  }

  /** A one-character pattern is replaced where it first appears. */
  lemma ReplaceFirstChar(a: string, c: char, b: string, rep: string)
    requires c !in a
    ensures ReplaceFirst(a + [c] + b, [c], rep) == a + rep + b
  {
    var s := a + [c] + b;
    IndexOfFirst(s, [c]);
    assert OccursAt(s, [c], |a|);
    forall j | 0 <= j < |a| ensures !OccursAt(s, [c], j) {
      assert s[j] == a[j];
    }
    assert s[..|a|] == a && s[|a| + 1..] == b;
  }

  /** `s.replaceAll(c, rep)` for a one-character pattern. */
  function ReplaceAllChar(s: string, c: char, rep: string): (r: string)
    ensures c !in rep ==> c !in r
  {
    if s == [] then ""
    else (if s[0] == c then rep else [s[0]]) + ReplaceAllChar(s[1..], c, rep)
  }

  lemma {:induction false} ReplaceAllCharAppend(x: string, y: string, c: char, rep: string)
    ensures ReplaceAllChar(x + y, c, rep) == ReplaceAllChar(x, c, rep) + ReplaceAllChar(y, c, rep)
    decreases |x|
  {
    if x == [] {
      assert x + y == y;
    } else {
      assert (x + y)[1..] == x[1..] + y;
      ReplaceAllCharAppend(x[1..], y, c, rep);
    }
  }

  lemma {:induction false} ReplaceAllCharAbsent(s: string, c: char, rep: string)
    requires c !in s
    ensures ReplaceAllChar(s, c, rep) == s
    decreases |s|
  {
    if s != [] {
      ReplaceAllCharAbsent(s[1..], c, rep);
    }
  }

  /** Replacing every `c` of a joined list whose items hold no `c` rewrites
      only the separators. */
  lemma {:induction false} ReplaceAllCharOfJoin(parts: seq<string>, sep: string, c: char, rep: string)
    requires forall i :: 0 <= i < |parts| ==> c !in parts[i]
    ensures ReplaceAllChar(Join(parts, sep), c, rep) == Join(parts, ReplaceAllChar(sep, c, rep))
  {
    if |parts| == 1 {
      ReplaceAllCharAbsent(parts[0], c, rep);
    } else if |parts| > 1 {
      var rest := Join(parts[1..], sep);
      ReplaceAllCharOfJoin(parts[1..], sep, c, rep);
      assert parts[0] + sep + rest == parts[0] + (sep + rest);
      ReplaceAllCharAppend(parts[0], sep + rest, c, rep);
      ReplaceAllCharAppend(sep, rest, c, rep);
      ReplaceAllCharAbsent(parts[0], c, rep);
    }
  }

  /** Replacing every comma of a ", "-joined list whose items hold no comma
      by " AND" gives the same items joined by " AND ". */
  lemma ReplaceCommasOfJoin(parts: seq<string>)
    requires forall i :: 0 <= i < |parts| ==> ',' !in parts[i]
    ensures ReplaceAllChar(Join(parts, ", "), ',', " AND") == Join(parts, " AND ")
  {
    ReplaceAllCharOfJoin(parts, ", ", ',', " AND");
    assert ReplaceAllChar(", ", ',', " AND") == " AND ";
  }

  /** The white space and line terminators that `String.prototype.trim`
      removes. */
  predicate IsJsWhitespace(c: char)
  {
    c in {'\U{0009}', '\U{000A}', '\U{000B}', '\U{000C}', '\U{000D}', '\U{0020}', '\U{00A0}',
          '\U{1680}', '\U{2000}', '\U{2001}', '\U{2002}', '\U{2003}', '\U{2004}', '\U{2005}',
          '\U{2006}', '\U{2007}', '\U{2008}', '\U{2009}', '\U{200A}', '\U{2028}', '\U{2029}',
          '\U{202F}', '\U{205F}', '\U{3000}', '\U{FEFF}'}
  }

  /** `s` once its leading white space is removed. */
  function TrimStart(s: string): (t: string)
    ensures |t| <= |s|
  {
    if s != [] && IsJsWhitespace(s[0]) then TrimStart(s[1..]) else s
  }

  /** `s` once its trailing white space is removed. */
  function TrimEnd(s: string): (t: string)
    ensures |t| <= |s|
  {
    if s != [] && IsJsWhitespace(s[|s| - 1]) then TrimEnd(s[..|s| - 1]) else s
  }

  /** `s.trim()` */
  function Trim(s: string): string
  {
    TrimEnd(TrimStart(s))
  }

  /** Trimming the start keeps a suffix: what it removes is all white space
      and what it keeps does not start with any. */
  lemma {:induction false} TrimStartKeepsSuffix(s: string)
    ensures var t := TrimStart(s);
      && |t| <= |s| && t == s[|s| - |t|..]
      && (forall k :: 0 <= k < |s| - |t| ==> IsJsWhitespace(s[k]))
      && (t == [] || !IsJsWhitespace(t[0]))
  {
    if s != [] && IsJsWhitespace(s[0]) {
      var t := TrimStart(s[1..]);
      TrimStartKeepsSuffix(s[1..]);
      forall k | 1 <= k < |s| - |t| ensures IsJsWhitespace(s[k]) {
        assert s[k] == s[1..][k - 1];
      }
    }
  }

  /** Trimming the end keeps a prefix: what it removes is all white space
      and what it keeps does not end with any. */
  lemma {:induction false} TrimEndKeepsPrefix(s: string)
    ensures var t := TrimEnd(s);
      && |t| <= |s| && t == s[..|t|]
      && (forall k :: |t| <= k < |s| ==> IsJsWhitespace(s[k]))
      && (t == [] || !IsJsWhitespace(t[|t| - 1]))
  {
    if s != [] && IsJsWhitespace(s[|s| - 1]) {
      var t := TrimEnd(s[..|s| - 1]);
      TrimEndKeepsPrefix(s[..|s| - 1]);
      forall k | |t| <= k < |s| - 1 ensures IsJsWhitespace(s[k]) {
        assert s[k] == s[..|s| - 1][k];
      }
    }
  }

  /** `trim` keeps the stretch `s[i..i + |t|]` between the white space it
      removes at both ends; what it keeps neither starts nor ends with white
      space. */
  lemma TrimKeepsMiddle(s: string)
    ensures var t, i := Trim(s), |s| - |TrimStart(s)|;
      && i + |t| <= |s| && t == s[i..i + |t|]
      && (forall k :: 0 <= k < i ==> IsJsWhitespace(s[k]))
      && (forall k :: i + |t| <= k < |s| ==> IsJsWhitespace(s[k]))
      && (t == [] || (!IsJsWhitespace(t[0]) && !IsJsWhitespace(t[|t| - 1])))
  {
    var u := TrimStart(s);
    TrimStartKeepsSuffix(s);
    TrimEndKeepsPrefix(u);
    var t, i := TrimEnd(u), |s| - |u|;
    assert u == s[i..];
    assert t == s[i..i + |t|];
    forall k | i + |t| <= k < |s| ensures IsJsWhitespace(s[k]) {
      assert s[k] == u[k - i];
    }
    if t != [] {
      assert t[0] == u[0];
    }
  }

  /** Text that neither starts nor ends with white space is its own trim. */
  lemma TrimUnchanged(s: string)
    requires s == [] || (!IsJsWhitespace(s[0]) && !IsJsWhitespace(s[|s| - 1]))
    ensures Trim(s) == s
  {
    assert TrimStart(s) == s;
  }

  /** `toLowerCase` on one character (the ASCII letters). */
  function LowerChar(c: char): char
  {
    if 'A' <= c <= 'Z' then (c as int - 'A' as int + 'a' as int) as char else c
  }

  /** `s.toLowerCase()` */
  function Lower(s: string): (t: string)
    ensures |t| == |s|
    ensures forall i :: 0 <= i < |s| ==> t[i] == LowerChar(s[i])
    ensures forall i :: 0 <= i < |t| ==> !('A' <= t[i] <= 'Z')
  {
    seq(|s|, i requires 0 <= i < |s| => LowerChar(s[i]))
  }

  /** The length of the run of digits `s` starts with. */
  function DigitRunLength(s: string): (k: nat)
    ensures k <= |s| && AllDigits(s[..k])
    ensures k < |s| ==> !IsDigit(s[k])
  {
    if s != [] && IsDigit(s[0]) then
      var k := 1 + DigitRunLength(s[1..]);
      assert s[..k] == [s[0]] + s[1..][..k - 1];
      k
    else 0
  }

  /** The parameter numbers of the `$n` placeholders in a query text, read
      from left to right as PostgreSQL reads them: a `$` followed by a
      maximal run of digits. */
  function Placeholders(s: string): seq<nat>
    decreases |s|
  {
    if s == [] then []
    else if s[0] == '$' then
      var k := DigitRunLength(s[1..]);
      assert s[1..1 + k] == s[1..][..k];
      (if k == 0 then [] else [ParseDecimal(s[1..1 + k])]) + Placeholders(s[1 + k..])
    else Placeholders(s[1..])
  }

  /** Text without a `$` holds no placeholder, whatever follows it. */
  lemma {:induction false} PlaceholdersSkip(x: string, y: string)
    requires '$' !in x
    ensures Placeholders(x + y) == Placeholders(y)
    decreases |x|
  {
    if x == [] {
      assert x + y == y;
    } else {
      assert (x + y)[0] == x[0] && (x + y)[1..] == x[1..] + y;
      PlaceholdersSkip(x[1..], y);
    }
  }

  lemma {:induction false} DigitRunAppend(x: string, y: string)
    requires y == [] || !IsDigit(y[0])
    ensures DigitRunLength(x + y) == DigitRunLength(x)
    decreases |x|
  {
    if x != [] {
      assert (x + y)[1..] == x[1..] + y;
      DigitRunAppend(x[1..], y);
    }
  }

  /** How `Placeholders` reads a `$`: the number its digit run spells, if
      any, then the placeholders of what follows the run. */
  lemma PlaceholdersAtDollar(s: string)
    requires s != [] && s[0] == '$'
    ensures var k := DigitRunLength(s[1..]);
      Placeholders(s) == (if k == 0 then [] else [ParseDecimal(s[1..][..k])]) + Placeholders(s[1 + k..])
  {
    var k := DigitRunLength(s[1..]);
    assert s[1..1 + k] == s[1..][..k];
  }

  /** A `$` run of `x` reads the same with `y` after it, when `y` does not
      start with a digit. */
  lemma PlaceholdersAtDollarBefore(x: string, y: string)
    requires x != [] && x[0] == '$'
    requires y == [] || !IsDigit(y[0])
    ensures var k := DigitRunLength(x[1..]);
      Placeholders(x + y) == (if k == 0 then [] else [ParseDecimal(x[1..][..k])]) + Placeholders(x[1 + k..] + y)
  {
    var xs, xy := x[1..], x + y;
    var k := DigitRunLength(xs);
    assert xy[1..] == xs + y;
    DigitRunAppend(xs, y);
    assert (xs + y)[..k] == xs[..k];
    assert xy[1 + k..] == x[1 + k..] + y;
    PlaceholdersAtDollar(xy);
  }

  /** Placeholders of two texts add up when the second does not start with
      a digit (so no number runs across the seam). */
  lemma {:induction false} PlaceholdersAppend(x: string, y: string)
    requires y == [] || !IsDigit(y[0])
    ensures Placeholders(x + y) == Placeholders(x) + Placeholders(y)
    decreases |x|, 1
  {
    if x == [] {
      assert x + y == y;
    } else if x[0] == '$' {
      PlaceholdersAppendAtDollar(x, y);
    } else {
      assert (x + y)[1..] == x[1..] + y;
      PlaceholdersAppend(x[1..], y);
    }
  }

  /** `PlaceholdersAppend` when `x` starts with a `$`: the digit run after
      it stops inside `x`. */
  lemma {:induction false} PlaceholdersAppendAtDollar(x: string, y: string)
    requires x != [] && x[0] == '$'
    requires y == [] || !IsDigit(y[0])
    ensures Placeholders(x + y) == Placeholders(x) + Placeholders(y)
    decreases |x|, 0
  {
    var k := DigitRunLength(x[1..]);
    var rest := x[1 + k..];
    PlaceholdersAtDollar(x);
    PlaceholdersAtDollarBefore(x, y);
    PlaceholdersAppend(rest, y);
    var h := if k == 0 then [] else [ParseDecimal(x[1..][..k])];
    Regroup(Placeholders(x), Placeholders(x + y), h, Placeholders(rest), Placeholders(rest + y), Placeholders(y));
  }

  lemma Regroup(px: seq<nat>, pxy: seq<nat>, h: seq<nat>, pr: seq<nat>, pry: seq<nat>, py: seq<nat>)
    requires px == h + pr && pxy == h + pry && pry == pr + py
    ensures pxy == px + py
  {
    assert h + (pr + py) == (h + pr) + py;
  }

  /** `$` followed by the decimal digits of `n` is the one placeholder `n`. */
  lemma PlaceholderOf(n: nat)
    ensures Placeholders("$" + DecimalString(n)) == [n]
  {
    var d := DecimalString(n);
    var s := "$" + d;
    DigitRunAppend(d, []);
    assert d + [] == d;
    assert DigitRunLength(d) == |d| by {
      AllDigitsRun(d);
    }
    assert s[1..] == d && s[1..1 + |d|] == d && s[1 + |d|..] == [];
    DecimalRoundTrip(n);
  }

  lemma {:induction false} AllDigitsRun(d: string)
    requires AllDigits(d)
    ensures DigitRunLength(d) == |d|
    decreases |d|
  {
    if d != [] {
      AllDigitsRun(d[1..]);
    }
  }

  /** Replacing the first occurrence of a pattern that holds no `$` by a
      text that holds no `$`, neither starting with a digit, keeps the
      placeholders of the text. */
  lemma ReplaceFirstKeepsPlaceholders(s: string, pat: string, rep: string)
    requires pat != [] && rep != []
    requires '$' !in pat && '$' !in rep
    requires !IsDigit(pat[0]) && !IsDigit(rep[0])
    ensures Placeholders(ReplaceFirst(s, pat, rep)) == Placeholders(s)
  {
    var i := IndexOf(s, pat);
    IndexOfFirst(s, pat);
    if i >= 0 {
      var a, b := s[..i], s[i + |pat|..];
      assert s == a + pat + b by {
        assert s[i..i + |pat|] == pat;
      }
      SwapKeepsPlaceholders(a, pat, rep, b);
    }
  }

  /** Swapping one `$`-free piece for another, neither starting with a
      digit, keeps the placeholders around them. */
  lemma SwapKeepsPlaceholders(a: string, pat: string, rep: string, b: string)
    requires pat != [] && rep != []
    requires '$' !in pat && '$' !in rep
    requires !IsDigit(pat[0]) && !IsDigit(rep[0])
    ensures Placeholders(a + rep + b) == Placeholders(a + pat + b)
  {
    assert a + pat + b == a + (pat + b);
    PlaceholdersAppend(a, pat + b);
    PlaceholdersSkip(pat, b);
    assert a + rep + b == a + (rep + b);
    PlaceholdersAppend(a, rep + b);
    PlaceholdersSkip(rep, b);
  }

  /** The placeholders of each item, one list after another. */
  function PlaceholdersOfAll(parts: seq<string>): seq<nat>
  {
    if parts == [] then [] else Placeholders(parts[0]) + PlaceholdersOfAll(parts[1..])
  }

  /** Joining with a separator that holds no `$` and starts with no
      digit (", " or " AND ") neither adds nor merges placeholders. */
  lemma {:induction false} PlaceholdersOfJoin(parts: seq<string>, sep: string)
    requires sep != [] && '$' !in sep && !IsDigit(sep[0])
    ensures Placeholders(Join(parts, sep)) == PlaceholdersOfAll(parts)
  {
    if |parts| == 1 {
      assert parts[1..] == [];
    } else if |parts| > 1 {
      var rest := Join(parts[1..], sep);
      assert parts[0] + sep + rest == parts[0] + (sep + rest);
      PlaceholdersAppend(parts[0], sep + rest);
      PlaceholdersSkip(sep, rest);
      PlaceholdersOfJoin(parts[1..], sep);
    }
  }

  /** The last character of a join is that of its last item. */
  lemma {:induction false} JoinLast(parts: seq<string>, sep: string)
    requires |parts| > 0 && parts[|parts| - 1] != []
    ensures var j := Join(parts, sep);
      j != [] && j[|j| - 1] == parts[|parts| - 1][|parts[|parts| - 1]| - 1]
  {
    if |parts| > 1 {
      assert parts[1..][|parts[1..]| - 1] == parts[|parts| - 1];
      JoinLast(parts[1..], sep);
    }
  }

  /** Text with no `$` on both sides of `m`, the right side not starting
      with a digit, adds no placeholder to those of `m`. */
  lemma PlaceholdersBetween(a: string, m: string, b: string)
    requires '$' !in a && '$' !in b && (b == [] || !IsDigit(b[0]))
    ensures Placeholders(a + m + b) == Placeholders(m)
  {
    assert a + m + b == a + (m + b);
    PlaceholdersSkip(a, m + b);
    PlaceholdersAppend(m, b);
    PlaceholdersSkip(b, []);
    assert b + [] == b;
  }

  /** `$n` written after `x` and a separator with no `$` that does not start
      with a digit adds the placeholder `n` to those of `x`. */
  lemma PlaceholdersThenParam(x: string, sep: string, d: string, n: nat)
    requires '$' !in sep && sep != [] && !IsDigit(sep[0])
    requires d == "$" + DecimalString(n)
    ensures Placeholders(x + sep + d) == Placeholders(x) + [n]
  {
    assert x + sep + d == x + (sep + d);
    PlaceholdersAppend(x, sep + d);
    PlaceholdersSkip(sep, d);
    PlaceholderOf(n);
  }

  /** `a + m + b` starts with `a` and ends with `b`. */
  lemma Framed(a: string, m: string, b: string)
    ensures var t := a + m + b; |t| >= |a| + |b| && t[..|a|] == a && t[|t| - |b|..] == b
  {
  }

  /** `[first, first + 1, ..., first + n - 1]` */
  function Numbers(first: nat, n: nat): (r: seq<nat>)
    ensures |r| == n
    ensures forall i :: 0 <= i < n ==> r[i] == first + i
  {
    seq(n, i requires 0 <= i < n => first + i)
  }

  /** Items whose only placeholder is `first + i` give, together, exactly
      `first .. first + |parts| - 1`: no gap and no number used twice. */
  lemma {:induction false} PlaceholdersNumbered(parts: seq<string>, first: nat)
    requires forall i :: 0 <= i < |parts| ==> Placeholders(parts[i]) == [first + i]
    ensures PlaceholdersOfAll(parts) == Numbers(first, |parts|)
  {
    if parts != [] {
      PlaceholdersNumbered(parts[1..], first + 1);
      assert Numbers(first, |parts|) == [first] + Numbers(first + 1, |parts| - 1);
    }
  }
}
