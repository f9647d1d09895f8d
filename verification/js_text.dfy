/**
 * The JavaScript string built-ins that the persons manager relies on,
 * written out over `seq<char>`: `String.prototype.split` with a one-character
 * separator, `trim`, `replace` with a non-global regular expression of the
 * shape `P(.*)c`, `substr`, `parseInt` and the conversion of a number to text
 * inside a template literal.
 */
module JsText {
  import opened Wrappers

  // ---------------------------------------------------------------------------
  // split / join

  /** `s.split(sep)`: the pieces between separators; always at least one piece. */
  function Split(s: string, sep: char): (pieces: seq<string>)
    ensures |pieces| >= 1
    ensures forall i :: 0 <= i < |pieces| ==> sep !in pieces[i]
  {
    if s == [] then [""]
    else
      var rest := Split(s[1..], sep);
      if s[0] == sep then [""] + rest
      else [[s[0]] + rest[0]] + rest[1..]
  }

  /** The pieces glued back together with `sep` between neighbours. */
  function Join(pieces: seq<string>, sep: char): (s: string)
    requires |pieces| >= 1
    ensures |pieces[0]| <= |s|
  {
    if |pieces| == 1 then pieces[0]
    else pieces[0] + [sep] + Join(pieces[1..], sep)
  }

  lemma {:induction false} SplitNoSeparator(a: string, sep: char)
    requires sep !in a
    ensures Split(a, sep) == [a]
  {
    if a != [] {
      SplitNoSeparator(a[1..], sep);
      assert [a[0]] + a[1..] == a;
    }
  }

  lemma {:induction false} SplitAfterPiece(a: string, b: string, sep: char)
    requires sep !in a
    ensures Split(a + [sep] + b, sep) == [a] + Split(b, sep)
  {
    if a == [] {
      assert a + [sep] + b == [sep] + b;
      assert ([sep] + b)[1..] == b;
    } else {
      var s := a + [sep] + b;
      assert s[0] == a[0];
      assert s[1..] == a[1..] + [sep] + b;
      SplitAfterPiece(a[1..], b, sep);
      assert [a[0]] + a[1..] == a;
    }
  }

  /** Splitting a joined list gives the list back when no piece holds the separator. */
  lemma {:induction false} SplitJoin(pieces: seq<string>, sep: char)
    requires |pieces| >= 1
    requires forall i :: 0 <= i < |pieces| ==> sep !in pieces[i]
    ensures Split(Join(pieces, sep), sep) == pieces
  {
    if |pieces| == 1 {
      SplitNoSeparator(pieces[0], sep);
    } else {
      SplitJoin(pieces[1..], sep);
      SplitAfterPiece(pieces[0], Join(pieces[1..], sep), sep);
      assert [pieces[0]] + pieces[1..] == pieces;
    }
  }

  /** Prefixing the first piece prefixes the joined text. */
  lemma JoinPrefixFirst(c: char, pieces: seq<string>, sep: char)
    requires |pieces| >= 1
    ensures Join([[c] + pieces[0]] + pieces[1..], sep) == [c] + Join(pieces, sep)
  {
    var grown := [[c] + pieces[0]] + pieces[1..];
    if |pieces| > 1 {
      assert grown[1..] == pieces[1..];
    }
  }

  /** Joining the pieces of a split gives the original text back. */
  lemma {:induction false} JoinSplit(s: string, sep: char)
    ensures Join(Split(s, sep), sep) == s
  {
    if s != [] {
      var rest := Split(s[1..], sep);
      JoinSplit(s[1..], sep);
      if s[0] == sep {
        assert ([""] + rest)[1..] == rest;
      } else {
        JoinPrefixFirst(s[0], rest, sep);
      }
      assert s == [s[0]] + s[1..];
    }
  }

  // ---------------------------------------------------------------------------
  // whitespace and trim

  /** The characters ECMAScript's `trim` and `parseInt` treat as white space or line terminators. */
  predicate IsWhitespace(c: char) {
    c == ' ' || ('\t' <= c <= '\r')
    || c == '\U{A0}' || c == '\U{1680}' || ('\U{2000}' <= c <= '\U{200A}')
    || c == '\U{2028}' || c == '\U{2029}' || c == '\U{202F}' || c == '\U{205F}'
    || c == '\U{3000}' || c == '\U{FEFF}'
  }

  /** The characters the regular-expression `.` does not match. */
  predicate IsLineTerminator(c: char) {
    c == '\n' || c == '\r' || c == '\U{2028}' || c == '\U{2029}'
  }

  predicate AllWhitespace(s: string) {
    forall i :: 0 <= i < |s| ==> IsWhitespace(s[i])
  }

  /** How many white-space characters `s` starts with. */
  function LeadingSpace(s: string): (k: nat)
    ensures k <= |s| && forall i :: 0 <= i < k ==> IsWhitespace(s[i])
    ensures k < |s| ==> !IsWhitespace(s[k])
  {
    if |s| > 0 && IsWhitespace(s[0]) then
      var k := LeadingSpace(s[1..]);
      assert forall i :: 1 <= i < k + 1 ==> s[i] == s[1..][i - 1];
      k + 1
    else 0
  }

  /** How many white-space characters `s` ends with. */
  function TrailingSpace(s: string): (k: nat)
    ensures k <= |s| && forall i :: |s| - k <= i < |s| ==> IsWhitespace(s[i])
    ensures k < |s| ==> !IsWhitespace(s[|s| - k - 1])
  {
    if |s| > 0 && IsWhitespace(s[|s| - 1]) then
      var k := TrailingSpace(s[..|s| - 1]);
      assert forall i :: |s| - 1 - k <= i < |s| - 1 ==> s[i] == s[..|s| - 1][i];
      k + 1
    else 0
  }

  /** The two properties of `LeadingSpace` determine it. */
  lemma LeadingSpaceIs(s: string, k: nat)
    requires k <= |s| && forall i :: 0 <= i < k ==> IsWhitespace(s[i])
    requires k < |s| ==> !IsWhitespace(s[k])
    ensures LeadingSpace(s) == k
  {
  }

  /** The two properties of `TrailingSpace` determine it. */
  lemma TrailingSpaceIs(s: string, k: nat)
    requires k <= |s| && forall i :: |s| - k <= i < |s| ==> IsWhitespace(s[i])
    requires k < |s| ==> !IsWhitespace(s[|s| - k - 1])
    ensures TrailingSpace(s) == k
  {
  }

  /** `s.trimStart()`: `s` without its leading white space. */
  function TrimStart(s: string): string
  {
    s[LeadingSpace(s)..]
  }

  /** `s.trimEnd()`: `s` without its trailing white space. */
  function TrimEnd(s: string): string
  {
    s[..|s| - TrailingSpace(s)]
  }

  /** `s.trim()`: `s` without its leading and trailing white space. */
  function Trim(s: string): (r: string)
    ensures r == [] || (!IsWhitespace(r[0]) && !IsWhitespace(r[|r| - 1]))
    ensures |r| <= |s|
  {
    TrimEnd(TrimStart(s))
  }

  /** A text with no white space at either end is its own trim. */
  lemma TrimOfUnpadded(s: string)
    requires s == [] || (!IsWhitespace(s[0]) && !IsWhitespace(s[|s| - 1]))
    ensures Trim(s) == s
  {
    LeadingSpaceIs(s, 0);
    assert TrimStart(s) == s;
    TrailingSpaceIs(s, 0);
  }

  lemma TrimStartPadded(lead: string, s: string, trail: string)
    requires AllWhitespace(lead) && !AllWhitespace(s)
    ensures TrimStart(lead + s + trail) == TrimStart(s) + trail
  {
    var x := lead + s + trail;
    var a := LeadingSpace(s);
    forall i | 0 <= i < |lead| + a
      ensures IsWhitespace(x[i])
    {
      if i >= |lead| {
        assert x[i] == s[i - |lead|];
      }
    }
    assert x[|lead| + a] == s[a];
    LeadingSpaceIs(x, |lead| + a);
    assert x[|lead| + a..] == s[a..] + trail;
  }

  lemma TrimEndPadded(t: string, trail: string)
    requires t != [] && !IsWhitespace(t[0]) && AllWhitespace(trail)
    ensures TrimEnd(t + trail) == TrimEnd(t)
  {
    var m := TrailingSpace(t);
    var x := t + trail;
    forall i | |x| - (m + |trail|) <= i < |x|
      ensures IsWhitespace(x[i])
    {
      if i < |t| {
        assert x[i] == t[i];
      }
    }
    assert x[|x| - (m + |trail|) - 1] == t[|t| - m - 1];
    TrailingSpaceIs(x, m + |trail|);
    assert x[..|x| - (m + |trail|)] == t[..|t| - m];
  }

  lemma TrimOfWhitespace(s: string)
    requires AllWhitespace(s)
    ensures Trim(s) == []
  {
    LeadingSpaceIs(s, |s|);
  }

  /** White space around a text never changes what `trim` gives. */
  lemma TrimPadded(lead: string, s: string, trail: string)
    requires AllWhitespace(lead) && AllWhitespace(trail)
    ensures Trim(lead + s + trail) == Trim(s)
  {
    if AllWhitespace(s) {
      var x := lead + s + trail;
      assert AllWhitespace(x) by {
        forall i | 0 <= i < |x|
          ensures IsWhitespace(x[i])
        {
          if i < |lead| {
            assert x[i] == lead[i];
          } else if i < |lead| + |s| {
            assert x[i] == s[i - |lead|];
          } else {
            assert x[i] == trail[i - |lead| - |s|];
          }
        }
      }
      TrimOfWhitespace(x);
      TrimOfWhitespace(s);
    } else {
      TrimStartPadded(lead, s, trail);
      TrimEndPadded(TrimStart(s), trail);
    }
  }

  // ---------------------------------------------------------------------------
  // `s.replace(/P(.*)c/, '$1')`

  predicate StartsAt(s: string, i: nat, p: string) {
    i + |p| <= |s| && s[i..i + |p|] == p
  }

  /** The first line terminator at or after `from`, or the end of `s`: where `.*` must stop. */
  function LineEnd(s: string, from: nat): (e: nat)
    requires from <= |s|
    ensures from <= e <= |s|
    ensures forall k :: from <= k < e ==> !IsLineTerminator(s[k])
    ensures e < |s| ==> IsLineTerminator(s[e])
    decreases |s| - from
  {
    if from == |s| || IsLineTerminator(s[from]) then from else LineEnd(s, from + 1)
  }

  /** The largest index in `[lo, hi)` holding `c`, if any. */
  function LastIndexIn(s: string, lo: nat, hi: nat, c: char): (r: Option<nat>)
    requires lo <= hi <= |s|
    ensures r.Some? ==> (lo <= r.value < hi && s[r.value] == c
                         && forall k :: r.value < k < hi ==> s[k] != c)
    ensures r.None? ==> (forall k :: lo <= k < hi ==> s[k] != c)
    decreases hi - lo
  {
    if hi == lo then None
    else if s[hi - 1] == c then Some(hi - 1)
    else LastIndexIn(s, lo, hi - 1, c)
  }

  /**
   * Where the greedy group of `P(.*)c` ends when `P` is matched at `i`: the
   * last `c` reachable from the end of `P` without crossing a line terminator.
   */
  function GroupEnd(s: string, i: nat, open: string, close: char): (r: Option<nat>)
    requires StartsAt(s, i, open)
    ensures r.Some? ==> i + |open| <= r.value < |s| && s[r.value] == close
                        && forall k :: i + |open| <= k < r.value ==> !IsLineTerminator(s[k])
  {
    var b := i + |open|;
    LastIndexIn(s, b, LineEnd(s, b), close)
  }

  /** The leftmost position at or after `i` where `P(.*)c` matches, with the group's end. */
  function FirstMatch(s: string, open: string, close: char, i: nat): (r: Option<(nat, nat)>)
    requires i <= |s|
    ensures r.Some? ==> i <= r.value.0 && StartsAt(s, r.value.0, open)
                        && GroupEnd(s, r.value.0, open, close) == Some(r.value.1)
    ensures r.Some? ==> forall k :: i <= k < r.value.0 ==>
                          !(StartsAt(s, k, open) && GroupEnd(s, k, open, close).Some?)
    ensures r.None? ==> forall k :: i <= k <= |s| ==>
                          !(StartsAt(s, k, open) && GroupEnd(s, k, open, close).Some?)
    decreases |s| - i
  {
    if StartsAt(s, i, open) && GroupEnd(s, i, open, close).Some? then
      Some((i, GroupEnd(s, i, open, close).value))
    else if i == |s| then None
    else FirstMatch(s, open, close, i + 1)
  }

  /** `s.replace(/P(.*)c/, '$1')`: the first match, if any, replaced by its group. */
  function ReplaceGroup(s: string, open: string, close: char): (r: string)
    ensures |r| <= |s|
    ensures FirstMatch(s, open, close, 0).Some? ==> |r| == |s| - |open| - 1
  {
    match FirstMatch(s, open, close, 0)
    case None => s
    case Some((i, j)) => s[..i] + s[i + |open|..j] + s[j + 1..]
  }

  /** The greedy group ends at the last `c` when no line terminator precedes it. */
  lemma GroupEndIsLastClose(s: string, b: nat, j: nat, close: char)
    requires b <= j < |s| && s[j] == close && !IsLineTerminator(close)
    requires forall k :: b <= k < j ==> !IsLineTerminator(s[k])
    requires forall k :: j < k < |s| ==> s[k] != close
    ensures LastIndexIn(s, b, LineEnd(s, b), close) == Some(j)
  {
    var e := LineEnd(s, b);
    assert j < e;
  }

  /** Positions where the pattern cannot start are skipped over. */
  lemma {:induction false} FirstMatchSkips(s: string, open: string, close: char, i: nat, m: nat)
    requires i <= m <= |s|
    requires forall k :: i <= k < m ==> !StartsAt(s, k, open)
    ensures FirstMatch(s, open, close, i) == FirstMatch(s, open, close, m)
    decreases m - i
  {
    if i < m {
      FirstMatchSkips(s, open, close, i + 1, m);
    }
  }

  /**
   * When `P` first occurs at `i`, the line from there holds no line terminator
   * before the last `c` at `j`, the replacement cuts out `P` and that `c`.
   */
  lemma ReplaceGroupAt(s: string, open: string, close: char, i: nat, j: nat)
    requires StartsAt(s, i, open) && i + |open| <= j < |s|
    requires forall k :: 0 <= k < i ==> !StartsAt(s, k, open)
    requires s[j] == close && !IsLineTerminator(close)
    requires forall k :: i + |open| <= k < j ==> !IsLineTerminator(s[k])
    requires forall k :: j < k < |s| ==> s[k] != close
    ensures ReplaceGroup(s, open, close) == s[..i] + s[i + |open|..j] + s[j + 1..]
  {
    GroupEndIsLastClose(s, i + |open|, j, close);
    assert GroupEnd(s, i, open, close) == Some(j);
    assert FirstMatch(s, open, close, i) == Some((i, j));
    FirstMatchSkips(s, open, close, 0, i);
  }

  /**
   * For a text that is `P`, a group and `c`, padded with white space, the
   * replacement yields the group with the padding, provided `P` does not begin
   * with white space, the group crosses no line and `c` is not white space.
   */
  lemma ReplaceGroupPadded(lead: string, open: string, group: string, close: char, trail: string)
    requires AllWhitespace(lead) && AllWhitespace(trail)
    requires |open| > 0 && !IsWhitespace(open[0])
    requires forall k :: 0 <= k < |group| ==> !IsLineTerminator(group[k])
    requires !IsWhitespace(close) && !IsLineTerminator(close)
    ensures ReplaceGroup(lead + open + group + [close] + trail, open, close) == lead + group + trail
  {
    var s := lead + open + group + [close] + trail;
    var i := |lead|;
    var b := i + |open|;
    var j := b + |group|;
    assert s[..i] == lead;
    assert s[i..b] == open;
    assert s[b..j] == group;
    assert s[j + 1..] == trail;
    assert s[j] == close;
    forall k | b <= k < j
      ensures !IsLineTerminator(s[k])
    {
      assert s[k] == group[k - b];
    }
    forall k | j < k < |s|
      ensures s[k] != close
    {
      assert s[k] == trail[k - j - 1];
    }
    forall k | 0 <= k < i
      ensures !StartsAt(s, k, open)
    {
      assert s[k] == lead[k];
    }
    ReplaceGroupAt(s, open, close, i, j);
  }

  // ---------------------------------------------------------------------------
  // `s.substr(start)`

  /** `s.substr(start)` for a non-negative start: the text from `start` on, or "" past the end. */
  function Substr(s: string, start: nat): (r: string)
    ensures start <= |s| ==> s == s[..start] + r
    ensures start >= |s| ==> r == ""
  {
    if start <= |s| then s[start..] else ""
  }

  // ---------------------------------------------------------------------------
  // numbers as decimal text

  predicate IsDigit(c: char) { '0' <= c <= '9' }

  function DigitChar(d: nat): char
    requires d < 10
  {
    ('0' as int + d) as char
  }

  function DigitValue(c: char): nat
    requires IsDigit(c)
  {
    c as int - '0' as int
  }

  /** The value of a string of decimal digits, most significant first. */
  function DigitsValue(ds: string): nat
    requires forall k :: 0 <= k < |ds| ==> IsDigit(ds[k])
  {
    if ds == [] then 0
    else DigitsValue(ds[..|ds| - 1]) * 10 + DigitValue(ds[|ds| - 1])
  }

  /** The decimal text of a natural number, without leading zeros. */
  function NatDigits(n: nat): (ds: string)
    ensures |ds| >= 1 && forall k :: 0 <= k < |ds| ==> IsDigit(ds[k])
    ensures DigitsValue(ds) == n
  {
    if n < 10 then [DigitChar(n)]
    else
      var ds := NatDigits(n / 10) + [DigitChar(n % 10)];
      assert ds[..|ds| - 1] == NatDigits(n / 10);
      ds
  }

  /** `String(n)` for an integer. */
  function IntToText(n: int): (r: string)
    ensures |r| >= 1 && (r[0] == '-' <==> n < 0)
    ensures n < 0 ==> |r| >= 2
    ensures forall k :: (if n < 0 then 1 else 0) <= k < |r| ==> IsDigit(r[k])
  {
    if n < 0 then "-" + NatDigits(-n) else NatDigits(n)
  }

  /** A number as a template literal shows it: `None` stands for `NaN`. */
  function NumberToText(x: Option<int>): (r: string)
    ensures |r| >= 1 && '&' !in r
  {
    match x
    case Some(n) => IntToText(n)
    case None => "NaN"
  }

  /** The length of the longest prefix of decimal digits. */
  function DigitPrefixLength(s: string): (k: nat)
    ensures k <= |s| && forall i :: 0 <= i < k ==> IsDigit(s[i])
    ensures k < |s| ==> !IsDigit(s[k])
  {
    if s == [] || !IsDigit(s[0]) then 0 else 1 + DigitPrefixLength(s[1..])
  }

  function ParseDigits(s: string): Option<nat>
  {
    var k := DigitPrefixLength(s);
    if k == 0 then None else Some(DigitsValue(s[..k]))
  }

  /** The digits after an optional sign, negated after a minus. */
  function ParseSigned(t: string): Option<int>
  {
    if |t| > 0 && t[0] == '-' then
      match ParseDigits(t[1..])
      case None => None
      case Some(n) => Some(-(n as int))
    else if |t| > 0 && t[0] == '+' then
      match ParseDigits(t[1..])
      case None => None
      case Some(n) => Some(n as int)
    else
      match ParseDigits(t)
      case None => None
      case Some(n) => Some(n as int)
  }

  /**
   * `parseInt(s)` in base ten: leading white space, an optional sign, then the
   * longest run of decimal digits; `None` (NaN) when there is no digit.
   */
  function ParseInt(s: string): (r: Option<int>)
    ensures AllWhitespace(s) ==> r == None
  {
    ParseSigned(TrimStart(s))
  }

  lemma ParseDigitsOfDigits(ds: string)
    requires |ds| >= 1 && forall k :: 0 <= k < |ds| ==> IsDigit(ds[k])
    ensures ParseDigits(ds) == Some(DigitsValue(ds))
  {
    AllDigitsPrefix(ds);
    assert ds[..|ds|] == ds;
  }

  lemma TrimStartOfWord(s: string)
    requires |s| > 0 && !IsWhitespace(s[0])
    ensures TrimStart(s) == s
  {
  }

  /** Text that does not start with white space is parsed as it stands. */
  lemma ParseIntOfUnpadded(s: string)
    requires |s| > 0 && !IsWhitespace(s[0])
    ensures ParseInt(s) == ParseSigned(s)
  {
    TrimStartOfWord(s);
  }

  lemma ParseSignedOfMinus(m: string, v: nat)
    requires |m| > 0 && m[0] == '-' && ParseDigits(m[1..]) == Some(v)
    ensures ParseSigned(m) == Some(-(v as int))
  {
  }

  lemma ParseSignedOfPlus(p: string, v: nat)
    requires |p| > 0 && p[0] == '+' && ParseDigits(p[1..]) == Some(v)
    ensures ParseSigned(p) == Some(v as int)
  {
  }

  lemma ParseSignedOfDigit(t: string, v: nat)
    requires |t| > 0 && IsDigit(t[0]) && ParseDigits(t) == Some(v)
    ensures ParseSigned(t) == Some(v as int)
  {
  }

  lemma {:induction false} AllDigitsPrefix(ds: string)
    requires forall k :: 0 <= k < |ds| ==> IsDigit(ds[k])
    ensures DigitPrefixLength(ds) == |ds|
  {
    if ds != [] {
      AllDigitsPrefix(ds[1..]);
    }
  }

  /** `parseInt` reads back the decimal text of any integer. */
  lemma ParseIntOfIntText(n: int)
    ensures ParseInt(IntToText(n)) == Some(n)
  {
    var m: nat := if n < 0 then -n else n;
    var ds := NatDigits(m);
    ParseDigitsOfDigits(ds);
    if n < 0 {
      var t := "-" + ds;
      assert IntToText(n) == t;
      assert t[0] == '-' && t[1..] == ds;
      ParseSignedOfMinus(t, m);
      ParseIntOfUnpadded(t);
    } else {
      assert IntToText(n) == ds;
      ParseSignedOfDigit(ds, m);
      ParseIntOfUnpadded(ds);
    }
  }

  /** `parseInt` reads back the number a template literal wrote, `NaN` included. */
  lemma ParseIntOfNumberText(x: Option<int>)
    ensures ParseInt(NumberToText(x)) == x
  {
    match x
    case None =>
      ParseIntOfWord("NaN");
    case Some(n) =>
      ParseIntOfIntText(n);
  }

  /** A run of digits followed by a non-digit: the digit prefix is exactly the run. */
  lemma {:induction false} DigitPrefixOfDigitsThen(ds: string, rest: string)
    requires forall k :: 0 <= k < |ds| ==> IsDigit(ds[k])
    requires rest == [] || !IsDigit(rest[0])
    ensures DigitPrefixLength(ds + rest) == |ds|
  {
    if ds == [] {
      assert ds + rest == rest;
    } else {
      assert (ds + rest)[1..] == ds[1..] + rest;
      DigitPrefixOfDigitsThen(ds[1..], rest);
    }
  }

  lemma ParseDigitsThen(ds: string, rest: string)
    requires |ds| >= 1 && forall k :: 0 <= k < |ds| ==> IsDigit(ds[k])
    requires rest == [] || !IsDigit(rest[0])
    ensures ParseDigits(ds + rest) == Some(DigitsValue(ds))
  {
    DigitPrefixOfDigitsThen(ds, rest);
    assert (ds + rest)[..|ds|] == ds;
  }

  /** White space before a text that does not start with white space is skipped. */
  lemma ParseIntOfPadded(ws: string, t: string, rest: string)
    requires AllWhitespace(ws) && |t| > 0 && !IsWhitespace(t[0])
    ensures ParseInt(ws + t + rest) == ParseSigned(t + rest)
  {
    TrimStartPadded(ws, t, rest);
    TrimStartOfWord(t);
  }

  /**
   * `parseInt` skips leading white space, reads an optional sign and the
   * longest run of digits, and ignores whatever follows: an integer's text
   * between any white space and any text not starting with a digit reads
   * back as that integer.
   */
  lemma ParseIntPrefix(ws: string, n: int, rest: string)
    requires AllWhitespace(ws) && (rest == [] || !IsDigit(rest[0]))
    ensures ParseInt(ws + IntToText(n) + rest) == Some(n)
  {
    var m: nat := if n < 0 then -n else n;
    var ds := NatDigits(m);
    var t := IntToText(n);
    ParseIntOfPadded(ws, t, rest);
    ParseDigitsThen(ds, rest);
    if n < 0 {
      assert t == ['-'] + ds;
      ConsTail('-', ds, rest);
      ParseSignedOfMinus(t + rest, m);
    } else {
      assert t == ds;
      ParseSignedOfDigit(t + rest, m);
    }
  }

  lemma ConsTail(c: char, a: string, b: string)
    ensures ([c] + a + b)[0] == c && ([c] + a + b)[1..] == a + b
  {
  }

  lemma Regroup(a: string, b: string, c: string, d: string)
    ensures a + b + c + d == a + (b + c) + d
  {
  }

  /** An explicit `+` before a run of digits is read the same way. */
  lemma ParseIntPlusPrefix(ws: string, ds: string, rest: string)
    requires AllWhitespace(ws) && |ds| >= 1 && forall k :: 0 <= k < |ds| ==> IsDigit(ds[k])
    requires rest == [] || !IsDigit(rest[0])
    ensures ParseInt(ws + ['+'] + ds + rest) == Some(DigitsValue(ds) as int)
  {
    var t := ['+'] + ds;
    Regroup(ws, ['+'], ds, rest);
    ParseIntOfPadded(ws, t, rest);
    ParseDigitsThen(ds, rest);
    ConsTail('+', ds, rest);
    ParseSignedOfPlus(t + rest, DigitsValue(ds));
  }

  /** A sign with no digit after it is NaN, whatever white space precedes it. */
  lemma ParseIntSignWithoutDigits(ws: string, sign: char, rest: string)
    requires AllWhitespace(ws) && (sign == '-' || sign == '+') && (rest == [] || !IsDigit(rest[0]))
    ensures ParseInt(ws + [sign] + rest) == None
  {
    ParseIntOfPadded(ws, [sign], rest);
    assert ([sign] + rest)[1..] == rest;
  }

  /** A text that starts with a letter other than a sign or a digit is NaN to `parseInt`. */
  lemma ParseIntOfWord(s: string)
    requires |s| > 0 && !IsWhitespace(s[0]) && !IsDigit(s[0]) && s[0] != '-' && s[0] != '+'
    ensures ParseInt(s) == None
  {
    ParseIntOfUnpadded(s);
  }
}
