/** The string operations the Python code leans on, on sequences of characters: which characters are blank, stripping on
    either side, the first token, upper case as far as it can yield ASCII letters, searching, and decimal numbers
    in both directions. */
module Text {
  import opened Base

  /** What `str.isspace`, `str.strip` and `str.split(None)` call whitespace. */
  predicate IsSpace(c: char) {
    var n := c as int;
    9 <= n <= 13 || 28 <= n <= 32 || n == 0x85 || n == 0xA0 || n == 0x1680 || 0x2000 <= n <= 0x200A
    || n == 0x2028 || n == 0x2029 || n == 0x202F || n == 0x205F || n == 0x3000
  }

  predicate AllSpace(s: string) {
    forall i :: 0 <= i < |s| ==> IsSpace(s[i])
  }

  function LStrip(s: string): (r: string)
    ensures |r| <= |s| && (r != "" ==> !IsSpace(r[0]))
  {
    if s != "" && IsSpace(s[0]) then LStrip(s[1..]) else s
  }

  function RStrip(s: string): (r: string)
    ensures |r| <= |s| && (r != "" ==> !IsSpace(r[|r| - 1]))
  {
    if s != "" && IsSpace(s[|s| - 1]) then RStrip(s[..|s| - 1]) else s
  }

  function Strip(s: string): string {
    RStrip(LStrip(s))
  }

  /** Length of the prefix before the first whitespace character. */
  function TokenLength(s: string): (n: nat)
    ensures n <= |s| && (n < |s| ==> IsSpace(s[n])) && forall i :: 0 <= i < n ==> !IsSpace(s[i])
  {
    if s == "" || IsSpace(s[0]) then 0 else 1 + TokenLength(s[1..])
  }

  /** `s.split(None, 1)[0]` for a string without leading whitespace. */
  function FirstToken(s: string): string {
    s[..TokenLength(s)]
  }

  /** `str.upper` on one character, as far as it can produce an ASCII letter on its own. */
  function UpperChar(c: char): char {
    if 'a' <= c <= 'z' then c - 'a' + 'A'
    else if c == '\U{0131}' then 'I'
    else if c == '\U{017F}' then 'S'
    else c
  }

  function Upper(s: string): string {
    seq(|s|, i requires 0 <= i < |s| => UpperChar(s[i]))
  }

  function RStripChar(s: string, c: char): string {
    if s != "" && s[|s| - 1] == c then RStripChar(s[..|s| - 1], c) else s
  }

  predicate Occurs(p: string, s: string, i: nat) {
    i + |p| <= |s| && s[i..i + |p|] == p
  }

  /** Index of the first `p` in `s` at or after `from`, or `|s|` when there is none. */
  function Find(s: string, p: string, from: nat): (i: nat)
    requires from <= |s| && p != ""
    ensures from <= i <= |s| && (i < |s| ==> Occurs(p, s, i))
    decreases |s| - from
  {
    if from == |s| then |s| else if Occurs(p, s, from) then from else Find(s, p, from + 1)
  }

  lemma {:induction false} FindSkips(s: string, p: string, from: nat, first: nat)
    requires p != "" && from <= first && Occurs(p, s, first)
    requires forall i: nat :: from <= i < first ==> !Occurs(p, s, i)
    ensures Find(s, p, from) == first
    decreases first - from
  {
    if from < first {
      FindSkips(s, p, from + 1, first);
    }
  }

  /** Index of the first `c`, or `|s|`. */
  function IndexOf(s: string, c: char): (i: nat)
    ensures i <= |s| && (i < |s| ==> s[i] == c) && (c in s ==> i < |s|)
  {
    if s == "" || s[0] == c then 0 else 1 + IndexOf(s[1..], c)
  }

  lemma {:induction false} IndexOfSkips(a: string, c: char, b: string)
    requires c !in a
    ensures IndexOf(a + ([c] + b), c) == |a|
  {
    if a == "" {
      assert a + ([c] + b) == [c] + b;
    } else {
      assert (a + ([c] + b))[1..] == a[1..] + ([c] + b);
      IndexOfSkips(a[1..], c, b);
    }
  }

  lemma {:induction false} LStripSkips(space: string, s: string)
    requires AllSpace(space)
    ensures LStrip(space + s) == LStrip(s)
  {
    if space == "" {
      assert space + s == s;
    } else {
      assert (space + s)[1..] == space[1..] + s;
      LStripSkips(space[1..], s);
    }
  }

  // ---------------------------------------------------------------- trailing whitespace

  lemma {:induction false} RStripPrefix(s: string)
    ensures RStrip(s) <= s
  {
    if s != "" && IsSpace(s[|s| - 1]) {
      RStripPrefix(s[..|s| - 1]);
    }
  }

  lemma {:induction false} RStripDrops(s: string, space: string)
    requires AllSpace(space)
    ensures RStrip(s + space) == RStrip(s)
    decreases |space|
  {
    if space == "" {
      assert s + space == s;
    } else {
      var short := space[..|space| - 1];
      assert (s + space)[..|s + space| - 1] == s + short;
      RStripDrops(s, short);
    }
  }

  lemma RStripDone(s: string)
    requires s == "" || !IsSpace(s[|s| - 1])
    ensures RStrip(s) == s
  {
  }

  lemma {:induction false} RStripKeepsFront(a: string, b: string)
    requires RStrip(b) != ""
    ensures RStrip(a + b) == a + RStrip(b)
    decreases |b|
  {
    if b != "" && IsSpace(b[|b| - 1]) {
      assert (a + b)[..|a + b| - 1] == a + b[..|b| - 1];
      RStripKeepsFront(a, b[..|b| - 1]);
    }
  }

  lemma {:induction false} RStripToNothing(s: string)
    requires RStrip(s) == ""
    ensures AllSpace(s)
  {
    if s != "" {
      RStripToNothing(s[..|s| - 1]);
      forall i | 0 <= i < |s| ensures IsSpace(s[i]) {
        if i < |s| - 1 {
          assert s[i] == s[..|s| - 1][i];
        }
      }
    }
  }

  /** A string with no blank at either end is its own `strip()`. */
  lemma StripDone(s: string)
    requires s == "" || (!IsSpace(s[0]) && !IsSpace(s[|s| - 1]))
    ensures Strip(s) == s
  {
  }

  lemma {:induction false} LStripKeepsBack(a: string, b: string)
    requires LStrip(a) != ""
    ensures LStrip(a + b) == LStrip(a) + b
  {
    if IsSpace(a[0]) {
      assert (a + b)[1..] == a[1..] + b;
      LStripKeepsBack(a[1..], b);
    }
  }

  lemma {:induction false} LStripKeepsLast(s: string)
    requires s != "" && !IsSpace(s[|s| - 1])
    ensures LStrip(s) != ""
  {
    if IsSpace(s[0]) {
      LStripKeepsLast(s[1..]);
    }
  }

  lemma {:induction false} LStripNothing(s: string)
    requires AllSpace(s)
    ensures LStrip(s) == ""
  {
    if s != "" {
      LStripNothing(s[1..]);
    }
  }

  /** Blanks after a visible character do not change `strip()`. */
  lemma StripDropsTail(s: string, space: string)
    requires AllSpace(space) && s != "" && !IsSpace(s[|s| - 1])
    ensures Strip(s + space) == Strip(s)
  {
    LStripKeepsLast(s);
    LStripKeepsBack(s, space);
    RStripDrops(LStrip(s), space);
  }

  // ---------------------------------------------------------------- numbers

  function Dec(n: nat): (s: string)
    ensures s != "" && forall i :: 0 <= i < |s| ==> '0' <= s[i] <= '9'
  {
    if n < 10 then [(n as char) + '0'] else Dec(n / 10) + [((n % 10) as char) + '0']
  }

  lemma {:induction false} DecInjective(a: nat, b: nat)
    requires Dec(a) == Dec(b)
    ensures a == b
    decreases a
  {
    var s := Dec(a);
    assert s[|s| - 1] == ((a % 10) as char) + '0' == ((b % 10) as char) + '0';
    assert a % 10 == b % 10;
    if a >= 10 && b >= 10 {
      assert Dec(a / 10) == s[..|s| - 1] == Dec(b / 10);
      DecInjective(a / 10, b / 10);
    }
  }

  predicate HexDigit(c: char) {
    '0' <= c <= '9' || 'a' <= c <= 'f' || 'A' <= c <= 'F'
  }

  /** Decimal digits with single underscores between them. */
  predicate DecimalRun(s: string, pending: bool) {
    if s == "" then !pending
    else if '0' <= s[0] <= '9' then DecimalRun(s[1..], false)
    else s[0] == '_' && !pending && DecimalRun(s[1..], true)
  }

  function DecimalValue(s: string): int {
    if s == "" then 0
    else
      var front := DecimalValue(s[..|s| - 1]);
      var last := s[|s| - 1];
      if '0' <= last <= '9' then 10 * front + (last - '0') as int else front
  }

  /** `int(s)` on ASCII text; None when it raises. */
  function TextInt(s: string): Option<int> {
    var t := Strip(s);
    var u := if t != "" && (t[0] == '+' || t[0] == '-') then t[1..] else t;
    if !DecimalRun(u, true) then None else Some(if t[0] == '-' then -DecimalValue(u) else DecimalValue(u))
  }

  lemma {:induction false} DecRead(n: nat)
    ensures DecimalRun(Dec(n), true) && DecimalRun(Dec(n), false) && DecimalValue(Dec(n)) == n
  {
    DigitsRun(Dec(n));
    if n >= 10 {
      DecRead(n / 10);
      assert Dec(n)[..|Dec(n)| - 1] == Dec(n / 10);
    }
  }

  lemma {:induction false} DigitsRun(s: string)
    requires s != "" && forall i :: 0 <= i < |s| ==> '0' <= s[i] <= '9'
    ensures DecimalRun(s, true) && DecimalRun(s, false)
  {
    if |s| > 1 {
      DigitsRun(s[1..]);
    }
  }

  function Signed(negative: bool, n: nat): int {
    if negative then -(n as int) else n
  }

  /** A printed number with a sign or none and blanks around it is read back. */
  lemma IntRead(before: string, sign: string, n: nat, after: string)
    requires AllSpace(before) && AllSpace(after) && (sign == "" || sign == "+" || sign == "-")
    ensures TextInt(before + (sign + Dec(n) + after)) == Some(Signed(sign == "-", n))
  {
    var own := sign + Dec(n);
    BareNumber(own, sign, n);
    StripAround(before, own, after);
    DecRead(n);
    hide Strip, Dec, DecimalRun, DecimalValue;
  }

  lemma BareNumber(own: string, sign: string, n: nat)
    requires own == sign + Dec(n) && (sign == "" || sign == "+" || sign == "-")
    ensures own != "" && !IsSpace(own[0]) && !IsSpace(own[|own| - 1])
    ensures if sign == "" then own == Dec(n) && own[0] != '+' && own[0] != '-'
            else own[0] == sign[0] && own[1..] == Dec(n)
  {
    hide Dec;
  }

  /** Blanks around a text that has none at its ends. */
  lemma StripAround(before: string, own: string, after: string)
    requires AllSpace(before) && AllSpace(after) && own != "" && !IsSpace(own[0]) && !IsSpace(own[|own| - 1])
    ensures Strip(before + (own + after)) == own
  {
    hide IsSpace, RStrip;
    LStripSkips(before, own + after);
    assert LStrip(own + after) == own + after;
    RStripDrops(own, after);
    RStripDone(own);
  }
}
