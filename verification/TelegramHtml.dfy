/** Cutting a Telegram message to its length limit without breaking its tags (`bot/messages.py`). */
module TelegramHtml {
  import opened Base
  import opened Text

  predicate Known(name: string) {
    name in {"b", "i", "u", "s", "code", "pre", "blockquote"}
  }

  function Suffix(): (s: string)
    ensures |s| == 12 && s[0] == '\n' && '<' !in s && '>' !in s && '&' !in s
  {
    "\n...\U{043E}\U{0431}\U{0440}\U{0435}\U{0437}\U{0430}\U{043D}\U{043E}"
  }

  // ---------------------------------------------------------------- tags

  datatype Tag = Tag(closing: bool, name: string)

  /** The text of a tag. */
  function Show(t: Tag): string {
    (if t.closing then "</" else "<") + (t.name + ">")
  }

  /** The known tag a text begins with: `</?(b|i|u|s|code|pre|blockquote)>`. */
  function TagAt(s: string): (r: Option<Tag>)
    ensures r.Some? ==> Known(r.value.name)
  {
    if s == "" || s[0] != '<' || '>' !in s then None
    else
      var inner := s[1..IndexOf(s, '>')];
      if Known(inner) then Some(Tag(false, inner))
      else if inner != "" && inner[0] == '/' && Known(inner[1..]) then Some(Tag(true, inner[1..]))
      else None
  }

  function TagLength(s: string): (n: nat)
    requires TagAt(s).Some?
    ensures 2 <= n <= |s| && s[n - 1] == '>'
  {
    IndexOf(s, '>') + 1
  }

  /** The open tags after a text in which `<` and `>` occur in known, well nested tags only. */
  function Nested(s: string, open: seq<string>): Option<seq<string>>
    decreases |s|
  {
    if s == "" then Some(open)
    else
      match TagAt(s)
      case None => if s[0] == '<' || s[0] == '>' then None else Nested(s[1..], open)
      case Some(Tag(closing, name)) =>
        if !closing then Nested(s[TagLength(s)..], open + [name])
        else if open != [] && open[|open| - 1] == name then Nested(s[TagLength(s)..], open[..|open| - 1])
        else None
  }

  predicate WellNested(s: string) {
    Nested(s, []) == Some([])
  }

  // ---------------------------------------------------------------- closing tags

  function LastAt(stack: seq<string>, name: string): (i: int)
    ensures -1 <= i < |stack| && (i >= 0 ==> stack[i] == name) && (forall j :: i < j < |stack| ==> stack[j] != name)
  {
    if stack == [] then -1 else if stack[|stack| - 1] == name then |stack| - 1 else LastAt(stack[..|stack| - 1], name)
  }

  /** An opening tag is pushed; a closing one drops the last tag of its name, if there is any. */
  function Moved(stack: seq<string>, t: Tag): seq<string> {
    if !t.closing then stack + [t.name]
    else
      var i := LastAt(stack, t.name);
      if i < 0 then stack else stack[..i] + stack[i + 1..]
  }

  /** The stack after all matches of the pattern, from the left. */
  function Scanned(s: string, stack: seq<string>): seq<string>
    decreases |s|
  {
    if s == "" then stack
    else if TagAt(s).Some? then Scanned(s[TagLength(s)..], Moved(stack, TagAt(s).value))
    else Scanned(s[1..], stack)
  }

  /** In any text: a closing tag closes the latest open tag of its name and no other, and does nothing without one. */
  lemma {:induction false} ClosesLatest(before: seq<string>, name: string, behind: seq<string>)
    requires name !in behind
    ensures Moved(before + ([name] + behind), Tag(true, name)) == before + behind
    ensures Moved(behind, Tag(true, name)) == behind
    ensures Moved(behind, Tag(false, name)) == behind + [name]
    decreases |behind|
  {
    var stack := before + ([name] + behind);
    assert stack[|before|] == name;
    assert forall j :: |before| < j < |stack| ==> stack[j] == behind[j - |before| - 1] && stack[j] != name;
    assert LastAt(stack, name) == |before|;
    assert stack[..|before|] == before && stack[|before| + 1..] == behind;
  }

  function CloseAll(stack: seq<string>): string {
    if stack == [] then "" else Show(Tag(true, stack[|stack| - 1])) + CloseAll(stack[..|stack| - 1])
  }

  function Closing(s: string): string {
    CloseAll(Scanned(s, []))
  }

  /** The stack of `_closing_tags` after its pass over the matches. */
  method ScanTags(s: string) returns (stack: seq<string>)
    ensures stack == Scanned(s, [])
  {
    stack := [];
    var at := 0;
    assert s[0..] == s;
    while at < |s|
      invariant at <= |s| && Scanned(s[at..], stack) == Scanned(s, [])
    {
      var rest := s[at..];
      ScanStep(rest, stack);
      hide *;
      var found := TagAt(rest);
      if found.Some? {
        assert rest[TagLength(rest)..] == s[at + TagLength(rest)..];
        at := at + TagLength(rest);
        stack := Moved(stack, found.value);
      } else {
        assert rest[1..] == s[at + 1..];
        at := at + 1;
      }
    }
  }

  lemma ScanStep(s: string, stack: seq<string>)
    requires s != ""
    ensures TagAt(s).Some? ==> Scanned(s, stack) == Scanned(s[TagLength(s)..], Moved(stack, TagAt(s).value))
    ensures TagAt(s).None? ==> Scanned(s, stack) == Scanned(s[1..], stack)
  {
    hide TagAt, Moved;
  }

  method CloseStack(stack: seq<string>) returns (r: string)
    ensures r == CloseAll(stack)
  {
    r := "";
    var n: nat := |stack|;
    assert stack[..n] == stack;
    while n > 0
      invariant n <= |stack| && r + CloseAll(stack[..n]) == CloseAll(stack)
    {
      hide Show;
      assert stack[..n][..n - 1] == stack[..n - 1];
      Regroup(r, Show(Tag(true, stack[n - 1])), CloseAll(stack[..n - 1]));
      r := r + Show(Tag(true, stack[n - 1]));
      n := n - 1;
    }
    assert r + "" == r;
  }

  /** `_closing_tags`. */
  method ClosingTags(s: string) returns (r: string)
    ensures r == Closing(s)
  {
    var stack := ScanTags(s);
    r := CloseStack(stack);
  }

  lemma Regroup(a: string, b: string, c: string)
    ensures a + (b + c) == (a + b) + c
  {
  }

  // ---------------------------------------------------------------- splitting a nested text

  /** A character that can stand inside a tag behind its `<`. */
  predicate Inner(c: char) {
    c == '/' || c == '>' || 'a' <= c <= 'z'
  }

  /** No tag runs across this point. */
  predicate Boundary(q: string, r: string) {
    q == "" || q[|q| - 1] == '>' || r == "" || !Inner(r[0])
  }

  lemma TagText(s: string)
    requires TagAt(s).Some?
    ensures s[..TagLength(s)] == Show(TagAt(s).value)
    ensures forall i :: 1 <= i < TagLength(s) ==> Inner(s[i])
    ensures forall i :: 0 <= i < TagLength(s) - 1 ==> s[i] != '>'
  {
    hide Known;
    var k := IndexOf(s, '>');
    IndexOfFirst(s, '>');
    var inner := s[1..k];
    var t := TagAt(s).value;
    NamesAreLetters(t.name);
    if t.closing {
      SlashFront(inner);
    }
    forall i | 1 <= i < k ensures Inner(s[i]) {
      assert s[i] == inner[i - 1];
    }
    assert s[..k + 1] == ['<'] + (inner + ">");
    TagShape(inner, t);
  }

  lemma SlashFront(inner: string)
    requires inner != "" && inner[0] == '/'
    ensures inner == "/" + inner[1..]
  {
  }

  lemma TagShape(inner: string, t: Tag)
    requires inner == if t.closing then "/" + t.name else t.name
    ensures ['<'] + (inner + ">") == Show(t)
  {
    if t.closing {
      assert ['<'] + (("/" + t.name) + ">") == "</" + (t.name + ">");
    }
  }

  lemma ShowFront(t: Tag, rest: string)
    ensures var inner := if t.closing then "/" + t.name else t.name;
            && Show(t) + rest == (['<'] + inner) + (['>'] + rest)
            && (Show(t) + rest)[1..|inner| + 1] == inner && (Show(t) + rest)[|inner| + 2..] == rest
  {
    var inner := if t.closing then "/" + t.name else t.name;
    TagShape(inner, t);
    var s := (['<'] + inner) + (['>'] + rest);
    assert (['<'] + (inner + ">")) + rest == s;
  }

  lemma NamesAreLetters(name: string)
    requires Known(name)
    ensures forall i :: 0 <= i < |name| ==> 'a' <= name[i] <= 'z'
  {
  }

  lemma {:induction false} IndexOfFirst(s: string, c: char)
    ensures forall i :: 0 <= i < IndexOf(s, c) ==> s[i] != c
  {
    if s != "" && s[0] != c {
      IndexOfFirst(s[1..], c);
      assert forall i :: 1 <= i < IndexOf(s, c) ==> s[i] == s[1..][i - 1];
    }
  }

  /** Whether a text begins with a tag shows in any prefix that holds the whole tag, and only there. */
  lemma TagOfPrefix(q: string, r: string)
    requires q != ""
    ensures TagAt(q).Some? ==> TagAt(q + r) == TagAt(q) && TagLength(q + r) == TagLength(q)
    ensures TagAt(q + r).Some? && TagLength(q + r) <= |q| ==> TagAt(q) == TagAt(q + r)
  {
    var s := q + r;
    hide Known;
    assert forall i :: 0 <= i < |q| ==> s[i] == q[i];
    if '>' in q && q[0] == '<' {
      IndexOfFirst(q, '>');
      IndexOfFirst(s, '>');
      var k := IndexOf(q, '>');
      assert s[k] == q[k];
      assert IndexOf(s, '>') == k by {
        assert forall i :: 0 <= i < k ==> s[i] == q[i];
      }
      assert s[1..k] == q[1..k];
    }
  }

  /** A tag at the front of a nested text lies in front of every boundary. */
  lemma TagInFront(q: string, r: string)
    requires q != "" && TagAt(q + r).Some? && Boundary(q, r)
    ensures TagLength(q + r) <= |q| && (q + r)[TagLength(q + r)..] == q[TagLength(q + r)..] + r
    ensures TagAt(q) == TagAt(q + r) && TagLength(q) == TagLength(q + r)
  {
    hide TagAt, TagLength;
    var s := q + r;
    TagText(s);
    assert s[|q| - 1] == q[|q| - 1] && (r != "" ==> s[|q|] == r[0]);
    TagOfPrefix(q, r);
  }

  /** A nested text splits at every boundary. */
  lemma {:induction false} SplitAt(q: string, r: string, open: seq<string>)
    requires Nested(q + r, open).Some? && Boundary(q, r)
    ensures Nested(q, open).Some? && Nested(q + r, open) == Nested(r, Nested(q, open).value)
    decreases |q|
  {
    if q == "" {
      assert q + r == r;
      return;
    }
    hide TagAt, Boundary;
    var s := q + r;
    if TagAt(s).Some? {
      TagInFront(q, r);
      var n := TagLength(s);
      BoundaryLater(q, r, n);
      var t := TagAt(s).value;
      SplitAt(q[n..], r, if t.closing then open[..|open| - 1] else open + [t.name]);
    } else {
      TagOfPrefix(q, r);
      assert s[1..] == q[1..] + r && s[0] == q[0];
      BoundaryLater(q, r, 1);
      SplitAt(q[1..], r, open);
    }
  }

  lemma BoundaryLater(q: string, r: string, n: nat)
    requires Boundary(q, r) && n <= |q|
    ensures Boundary(q[n..], r)
  {
  }

  /** Nested texts can be put together. */
  lemma {:induction false} JoinAt(q: string, r: string, open: seq<string>)
    requires Nested(q, open).Some?
    ensures Nested(q + r, open) == Nested(r, Nested(q, open).value)
    decreases |q|
  {
    if q == "" {
      assert q + r == r;
    } else {
      var s := q + r;
      TagOfPrefix(q, r);
      if TagAt(q).Some? {
        var n := TagLength(q);
        assert s[n..] == q[n..] + r;
        var t := TagAt(q).value;
        JoinAt(q[n..], r, if t.closing then open[..|open| - 1] else open + [t.name]);
      } else {
        PlainStays(q, r);
        assert s[1..] == q[1..] + r;
        JoinAt(q[1..], r, open);
      }
    }
  }

  lemma PlainStays(q: string, r: string)
    requires q != "" && q[0] != '<'
    ensures TagAt(q + r) == None
  {
  }

  /** In a nested text the code's stack is the stack of open tags. */
  lemma {:induction false} ScannedIsNested(s: string, open: seq<string>)
    requires Nested(s, open).Some?
    ensures Scanned(s, open) == Nested(s, open).value
    decreases |s|
  {
    hide TagAt;
    if s != "" {
      if TagAt(s).Some? {
        var t := TagAt(s).value;
        if t.closing {
          assert LastAt(open, t.name) == |open| - 1;
          assert open[..|open| - 1] + open[|open|..] == open[..|open| - 1];
        }
        ScannedIsNested(s[TagLength(s)..], Moved(open, t));
      } else {
        ScannedIsNested(s[1..], open);
      }
    }
  }

  predicate AllNames(open: seq<string>) {
    forall i :: 0 <= i < |open| ==> Known(open[i])
  }

  lemma {:induction false} NestedNames(s: string, open: seq<string>)
    requires Nested(s, open).Some? && AllNames(open)
    ensures AllNames(Nested(s, open).value)
    decreases |s|
  {
    hide TagAt;
    if s != "" {
      if TagAt(s).Some? {
        var t := TagAt(s).value;
        NestedNames(s[TagLength(s)..], if t.closing then open[..|open| - 1] else open + [t.name]);
      } else {
        NestedNames(s[1..], open);
      }
    }
  }

  lemma ShownTag(t: Tag, rest: string)
    requires Known(t.name)
    ensures TagAt(Show(t) + rest) == Some(t) && (Show(t) + rest)[TagLength(Show(t) + rest)..] == rest
  {
    hide Known;
    NamesAreLetters(t.name);
    KnownNotEmpty(t.name);
    SlashUnknown(t.name);
    ShowFront(t, rest);
    var inner := if t.closing then "/" + t.name else t.name;
    assert '>' !in ['<'] + inner;
    IndexOfSkips(['<'] + inner, '>', rest);
    assert ("/" + t.name)[1..] == t.name;
    hide Show, IndexOf;
  }

  lemma KnownNotEmpty(name: string)
    requires Known(name)
    ensures name != "" && name[0] != '/'
  {
  }

  lemma SlashUnknown(name: string)
    ensures !Known("/" + name)
  {
    assert ("/" + name)[0] == '/';
    if Known("/" + name) {
      NamesAreLetters("/" + name);
    }
  }

  /** The closing tags close everything that is open. */
  lemma {:induction false} CloseAllCloses(open: seq<string>)
    requires AllNames(open)
    ensures Nested(CloseAll(open), open) == Some([])
    decreases |open|
  {
    hide TagAt;
    if open != [] {
      ShownTag(Tag(true, open[|open| - 1]), CloseAll(open[..|open| - 1]));
      CloseAllCloses(open[..|open| - 1]);
    }
  }

  /** A nested beginning plus the generated closing tags is well nested. */
  lemma ClosingCloses(s: string)
    requires Nested(s, []).Some?
    ensures WellNested(s + Closing(s))
  {
    hide Nested, Scanned, CloseAll;
    ScannedIsNested(s, []);
    NestedNames(s, []);
    CloseAllCloses(Nested(s, []).value);
    JoinAt(s, Closing(s), []);
  }

  // ---------------------------------------------------------------- the cut

  /** `s.rfind(c)`. */
  function LastOf(s: string, c: char): (i: int)
    ensures -1 <= i < |s| && (i >= 0 ==> s[i] == c) && (forall j :: i < j < |s| ==> s[j] != c)
  {
    if s == "" then -1 else if s[|s| - 1] == c then |s| - 1 else LastOf(s[..|s| - 1], c)
  }

  /** Drops a tag that was cut in half. */
  function TrimTag(s: string): string {
    if LastOf(s, '<') > LastOf(s, '>') then RStrip(s[..LastOf(s, '<')]) else s
  }

  /** `_trim_partial_entity`. */
  function TrimEntity(s: string): string {
    var amp := LastOf(s, '&');
    if amp == -1 || ';' in s[amp..] then s else if |s| - amp <= 10 then RStrip(s[..amp]) else s
  }

  function Tidy(s: string): string {
    TrimEntity(TrimTag(RStrip(s)))
  }

  function Most(a: int, b: int): int {
    if a >= b then a else b
  }

  /** The beginning of the text that is kept when it is too long. */
  function Snippet(text: string, limit: nat): string
    requires |Suffix()| < limit < |text|
  {
    var raw := limit - |Suffix()|;
    var line := LastOf(text[..raw], '\n');
    var first := Tidy(text[..if line < raw / 2 then raw else line]);
    if |first| + |Closing(first)| + |Suffix()| > limit then
      var room := Most(limit - |Closing(first)| - |Suffix()|, 0);
      Tidy(first[..if room < |first| then room else |first|])
    else first
  }

  /** `cap_telegram_html`; a slice from `-0` is the whole suffix. */
  function Capped(text: string, limit: nat): string {
    if |text| <= limit then text
    else if limit <= |Suffix()| then Suffix()[if limit == 0 then 0 else |Suffix()| - limit..]
    else Snippet(text, limit) + (Closing(Snippet(text, limit)) + Suffix())
  }

  method TidyUp(s: string) returns (r: string)
    ensures r == Tidy(s)
  {
    var snippet := RStrip(s);
    var lastLt := LastOf(snippet, '<');
    var lastGt := LastOf(snippet, '>');
    if lastLt > lastGt {
      snippet := RStrip(snippet[..lastLt]);
    }
    return TrimEntity(snippet);
  }

  method CapTelegramHtml(text: string, limit: nat) returns (r: string)
    ensures r == Capped(text, limit)
  {
    hide Tidy, Closing, LastOf;
    if |text| <= limit {
      return text;
    }
    var suffix := Suffix();
    if limit <= |suffix| {
      return suffix[if limit == 0 then 0 else |suffix| - limit..];
    }
    var rawLimit := limit - |suffix|;
    var cut := LastOf(text[..rawLimit], '\n');
    if cut < rawLimit / 2 {
      cut := rawLimit;
    }
    var snippet := TidyUp(text[..cut]);
    var closing := ClosingTags(snippet);
    if |snippet| + |closing| + |suffix| > limit {
      var room := Most(limit - |closing| - |suffix|, 0);
      snippet := TidyUp(snippet[..if room < |snippet| then room else |snippet|]);
      closing := ClosingTags(snippet);
    }
    return snippet + (closing + suffix);
  }

  // ---------------------------------------------------------------- what the cut keeps

  /** Every entity is complete: its `;` comes within ten characters and before any other `&` or a tag. */
  predicate EntitiesWhole(s: string) {
    forall i :: 0 <= i < |s| && s[i] == '&' ==> EntityEnds(s, i)
  }

  predicate EntityEnds(s: string, i: nat) {
    exists j :: i < j < |s| && j <= i + 9 && s[j] == ';' && EntityBody(s, i, j)
  }

  predicate EntityBody(s: string, i: nat, j: nat)
    requires j <= |s|
  {
    forall k :: i < k < j ==> s[k] != '&' && s[k] != '<' && s[k] != '>'
  }

  lemma PrefixSplits(p: string, s: string)
    requires p <= s
    ensures s == p + s[|p|..]
  {
  }

  lemma {:induction false} PlainNested(w: string, open: seq<string>)
    requires '<' !in w && '>' !in w
    ensures Nested(w, open) == Some(open)
  {
    hide Known;
    if w != "" {
      PlainNested(w[1..], open);
    }
  }

  /** Cutting a nested text at a boundary leaves a nested text. */
  lemma CutNested(p: string, text: string)
    requires p <= text && Nested(text, []).Some? && Boundary(p, text[|p|..])
    ensures Nested(p, []).Some?
  {
    hide Nested, Boundary;
    PrefixSplits(p, text);
    SplitAt(p, text[|p|..], []);
  }

  lemma StripNested(p: string)
    requires Nested(p, []).Some?
    ensures RStrip(p) <= p && Nested(RStrip(p), []).Some?
  {
    RStripPrefix(p);
    StripBoundary(p);
    hide *;
    CutNested(RStrip(p), p);
  }

  lemma {:induction false} StripBoundary(p: string)
    requires RStrip(p) <= p
    ensures forall i :: |RStrip(p)| <= i < |p| ==> IsSpace(p[i])
    ensures Boundary(RStrip(p), p[|RStrip(p)|..])
  {
    RStripped(p);
  }

  lemma {:induction false} RStripped(p: string)
    ensures |RStrip(p)| <= |p| && forall i :: |RStrip(p)| <= i < |p| ==> IsSpace(p[i])
  {
    if p != "" && IsSpace(p[|p| - 1]) {
      RStripped(p[..|p| - 1]);
      assert forall i :: 0 <= i < |p| - 1 ==> p[..|p| - 1][i] == p[i];
    }
  }

  /** A prefix without its half tag is nested. */
  lemma TrimTagNested(p: string, text: string)
    requires p <= text && Nested(text, []).Some?
    ensures TrimTag(p) <= p && Nested(TrimTag(p), []).Some?
  {
    hide Nested, LastOf, RStrip;
    var lt, gt := LastOf(p, '<'), LastOf(p, '>');
    if lt > gt {
      assert text[lt] == p[lt] && text[|p[..lt]|..][0] == '<';
      CutNested(p[..lt], text);
      StripNested(p[..lt]);
    } else if gt == -1 {
      PlainNested(p, []);
    } else {
      var q, w := p[..gt + 1], p[gt + 1..];
      assert q[|q| - 1] == '>';
      CutNested(q, text);
      assert forall i :: 0 <= i < |w| ==> w[i] == p[gt + 1 + i];
      PlainNested(w, Nested(q, []).value);
      assert q + w == p;
      JoinAt(q, w, []);
    }
  }

  lemma TrimEntityNested(p: string)
    requires Nested(p, []).Some?
    ensures TrimEntity(p) <= p && Nested(TrimEntity(p), []).Some?
  {
    hide Nested, LastOf, RStrip;
    var amp := LastOf(p, '&');
    if amp >= 0 {
      assert p[|p[..amp]|..][0] == '&';
      CutNested(p[..amp], p);
      StripNested(p[..amp]);
    }
  }

  lemma PrefixChain(a: string, b: string, c: string)
    requires a <= b && b <= c
    ensures a <= c
  {
  }

  lemma TidyNested(p: string, text: string)
    requires p <= text && Nested(text, []).Some?
    ensures Tidy(p) <= text && Nested(Tidy(p), []).Some?
  {
    hide Nested, TrimTag, TrimEntity, RStrip;
    RStripPrefix(p);
    PrefixChain(RStrip(p), p, text);
    TrimTagNested(RStrip(p), text);
    TrimEntityNested(TrimTag(RStrip(p)));
    PrefixChain(TrimTag(RStrip(p)), RStrip(p), text);
    PrefixChain(Tidy(p), TrimTag(RStrip(p)), text);
  }

  /** An entity that ends inside a prefix is an entity of the prefix. */
  lemma EntityInPrefix(p: string, text: string, i: nat, j: nat)
    requires p <= text && i < j < |p| && j <= i + 9 && p[j] == ';' && EntityBody(text, i, j)
    ensures EntityEnds(p, i)
  {
    assert EntityBody(p, i, j);
  }

  lemma ShorterBody(s: string, i: nat, m: nat, j: nat)
    requires m <= j <= |s| && EntityBody(s, i, j)
    ensures EntityBody(s, i, m)
  {
  }

  /** Whatever prefix is tidied, no entity is left in half. */
  lemma TrimEntityWhole(p: string, text: string)
    requires p <= text && EntitiesWhole(text)
    ensures EntitiesWhole(TrimEntity(p))
  {
    hide EntityBody, LastOf, RStrip;
    var r, amp := TrimEntity(p), LastOf(p, '&');
    RStripPrefix(if amp >= 0 then p[..amp] else "");
    RStripped(if amp >= 0 then p[..amp] else "");
    forall i | 0 <= i < |r| && r[i] == '&' ensures EntityEnds(r, i) {
      assert r <= p && text[i] == '&';
      var j :| i < j < |text| && j <= i + 9 && text[j] == ';' && EntityBody(text, i, j);
      assert i <= amp;
      if i < amp < j {
        InBody(text, i, j, amp);
        assert false;
      }
      assert j < amp ==> p[..amp][j] == text[j];
      if j < |r| {
        EntityInPrefix(r, text, i, j);
      } else if i < amp {
        assert false;
      } else {
        var m :| amp <= m < |p| && p[m] == ';' by { SemicolonAt(p, amp); }
        ShorterBody(text, i, m, j);
        EntityInPrefix(r, text, i, m);
      }
    }
  }

  lemma SemicolonAt(p: string, amp: nat)
    requires amp <= |p| && ';' in p[amp..]
    ensures exists m :: amp <= m < |p| && p[m] == ';'
  {
    var k :| 0 <= k < |p[amp..]| && p[amp..][k] == ';';
    assert p[amp + k] == ';';
  }

  lemma InBody(s: string, i: nat, j: nat, k: nat)
    requires i < k < j <= |s| && EntityBody(s, i, j)
    ensures s[k] != '&'
  {
  }

  lemma TidyWhole(p: string, text: string)
    requires p <= text && Nested(text, []).Some? && EntitiesWhole(text)
    ensures EntitiesWhole(Tidy(p))
  {
    hide Nested, TrimTag, TrimEntity, RStrip, EntitiesWhole;
    RStripPrefix(p);
    PrefixChain(RStrip(p), p, text);
    TrimTagNested(RStrip(p), text);
    PrefixChain(TrimTag(RStrip(p)), RStrip(p), text);
    TrimEntityWhole(TrimTag(RStrip(p)), text);
  }

  /** Every `<` of a nested text has its `>`. */
  lemma NoHalfTag(s: string, i: nat)
    requires Nested(s, []).Some? && i < |s| && s[i] == '<'
    ensures TagAt(s[i..]).Some? && exists j :: i < j < |s| && s[j] == '>'
  {
    assert s == s[..i] + s[i..];
    SplitAt(s[..i], s[i..], []);
    var n := TagLength(s[i..]);
    assert s[i + n - 1] == s[i..][n - 1];
  }

  /** A message that is too long is cut to a beginning of itself, its open tags are closed, and what comes out is well
      nested, with no half tag and no half entity. */
  lemma CutIsNested(text: string, limit: nat)
    requires WellNested(text) && |Suffix()| < limit < |text|
    ensures var kept := Snippet(text, limit);
            && Capped(text, limit) == (kept + Closing(kept)) + Suffix()
            && kept <= text && Nested(kept, []).Some?
            && WellNested(kept + Closing(kept)) && WellNested(Capped(text, limit))
            && (forall i :: 0 <= i < |kept| && kept[i] == '<' ==> TagAt(kept[i..]).Some?)
            && (EntitiesWhole(text) ==> EntitiesWhole(kept))
  {
    hide Nested, Tidy, Closing, LastOf, EntitiesWhole, TagAt;
    var raw := limit - |Suffix()|;
    var line := LastOf(text[..raw], '\n');
    var cut := if line < raw / 2 then raw else line;
    var first := Tidy(text[..cut]);
    TidyNested(text[..cut], text);
    var room := Most(limit - |Closing(first)| - |Suffix()|, 0);
    var short := first[..if room < |first| then room else |first|];
    PrefixChain(short, first, text);
    TidyNested(short, text);
    if EntitiesWhole(text) {
      TidyWhole(text[..cut], text);
      TidyWhole(short, text);
    }
    var kept := Snippet(text, limit);
    ClosingCloses(kept);
    forall i | 0 <= i < |kept| && kept[i] == '<' ensures TagAt(kept[i..]).Some? {
      NoHalfTag(kept, i);
    }
    Regroup(kept, Closing(kept), Suffix());
    PlainNested(Suffix(), []);
    JoinAt(kept + Closing(kept), Suffix(), []);
  }

  lemma {:induction false} PlainHasNoMarks(s: string, from: nat)
    requires from <= |Suffix()| && s == Suffix()[from..]
    ensures '<' !in s && '>' !in s
  {
    forall c | c in s ensures c in Suffix() {
    }
  }

  /** For every limit: what comes out of a well nested message is well nested. */
  lemma CappedIsNested(text: string, limit: nat)
    requires WellNested(text)
    ensures WellNested(Capped(text, limit))
  {
    if |text| > limit {
      if limit <= |Suffix()| {
        var from := if limit == 0 then 0 else |Suffix()| - limit;
        PlainHasNoMarks(Suffix()[from..], from);
        PlainNested(Suffix()[from..], []);
      } else {
        CutIsNested(text, limit);
      }
    }
  }

  // ---------------------------------------------------------------- the length

  /** What the first cut keeps; a second one follows when the closing tags do not fit. */
  function FirstCut(text: string, limit: nat): string
    requires |Suffix()| < limit < |text|
  {
    var raw := limit - |Suffix()|;
    var line := LastOf(text[..raw], '\n');
    Tidy(text[..if line < raw / 2 then raw else line])
  }

  predicate NoClosingTag(s: string) {
    forall i :: 0 <= i < |s| - 1 ==> !(s[i] == '<' && s[i + 1] == '/')
  }

  /** Text without closing tags leaves the tags open that were open before it. */
  lemma {:induction false} OnlyOpens(s: string, open: seq<string>)
    requires NoClosingTag(s) && Nested(s, open).Some?
    ensures open <= Nested(s, open).value
    decreases |s|
  {
    hide Known;
    if s != "" {
      if TagAt(s).Some? {
        var n, t := TagLength(s), TagAt(s).value;
        TagText(s);
        ClosingShape(t);
        assert s[..n][0] == s[0] && s[..n][1] == s[1];
        OnlyOpens(s[n..], open + [t.name]);
      } else {
        OnlyOpens(s[1..], open);
      }
    }
  }

  lemma ClosingShape(t: Tag)
    ensures |Show(t)| >= 2 && (t.closing ==> Show(t)[0] == '<' && Show(t)[1] == '/')
  {
  }

  lemma {:induction false} CloseAllGrows(a: seq<string>, b: seq<string>)
    requires a <= b
    ensures |CloseAll(a)| <= |CloseAll(b)|
    decreases |b|
  {
    if |a| < |b| {
      CloseAllGrows(a, b[..|b| - 1]);
    } else {
      assert a == b;
    }
  }

  lemma ClosingGrows(p: string, s: string)
    requires p <= s && Nested(p, []).Some? && Nested(s, []).Some? && NoClosingTag(s[|p|..])
    ensures |Closing(p)| <= |Closing(s)|
  {
    hide Nested, Scanned, CloseAll, NoClosingTag;
    var rest := s[|p|..];
    PrefixSplits(p, s);
    JoinAt(p, rest, []);
    OnlyOpens(rest, Nested(p, []).value);
    ScannedIsNested(p, []);
    ScannedIsNested(s, []);
    CloseAllGrows(Nested(p, []).value, Nested(s, []).value);
  }

  lemma NothingToClose()
    ensures Closing("") == "" && RStrip("") == "" && TrimTag("") == "" && TrimEntity("") == ""
  {
  }

  /** Between the two cuts no closing tag is lost. */
  predicate DropsNoClosingTag(text: string, limit: nat) {
    |Suffix()| < limit < |text| ==>
      var first, kept := FirstCut(text, limit), Snippet(text, limit);
      |kept| <= |first| && NoClosingTag(first[|kept|..])
  }

  /** The result fits the limit as long as the second cut drops no closing tag. */
  lemma FitsTheLimit(text: string, limit: nat)
    requires WellNested(text) && limit > 0 && DropsNoClosingTag(text, limit)
    ensures |Capped(text, limit)| <= limit
  {
    hide Nested, Tidy, Closing, LastOf, NoClosingTag, EntitiesWhole;
    if |Suffix()| < limit < |text| {
      var raw := limit - |Suffix()|;
      var line := LastOf(text[..raw], '\n');
      var first := FirstCut(text, limit);
      TidyNested(text[..if line < raw / 2 then raw else line], text);
      var room := Most(limit - |Closing(first)| - |Suffix()|, 0);
      var short := first[..if room < |first| then room else |first|];
      TidyNested(short, first);
      if |first| + |Closing(first)| + |Suffix()| > limit {
        ClosingGrows(Tidy(short), first);
        TidyShorter(short);
        if room == 0 {
          assert short == "";
          NothingLeft();
        }
      }
    }
  }

  lemma TidyShorter(p: string)
    ensures |Tidy(p)| <= |p|
  {
    hide LastOf;
    RStripped(p);
  }

  lemma NothingLeft()
    ensures Tidy("") == "" && Closing("") == ""
  {
    NothingToClose();
    hide TrimTag, TrimEntity, RStrip, Closing;
  }

  // ---------------------------------------------------------------- how much is kept

  /** Empty, or the beginning of a tag without its end. */
  predicate HalfTag(s: string) {
    s == "" || (s[0] == '<' && '>' !in s)
  }

  /** Empty, or up to ten characters of an entity without its end. */
  predicate HalfEntity(s: string) {
    s == "" || (|s| <= 10 && s[0] == '&' && ';' !in s)
  }

  /** Behind what is kept come blanks, a half entity, blanks, a half tag and blanks, as far as there are any. */
  ghost predicate OnlyDebris(p: string, kept: string) {
    kept <= p && exists i, j, k, l ::
      |kept| <= i <= j <= k <= l <= |p| && Debris(p, |kept|, i, j, k, l)
  }

  predicate Debris(p: string, n: nat, i: nat, j: nat, k: nat, l: nat)
    requires n <= i <= j <= k <= l <= |p|
  {
    AllSpace(p[n..i]) && HalfEntity(p[i..j]) && AllSpace(p[j..k]) && HalfTag(p[k..l]) && AllSpace(p[l..])
  }

  lemma StrippedTail(p: string)
    ensures RStrip(p) <= p && AllSpace(p[|RStrip(p)|..])
  {
    RStripped(p);
    RStripPrefix(p);
  }

  lemma TagDebris(p: string) returns (k: nat)
    ensures TrimTag(p) <= p && |TrimTag(p)| <= k <= |p|
    ensures AllSpace(p[|TrimTag(p)|..k]) && HalfTag(p[k..])
  {
    hide RStrip;
    var lt := LastOf(p, '<');
    if lt > LastOf(p, '>') {
      k := lt;
      StrippedTail(p[..lt]);
      assert p[|TrimTag(p)|..k] == p[..lt][|TrimTag(p)|..];
    } else {
      k := |p|;
    }
  }

  lemma EntityDebris(p: string) returns (k: nat)
    ensures TrimEntity(p) <= p && |TrimEntity(p)| <= k <= |p|
    ensures AllSpace(p[|TrimEntity(p)|..k]) && HalfEntity(p[k..])
  {
    hide RStrip;
    var amp := LastOf(p, '&');
    if amp != -1 && ';' !in p[amp..] && |p| - amp <= 10 {
      k := amp;
      StrippedTail(p[..amp]);
      assert p[|TrimEntity(p)|..k] == p[..amp][|TrimEntity(p)|..];
    } else {
      k := |p|;
    }
  }

  lemma TidyDebris(p: string)
    ensures OnlyDebris(p, Tidy(p))
  {
    hide RStrip, TrimTag, TrimEntity, HalfTag, HalfEntity;
    StrippedTail(p);
    var a := RStrip(p);
    var k := TagDebris(a);
    var b := TrimTag(a);
    var i := EntityDebris(b);
    var kept := TrimEntity(b);
    assert p[|kept|..i] == b[|kept|..i] && p[i..|b|] == b[i..] && p[|b|..k] == a[|b|..k] && p[k..|a|] == a[k..];
    assert Debris(p, |kept|, i, |b|, k, |a|);
  }

  /** The character before which the text is cut: the last line feed of the second half of the room, or its end. */
  predicate CutPoint(text: string, raw: nat, cut: nat)
    requires raw < |text|
  {
    && raw / 2 <= cut <= raw
    && (if exists i :: raw / 2 <= i < raw && text[i] == '\n' then cut < raw && text[cut] == '\n' else cut == raw)
    && (forall i :: cut < i < raw ==> text[i] != '\n')
  }

  lemma CutIsThere(text: string, raw: nat)
    requires raw < |text|
    ensures var line := LastOf(text[..raw], '\n'); CutPoint(text, raw, if line < raw / 2 then raw else line)
  {
    var line := LastOf(text[..raw], '\n');
    assert forall i :: 0 <= i < raw ==> text[..raw][i] == text[i];
  }

  /** How much of a long message is kept: all of it up to the cut point but for what the cut left in half and blanks;
      and, only if that and the closing tags do not fit, as much of it as fits beside them, tidied again. */
  lemma WhatIsKept(text: string, limit: nat) returns (cut: nat)
    requires |Suffix()| < limit < |text|
    ensures CutPoint(text, limit - |Suffix()|, cut)
    ensures var first, kept := FirstCut(text, limit), Snippet(text, limit);
            && OnlyDebris(text[..cut], first)
            && (|first| + |Closing(first)| + |Suffix()| <= limit ==> kept == first)
            && (|first| + |Closing(first)| + |Suffix()| > limit ==>
                  OnlyDebris(first[..Most(limit - |Closing(first)| - |Suffix()|, 0)], kept))
  {
    hide Tidy, Closing, LastOf, OnlyDebris, CutPoint;
    var raw := limit - |Suffix()|;
    var line := LastOf(text[..raw], '\n');
    cut := if line < raw / 2 then raw else line;
    CutIsThere(text, raw);
    TidyDebris(text[..cut]);
    var first := FirstCut(text, limit);
    if |first| + |Closing(first)| + |Suffix()| > limit {
      TidyDebris(first[..Most(limit - |Closing(first)| - |Suffix()|, 0)]);
    }
  }

  /** A limit that leaves no room for text: the end of the marker, and the whole marker for the limit 0. */
  lemma NoRoom(text: string, limit: nat)
    requires limit < |text| && limit <= |Suffix()|
    ensures var n := if limit == 0 then |Suffix()| else limit;
            |Capped(text, limit)| == n && Suffix()[|Suffix()| - n..] == Capped(text, limit)
  {
  }

  // ---------------------------------------------------------------- a message that comes out too long

  lemma LastOfSkips(a: string, c: char, b: string)
    requires c !in b
    ensures LastOf(a + ([c] + b), c) == |a|
    decreases |b|
  {
    var s := a + ([c] + b);
    if b != "" {
      assert s[..|s| - 1] == a + ([c] + b[..|b| - 1]);
      LastOfSkips(a, c, b[..|b| - 1]);
    } else {
      assert s[..|s| - 1] == a;
    }
  }

  lemma {:induction false} LastOfNone(s: string, c: char)
    requires c !in s
    ensures LastOf(s, c) == -1
  {
  }

  /** Visible text without marks. */
  predicate Plain(s: string) {
    s != "" && forall i :: 0 <= i < |s| ==> s[i] !in "<>&" && !IsSpace(s[i])
  }

  function Open(name: string): string {
    Show(Tag(false, name))
  }

  function Close(name: string): string {
    Show(Tag(true, name))
  }

  lemma NestedOpen(name: string, rest: string, open: seq<string>)
    requires Known(name)
    ensures Nested(Open(name) + rest, open) == Nested(rest, open + [name])
  {
    ShownTag(Tag(false, name), rest);
    hide TagAt, Known;
  }

  lemma NestedClose(name: string, rest: string, open: seq<string>)
    requires Known(name)
    ensures Nested(Close(name) + rest, open + [name]) == Nested(rest, open)
  {
    ShownTag(Tag(true, name), rest);
    assert (open + [name])[..|open|] == open;
    hide TagAt, Known;
  }

  lemma NestedPlain(text: string, rest: string, open: seq<string>)
    requires Plain(text)
    ensures Nested(text + rest, open) == Nested(rest, open)
  {
    PlainNested(text, open);
    JoinAt(text, rest, open);
  }

  /** `<b><code>body</code>tail</b>`. */
  function Kept(body: string): string {
    Open("b") + (Open("code") + body)
  }

  function Begun(body: string): string {
    Open("b") + (Open("code") + (body + Close("code")))
  }

  function Message(body: string, tail: string): string {
    Open("b") + (Open("code") + (body + (Close("code") + (tail + Close("b")))))
  }

  lemma MessageNested(body: string, tail: string)
    requires Plain(body) && Plain(tail)
    ensures WellNested(Message(body, tail))
    ensures Nested(Begun(body), []) == Some(["b"]) && Nested(Kept(body), []) == Some(["b", "code"])
    ensures Begun(body) <= Message(body, tail)
  {
    hide Show, Nested;
    var b, code := "b", "code";
    assert [] + [b] == [b] && [b] + [code] == [b, code];
    assert Close(code) + "" == Close(code) && Close(b) + "" == Close(b) && body + "" == body;
    NothingNested([]);
    NothingNested([b]);
    NothingNested([b, code]);
    NestedOpen(b, Open(code) + (body + (Close(code) + (tail + Close(b)))), []);
    NestedOpen(code, body + (Close(code) + (tail + Close(b))), [b]);
    NestedPlain(body, Close(code) + (tail + Close(b)), [b, code]);
    NestedClose(code, tail + Close(b), [b]);
    NestedPlain(tail, Close(b), [b]);
    NestedClose(b, "", []);
    NestedOpen(b, Open(code) + (body + Close(code)), []);
    NestedOpen(code, body + Close(code), [b]);
    NestedPlain(body, Close(code), [b, code]);
    NestedClose(code, "", [b]);
    NestedOpen(b, Open(code) + body, []);
    NestedOpen(code, body, [b]);
    NestedPlain(body, "", [b, code]);
    assert Message(body, tail) == Begun(body) + (tail + Close(b));
  }

  lemma NothingNested(open: seq<string>)
    ensures Nested("", open) == Some(open)
  {
  }

  lemma Lengths(body: string)
    ensures Open("b") == "<b>" && Open("code") == "<code>" && Close("code") == "</code>" && Close("b") == "</b>"
    ensures |Kept(body)| == 9 + |body| && |Begun(body)| == 16 + |body|
  {
  }

  lemma ClosingLengths(body: string)
    requires Plain(body)
    ensures |Closing(Begun(body))| == 4 && |Closing(Kept(body))| == 11
  {
    MessageNested(body, body);
    ScannedIsNested(Begun(body), []);
    ScannedIsNested(Kept(body), []);
    hide Nested, Scanned;
    var b, code := ["b"], ["b", "code"];
    assert code[..1] == b && b[..0] == [];
    assert CloseAll([]) == "" && CloseAll(b) == Close("b") + "";
    assert CloseAll(code) == Close("code") + CloseAll(b);
    Lengths(body);
  }

  lemma BegunChars(body: string)
    requires Plain(body)
    ensures '&' !in Begun(body) && '\n' !in Begun(body) && Begun(body)[|Begun(body)| - 1] == '>'
    ensures Begun(body)[..|Begun(body)| - 4] == Kept(body) + "</c"
    ensures '&' !in Kept(body) && !IsSpace(Kept(body)[|Kept(body)| - 1])
  {
    Lengths(body);
    hide Show;
    forall c | c in body ensures c != '&' && c != '\n' {
    }
    var begun := Begun(body);
    assert begun == Kept(body) + "</code>" by {
      Regroup(Open("code"), body, Close("code"));
      Regroup(Open("b"), Open("code") + body, Close("code"));
    }
    assert "</code>"[..3] == "</c";
  }

  lemma TidyBegun(body: string)
    requires Plain(body)
    ensures Tidy(Begun(body)) == Begun(body)
  {
    var s := Begun(body);
    BegunChars(body);
    Lengths(body);
    RStripDone(s);
    LastOfNone(s, '&');
    hide Begun, LastOf;
    assert LastOf(s, '>') == |s| - 1;
  }

  lemma TidyShort(body: string)
    requires Plain(body)
    ensures Tidy(Kept(body) + "</c") == Kept(body)
  {
    var kept := Kept(body);
    var s := kept + "</c";
    BegunChars(body);
    assert s == kept + (['<'] + "/c");
    LastOfSkips(kept, '<', "/c");
    LastGt(body);
    RStripDone(s);
    RStripDone(kept);
    LastOfNone(kept, '&');
    assert s[..|kept|] == kept;
    hide Kept, LastOf, RStrip;
  }

  lemma LastGt(body: string)
    requires Plain(body)
    ensures LastOf(Kept(body) + "</c", '>') < |Kept(body)|
  {
    var rest := "</c";
    var s := Kept(body) + rest;
    forall i | |Kept(body)| <= i < |s| ensures s[i] != '>' {
      assert s[i] == rest[i - |Kept(body)|];
    }
  }

  /** A well nested message that comes out longer than its limit: the second cut drops `</code>`, which then has to be
      added again behind the tag that was open already. */
  lemma CanExceedTheLimit(body: string, tail: string)
    requires Plain(body) && Plain(tail) && |tail| >= 9
    ensures var text, limit := Message(body, tail), 28 + |body|;
            && WellNested(text) && |Suffix()| < limit < |text|
            && Snippet(text, limit) == Kept(body) && |Capped(text, limit)| == limit + 4
  {
    hide Tidy, Closing, LastOf, Begun, Kept, Message, Nested, Show, Plain;
    var text, limit := Message(body, tail), 28 + |body|;
    MessageNested(body, tail);
    MessageLength(body, tail);
    Lengths(body);
    BegunChars(body);
    LastOfNone(Begun(body), '\n');
    TidyBegun(body);
    TidyShort(body);
    ClosingLengths(body);
    assert text[..16 + |body|] == Begun(body);
  }

  lemma MessageLength(body: string, tail: string)
    ensures |Message(body, tail)| == 20 + |body| + |tail|
  {
    Lengths(body);
    hide Show;
  }
}
