/** Telling a write from a read in SQL text. */
module SqlLexer {
  import opened Base
  import opened Text

  // Deciding whether a statement reads or writes: `_is_write_statement`, `_strip_leading_sql_noise` and
  // `_cte_is_write` of `db/database.py`, against a grammar of WITH statements.

  // ---------------------------------------------------------------- leading comments and blanks

  function StripNoise(sql: string): string
    decreases |sql|, 1
  {
    Denoise(LStrip(sql))
  }

  function Denoise(s: string): string
    decreases |s|, 0
  {
    if "--" <= s then
      var newline := Find(s, "\n", 0);
      if newline == |s| then "" else StripNoise(s[newline + 1..])
    else if "/*" <= s then
      var end := Find(s, "*/", 2);
      if end == |s| then s else StripNoise(s[end + 2..])
    else s
  }

  method StripLeadingSqlNoise(sql: string) returns (stripped: string)
    ensures stripped == StripNoise(sql)
  {
    stripped := LStrip(sql);
    while true
      invariant Denoise(stripped) == StripNoise(sql)
      decreases |stripped|
    {
      if "--" <= stripped {
        var newline := Find(stripped, "\n", 0);
        if newline == |stripped| {
          return "";
        }
        stripped := LStrip(stripped[newline + 1..]);
        continue;
      }
      if "/*" <= stripped {
        var end := Find(stripped, "*/", 2);
        if end == |stripped| {
          return stripped;
        }
        stripped := LStrip(stripped[end + 2..]);
        continue;
      }
      return stripped;
    }
  }

  datatype Noise = Blank(c: char) | LineNote(body: string) | BlockNote(body: string)

  /** The comment body does not contain the closing mark. */
  predicate Closed(body: string) {
    forall i: nat :: i < |body| ==> !Occurs("*/", body, i)
  }

  predicate NoiseOk(n: Noise) {
    match n
    case Blank(c) => IsSpace(c)
    case LineNote(body) => '\n' !in body
    case BlockNote(body) => Closed(body)
  }

  function PrintNoise(n: Noise): string {
    match n
    case Blank(c) => [c]
    case LineNote(body) => "--" + body + "\n"
    case BlockNote(body) => "/*" + body + "*/"
  }

  function PrintAllNoise(ns: seq<Noise>): string {
    if ns == [] then "" else PrintNoise(ns[0]) + PrintAllNoise(ns[1..])
  }

  lemma MarkAt(s: string, i: nat)
    ensures Occurs("*/", s, i) <==> i + 1 < |s| && s[i] == '*' && s[i + 1] == '/'
  {
    if i + 1 < |s| {
      assert s[i..i + 2] == [s[i], s[i + 1]];
    }
  }

  lemma LineNoteEnds(body: string, s: string)
    requires '\n' !in body
    ensures Find("--" + body + "\n" + s, "\n", 0) == 2 + |body|
  {
    var t := "--" + body + "\n" + s;
    forall i: nat | i < 2 + |body| ensures !Occurs("\n", t, i) {
      assert t[i] == if i < 2 then '-' else body[i - 2];
      assert t[i..i + 1][0] == t[i];
    }
    assert t[2 + |body|..2 + |body| + 1] == "\n";
    FindSkips(t, "\n", 0, 2 + |body|);
  }

  lemma BlockNoteEnds(body: string, s: string)
    requires Closed(body)
    ensures Find("/*" + body + "*/" + s, "*/", 2) == 2 + |body|
  {
    var t := "/*" + body + "*/" + s;
    forall i: nat | 2 <= i < 2 + |body| ensures !Occurs("*/", t, i) {
      MarkAt(t, i);
      MarkAt(body, i - 2);
    }
    MarkAt(t, 2 + |body|);
    FindSkips(t, "*/", 2, 2 + |body|);
  }

  lemma OneNoise(n: Noise, s: string)
    requires NoiseOk(n)
    ensures StripNoise(PrintNoise(n) + s) == StripNoise(s)
  {
    match n
    case Blank(c) => LStripSkips([c], s);
    case LineNote(body) => OneLineNote(body, s);
    case BlockNote(body) => OneBlockNote(body, s);
  }

  lemma OneLineNote(body: string, s: string)
    requires NoiseOk(LineNote(body))
    ensures StripNoise(PrintNoise(LineNote(body)) + s) == StripNoise(s)
  {
    var t := PrintNoise(LineNote(body)) + s;
    LineNoteEnds(body, s);
    assert t[..2] == "--" && LStrip(t) == t && t[2 + |body| + 1..] == s;
  }

  lemma OneBlockNote(body: string, s: string)
    requires NoiseOk(BlockNote(body))
    ensures StripNoise(PrintNoise(BlockNote(body)) + s) == StripNoise(s)
  {
    var t := PrintNoise(BlockNote(body)) + s;
    BlockNoteEnds(body, s);
    assert t[..2] == "/*" && LStrip(t) == t && t[2 + |body| + 2..] == s;
  }

  /** Any mix of blanks and closed comments in front of a statement is dropped. */
  lemma {:induction false} NoiseIsStripped(ns: seq<Noise>, s: string)
    requires forall i :: 0 <= i < |ns| ==> NoiseOk(ns[i])
    ensures StripNoise(PrintAllNoise(ns) + s) == StripNoise(s)
  {
    hide StripNoise, PrintNoise, NoiseOk;
    if ns == [] {
      assert PrintAllNoise(ns) + s == s;
    } else {
      OneNoise(ns[0], PrintAllNoise(ns[1..]) + s);
      NoiseIsStripped(ns[1..], s);
      assert PrintAllNoise(ns) + s == PrintNoise(ns[0]) + (PrintAllNoise(ns[1..]) + s);
    }
  }

  // ---------------------------------------------------------------- the scanner

  predicate IsQuote(c: char) {
    c == '\'' || c == '"' || c == '`'
  }

  /** What follows the string whose opening quote was just read. */
  function AfterQuoted(s: string, q: char): (r: string)
    ensures |r| <= |s|
  {
    if s == "" then ""
    else if s[0] == q then
      if |s| > 1 && s[1] == q then AfterQuoted(s[2..], q) else s[1..]
    else AfterQuoted(s[1..], q)
  }

  function AfterChar(s: string, c: char): (r: string)
    ensures |r| <= |s|
  {
    if s == "" then "" else if s[0] == c then s[1..] else AfterChar(s[1..], c)
  }

  function FromChar(s: string, c: char): (r: string)
    ensures |r| <= |s|
  {
    if s == "" || s[0] == c then s else FromChar(s[1..], c)
  }

  function AfterBlock(s: string): (r: string)
    ensures |r| <= |s|
  {
    if |s| < 2 then "" else if s[0] == '*' && s[1] == '/' then s[2..] else AfterBlock(s[1..])
  }

  predicate IsDml(keyword: string) {
    keyword == "INSERT" || keyword == "UPDATE" || keyword == "DELETE" || keyword == "REPLACE"
  }

  function Keyword(token: string): string {
    RStripChar(Upper(token), ';')
  }

  /** What follows the first quoted text, comment or plain character. */
  function AfterLexeme(s: string): (r: string)
    requires s != ""
    ensures |r| < |s|
  {
    if IsQuote(s[0]) then AfterQuoted(s[1..], s[0])
    else if s[0] == '[' then AfterChar(s[1..], ']')
    else if s[0] == '-' && |s| > 1 && s[1] == '-' then FromChar(s[2..], '\n')
    else if s[0] == '/' && |s| > 1 && s[1] == '*' then AfterBlock(s[2..])
    else s[1..]
  }

  /** The answer for the rest of the statement, `depth` parentheses deep. */
  function Scan(s: string, depth: int): bool
    decreases |s|
  {
    if s == "" then true
    else if s[0] == '(' then Scan(s[1..], depth + 1)
    else if s[0] == ')' && depth == 1 then
      var rest := LStrip(s[1..]);
      if "," <= rest then Scan(s[1..], 0) else IsDml(Keyword(FirstToken(rest)))
    else if s[0] == ')' then Scan(s[1..], depth - 1)
    else Scan(AfterLexeme(s), depth)
  }

  /** The text still to be read at index `i`, which a skipped comment may leave past the end. */
  function From(sql: string, i: nat): string {
    if i <= |sql| then sql[i..] else ""
  }

  method SkipQuotedText(sql: string, start: nat) returns (i: nat)
    requires start < |sql| && IsQuote(sql[start])
    ensures start < i && From(sql, i + 1) == AfterLexeme(From(sql, start))
  {
    var q := sql[start];
    i := start + 1;
    assert sql[start..][1..] == sql[i..];
    while i < |sql|
      invariant start < i <= |sql|
      invariant AfterQuoted(sql[i..], q) == AfterQuoted(sql[start + 1..], q)
    {
      assert sql[i..][1..] == sql[i + 1..];
      if sql[i] == q {
        if i + 1 < |sql| && sql[i + 1] == q {
          assert sql[i..][2..] == sql[i + 2..];
          i := i + 2;
          continue;
        }
        break;
      }
      i := i + 1;
    }
  }

  method SkipBracketedName(sql: string, start: nat) returns (i: nat)
    requires start < |sql| && sql[start] == '['
    ensures start <= i && From(sql, i + 1) == AfterLexeme(From(sql, start))
  {
    i := start;
    while i < |sql| && sql[i] != ']'
      invariant start <= i <= |sql|
      invariant AfterChar(sql[i..], ']') == AfterChar(sql[start..], ']')
    {
      assert sql[i..][1..] == sql[i + 1..];
      i := i + 1;
    }
    assert i < |sql| ==> sql[i..][1..] == sql[i + 1..];
  }

  method SkipLineComment(sql: string, start: nat) returns (i: nat)
    requires start + 1 < |sql| && sql[start] == '-' && sql[start + 1] == '-'
    ensures start < i && From(sql, i) == AfterLexeme(From(sql, start))
  {
    i := start;
    assert sql[start..][2..] == sql[start + 2..] && sql[start..][1..][1..] == sql[start + 2..];
    while i < |sql| && sql[i] != '\n'
      invariant start <= i <= |sql| && (i <= start + 1 ==> sql[i] != '\n')
      invariant FromChar(sql[i..], '\n') == FromChar(sql[start..], '\n')
    {
      assert sql[i..][1..] == sql[i + 1..];
      i := i + 1;
    }
  }

  method SkipBlockComment(sql: string, start: nat) returns (i: nat)
    requires start + 1 < |sql| && sql[start] == '/' && sql[start + 1] == '*'
    ensures start < i && From(sql, i) == AfterLexeme(From(sql, start))
  {
    i := start + 2;
    assert sql[start..][2..] == sql[i..];
    while i < |sql| - 1 && !(sql[i] == '*' && sql[i + 1] == '/')
      invariant start + 2 <= i <= |sql|
      invariant AfterBlock(sql[i..]) == AfterBlock(sql[start + 2..])
    {
      assert sql[i..][1..] == sql[i + 1..];
      i := i + 1;
    }
    assert i < |sql| - 1 ==> sql[i..][2..] == sql[i + 2..];
    i := i + 2;
  }

  predicate StartsComment(sql: string, i: nat) {
    i + 1 < |sql| && ((sql[i] == '-' && sql[i + 1] == '-') || (sql[i] == '/' && sql[i + 1] == '*'))
  }

  /** What the scan does at index `i`. */
  lemma ScanAt(sql: string, i: nat, depth: int)
    requires i < |sql|
    ensures From(sql, i) != ""
    ensures sql[i] == '(' ==> Scan(From(sql, i), depth) == Scan(From(sql, i + 1), depth + 1)
    ensures sql[i] == ')' && depth != 1 ==> Scan(From(sql, i), depth) == Scan(From(sql, i + 1), depth - 1)
    ensures sql[i] == ')' && depth == 1 ==>
              Scan(From(sql, i), depth) ==
              var rest := LStrip(sql[i + 1..]);
              if "," <= rest then Scan(From(sql, i + 1), 0) else IsDml(Keyword(FirstToken(rest)))
    ensures sql[i] != '(' && sql[i] != ')' ==> Scan(From(sql, i), depth) == Scan(AfterLexeme(From(sql, i)), depth)
    ensures IsQuote(sql[i]) ==> sql[i] != '(' && sql[i] != ')'
    ensures !IsQuote(sql[i]) && sql[i] != '[' && !StartsComment(sql, i) ==>
            AfterLexeme(From(sql, i)) == From(sql, i + 1)
  {
    var s := From(sql, i);
    assert s[0] == sql[i] && s[1..] == From(sql, i + 1) == sql[i + 1..];
    assert |s| > 1 ==> s[1] == sql[i + 1];
    hide LStrip, Keyword, FirstToken, AfterQuoted, AfterChar, FromChar, AfterBlock;
  }

  /** Past one quoted text, bracketed name, comment or plain character. */
  method SkipLexeme(sql: string, start: nat) returns (i: nat)
    requires start < |sql|
    ensures start < i && From(sql, i) == AfterLexeme(From(sql, start))
  {
    ScanAt(sql, start, 0);
    hide AfterLexeme, From, Scan, LStrip, Keyword, FirstToken;
    i := start;
    var c := sql[i];
    if IsQuote(c) {
      i := SkipQuotedText(sql, i);
    } else if c == '[' {
      i := SkipBracketedName(sql, i);
    } else if c == '-' && i + 1 < |sql| && sql[i + 1] == '-' {
      i := SkipLineComment(sql, i);
      return;
    } else if c == '/' && i + 1 < |sql| && sql[i + 1] == '*' {
      i := SkipBlockComment(sql, i);
      return;
    }
    i := i + 1;
  }

  /** The scanning loop: an index, a depth, and inner loops over quoted text and comments. */
  method CteIsWrite(sql: string) returns (write: bool)
    ensures write == Scan(sql, 0)
  {
    var depth := 0;
    var i := 0;
    ScanEnds(sql);
    hide *;
    while i < |sql|
      invariant 0 <= i
      invariant Scan(From(sql, i), depth) == Scan(sql, 0)
      decreases |sql| - i
    {
      ScanAt(sql, i, depth);
      if sql[i] == '(' {
        depth := depth + 1;
        i := i + 1;
      } else if sql[i] == ')' {
        depth := depth - 1;
        if depth == 0 {
          var rest := LStrip(sql[i + 1..]);
          if !("," <= rest) {
            return IsDml(Keyword(FirstToken(rest)));
          }
        }
        i := i + 1;
      } else {
        i := SkipLexeme(sql, i);
      }
    }
    return true;
  }

  lemma ScanEnds(sql: string)
    ensures From(sql, 0) == sql
    ensures forall i, depth :: i >= |sql| ==> Scan(From(sql, i), depth)
  {
  }

  // ---------------------------------------------------------------- the grammar

  /** A WITH statement's text between parentheses: plain characters, quoted text with doubled quotes,
      bracketed names, comments, and nested groups. */
  datatype Item =
    | Plain(c: char)
    | Quoted(q: char, body: string)
    | Bracketed(body: string)
    | LineComment(body: string)
    | BlockComment(body: string)
    | Group(items: seq<Item>)

  function Doubled(body: string, q: char): string {
    if body == "" then "" else (if body[0] == q then [q, q] else [body[0]]) + Doubled(body[1..], q)
  }

  function Print(x: Item): string
    decreases x, 0
  {
    match x
    case Plain(c) => [c]
    case Quoted(q, body) => [q] + (Doubled(body, q) + [q])
    case Bracketed(body) => "[" + (body + "]")
    case LineComment(body) => "--" + body
    case BlockComment(body) => "/*" + (body + "*/")
    case Group(items) => "(" + (PrintAll(items) + ")")
  }

  function PrintAll(xs: seq<Item>): string
    decreases xs, 1
  {
    if xs == [] then "" else Print(xs[0]) + PrintAll(xs[1..])
  }

  predicate StartsWith(s: string, c: char) {
    s != "" && s[0] == c
  }

  /** `x` is what SQL reads at this place when `after` is the text that follows it. */
  predicate Lexes(x: Item, after: string)
    decreases x, 0
  {
    match x
    case Plain(c) =>
      !IsQuote(c) && c !in "[()" && !(c == '-' && StartsWith(after, '-')) && !(c == '/' && StartsWith(after, '*'))
    case Quoted(q, body) => IsQuote(q) && !StartsWith(after, q)
    case Bracketed(body) => ']' !in body
    case LineComment(body) => '\n' !in body && StartsWith(after, '\n')
    case BlockComment(body) => Closed(body)
    case Group(items) => LexesAll(items, ")" + after)
  }

  predicate LexesAll(xs: seq<Item>, after: string)
    decreases xs, 1
  {
    xs == [] || (Lexes(xs[0], PrintAll(xs[1..]) + after) && LexesAll(xs[1..], after))
  }

  lemma {:induction false} SkipQuoted(body: string, q: char, after: string)
    requires !StartsWith(after, q)
    ensures AfterQuoted(Doubled(body, q) + ([q] + after), q) == after
  {
    if body == "" {
      assert Doubled(body, q) + ([q] + after) == [q] + after;
    } else {
      SkipQuoted(body[1..], q, after);
      var rest := Doubled(body[1..], q) + ([q] + after);
      if body[0] == q {
        assert Doubled(body, q) + ([q] + after) == [q, q] + rest;
        assert ([q, q] + rest)[2..] == rest;
      } else {
        assert Doubled(body, q) + ([q] + after) == [body[0]] + rest;
        assert ([body[0]] + rest)[1..] == rest;
      }
    }
  }

  lemma {:induction false} SkipToChar(body: string, c: char, after: string)
    requires c !in body
    ensures AfterChar(body + ([c] + after), c) == after
    ensures FromChar(body + ([c] + after), c) == [c] + after
  {
    if body == "" {
      assert body + ([c] + after) == [c] + after;
    } else {
      assert (body + ([c] + after))[1..] == body[1..] + ([c] + after);
      SkipToChar(body[1..], c, after);
    }
  }

  lemma {:induction false} SkipBlock(body: string, after: string)
    requires Closed(body)
    ensures AfterBlock(body + ("*/" + after)) == after
  {
    var s := body + ("*/" + after);
    if body == "" {
      assert s == "*/" + after && s[2..] == after;
    } else {
      assert s[1..] == body[1..] + ("*/" + after);
      forall i: nat | i < |body[1..]| ensures !Occurs("*/", body[1..], i) {
        MarkAt(body[1..], i);
        MarkAt(body, i + 1);
      }
      SkipBlock(body[1..], after);
      MarkAt(body, 0);
    }
  }

  lemma LexemeSkipped(x: Item, after: string)
    requires Lexes(x, after) && !x.Group?
    ensures var s := Print(x) + after; s != "" && s[0] !in "()" && AfterLexeme(s) == after
  {
    hide AfterQuoted, AfterChar, FromChar, AfterBlock, Doubled, PrintAll, LexesAll, Closed;
    var s := Print(x) + after;
    match x
    case Plain(c) =>
      assert s[1..] == after;
    case Quoted(q, body) =>
      assert s[1..] == Doubled(body, q) + ([q] + after);
      SkipQuoted(body, q, after);
    case Bracketed(body) =>
      assert s[1..] == body + ([']'] + after);
      SkipToChar(body, ']', after);
    case LineComment(body) =>
      assert after == ['\n'] + after[1..];
      assert s[2..] == body + (['\n'] + after[1..]);
      SkipToChar(body, '\n', after[1..]);
    case BlockComment(body) =>
      assert s[2..] == body + ("*/" + after);
      SkipBlock(body, after);
  }

  /** Reading one item leaves the depth where it was, as long as it cannot close the outermost group. */
  lemma {:induction false} ScanItem(x: Item, after: string, depth: int)
    requires Lexes(x, after) && (depth >= 1 || (depth == 0 && !x.Group?))
    ensures Scan(Print(x) + after, depth) == Scan(after, depth)
    decreases x, 0
  {
    hide AfterLexeme, LStrip, Keyword;
    if x.Group? {
      assert (Print(x) + after)[1..] == PrintAll(x.items) + (")" + after);
      ScanItems(x.items, ")" + after, depth + 1);
      assert (")" + after)[1..] == after;
    } else {
      LexemeSkipped(x, after);
    }
  }

  lemma {:induction false} ScanItems(xs: seq<Item>, after: string, depth: int)
    requires LexesAll(xs, after) && (depth >= 1 || (depth == 0 && forall i :: 0 <= i < |xs| ==> !xs[i].Group?))
    ensures Scan(PrintAll(xs) + after, depth) == Scan(after, depth)
    decreases xs, 1
  {
    hide Scan;
    if xs == [] {
      assert PrintAll(xs) + after == after;
    } else {
      ScanItem(xs[0], PrintAll(xs[1..]) + after, depth);
      ScanItems(xs[1..], after, depth);
      assert PrintAll(xs) + after == Print(xs[0]) + (PrintAll(xs[1..]) + after);
    }
  }

  predicate Letters(s: string) {
    s != "" && forall i :: 0 <= i < |s| ==> 'A' <= s[i] <= 'Z' || 'a' <= s[i] <= 'z'
  }

  /** What SQLite lets an identifier or a keyword go on with. */
  predicate WordChar(c: char) {
    'A' <= c <= 'Z' || 'a' <= c <= 'z' || '0' <= c <= '9' || c == '_' || c == '$' || c as int >= 0x80
  }

  /** A keyword in front of `rest` ends where it does. */
  predicate Ends(rest: string) {
    rest == "" || !WordChar(rest[0])
  }

  /** `(list) gap AS rest`, between a CTE's name and its body. */
  datatype Columns = Columns(list: seq<Item>, gap: seq<Item>, keyword: string, rest: seq<Item>)

  /** `name AS (body)`, or `name (columns) AS (body)`; blanks and comments follow the body. */
  datatype Cte = Cte(head: seq<Item>, columns: Option<Columns>, body: seq<Item>, gap: seq<Item>)

  /** `word` is the keyword of the main statement and `tail` all that follows it. */
  datatype WithStatement = WithStatement(ctes: seq<Cte>, word: string, tail: string)

  function PrintBody(body: seq<Item>, after: string): string {
    "(" + (PrintAll(body) + (")" + after))
  }

  function PrintColumns(k: Columns, after: string): string {
    PrintBody(k.list, PrintAll(k.gap) + (k.keyword + (PrintAll(k.rest) + after)))
  }

  function PrintCte(c: Cte, after: string): string {
    var body := PrintBody(c.body, PrintAll(c.gap) + after);
    PrintAll(c.head) + (if c.columns.Some? then PrintColumns(c.columns.value, body) else body)
  }

  function PrintCtes(ctes: seq<Cte>, main: string): string
    requires ctes != []
  {
    PrintCte(ctes[0], if |ctes| == 1 then main else "," + PrintCtes(ctes[1..], main))
  }

  predicate NoGroup(xs: seq<Item>) {
    forall i :: 0 <= i < |xs| ==> !xs[i].Group?
  }

  /** Blanks and comments. */
  predicate IsGap(xs: seq<Item>) {
    forall i :: 0 <= i < |xs| ==> (xs[i].Plain? && IsSpace(xs[i].c)) || xs[i].LineComment? || xs[i].BlockComment?
  }

  predicate ColumnsOk(k: Columns, after: string) {
    && LexesAll(k.list, ")" + (PrintAll(k.gap) + (k.keyword + (PrintAll(k.rest) + after))))
    && IsGap(k.gap) && LexesAll(k.gap, k.keyword + (PrintAll(k.rest) + after))
    && Letters(k.keyword) && Upper(k.keyword) == "AS"
    && NoGroup(k.rest) && LexesAll(k.rest, after) && Ends(PrintAll(k.rest) + after)
  }

  predicate CteOk(c: Cte, after: string) {
    var body := PrintBody(c.body, PrintAll(c.gap) + after);
    && NoGroup(c.head)
    && LexesAll(c.head, if c.columns.Some? then PrintColumns(c.columns.value, body) else body)
    && (c.columns.Some? ==> ColumnsOk(c.columns.value, body))
    && LexesAll(c.body, ")" + (PrintAll(c.gap) + after))
    && IsGap(c.gap) && LexesAll(c.gap, after)
  }

  predicate CtesOk(ctes: seq<Cte>, main: string)
    requires ctes != []
  {
    && CteOk(ctes[0], if |ctes| == 1 then main else "," + PrintCtes(ctes[1..], main))
    && (|ctes| == 1 || CtesOk(ctes[1..], main))
  }

  function PrintWith(w: WithStatement): string
    requires w.ctes != []
  {
    PrintCtes(w.ctes, w.word + w.tail)
  }

  predicate WithOk(w: WithStatement) {
    w.ctes != [] && CtesOk(w.ctes, w.word + w.tail) && Letters(w.word) && Ends(w.tail)
  }

  // ---------------------------------------------------------------- when the scan reads the keyword

  /** No column list, and only blanks behind the body. */
  predicate Bare(c: Cte) {
    c.columns == None && forall i :: 0 <= i < |c.gap| ==> c.gap[i].Plain?
  }

  predicate AllBare(ctes: seq<Cte>) {
    forall i :: 0 <= i < |ctes| ==> Bare(ctes[i])
  }

  /** Behind the keyword come semicolons, if anything, and then a blank or the end. */
  predicate StandsAlone(tail: string) {
    forall i :: 0 <= i < TokenLength(tail) ==> tail[i] == ';'
  }

  /** Text in one pair of parentheses brings the scanner to the parenthesis that closes it. */
  lemma ScanBody(body: seq<Item>, after: string)
    requires LexesAll(body, ")" + after)
    ensures Scan(PrintBody(body, after), 0) == Scan(")" + after, 1)
  {
    hide AfterLexeme, LStrip, Keyword;
    var inner := PrintAll(body) + (")" + after);
    assert PrintBody(body, after)[1..] == inner;
    ScanItems(body, ")" + after, 1);
  }

  lemma ScanHead(head: seq<Item>, body: seq<Item>, after: string)
    requires NoGroup(head) && LexesAll(head, PrintBody(body, after)) && LexesAll(body, ")" + after)
    ensures Scan(PrintAll(head) + PrintBody(body, after), 0) == Scan(")" + after, 1)
  {
    hide Scan;
    ScanItems(head, PrintBody(body, after), 0);
    ScanBody(body, after);
  }

  lemma ScanAtClose(after: string)
    ensures var rest := LStrip(after);
            Scan(")" + after, 1) == if "," <= rest then Scan(after, 0) else IsDml(Keyword(FirstToken(rest)))
  {
    assert (")" + after)[1..] == after;
    hide LStrip, Keyword, FirstToken;
  }

  lemma {:induction false} RStripCharPrefix(s: string, c: char)
    ensures RStripChar(s, c) <= s
    ensures s != "" && s[0] != c ==> RStripChar(s, c) != ""
  {
    if s != "" && s[|s| - 1] == c {
      RStripCharPrefix(s[..|s| - 1], c);
    }
  }

  lemma NoDmlToken(token: string)
    requires token != "" && token[0] in "/-Aa"
    ensures !IsDml(Keyword(token))
  {
    RStripCharPrefix(Upper(token), ';');
    UpperFirst(token);
    hide Upper, RStripChar;
  }

  /** A token that starts with a comment or with AS is no DML keyword. */
  lemma NoKeywordThere(after: string)
    requires LStrip(after) != "" && LStrip(after)[0] in "/-Aa"
    ensures !Scan(")" + after, 1)
  {
    var rest := LStrip(after);
    ScanAtClose(after);
    hide Scan, LStrip, Keyword, IsDml;
    assert FirstToken(rest) != "" && FirstToken(rest)[0] == rest[0];
    NoDmlToken(FirstToken(rest));
  }

  /** What the scanner meets first behind a gap. */
  lemma {:induction false} GapBegins(gap: seq<Item>, after: string)
    requires IsGap(gap)
    ensures var rest := LStrip(PrintAll(gap) + after);
            if forall i :: 0 <= i < |gap| ==> gap[i].Plain? then rest == LStrip(after)
            else rest != "" && rest[0] in "/-"
  {
    if gap == [] {
      assert PrintAll(gap) + after == after;
    } else {
      var s := PrintAll(gap) + after;
      assert s == Print(gap[0]) + (PrintAll(gap[1..]) + after);
      if gap[0].Plain? {
        assert s[1..] == PrintAll(gap[1..]) + after;
        GapBegins(gap[1..], after);
        assert (forall i :: 0 <= i < |gap| ==> gap[i].Plain?)
               <==> (forall i :: 0 <= i < |gap[1..]| ==> gap[1..][i].Plain?)
          by { PlainTail(gap); }
      } else {
        assert s[0] in "/-" && !IsSpace(s[0]);
      }
    }
  }

  lemma PlainTail(gap: seq<Item>)
    requires gap != [] && gap[0].Plain?
    ensures (forall i :: 0 <= i < |gap| ==> gap[i].Plain?) <==> (forall i :: 0 <= i < |gap[1..]| ==> gap[1..][i].Plain?)
  {
    if forall i :: 0 <= i < |gap[1..]| ==> gap[1..][i].Plain? {
      forall i | 0 <= i < |gap| ensures gap[i].Plain? {
        if i > 0 {
          assert gap[1..][i - 1].Plain?;
        }
      }
    }
  }

  lemma AsBegins(keyword: string, rest: string)
    requires Letters(keyword) && Upper(keyword) == "AS"
    ensures LStrip(keyword + rest) == keyword + rest && (keyword + rest)[0] in "Aa"
  {
    assert UpperChar(keyword[0]) == Upper(keyword)[0] == 'A' && |Upper(keyword)| == |keyword|;
  }

  /** A column list is taken for the body, and AS for the main keyword. */
  lemma ColumnListHidesWrite(c: Cte, after: string)
    requires CteOk(c, after) && c.columns.Some?
    ensures !Scan(PrintCte(c, after), 0)
  {
    hide Scan, LexesAll, PrintAll, Upper, LStrip;
    var body := PrintBody(c.body, PrintAll(c.gap) + after);
    var k := c.columns.value;
    var next := k.keyword + (PrintAll(k.rest) + body);
    ScanHead(c.head, k.list, PrintAll(k.gap) + next);
    GapBegins(k.gap, next);
    AsBegins(k.keyword, PrintAll(k.rest) + body);
    NoKeywordThere(PrintAll(k.gap) + next);
  }

  /** A comment behind the body is taken for the main keyword. */
  lemma CommentHidesWrite(c: Cte, after: string)
    requires CteOk(c, after) && c.columns.None? && !Bare(c)
    ensures !Scan(PrintCte(c, after), 0)
  {
    hide Scan, LexesAll, PrintAll, LStrip;
    ScanHead(c.head, c.body, PrintAll(c.gap) + after);
    GapBegins(c.gap, after);
    NoKeywordThere(PrintAll(c.gap) + after);
  }

  lemma GapIsBlank(gap: seq<Item>)
    requires IsGap(gap) && forall i :: 0 <= i < |gap| ==> gap[i].Plain?
    ensures AllSpace(PrintAll(gap))
  {
    if gap != [] {
      GapIsBlank(gap[1..]);
    }
  }

  lemma ScanComma(gap: string, next: string)
    requires AllSpace(gap)
    ensures Scan(")" + (gap + ("," + next)), 1) == Scan(next, 0)
  {
    hide Keyword;
    var s := ")" + (gap + ("," + next));
    assert s[1..] == gap + ("," + next);
    LStripSkips(gap, "," + next);
    assert LStrip("," + next) == "," + next;
    SkipGap(gap, "," + next);
    assert ("," + next)[1..] == next;
  }

  lemma {:induction false} SkipGap(gap: string, next: string)
    requires AllSpace(gap)
    ensures Scan(gap + next, 0) == Scan(next, 0)
  {
    if gap == "" {
      assert gap + next == next;
    } else {
      assert (gap + next)[1..] == gap[1..] + next;
      SkipGap(gap[1..], next);
    }
  }

  lemma {:induction false} TokenGrows(word: string, tail: string)
    requires forall i :: 0 <= i < |word| ==> !IsSpace(word[i])
    ensures TokenLength(word + tail) == |word| + TokenLength(tail)
  {
    hide IsSpace;
    if word == "" {
      assert word + tail == tail;
    } else {
      assert (word + tail)[1..] == word[1..] + tail && (word + tail)[0] == word[0];
      TokenGrows(word[1..], tail);
    }
  }

  /** The token that starts with a keyword is the keyword and what is glued to it. */
  lemma GluedToken(word: string, tail: string)
    requires Letters(word)
    ensures FirstToken(word + tail) == word + FirstToken(tail)
  {
    TokenGrows(word, tail);
    hide TokenLength, IsSpace, Letters;
  }

  lemma {:induction false} DropSemicolons(word: string, glue: string)
    requires word != "" && word[|word| - 1] != ';'
    ensures word <= RStripChar(word + glue, ';')
    ensures (forall i :: 0 <= i < |glue| ==> glue[i] == ';') <==> RStripChar(word + glue, ';') == word
    decreases |glue|
  {
    if glue == "" {
      assert word + glue == word;
    } else {
      var n := |glue| - 1;
      assert (word + glue)[..|word + glue| - 1] == word + glue[..n];
      if glue[n] == ';' {
        DropSemicolons(word, glue[..n]);
        assert forall i :: 0 <= i < n ==> glue[i] == glue[..n][i];
      } else {
        assert RStripChar(word + glue, ';') == word + glue;
      }
    }
  }

  lemma UpperConcat(a: string, b: string)
    ensures Upper(a + b) == Upper(a) + Upper(b)
    ensures |Upper(b)| == |b| && forall i :: 0 <= i < |b| ==> (Upper(b)[i] == ';' <==> b[i] == ';')
  {
  }

  lemma UpperLetters(word: string)
    requires Letters(word)
    ensures |Upper(word)| == |word| && Letters(Upper(word)) && Upper(word)[|word| - 1] != ';'
  {
  }

  lemma NoLetter(k: string, n: nat, c: char)
    requires n < |k| && k[n] == UpperChar(c) && !WordChar(c)
    ensures !Letters(k)
  {
  }

  lemma TokenGlue(tail: string)
    ensures |FirstToken(tail)| == TokenLength(tail)
    ensures forall i :: 0 <= i < TokenLength(tail) ==> FirstToken(tail)[i] == tail[i]
  {
    hide TokenLength;
  }

  /** The keyword the scanner reads is the real one when that stands alone, and no word of letters otherwise. */
  lemma KeywordRead(word: string, tail: string)
    requires Letters(word) && Ends(tail)
    ensures var k := Keyword(FirstToken(word + tail));
            if StandsAlone(tail) then k == Upper(word) else !Letters(k)
  {
    hide Letters, Upper, WordChar, RStripChar, TokenLength, FirstToken;
    var glue := FirstToken(tail);
    var a, b := Upper(word), Upper(glue);
    GluedToken(word, tail);
    TokenGlue(tail);
    UpperConcat(word, glue);
    UpperLetters(word);
    DropSemicolons(a, b);
    if !StandsAlone(tail) {
      RStripCharPrefix(a + b, ';');
      var k := RStripChar(a + b, ';');
      assert |k| > |a| by {
        assert k != a;
      }
      assert k[|a|] == (a + b)[|a|] == b[0];
      assert Upper(glue)[0] == UpperChar(glue[0]) by { UpperFirst(glue); }
      NoLetter(k, |a|, tail[0]);
    }
  }

  lemma UpperFirst(s: string)
    requires s != ""
    ensures Upper(s) != "" && Upper(s)[0] == UpperChar(s[0])
  {
  }

  lemma DmlIsLetters(keyword: string)
    requires IsDml(keyword)
    ensures Letters(keyword)
  {
  }

  lemma ScanMain(gap: string, word: string, tail: string)
    requires AllSpace(gap) && Letters(word) && Ends(tail)
    ensures Scan(")" + (gap + (word + tail)), 1) <==> IsDml(Upper(word)) && StandsAlone(tail)
  {
    ScanAtClose(gap + (word + tail));
    LStripSkips(gap, word + tail);
    assert (word + tail)[0] == word[0] && !IsSpace(word[0]) && word[0] != ',';
    assert LStrip(word + tail) == word + tail;
    hide Scan, LStrip, Keyword, StandsAlone, Upper, FirstToken, IsDml;
    KeywordRead(word, tail);
    if IsDml(Keyword(FirstToken(word + tail))) {
      DmlIsLetters(Keyword(FirstToken(word + tail)));
    }
  }

  /** For every WITH statement: the scanner answers "write" exactly when the main keyword is a DML keyword, no CTE has a
      column list or a comment behind its body, and the keyword stands alone. */
  lemma {:induction false} ScanCtes(ctes: seq<Cte>, word: string, tail: string)
    requires WithOk(WithStatement(ctes, word, tail))
    ensures Scan(PrintCtes(ctes, word + tail), 0) <==> IsDml(Upper(word)) && AllBare(ctes) && StandsAlone(tail)
    decreases |ctes|
  {
    hide Scan, Upper, LexesAll, IsDml, StandsAlone, Letters, Ends, PrintAll;
    var c := ctes[0];
    var next := if |ctes| == 1 then word + tail else "," + PrintCtes(ctes[1..], word + tail);
    if c.columns.Some? {
      ColumnListHidesWrite(c, next);
    } else if !Bare(c) {
      CommentHidesWrite(c, next);
    } else {
      ScanHead(c.head, c.body, PrintAll(c.gap) + next);
      GapIsBlank(c.gap);
      if |ctes| == 1 {
        ScanMain(PrintAll(c.gap), word, tail);
      } else {
        ScanComma(PrintAll(c.gap), PrintCtes(ctes[1..], word + tail));
        ScanCtes(ctes[1..], word, tail);
        assert AllBare(ctes) <==> AllBare(ctes[1..]) by { BareTail(ctes); }
      }
    }
  }

  lemma BareTail(ctes: seq<Cte>)
    requires ctes != [] && Bare(ctes[0])
    ensures AllBare(ctes) <==> AllBare(ctes[1..])
  {
    hide Bare;
    if AllBare(ctes[1..]) {
      forall i | 0 <= i < |ctes| ensures Bare(ctes[i]) {
        if i > 0 {
          assert Bare(ctes[1..][i - 1]);
        }
      }
    }
  }

  // ---------------------------------------------------------------- the whole decision

  function LowerChar(c: char): char {
    if 'A' <= c <= 'Z' then c - 'A' + 'a' else if c == '\U{212A}' then 'k' else c
  }

  function Lower(s: string): string {
    if s == "" then "" else [LowerChar(s[0])] + Lower(s[1..])
  }

  function Before(s: string, c: char): string {
    if s == "" || s[0] == c then "" else [s[0]] + Before(s[1..], c)
  }

  function PragmaMutates(sql: string): bool {
    var body := Strip(sql[TokenLength(sql)..]);
    var name := Lower(Strip(Before(Before(body, '('), ';')));
    '=' in body ||
    FirstToken(name) in {"application_id", "auto_vacuum", "busy_timeout", "foreign_keys", "incremental_vacuum",
                         "journal_mode", "locking_mode", "optimize", "synchronous", "user_version", "vacuum",
                         "wal_checkpoint"}
  }

  function IsWriteStatement(sql: string): bool {
    var stripped := StripNoise(sql);
    if stripped == "" then false
    else
      var first := Upper(RStripChar(FirstToken(stripped), ';'));
      if first == "SELECT" || first == "EXPLAIN" then false
      else if first == "PRAGMA" then PragmaMutates(stripped)
      else if first == "WITH" then Scan(stripped, 0)
      else true
  }

  lemma {:induction false} UpperRStrip(t: string)
    ensures Upper(RStripChar(t, ';')) == RStripChar(Upper(t), ';')
    decreases |t|
  {
    if t != "" {
      var n := |t| - 1;
      assert Upper(t)[n] == ';' <==> t[n] == ';';
      assert Upper(t)[..n] == Upper(t[..n]);
      UpperRStrip(t[..n]);
    }
  }

  lemma WordBegins(word: string, tail: string)
    requires Letters(word)
    ensures word + tail != "" && StripNoise(word + tail) == word + tail
  {
    assert (word + tail)[0] == word[0];
  }

  function ByKeyword(keyword: string, sql: string): bool {
    if keyword == "SELECT" || keyword == "EXPLAIN" then false
    else if keyword == "PRAGMA" then PragmaMutates(sql)
    else if keyword == "WITH" then Scan(sql, 0)
    else true
  }

  lemma DecidedByKeyword(sql: string)
    ensures IsWriteStatement(sql) <==>
            StripNoise(sql) != "" && ByKeyword(Keyword(FirstToken(StripNoise(sql))), StripNoise(sql))
  {
    hide Scan, PragmaMutates, StripNoise, Upper, RStripChar, FirstToken;
    UpperRStrip(FirstToken(StripNoise(sql)));
  }

  lemma NoKeywordOfLetters(keyword: string, sql: string)
    requires !Letters(keyword)
    ensures ByKeyword(keyword, sql)
  {
    assert Letters("SELECT") && Letters("EXPLAIN") && Letters("PRAGMA") && Letters("WITH");
  }

  /** Behind any noise the decision goes by the first keyword, if that stands alone; otherwise it is "write". */
  lemma FirstKeyword(ns: seq<Noise>, word: string, tail: string)
    requires forall i :: 0 <= i < |ns| ==> NoiseOk(ns[i])
    requires Letters(word) && Ends(tail)
    ensures IsWriteStatement(PrintAllNoise(ns) + (word + tail)) <==>
            !StandsAlone(tail) || ByKeyword(Upper(word), word + tail)
  {
    hide *;
    WordBegins(word, tail);
    NoiseIsStripped(ns, word + tail);
    DecidedByKeyword(PrintAllNoise(ns) + (word + tail));
    KeywordRead(word, tail);
    if !StandsAlone(tail) {
      NoKeywordOfLetters(Keyword(FirstToken(word + tail)), word + tail);
    }
  }

  /** A statement that is no WITH and no PRAGMA is a read exactly when it is a SELECT or EXPLAIN whose keyword stands
      alone. */
  lemma PlainStatementDecided(ns: seq<Noise>, word: string, tail: string)
    requires forall i :: 0 <= i < |ns| ==> NoiseOk(ns[i])
    requires Letters(word) && Ends(tail) && Upper(word) != "WITH" && Upper(word) != "PRAGMA"
    ensures IsWriteStatement(PrintAllNoise(ns) + (word + tail)) <==>
            !(Upper(word) in {"SELECT", "EXPLAIN"} && StandsAlone(tail))
  {
    hide IsWriteStatement, Letters, Ends, Upper, StandsAlone, PragmaMutates, Scan;
    FirstKeyword(ns, word, tail);
  }

  /** The answer agrees with the main keyword. */
  predicate AnswersRight(sql: string, word: string) {
    IsWriteStatement(sql) <==> IsDml(Upper(word))
  }

  /** For every WITH statement, behind any blanks and closed comments: when it counts as a write, and when that is the
      right answer. A write is missed exactly when some CTE has a column list or a comment behind its body, or something
      is glued to the main keyword, unless something is glued to WITH; then every statement counts as a write. */
  lemma WithStatementDecided(ns: seq<Noise>, w: WithStatement, with: string, more: string)
    requires forall i :: 0 <= i < |ns| ==> NoiseOk(ns[i])
    requires WithOk(w) && PrintWith(w) == with + more
    requires Letters(with) && Upper(with) == "WITH" && Ends(more)
    ensures var sql := PrintAllNoise(ns) + PrintWith(w);
            && (IsWriteStatement(sql) <==>
                  !StandsAlone(more) || (IsDml(Upper(w.word)) && AllBare(w.ctes) && StandsAlone(w.tail)))
            && (AnswersRight(sql, w.word) <==>
                  if IsDml(Upper(w.word)) then !StandsAlone(more) || (AllBare(w.ctes) && StandsAlone(w.tail))
                  else StandsAlone(more))
  {
    hide IsWriteStatement, WithOk, Letters, Ends, Upper, StandsAlone, PragmaMutates, Scan, AllBare, IsDml;
    FirstKeyword(ns, with, more);
    WithIsScanned(w);
  }

  lemma WithIsScanned(w: WithStatement)
    requires WithOk(w)
    ensures Scan(PrintWith(w), 0) <==> IsDml(Upper(w.word)) && AllBare(w.ctes) && StandsAlone(w.tail)
  {
    ScanCtes(w.ctes, w.word, w.tail);
    hide Scan, IsDml, Upper, AllBare, StandsAlone, CtesOk;
  }

  // ---------------------------------------------------------------- writes that are missed

  function Plains(s: string): seq<Item> {
    if s == "" then [] else [Plain(s[0])] + Plains(s[1..])
  }

  lemma {:induction false} PlainsRead(s: string, after: string)
    requires forall i :: 0 <= i < |s| ==> s[i] == ' ' || WordChar(s[i])
    ensures PrintAll(Plains(s)) == s && LexesAll(Plains(s), after) && NoGroup(Plains(s))
  {
    if s != "" {
      PlainsRead(s[1..], after);
      assert Print(Plain(s[0])) == [s[0]];
    }
  }

  lemma CommentReads(comment: string, after: string)
    requires Closed(comment)
    ensures var gap := [BlockComment(comment)];
            PrintAll(gap) == "/*" + comment + "*/" && IsGap(gap) && LexesAll(gap, after) && !gap[0].Plain?
  {
    var gap := [BlockComment(comment)];
    assert gap[1..] == [] && PrintAll([]) == "" && LexesAll([], after);
    assert PrintAll(gap) == Print(gap[0]) + PrintAll(gap[1..]) == Print(gap[0]);
  }

  /** `head (body) main`, where the body is plain words and a blank or a comment stands behind it. */
  function Simple(head: string, body: string, comment: Option<string>): Cte {
    Cte(Plains(head), None, Plains(body), if comment.Some? then [BlockComment(comment.value)] else [])
  }

  predicate Words(s: string) {
    forall i :: 0 <= i < |s| ==> s[i] == ' ' || WordChar(s[i])
  }

  lemma SimpleReads(head: string, body: string, comment: Option<string>, after: string)
    requires Words(head) && Words(body) && (comment.Some? ==> Closed(comment.value))
    ensures var c := Simple(head, body, comment);
            var gap := if comment.Some? then "/*" + comment.value + "*/" else "";
            && CteOk(c, after) && PrintCte(c, after) == head + ("(" + (body + (")" + (gap + after))))
            && (Bare(c) <==> comment.None?)
  {
    var c := Simple(head, body, comment);
    if comment.Some? {
      CommentReads(comment.value, after);
    } else {
      assert PrintAll([]) == "" && LexesAll([], after);
    }
    hide Plains, PrintAll, LexesAll;
    var rest := ")" + (PrintAll(c.gap) + after);
    PlainsRead(body, rest);
    PlainsRead(head, PrintBody(c.body, PrintAll(c.gap) + after));
  }

  lemma BlankStandsAlone(tail: string)
    requires tail != "" && IsSpace(tail[0])
    ensures StandsAlone(tail)
  {
  }

  lemma OneCte(c: Cte, word: string, tail: string)
    requires CteOk(c, word + tail) && Letters(word) && Ends(tail)
    ensures WithOk(WithStatement([c], word, tail))
            && PrintWith(WithStatement([c], word, tail)) == PrintCte(c, word + tail)
    ensures AllBare([c]) <==> Bare(c)
  {
    hide CteOk, PrintCte, Bare, Letters, Ends;
    assert [c][0] == c;
  }

  lemma WithBlank(rest: string)
    ensures Letters("WITH") && Upper("WITH") == "WITH" && Ends(" " + rest) && StandsAlone(" " + rest)
  {
    BlankStandsAlone(" " + rest);
  }

  lemma NoNoise(sql: string)
    ensures PrintAllNoise([]) + sql == sql
  {
  }

  /** What stands between a simple body and the main keyword. */
  function Behind(comment: Option<string>, main: string): string {
    (if comment.Some? then "/*" + comment.value + "*/" else "") + main
  }

  /** `WITH name (body) main`, with a comment behind the body if there is one. */
  function SimpleText(name: string, body: string, comment: Option<string>, main: string): string {
    ("WITH" + (" " + name)) + ("(" + (body + (")" + Behind(comment, main))))
  }

  lemma BehindIs(comment: Option<string>, main: string)
    ensures Behind(comment, main) == (if comment.Some? then "/*" + comment.value + "*/" else "") + main
  {
  }

  lemma HeadWords(name: string)
    requires Words(name)
    ensures Words("WITH" + (" " + name))
  {
  }

  lemma SimplePrinted(name: string, body: string, comment: Option<string>, main: string)
    requires Words(name) && Words(body) && (comment.Some? ==> Closed(comment.value))
    ensures var c := Simple("WITH" + (" " + name), body, comment);
            && CteOk(c, main) && (Bare(c) <==> comment.None?)
            && PrintCte(c, main) == SimpleText(name, body, comment, main)
  {
    hide Simple, CteOk, PrintCte, Bare, Words, Closed, Behind;
    HeadWords(name);
    BehindIs(comment, main);
    SimpleReads("WITH" + (" " + name), body, comment, main);
  }

  lemma Regrouped(a: string, b: string, c: string)
    ensures (a + b) + c == a + (b + c)
  {
  }

  lemma SimpleBegins(name: string, body: string, comment: Option<string>, main: string)
    ensures SimpleText(name, body, comment, main)
            == "WITH" + (" " + (name + ("(" + (body + (")" + Behind(comment, main))))))
  {
    hide Behind;
    var rest := "(" + (body + (")" + Behind(comment, main)));
    Regrouped("WITH", " " + name, rest);
    Regrouped(" ", name, rest);
  }

  /** `WITH name (body) main` is a write exactly when no comment stands behind the body and the main keyword is a DML
      keyword that stands alone. */
  lemma SimpleDecided(name: string, body: string, comment: Option<string>, word: string, tail: string)
    requires Words(name) && Words(body) && (comment.Some? ==> Closed(comment.value))
    requires Letters(word) && Ends(tail)
    ensures IsWriteStatement(SimpleText(name, body, comment, word + tail)) <==>
            comment.None? && IsDml(Upper(word)) && StandsAlone(tail)
  {
    hide *;
    SimplePrinted(name, body, comment, word + tail);
    var c := Simple("WITH" + (" " + name), body, comment);
    var rest := name + ("(" + (body + (")" + Behind(comment, word + tail))));
    OneCte(c, word, tail);
    WithBlank(rest);
    SimpleBegins(name, body, comment, word + tail);
    WithStatementDecided([], WithStatement([c], word, tail), "WITH", " " + rest);
    NoNoise("WITH" + (" " + rest));
  }

  lemma GluedTail(tail: string)
    requires tail != "" && !IsSpace(tail[0]) && tail[0] != ';'
    ensures !StandsAlone(tail)
  {
    hide IsSpace;
  }

  lemma QuoteEnds(tail: string)
    requires tail != "" && tail[0] in "\" "
    ensures Ends(tail) && (tail[0] == '"' ==> !StandsAlone(tail))
  {
    if tail[0] == '"' {
      GluedTail(tail);
    }
  }

  lemma UpdateIsDml(word: string)
    requires word == "UPDATE"
    ensures Letters(word) && IsDml(Upper(word))
  {
  }

  lemma ShortComment(body: string)
    requires |body| == 1
    ensures Closed(body)
  {
    forall i: nat | i < |body| ensures !Occurs("*/", body, i) {
    }
  }

  lemma ExampleWords(name: string, body: string)
    requires name == "a AS " && body == "SELECT 1"
    ensures Words(name) && Words(body)
  {
  }

  lemma ExampleText(name: string, body: string, comment: Option<string>, main: string, behind: string)
    requires name == "a AS " && body == "SELECT 1" && Behind(comment, main) == behind
    ensures SimpleText(name, body, comment, main) == "WITH a AS (SELECT 1)" + behind
  {
    hide Behind;
    assert "WITH a AS (SELECT 1)" == "WITH" + (" " + (name + ("(" + (body + ")"))));
  }

  lemma ExampleBehind(comment: string, main: string)
    requires comment == "c"
    ensures Behind(None, main) == main && Behind(Some(comment), main) == "/*c*/" + main
  {
  }

  /** Two writes the lexer takes for reads: a quote glued to the keyword, and a comment behind the body. */
  lemma MissedWrites() returns (glued: string, behind: string)
    ensures glued == "WITH a AS (SELECT 1)" + ("UPDATE" + "\"t\" SET x=1") && !IsWriteStatement(glued)
    ensures behind == "WITH a AS (SELECT 1)" + ("/*c*/" + ("UPDATE" + " t SET x=1")) && !IsWriteStatement(behind)
  {
    hide *;
    var name, body, comment, word := "a AS ", "SELECT 1", "c", "UPDATE";
    var quote, plain := "\"t\" SET x=1", " t SET x=1";
    ExampleWords(name, body);
    ExampleBehind(comment, word + quote);
    ExampleBehind(comment, word + plain);
    ExampleText(name, body, None, word + quote, word + quote);
    ExampleText(name, body, Some(comment), word + plain, "/*c*/" + (word + plain));
    UpdateIsDml(word);
    QuoteEnds(quote);
    QuoteEnds(plain);
    ShortComment(comment);
    SimpleDecided(name, body, None, word, quote);
    SimpleDecided(name, body, Some(comment), word, plain);
    glued, behind := SimpleText(name, body, None, word + quote), SimpleText(name, body, Some(comment), word + plain);
  }
}
