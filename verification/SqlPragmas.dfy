/** PRAGMA statements, comments that are not closed, and other text the lexer cannot place. */
module SqlPragmas {
  import opened Base
  import opened Text
  import opened SqlLexer

  // The rest of `_is_write_statement` (`db/database.py`): which PRAGMAs count as writes, and what is answered for text
  // that ends inside a comment or inside a WITH clause.

  // ---------------------------------------------------------------- names

  /** What a pragma's name is made of, its schema in front of a dot included. */
  predicate NameChar(c: char) {
    'a' <= c <= 'z' || 'A' <= c <= 'Z' || '0' <= c <= '9' || c == '_' || c == '.'
  }

  predicate Name(s: string) {
    s != "" && forall i :: 0 <= i < |s| ==> NameChar(s[i])
  }

  /** The same name, but for the case of its letters; `lower` is in lower case. */
  predicate Same(s: string, lower: string) {
    |s| == |lower| && forall i :: 0 <= i < |s| ==>
      lower[i] == if 'A' <= s[i] <= 'Z' then s[i] - 'A' + 'a' else s[i]
  }

  /** The pragmas that count as writes. */
  predicate Changing(name: string) {
    || Same(name, "application_id") || Same(name, "auto_vacuum") || Same(name, "busy_timeout")
    || Same(name, "foreign_keys") || Same(name, "incremental_vacuum") || Same(name, "journal_mode")
    || Same(name, "locking_mode") || Same(name, "optimize") || Same(name, "synchronous")
    || Same(name, "user_version") || Same(name, "vacuum") || Same(name, "wal_checkpoint")
  }

  lemma {:induction false} LowerIs(s: string)
    ensures |Lower(s)| == |s| && forall i :: 0 <= i < |s| ==> Lower(s)[i] == LowerChar(s[i])
  {
    if s != "" {
      LowerIs(s[1..]);
      assert forall i :: 0 < i < |s| ==> s[i] == s[1..][i - 1];
    }
  }

  lemma LowerIsSame(s: string, lower: string)
    requires Name(s)
    ensures Lower(s) == lower <==> Same(s, lower)
  {
    LowerIs(s);
    assert forall i :: 0 <= i < |s| ==> NameChar(s[i]);
  }

  // ---------------------------------------------------------------- the body

  /** What may follow a pragma's name. */
  predicate Follows(tail: string) {
    tail == "" || IsSpace(tail[0]) || tail[0] in "(;="
  }

  lemma {:induction false} BeforeSkips(a: string, b: string, c: char)
    requires c !in a
    ensures Before(a + b, c) == a + Before(b, c)
  {
    if a == "" {
      assert a + b == b;
    } else {
      assert (a + b)[1..] == a[1..] + b;
      BeforeSkips(a[1..], b, c);
    }
  }

  lemma {:induction false} BeforeBegins(s: string, c: char)
    ensures Before(s, c) <= s && (Before(s, c) == "" <==> s == "" || s[0] == c)
  {
    if s != "" && s[0] != c {
      BeforeBegins(s[1..], c);
    }
  }

  lemma NameHasNo(name: string, c: char)
    requires Name(name) && !NameChar(c)
    ensures c !in name
  {
  }

  lemma NameIsDark(name: string)
    requires Name(name)
    ensures forall i :: 0 <= i < |name| ==> !IsSpace(name[i])
  {
    assert forall i :: 0 <= i < |name| ==> NameChar(name[i]);
  }

  /** Stripping reaches into the tail only. */
  lemma StrippedName(name: string, tail: string)
    requires Name(name)
    ensures Strip(name + tail) == name + RStrip(tail)
  {
    NameIsDark(name);
    hide IsSpace;
    assert LStrip(name + tail) == name + tail;
    if RStrip(tail) == "" {
      RStripToNothing(tail);
      RStripDrops(name, tail);
      RStripDone(name);
      assert name + "" == name;
    } else {
      RStripKeepsFront(name, tail);
    }
  }

  lemma {:induction false} TokenIs(dark: string, tail: string)
    requires (forall i :: 0 <= i < |dark| ==> !IsSpace(dark[i])) && (tail == "" || IsSpace(tail[0]))
    ensures TokenLength(dark + tail) == |dark| && FirstToken(dark + tail) == dark
  {
    hide IsSpace;
    if dark == "" {
      assert dark + tail == tail;
    } else {
      assert (dark + tail)[1..] == dark[1..] + tail;
      TokenIs(dark[1..], tail);
    }
  }

  lemma {:induction false} LowerConcat(a: string, b: string)
    ensures Lower(a + b) == Lower(a) + Lower(b)
  {
    if a == "" {
      assert a + b == b;
    } else {
      assert (a + b)[1..] == a[1..] + b;
      LowerConcat(a[1..], b);
    }
  }

  lemma LowerKeepsBlanks(c: char)
    ensures IsSpace(LowerChar(c)) <==> IsSpace(c)
  {
  }

  /** The name the code looks up is the one that is written. */
  lemma NameIsFound(name: string, rest: string)
    requires Name(name) && (rest == "" || IsSpace(rest[0]))
    ensures FirstToken(Lower(Strip(name + rest))) == Lower(name)
  {
    StrippedName(name, rest);
    RStripPrefix(rest);
    LowerConcat(name, RStrip(rest));
    LowerIs(name);
    LowerIs(RStrip(rest));
    NameIsDark(name);
    forall c ensures IsSpace(LowerChar(c)) <==> IsSpace(c) {
      LowerKeepsBlanks(c);
    }
    hide IsSpace, LowerChar, RStrip, Strip, Lower;
    TokenIs(Lower(name), Lower(RStrip(rest)));
  }

  lemma {:induction false} StripKeepsSign(tail: string)
    ensures '=' in RStrip(tail) <==> '=' in tail
  {
    if tail != "" && IsSpace(tail[|tail| - 1]) {
      StripKeepsSign(tail[..|tail| - 1]);
      assert tail == tail[..|tail| - 1] + [tail[|tail| - 1]];
    }
  }

  /** What stands behind the name, up to a parenthesis or a semicolon. */
  lemma CutBehind(name: string, rest: string) returns (behind: string)
    requires Name(name)
    ensures Before(Before(name + rest, '('), ';') == name + behind
    ensures behind <= rest && (behind == "" <==> rest == "" || rest[0] == '(' || rest[0] == ';')
  {
    NameHasNo(name, '(');
    NameHasNo(name, ';');
    BeforeSkips(name, rest, '(');
    BeforeSkips(name, Before(rest, '('), ';');
    BeforeBegins(rest, '(');
    BeforeBegins(Before(rest, '('), ';');
    behind := Before(Before(rest, '('), ';');
  }

  lemma RStripFollows(tail: string)
    requires Follows(tail)
    ensures Follows(RStrip(tail))
  {
    RStripPrefix(tail);
  }

  /** A pragma by its body: a write exactly when there is a `=` or its name is one of those. */
  lemma BodyDecided(name: string, tail: string, body: string)
    requires Name(name) && Follows(tail) && body == Strip(name + tail)
    ensures '=' in body <==> '=' in tail
    ensures '=' !in tail ==> FirstToken(Lower(Strip(Before(Before(body, '('), ';')))) == Lower(name)
  {
    NameHasNo(name, '=');
    StrippedName(name, tail);
    StripKeepsSign(tail);
    RStripFollows(tail);
    hide Strip, Lower, Before, RStrip, Name, FirstToken, IsSpace;
    assert body == name + RStrip(tail);
    var behind := CutBehind(name, RStrip(tail));
    if '=' !in tail {
      assert RStrip(tail) != "" ==> RStrip(tail)[0] != '=';
      NameIsFound(name, behind);
    }
  }

  lemma NamesOf(name: string)
    requires Name(name)
    ensures Changing(name) <==>
            Lower(name) in {"application_id", "auto_vacuum", "busy_timeout", "foreign_keys", "incremental_vacuum",
                            "journal_mode", "locking_mode", "optimize", "synchronous", "user_version", "vacuum",
                            "wal_checkpoint"}
  {
    hide Lower, Same, Name;
    LowerIsSame(name, "application_id");
    LowerIsSame(name, "auto_vacuum");
    LowerIsSame(name, "busy_timeout");
    LowerIsSame(name, "foreign_keys");
    LowerIsSame(name, "incremental_vacuum");
    LowerIsSame(name, "journal_mode");
    LowerIsSame(name, "locking_mode");
    LowerIsSame(name, "optimize");
    LowerIsSame(name, "synchronous");
    LowerIsSame(name, "user_version");
    LowerIsSame(name, "vacuum");
    LowerIsSame(name, "wal_checkpoint");
  }

  /** The code's own decision, from its body on. */
  lemma MutatesByBody(sql: string, body: string)
    requires body == Strip(sql[TokenLength(sql)..])
    ensures PragmaMutates(sql) <==>
            || '=' in body
            || FirstToken(Lower(Strip(Before(Before(body, '('), ';')))) in
               {"application_id", "auto_vacuum", "busy_timeout", "foreign_keys", "incremental_vacuum", "journal_mode",
                "locking_mode", "optimize", "synchronous", "user_version", "vacuum", "wal_checkpoint"}
  {
    hide Strip, Lower, Before, FirstToken, TokenLength;
  }

  lemma WordIsDark(word: string)
    requires Letters(word)
    ensures forall i :: 0 <= i < |word| ==> !IsSpace(word[i])
  {
  }

  lemma BodyOf(word: string, gap: string, rest: string)
    requires Letters(word) && gap != "" && AllSpace(gap)
    ensures var sql := word + (gap + rest); Strip(sql[TokenLength(sql)..]) == Strip(rest)
  {
    WordIsDark(word);
    TokenIs(word, gap + rest);
    hide TokenLength, FirstToken, IsSpace, RStrip;
    assert (word + (gap + rest))[|word|..] == gap + rest;
    LStripSkips(gap, rest);
  }

  /** A PRAGMA behind any blanks and closed comments counts as a write exactly when it has a `=` or its name is one of
      the twelve; a name with its schema in front is none of them. */
  lemma PragmaDecided(ns: seq<Noise>, word: string, gap: string, name: string, tail: string)
    requires forall i :: 0 <= i < |ns| ==> NoiseOk(ns[i])
    requires Letters(word) && Upper(word) == "PRAGMA" && gap != "" && AllSpace(gap) && Ends(gap)
    requires Name(name) && Follows(tail)
    ensures IsWriteStatement(PrintAllNoise(ns) + (word + (gap + (name + tail)))) <==> '=' in tail || Changing(name)
  {
    var more := gap + (name + tail);
    var sql := word + more;
    BlankEnds(gap, name + tail);
    BodyOf(word, gap, name + tail);
    hide IsWriteStatement, Letters, Ends, Upper, StandsAlone, PragmaMutates, Scan, Strip, Lower, Before, FirstToken,
         TokenLength, Changing, Name, Follows, NoiseOk, PrintAllNoise;
    FirstKeyword(ns, word, more);
    var body := Strip(name + tail);
    MutatesByBody(sql, body);
    BodyDecided(name, tail, body);
    NamesOf(name);
  }

  lemma BlankEnds(gap: string, rest: string)
    requires gap != "" && AllSpace(gap) && Ends(gap)
    ensures Ends(gap + rest) && StandsAlone(gap + rest)
  {
    assert (gap + rest)[0] == gap[0];
    BlankStandsAlone(gap + rest);
  }

  /** A pragma that names its schema and gives its value in parentheses is a write that counts as a read. */
  lemma SchemaHidesPragma() returns (sql: string)
    ensures sql == "PRAGMA" + (" " + ("main.user_version" + "(5)")) && !IsWriteStatement(sql)
  {
    var word, gap, name, tail := "PRAGMA", " ", "main.user_version", "(5)";
    sql := word + (gap + (name + tail));
    assert Letters(word) && Upper(word) == "PRAGMA" && Name(name) && AllSpace(gap) && Ends(gap) && Follows(tail)
           && '=' !in tail;
    assert !Changing(name) by { SchemaIsNoName(name); }
    NoNoise(sql);
    hide *;
    PragmaDecided([], word, gap, name, tail);
  }

  lemma SchemaIsNoName(name: string)
    requires |name| == 17 && name[0] == 'm'
    ensures !Changing(name)
  {
    assert |"incremental_vacuum"| == 18;
  }

  // ---------------------------------------------------------------- text that ends too early

  /** Blanks and closed comments alone, or with a line comment behind them that nothing ends, are no statement. */
  lemma OnlyNoise(ns: seq<Noise>, note: string)
    requires forall i :: 0 <= i < |ns| ==> NoiseOk(ns[i])
    requires '\n' !in note
    ensures !IsWriteStatement(PrintAllNoise(ns) + "") && !IsWriteStatement(PrintAllNoise(ns) + ("--" + note))
  {
    NoiseIsStripped(ns, "");
    NoiseIsStripped(ns, "--" + note);
    NoteToEnd(note);
    assert StripNoise("") == "";
    hide StripNoise, PrintAllNoise, NoiseOk;
  }

  lemma NoteToEnd(note: string)
    requires '\n' !in note
    ensures StripNoise("--" + note) == ""
  {
    var s := "--" + note;
    assert s[..2] == "--" && LStrip(s) == s;
    forall i: nat | i <= |s| ensures !Occurs("\n", s, i) {
      if i < |s| {
        assert s[i] == (if i < 2 then '-' else note[i - 2]);
        assert s[i..i + 1][0] == s[i];
      }
    }
  }

  /** A block comment that nothing closes counts as a write. */
  lemma UnclosedBlock(ns: seq<Noise>, note: string)
    requires forall i :: 0 <= i < |ns| ==> NoiseOk(ns[i])
    requires Closed(note)
    ensures IsWriteStatement(PrintAllNoise(ns) + ("/*" + note))
  {
    var s := "/*" + note;
    NoiseIsStripped(ns, s);
    BlockToEnd(note);
    DecidedByKeyword(PrintAllNoise(ns) + s);
    SlashIsNoLetter(s);
    hide StripNoise, PrintAllNoise, NoiseOk, Keyword, FirstToken, IsWriteStatement, ByKeyword;
    NoKeywordOfLetters(Keyword(FirstToken(s)), s);
  }

  lemma BlockToEnd(note: string)
    requires Closed(note)
    ensures StripNoise("/*" + note) == "/*" + note
  {
    var s := "/*" + note;
    assert s[..2] == "/*" && LStrip(s) == s;
    forall i: nat | 2 <= i <= |s| ensures !Occurs("*/", s, i) {
      MarkAt(s, i);
      MarkAt(note, i - 2);
      assert i < |s| ==> s[i] == note[i - 2];
      assert i + 1 < |s| ==> s[i + 1] == note[i - 1];
    }
  }

  lemma SlashIsNoLetter(s: string)
    requires s != "" && s[0] == '/'
    ensures !Letters(Keyword(FirstToken(s)))
  {
    var token := FirstToken(s);
    assert token != "" && token[0] == '/';
    RStripCharPrefix(Upper(token), ';');
    assert Upper(token)[0] == '/';
  }

  /** Text that closes no parenthesis cannot be placed and counts as a write. */
  lemma {:induction false} NeverCloses(s: string, depth: int)
    requires ')' !in s
    ensures Scan(s, depth)
    decreases |s|
  {
    if s != "" && s[0] == '(' {
      NeverCloses(s[1..], depth + 1);
    } else if s != "" {
      LexemeIsTail(s);
      NeverCloses(AfterLexeme(s), depth);
    }
  }

  lemma LexemeIsTail(s: string)
    requires s != ""
    ensures forall c :: c in AfterLexeme(s) ==> c in s
  {
    QuotedIsTail(s[1..], s[0]);
    CharIsTail(s[1..], ']');
    if |s| > 1 {
      FromIsTail(s[2..], '\n');
      BlockIsTail(s[2..]);
    }
    hide AfterQuoted, AfterChar, FromChar, AfterBlock;
  }

  lemma {:induction false} QuotedIsTail(s: string, q: char)
    ensures forall c :: c in AfterQuoted(s, q) ==> c in s
    decreases |s|
  {
    if |s| > 1 {
      QuotedIsTail(s[2..], q);
    }
    if s != "" {
      QuotedIsTail(s[1..], q);
    }
  }

  lemma {:induction false} CharIsTail(s: string, q: char)
    ensures forall c :: c in AfterChar(s, q) ==> c in s
  {
    if s != "" {
      CharIsTail(s[1..], q);
    }
  }

  lemma {:induction false} FromIsTail(s: string, q: char)
    ensures forall c :: c in FromChar(s, q) ==> c in s
  {
    if s != "" {
      FromIsTail(s[1..], q);
    }
  }

  lemma {:induction false} BlockIsTail(s: string)
    ensures forall c :: c in AfterBlock(s) ==> c in s
  {
    if s != "" {
      BlockIsTail(s[1..]);
    }
  }
}
