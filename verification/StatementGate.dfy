/** From the text of a statement to the step it takes. */
module StatementGate {
  import opened Text
  import opened SqlLexer
  import opened Sqlite
  import P = DatabaseProtocol

  // The proxy of `db/database.py` decides by `_is_write_statement` alone whether a statement takes the lock. `writes`
  // says what the statement does; a read taken for a write is a write that changes nothing.

  /** The action of the transaction protocol that executing `sql` is. */
  function Sent(sql: string, writes: bool, d: Dml, begins: bool, ok: bool): P.Action {
    if IsWriteStatement(sql) then P.Write(if writes then d else Copy("", ""), begins, ok)
    else if writes then P.Misread(d, ok)
    else P.Read
  }

  /** A WITH statement that writes goes past the lock as a read exactly when the lexer's answer about it is wrong:
      when it has a column list or a comment behind a body, or something is glued to its main keyword. */
  lemma MisreadIff(ns: seq<Noise>, w: WithStatement, with: string, more: string, d: Dml, ok: bool)
    requires forall i :: 0 <= i < |ns| ==> NoiseOk(ns[i])
    requires WithOk(w) && PrintWith(w) == with + more && IsDml(Upper(w.word))
    requires Letters(with) && Upper(with) == "WITH" && Ends(more)
    ensures var sql := PrintAllNoise(ns) + PrintWith(w);
            && (Sent(sql, true, d, false, ok).Misread? <==> !AnswersRight(sql, w.word))
            && (Sent(sql, true, d, false, ok).Misread? <==>
                  StandsAlone(more) && !(AllBare(w.ctes) && StandsAlone(w.tail)))
  {
    hide IsWriteStatement, WithOk, Letters, Ends, Upper, StandsAlone, AllBare, IsDml;
    WithStatementDecided(ns, w, with, more);
  }

  /** A statement that begins with a DML keyword is never taken for a read. */
  lemma PlainDmlTakesTheLock(ns: seq<Noise>, word: string, tail: string, d: Dml, ok: bool)
    requires forall i :: 0 <= i < |ns| ==> NoiseOk(ns[i])
    requires Letters(word) && Ends(tail) && IsDml(Upper(word))
    ensures Sent(PrintAllNoise(ns) + (word + tail), true, d, true, ok) == P.Write(d, true, ok)
  {
    hide IsWriteStatement, Letters, Ends, Upper, StandsAlone;
    PlainStatementDecided(ns, word, tail);
  }

  /** The lexer's mistake at work: a statement that updates, sent by a task that was spawned inside another task's
      transaction, is part of that transaction without having waited for the lock. */
  lemma MissedWriteSlipsIn(start: Table, write: Dml) returns (sql: string)
    ensures sql == "WITH a AS (SELECT 1)" + ("UPDATE" + "\"t\" SET x=1")
    ensures Sent(sql, true, write, false, true) == P.Misread(write, true)
    ensures var es := P.Slipping(write);
            && es[4] == P.Event(1, Sent(sql, true, write, false, true))
            && P.IsRun(P.Init(start), es) && P.Run(P.Init(start), es) == P.Slipped(start, write)
            && !P.Serial(P.Slipped(start, write), start)
  {
    hide IsWriteStatement, P.IsRun, P.Run, P.Serial, P.Slipped, P.Leakless, P.Init;
    var glued, behind := MissedWrites();
    P.MisreadSlipsIn(start, write);
    sql := glued;
  }
}
