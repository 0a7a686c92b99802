/** The file behind a session's side log. Its name is a lossy form of the session id, and a merge
    clears the whole file after replaying only the rows of its own session. */
module LogFile {
  import opened Text
  import opened Sequences
  import opened SideLog

  datatype Line = Line(session: string, row: Row)

  type Files = map<string, seq<Line>>

  predicate Safe(c: char) {
    'a' <= c <= 'z' || 'A' <= c <= 'Z' || '0' <= c <= '9' || c == '-' || c == '_'
  }

  function Sanitised(s: string): (r: string)
    ensures |r| == |s| && forall i :: 0 <= i < |s| ==> r[i] == if Safe(s[i]) then s[i] else '_'
  {
    seq(|s|, i requires 0 <= i < |s| => if Safe(s[i]) then s[i] else '_')
  }

  /** The part of the file name that depends on the session. */
  function FileName(session: string): string {
    Sanitised(Or(Strip(Or(session, "main")), "main"))
  }

  function Lines(files: Files, session: string): seq<Line> {
    if FileName(session) in files then files[FileName(session)] else []
  }

  function OfSession(session: string): Line -> bool {
    (l: Line) => l.session == session
  }

  /** What the next merge of the session would replay. */
  function Pending(files: Files, session: string): seq<Line> {
    Filter(Lines(files, session), OfSession(session))
  }

  function Appended(files: Files, session: string, rows: seq<Row>): Files {
    files[FileName(session) := Lines(files, session)
        + seq(|rows|, i requires 0 <= i < |rows| => Line(session, rows[i]))]
  }

  /** A merge with nothing to replay leaves the file alone. */
  function Cleared(files: Files, session: string): Files {
    if Pending(files, session) == [] then files else files[FileName(session) := []]
  }

  lemma AppendedPending(files: Files, session: string, rows: seq<Row>)
    ensures var more := seq(|rows|, i requires 0 <= i < |rows| => Line(session, rows[i]));
      Pending(Appended(files, session, rows), session) == Pending(files, session) + more
  {
    var more := seq(|rows|, i requires 0 <= i < |rows| => Line(session, rows[i]));
    FilterConcat(Lines(files, session), more, OfSession(session));
    FilterAll(more, OfSession(session));
  }

  /** A merge of s leaves the pending rows of another session t as they were exactly when the two
      file names differ or one of the two has nothing pending. */
  lemma MergeSparesOtherIff(files: Files, s: string, t: string)
    requires s != t
    ensures Pending(Cleared(files, s), t) == Pending(files, t)
            <==> FileName(s) != FileName(t) || Pending(files, s) == [] || Pending(files, t) == []
  {
    hide FileName;
  }

  /** Names made of safe characters are kept as they are, so they never clash. */
  lemma SafeNamesKept(session: string)
    requires session != "" && forall c <- session :: Safe(c)
    ensures FileName(session) == session
  {
    assert session[0] in session && session[|session| - 1] in session;
    assert Stripped(session);
    assert forall i :: 0 <= i < |session| ==> session[i] in session;
    assert Sanitised(session) == session;
  }

  /** Other names can. */
  lemma NamesClash()
    ensures FileName("a b") == FileName("a_b") == "a_b"
  {
    assert Stripped("a b") && Stripped("a_b");
    assert Sanitised("a b") == "a_b" && Sanitised("a_b") == "a_b";
  }

  /** Two sessions with one file: merging the first loses what the second had queued. */
  lemma ClashLosesRows(s: string, t: string, r: Row, q: Row)
    requires s != t && FileName(s) == FileName(t)
    ensures var files := Appended(Appended(map[], s, [r]), t, [q]);
      Pending(files, t) == [Line(t, q)] && Pending(Cleared(files, s), t) == []
  {
    hide FileName;
    var one := Appended(map[], s, [r]);
    var files := Appended(one, t, [q]);
    assert Lines(one, s) == [Line(s, r)];
    assert Lines(files, t) == [Line(s, r)] + [Line(t, q)];
    FilterNone([Line(s, r)], OfSession(t));
    FilterSnoc([Line(s, r)], Line(t, q), OfSession(t));
    FilterAll([Line(s, r)], OfSession(s));
    FilterSnoc([Line(s, r)], Line(t, q), OfSession(s));
  }
}
