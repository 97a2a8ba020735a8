/**
 * The pure part of EmailService.SendEmail: choosing the envelope sender and rendering
 * the plain-text message (a header block in the style of section 2.1 of RFC 5322 with
 * the MIME-Version field of section 4 of RFC 2045, CRLF line ends). A reference
 * parser that splits the header block from the body at the first empty line reads
 * the four fields back.
 */
module MailMessage {
  import opened Wrappers
  import opened Strings

  /** The content of one message: sender, single recipient, subject and body. */
  datatype Message = Message(from: string, to: string, subject: string, body: string)

  const MimeVersionField: string := "MIME-Version: 1.0"
  const ContentTypeField: string := "Content-Type: text/plain; charset=\"UTF-8\""

  /**
   * The sender: the configured From address unless it is blank, then the username;
   * None when both are blank. The chosen value is used as it is, not trimmed.
   */
  function SenderAddress(from: string, username: string): (r: Option<string>)
    ensures !IsBlank(from) ==> r == Some(from)
    ensures IsBlank(from) && !IsBlank(username) ==> r == Some(username)
    ensures IsBlank(from) && IsBlank(username) ==> r == None
  {
    var fromAddr := if TrimSpace(from) == "" then username else from;
    if TrimSpace(fromAddr) == "" then None else Some(fromAddr)
  }

  /** The header lines, the last one being the empty line that ends the header block. */
  function HeaderLines(m: Message): seq<string> {
    ["From: " + m.from, "To: " + m.to, "Subject: " + m.subject, MimeVersionField, ContentTypeField, ""]
  }

  /** Lines, each followed by CRLF. */
  function JoinLines(lines: seq<string>): string {
    if lines == [] then [] else lines[0] + CRLF + JoinLines(lines[1..])
  }

  /**
   * The wire form of a message, concatenated as the service does: the From, To and
   * Subject lines, the two MIME fields, an empty line, then the body and a final CRLF.
   */
  function Render(m: Message): string {
    JoinLines(HeaderLines(m)) + (m.body + CRLF)
  }

  /** Splits `n` CRLF-terminated lines off the front of `s`. */
  function TakeLines(s: string, n: nat): (r: Option<(seq<string>, string)>)
    ensures r.Some? ==> |r.value.0| == n && s == JoinLines(r.value.0) + r.value.1
    ensures r.Some? ==> forall i :: 0 <= i < n ==> NoCRLF(r.value.0[i])
    decreases n
  {
    if n == 0 then Some(([], s))
    else
      match SplitLine(s)
      case None => None
      case Some((line, rest)) =>
        match TakeLines(rest, n - 1)
        case None => None
        case Some((lines, tail)) =>
          assert ([line] + lines)[1..] == lines;
          Some(([line] + lines, tail))
  }

  predicate HasPrefix(s: string, p: string) {
    |p| <= |s| && s[..|p|] == p
  }

  /**
   * Reference reader of the wire form: the From, To and Subject lines, the two MIME
   * fields, the empty line, then a body that ends in CRLF.
   */
  function Parse(wire: string): Option<Message> {
    match TakeLines(wire, 6)
    case None => None
    case Some((ls, rest)) =>
      if && HasPrefix(ls[0], "From: ") && HasPrefix(ls[1], "To: ") && HasPrefix(ls[2], "Subject: ")
         && ls[3] == MimeVersionField && ls[4] == ContentTypeField && ls[5] == ""
         && |rest| >= 2 && rest[|rest| - 2..] == CRLF
      then
        Some(Message(ls[0][6..], ls[1][4..], ls[2][9..], rest[..|rest| - 2]))
      else None
  }

  /** Lines free of CRLF are split back off their joined form. */
  lemma {:induction false} TakeLinesOfJoin(lines: seq<string>, rest: string)
    requires forall i :: 0 <= i < |lines| ==> NoCRLF(lines[i])
    ensures TakeLines(JoinLines(lines) + rest, |lines|) == Some((lines, rest))
    decreases |lines|
  {
    if lines == [] {
      assert JoinLines(lines) + rest == rest;
    } else {
      var tail := JoinLines(lines[1..]) + rest;
      assert JoinLines(lines) + rest == lines[0] + CRLF + tail;
      SplitLineOf(lines[0], tail);
      TakeLinesOfJoin(lines[1..], rest);
      assert [lines[0]] + lines[1..] == lines;
    }
  }

  /** A prefix that does not end in CR keeps a CRLF-free field CRLF-free. */
  lemma NoCRLFAfterTag(tag: string, field: string)
    requires NoCRLF(tag) && tag != [] && tag[|tag| - 1] == ' '
    requires NoCRLF(field)
    ensures NoCRLF(tag + field)
  {
    var s := tag + field;
    forall i | 0 <= i < |s| - 1 ensures !(s[i] == '\r' && s[i + 1] == '\n') {
      if i + 1 < |tag| {
        assert s[i] == tag[i] && s[i + 1] == tag[i + 1];
      } else if i + 1 == |tag| {
        assert s[i] == ' ';
      } else {
        assert s[i] == field[i - |tag|] && s[i + 1] == field[i + 1 - |tag|];
      }
    }
  }

  /**
   * Rendering then parsing gives the message back when the From, To and Subject
   * values hold no CRLF; the body is unrestricted.
   */
  lemma RenderParseRoundTrip(m: Message)
    requires NoCRLF(m.from) && NoCRLF(m.to) && NoCRLF(m.subject)
    ensures Parse(Render(m)) == Some(m)
  {
    TakeHeaderLines(m);
    var ls, rest := HeaderLines(m), m.body + CRLF;
    assert ls[0][..6] == "From: " && ls[0][6..] == m.from;
    assert ls[1][..4] == "To: " && ls[1][4..] == m.to;
    assert ls[2][..9] == "Subject: " && ls[2][9..] == m.subject;
    assert rest[|rest| - 2..] == CRLF && rest[..|rest| - 2] == m.body;
  }

  /** Appending one line to the list appends it, with its CRLF, to the text. */
  lemma {:induction false} JoinLinesSnoc(lines: seq<string>, line: string)
    ensures JoinLines(lines + [line]) == JoinLines(lines) + line + CRLF
    decreases |lines|
  {
    if lines == [] {
      assert [] + [line] == [line];
      assert JoinLines([line]) == line + CRLF + JoinLines([]);
    } else {
      assert (lines + [line])[1..] == lines[1..] + [line];
      JoinLinesSnoc(lines[1..], line);
    }
  }

  /** Whatever the reader accepts is exactly the rendering of what it returns. */
  lemma ParseRenderInverse(wire: string)
    requires Parse(wire).Some?
    ensures Render(Parse(wire).value) == wire
  {
    var (ls, rest) := TakeLines(wire, 6).value;
    var m := Parse(wire).value;
    assert ls[0] == "From: " + m.from by { assert ls[0] == ls[0][..6] + ls[0][6..]; }
    assert ls[1] == "To: " + m.to by { assert ls[1] == ls[1][..4] + ls[1][4..]; }
    assert ls[2] == "Subject: " + m.subject by { assert ls[2] == ls[2][..9] + ls[2][9..]; }
    assert HeaderLines(m) == ls;
    assert rest == m.body + CRLF;
  }

  /** The rendered message is the header lines, each ended by CRLF, then the body and CRLF. */
  lemma RenderSpelledOut(m: Message)
    ensures Render(m) == "From: " + m.from + CRLF + "To: " + m.to + CRLF + "Subject: " + m.subject + CRLF
                         + MimeVersionField + CRLF + ContentTypeField + CRLF + CRLF + m.body + CRLF
  {
    var ls := HeaderLines(m);
    JoinLinesSnoc([], ls[0]);
    assert [] + [ls[0]] == ls[..1];
    JoinLinesSnoc(ls[..1], ls[1]);
    assert ls[..1] + [ls[1]] == ls[..2];
    JoinLinesSnoc(ls[..2], ls[2]);
    assert ls[..2] + [ls[2]] == ls[..3];
    JoinLinesSnoc(ls[..3], ls[3]);
    assert ls[..3] + [ls[3]] == ls[..4];
    JoinLinesSnoc(ls[..4], ls[4]);
    assert ls[..4] + [ls[4]] == ls[..5];
    JoinLinesSnoc(ls[..5], ls[5]);
    assert ls[..5] + [ls[5]] == ls;
    assert JoinLines([]) == [];
    assert JoinLines(ls[..1]) == "From: " + m.from + CRLF;
    assert JoinLines(ls[..2]) == "From: " + m.from + CRLF + "To: " + m.to + CRLF;
    assert JoinLines(ls[..3]) == "From: " + m.from + CRLF + "To: " + m.to + CRLF + "Subject: " + m.subject + CRLF;
    assert ls[5] + CRLF == CRLF;
  }

  /** With CRLF-free fields, the six header lines split back off the rendered message. */
  lemma TakeHeaderLines(m: Message)
    requires NoCRLF(m.from) && NoCRLF(m.to) && NoCRLF(m.subject)
    ensures TakeLines(Render(m), 6) == Some((HeaderLines(m), m.body + CRLF))
  {
    var ls := HeaderLines(m);
    NoCRLFAfterTag("From: ", m.from);
    NoCRLFAfterTag("To: ", m.to);
    NoCRLFAfterTag("Subject: ", m.subject);
    assert NoCRLF(MimeVersionField) && NoCRLF(ContentTypeField) && NoCRLF("");
    assert forall i :: 0 <= i < |ls| ==> NoCRLF(ls[i]);
    TakeLinesOfJoin(ls, m.body + CRLF);
  }

  /** The text of two lists of lines is the text of the first, then of the second. */
  lemma {:induction false} JoinLinesAppend(a: seq<string>, c: seq<string>)
    ensures JoinLines(a + c) == JoinLines(a) + JoinLines(c)
    decreases |a|
  {
    if a == [] {
      assert [] + c == c;
    } else {
      assert (a + c)[1..] == a[1..] + c;
      JoinLinesAppend(a[1..], c);
    }
  }

  /** The header lines that a subject `before + CRLF + after` produces. */
  function InjectedLines(m: Message, before: string, after: string): seq<string> {
    ["From: " + m.from, "To: " + m.to, "Subject: " + before, after, MimeVersionField, ContentTypeField]
  }

  lemma RenderSplitSubject(m: Message, before: string, after: string)
    requires m.subject == before + CRLF + after
    ensures Render(m) == JoinLines(InjectedLines(m, before, after)) + (CRLF + (m.body + CRLF))
  {
    var six := InjectedLines(m, before, after);
    var ls := HeaderLines(m);
    assert "Subject: " + m.subject == "Subject: " + before + CRLF + after;
    assert ls == ["From: " + m.from, "To: " + m.to] + ["Subject: " + before + CRLF + after] + [MimeVersionField, ContentTypeField, ""];
    JoinLinesSplitLine(["From: " + m.from, "To: " + m.to], "Subject: " + before, after, [MimeVersionField, ContentTypeField, ""]);
    assert ["From: " + m.from, "To: " + m.to] + ["Subject: " + before, after] + [MimeVersionField, ContentTypeField, ""] == six + [""];
    JoinLinesAppend(six, [""]);
    assert JoinLines([""]) == CRLF;
  }

  /**
   * A subject holding exactly one CRLF (with From and To free of CRLF) renders as two
   * header lines, and the text no longer reads back as a message at all.
   */
  lemma SubjectWithCRLFBreaksRoundTrip(m: Message, before: string, after: string)
    requires m.subject == before + CRLF + after
    requires NoCRLF(m.from) && NoCRLF(m.to) && NoCRLF(before) && NoCRLF(after)
    ensures Parse(Render(m)) == None
  {
    var six := InjectedLines(m, before, after);
    NoCRLFAfterTag("From: ", m.from);
    NoCRLFAfterTag("To: ", m.to);
    NoCRLFAfterTag("Subject: ", before);
    assert NoCRLF(MimeVersionField) && NoCRLF(ContentTypeField);
    assert forall i :: 0 <= i < |six| ==> NoCRLF(six[i]);
    TakeLinesOfJoin(six, CRLF + (m.body + CRLF));
    RenderSplitSubject(m, before, after);
    assert six[4] != ContentTypeField;
  }

  /** Dropping a prefix keeps a string free of CRLF. */
  lemma NoCRLFSuffix(s: string, k: nat)
    requires NoCRLF(s) && k <= |s|
    ensures NoCRLF(s[k..])
  {
    forall i | 0 <= i < |s[k..]| - 1 ensures !(s[k..][i] == '\r' && s[k..][i + 1] == '\n') {
      assert s[k..][i] == s[k + i] && s[k..][i + 1] == s[k + i + 1];
    }
  }

  /** The From, To and Subject values the reader returns never hold a CRLF. */
  lemma ParsedFieldsNoCRLF(wire: string)
    requires Parse(wire).Some?
    ensures NoCRLF(Parse(wire).value.from) && NoCRLF(Parse(wire).value.to) && NoCRLF(Parse(wire).value.subject)
  {
    var ls := TakeLines(wire, 6).value.0;
    NoCRLFSuffix(ls[0], 6);
    NoCRLFSuffix(ls[1], 4);
    NoCRLFSuffix(ls[2], 9);
  }

  /**
   * The round trip holds exactly when From, To and Subject hold no CRLF: with a CRLF
   * in any of them, the text reads back as some other message or as none.
   */
  lemma RoundTripIffNoCRLF(m: Message)
    ensures Parse(Render(m)) == Some(m) <==> NoCRLF(m.from) && NoCRLF(m.to) && NoCRLF(m.subject)
  {
    if NoCRLF(m.from) && NoCRLF(m.to) && NoCRLF(m.subject) {
      RenderParseRoundTrip(m);
    } else if Parse(Render(m)).Some? {
      ParsedFieldsNoCRLF(Render(m));
    }
  }

  /**
   * Header injection through the subject: a subject that ends with the two MIME fields
   * and an empty line closes the header block early, and the text reads back as a
   * different message whose body begins with the real MIME fields.
   */
  lemma SubjectInjectsHeaders(m: Message, before: string)
    requires NoCRLF(m.from) && NoCRLF(m.to) && NoCRLF(before)
    requires m.subject == before + CRLF + MimeVersionField + CRLF + ContentTypeField + CRLF
    ensures Parse(Render(m))
            == Some(Message(m.from, m.to, before, MimeVersionField + CRLF + ContentTypeField + CRLF + CRLF + m.body))
  {
    var injected := Message(m.from, m.to, before, MimeVersionField + CRLF + ContentTypeField + CRLF + CRLF + m.body);
    var front := ["From: " + m.from, "To: " + m.to];
    var fields := [MimeVersionField, ContentTypeField, ""];
    var subjectLine := "Subject: " + before;
    assert HeaderLines(m) == front + ["Subject: " + m.subject] + fields;
    assert "Subject: " + m.subject == subjectLine + CRLF + MimeVersionField + CRLF + ContentTypeField + CRLF by {
      PrefixLines("Subject: ", before, MimeVersionField, ContentTypeField);
    }
    SpillLines(front, subjectLine, MimeVersionField, ContentTypeField, fields);
    assert front + [subjectLine, MimeVersionField, ContentTypeField, ""] + fields == HeaderLines(injected) + fields;
    JoinLinesAppend(HeaderLines(injected), fields);
    EndOfInjectedBody(MimeVersionField, ContentTypeField, m.body);
    assert Render(m) == Render(injected) by {
      AppendAssoc(JoinLines(HeaderLines(injected)), JoinLines(fields), m.body + CRLF);
    }
    RenderParseRoundTrip(injected);
  }

  /** Regrouping a tag in front of a value that holds two CRLF-terminated lines. */
  lemma PrefixLines(tag: string, v: string, p: string, q: string)
    ensures tag + (v + CRLF + p + CRLF + q + CRLF) == (tag + v) + CRLF + p + CRLF + q + CRLF
  {
  }

  /** A line whose value ends with two CRLF-terminated lines has the text of four lines, the last one empty. */
  lemma SpillLines(a: seq<string>, x: string, p: string, q: string, c: seq<string>)
    ensures JoinLines(a + [x + CRLF + p + CRLF + q + CRLF] + c) == JoinLines(a + [x, p, q, ""] + c)
  {
    JoinLinesSplitLine(a, x, p + CRLF + q + CRLF, c);
    assert x + CRLF + p + CRLF + q + CRLF == x + CRLF + (p + CRLF + q + CRLF);
    var pq := p + CRLF + q + CRLF;
    assert pq == p + CRLF + (q + CRLF);
    assert a + [x, pq] + c == (a + [x]) + [pq] + c;
    JoinLinesSplitLine(a + [x], p, q + CRLF, c);
    var q' := q + CRLF;
    assert q' == q + CRLF + "";
    assert (a + [x]) + [p, q'] + c == (a + [x, p]) + [q'] + c;
    JoinLinesSplitLine(a + [x, p], q, "", c);
    assert (a + [x, p]) + [q, ""] + c == a + [x, p, q, ""] + c;
  }

  /** Two lines and an empty line, then a CRLF-terminated body, as one CRLF-terminated body. */
  lemma EndOfInjectedBody(p: string, q: string, body: string)
    ensures JoinLines([p, q, ""]) + (body + CRLF) == (p + CRLF + q + CRLF + CRLF + body) + CRLF
  {
    assert JoinLines([""]) == CRLF by { assert [""][1..] == []; }
    assert JoinLines([q, ""]) == q + CRLF + CRLF by { assert [q, ""][1..] == [""]; }
    assert JoinLines([p, q, ""]) == p + CRLF + (q + CRLF + CRLF) by { assert [p, q, ""][1..] == [q, ""]; }
  }

  lemma AppendAssoc(a: string, b: string, c: string)
    ensures (a + b) + c == a + (b + c)
  {
  }

  /** The text of a list of lines around one line `l`. */
  lemma JoinLinesAround(a: seq<string>, l: string, c: seq<string>)
    ensures JoinLines(a + [l] + c) == JoinLines(a) + (l + CRLF + JoinLines(c))
  {
    assert a + [l] + c == a + ([l] + c);
    assert ([l] + c)[1..] == c;
    JoinLinesAppend(a, [l] + c);
  }

  /** The text of a list of lines around two lines `x` and `y`. */
  lemma JoinLinesAroundTwo(a: seq<string>, x: string, y: string, c: seq<string>)
    ensures JoinLines(a + [x, y] + c) == JoinLines(a) + (x + CRLF + (y + CRLF + JoinLines(c)))
  {
    assert a + [x, y] + c == a + ([x, y] + c);
    assert ([x, y] + c)[1..] == [y] + c;
    assert ([y] + c)[1..] == c;
    JoinLinesAppend(a, [x, y] + c);
  }

  /** A line holding a CRLF has the text of the two lines it splits into. */
  lemma JoinLinesSplitLine(a: seq<string>, x: string, y: string, c: seq<string>)
    ensures JoinLines(a + [x + CRLF + y] + c) == JoinLines(a + [x, y] + c)
  {
    JoinLinesAround(a, x + CRLF + y, c);
    JoinLinesAroundTwo(a, x, y, c);
    RegroupLines(x, y, JoinLines(c));
  }

  /** Regrouping the text of two CRLF-terminated lines and what follows them. */
  lemma RegroupLines(x: string, y: string, rest: string)
    ensures (x + CRLF + y) + CRLF + rest == x + CRLF + (y + CRLF + rest)
  {
  }
}
