/**
 * The pieces of Go's `strings` and `unicode` packages that the service relies on:
 * `unicode.IsSpace`, `strings.TrimSpace`, `strings.Fields`, and splitting text at
 * CRLF line ends. A Go string is modelled as the sequence of its decoded code points.
 */
module Strings {
  import opened Wrappers

  const CRLF: string := "\r\n"

  /** Go's unicode.IsSpace: the Latin-1 spaces and the Unicode White_Space property. */
  predicate IsSpace(c: char) {
    var n := c as int;
    (0x09 <= n <= 0x0D) || n == 0x20 || n == 0x85 || n == 0xA0 || n == 0x1680
    || (0x2000 <= n <= 0x200A) || n == 0x2028 || n == 0x2029 || n == 0x202F
    || n == 0x205F || n == 0x3000
  }

  /** Every character is white space (the empty string included). */
  predicate IsBlank(s: string) {
    forall i :: 0 <= i < |s| ==> IsSpace(s[i])
  }

  /** No character is white space. */
  predicate NoSpace(s: string) {
    forall i :: 0 <= i < |s| ==> !IsSpace(s[i])
  }

  /** Removes the leading white space. */
  function TrimLeft(s: string): (r: string)
    ensures |r| <= |s| && r == s[|s| - |r|..]
    ensures IsBlank(s[..|s| - |r|])
    ensures r == [] || !IsSpace(r[0])
  {
    if s != [] && IsSpace(s[0]) then
      var r := TrimLeft(s[1..]);
      assert s[..|s| - |r|] == [s[0]] + s[1..][..|s| - 1 - |r|];
      r
    else
      s
  }

  /** Removes the trailing white space. */
  function TrimRight(s: string): (r: string)
    ensures |r| <= |s| && r == s[..|r|]
    ensures IsBlank(s[|r|..])
    ensures r == [] || !IsSpace(r[|r| - 1])
  {
    if s != [] && IsSpace(s[|s| - 1]) then
      var r := TrimRight(s[..|s| - 1]);
      assert s[|r|..] == s[..|s| - 1][|r|..] + [s[|s| - 1]];
      r
    else
      s
  }

  /** Go's strings.TrimSpace; it is empty exactly when the string is all white space. */
  function TrimSpace(s: string): (r: string)
    ensures r == [] <==> IsBlank(s)
    ensures NoSpaceAtEnds(r)
  {
    var l := TrimLeft(s);
    var r := TrimRight(l);
    if l == [] then
      r
    else
      assert r != [];
      assert r[0] == l[0];
      assert !IsBlank(s) by {
        assert s[|s| - |l|] == l[0];
      }
      r
  }

  predicate NoSpaceAtEnds(s: string) {
    s == [] || (!IsSpace(s[0]) && !IsSpace(s[|s| - 1]))
  }

  /** The longest prefix of `s` that holds no white space. */
  function LeadingWord(s: string): (w: string)
    ensures w <= s && NoSpace(w)
    ensures |w| == |s| || IsSpace(s[|w|])
  {
    if s == [] || IsSpace(s[0]) then [] else [s[0]] + LeadingWord(s[1..])
  }

  /**
   * Go's strings.Fields: the maximal runs of non-white-space characters, in order.
   * There are none exactly when the string is all white space.
   */
  function Fields(s: string): (fs: seq<string>)
    ensures AllWords(fs)
    ensures fs == [] <==> IsBlank(s)
    decreases |s|
  {
    var t := TrimLeft(s);
    if t == [] then
      assert s[..|s|] == s;
      []
    else
      assert !IsBlank(s) by {
        assert s[|s| - |t|] == t[0];
      }
      var w := LeadingWord(t);
      LeadingWordIsWord(t);
      var rest := Fields(t[|w|..]);
      AllWordsCons(w, rest);
      [w] + rest
  }

  /** A non-empty run of non-white-space characters. */
  predicate IsWord(w: string) {
    w != [] && NoSpace(w)
  }

  predicate AllWords(ws: seq<string>) {
    forall i :: 0 <= i < |ws| ==> IsWord(ws[i])
  }

  lemma LeadingWordIsWord(t: string)
    requires t != [] && !IsSpace(t[0])
    ensures IsWord(LeadingWord(t))
  {
  }

  lemma AllWordsCons(w: string, ws: seq<string>)
    requires IsWord(w) && AllWords(ws)
    ensures AllWords([w] + ws)
  {
    forall i | 0 <= i < |ws| + 1 ensures IsWord(([w] + ws)[i]) {
      if i > 0 { assert ([w] + ws)[i] == ws[i - 1]; }
    }
  }

  /** Words joined by single spaces: the canonical text whose fields are the words. */
  function JoinWords(ws: seq<string>): string {
    if |ws| == 0 then []
    else if |ws| == 1 then ws[0]
    else ws[0] + " " + JoinWords(ws[1..])
  }

  /** Leading white space does not change the fields. */
  lemma {:induction false} FieldsSkipSpace(c: char, s: string)
    requires IsSpace(c)
    ensures Fields([c] + s) == Fields(s)
  {
    assert ([c] + s)[1..] == s;
    assert TrimLeft([c] + s) == TrimLeft(s);
  }

  /** A word followed by white space (or nothing) is the leading word. */
  lemma {:induction false} LeadingWordOf(w: string, x: string)
    requires NoSpace(w)
    requires x == [] || IsSpace(x[0])
    ensures LeadingWord(w + x) == w
  {
    if w != [] {
      assert (w + x)[1..] == w[1..] + x;
      LeadingWordOf(w[1..], x);
      assert [w[0]] + w[1..] == w;
    } else {
      assert w + x == x;
    }
  }

  /** A single word is its only field. */
  lemma {:induction false} FieldsOfWordThen(w: string, x: string)
    requires w != [] && NoSpace(w)
    requires x == [] || IsSpace(x[0])
    ensures Fields(w + x) == [w] + Fields(x)
  {
    var s := w + x;
    assert TrimLeft(s) == s by {
      assert s[0] == w[0];
    }
    LeadingWordOf(w, x);
    assert s[|w|..] == x;
    FieldsStep(s, s, w, x);
  }

  /** A single word is its only field. */
  lemma FieldsOfWord(w: string)
    requires IsWord(w)
    ensures Fields(w) == [w]
  {
    var none: string := [];
    FieldsOfWordThen(w, none);
    assert w + none == w;
    assert Fields(none) == [] by {
      assert TrimLeft(none) == [];
    }
  }

  /** Joining one more word in front adds exactly that field in front. */
  lemma FieldsOfJoinCons(w: string, tail: seq<string>)
    requires IsWord(w) && tail != []
    ensures Fields(JoinWords([w] + tail)) == [w] + Fields(JoinWords(tail))
  {
    var rest := JoinWords(tail);
    assert ([w] + tail)[1..] == tail;
    assert JoinWords([w] + tail) == w + ([' '] + rest);
    FieldsOfWordThen(w, [' '] + rest);
    FieldsSkipSpace(' ', rest);
  }

  /** Splitting the words back out of their joined form gives the words. */
  lemma {:induction false} FieldsOfJoin(ws: seq<string>)
    requires AllWords(ws)
    ensures Fields(JoinWords(ws)) == ws
    decreases |ws|
  {
    if |ws| == 0 {
      assert IsBlank(JoinWords(ws));
    } else if |ws| == 1 {
      FieldsOfWord(ws[0]);
    } else {
      var tail := ws[1..];
      assert AllWords(tail) by {
        forall i | 0 <= i < |tail| ensures IsWord(tail[i]) {
          assert tail[i] == ws[i + 1];
        }
      }
      assert ws == [ws[0]] + tail;
      FieldsOfJoinCons(ws[0], tail);
      FieldsOfJoin(tail);
    }
  }

  /**
   * Fields `fs` laid out with white space: `gaps[0] + fs[0] + gaps[1] + ... + fs[n - 1] + gaps[n]`.
   */
  function Spread(fs: seq<string>, gaps: seq<string>): string
    requires |gaps| == |fs| + 1
    decreases |fs|
  {
    if fs == [] then gaps[0] else gaps[0] + (fs[0] + Spread(fs[1..], gaps[1..]))
  }

  /**
   * White space that may separate fields: all of it blank, and at least one character
   * between two fields; the leading and trailing white space may be empty.
   */
  predicate Separators(fs: seq<string>, gaps: seq<string>)
    decreases |fs|
  {
    && |gaps| == |fs| + 1 && IsBlank(gaps[0])
    && (fs != [] ==> (|fs| > 1 ==> gaps[1] != []) && Separators(fs[1..], gaps[1..]))
  }

  lemma SpreadCons(f: string, fs: seq<string>, g: string, gaps: seq<string>)
    requires |gaps| == |fs| + 1
    ensures Spread([f] + fs, [g] + gaps) == g + (f + Spread(fs, gaps))
  {
    assert ([f] + fs)[1..] == fs;
    assert ([g] + gaps)[1..] == gaps;
  }

  lemma SeparatorsCons(f: string, fs: seq<string>, g: string, gaps: seq<string>)
    requires IsBlank(g) && Separators(fs, gaps) && (fs != [] ==> gaps[0] != [])
    ensures Separators([f] + fs, [g] + gaps)
  {
    assert ([f] + fs)[1..] == fs;
    assert ([g] + gaps)[1..] == gaps;
  }

  lemma AllWordsTail(fs: seq<string>)
    requires fs != [] && AllWords(fs)
    ensures IsWord(fs[0]) && AllWords(fs[1..])
  {
    forall i | 0 <= i < |fs| - 1 ensures IsWord(fs[1..][i]) {
      assert fs[1..][i] == fs[i + 1];
    }
  }

  /** A layout that does not open with a field opens with white space, or is empty. */
  lemma SpreadStart(fs: seq<string>, gaps: seq<string>)
    requires |gaps| == |fs| + 1 && IsBlank(gaps[0]) && (fs != [] ==> gaps[0] != [])
    ensures var s := Spread(fs, gaps); s == [] || IsSpace(s[0])
  {
    if fs != [] {
      var s := Spread(fs, gaps);
      assert s[0] == gaps[0][0];
    }
  }

  /** Blank text in front does not change the fields. */
  lemma {:induction false} FieldsSkipBlank(g: string, s: string)
    requires IsBlank(g)
    ensures Fields(g + s) == Fields(s)
    decreases |g|
  {
    if g != [] {
      assert g + s == [g[0]] + (g[1..] + s);
      FieldsSkipSpace(g[0], g[1..] + s);
      FieldsSkipBlank(g[1..], s);
    } else {
      assert g + s == s;
    }
  }

  /** The layout of words with any white space between them has exactly those words as fields. */
  lemma {:induction false} FieldsOfSpread(fs: seq<string>, gaps: seq<string>)
    requires AllWords(fs) && Separators(fs, gaps)
    ensures Fields(Spread(fs, gaps)) == fs
    decreases |fs|
  {
    if fs == [] {
      assert IsBlank(Spread(fs, gaps));
    } else {
      HeadTail(fs);
      var rest := Spread(fs[1..], gaps[1..]);
      AllWordsTail(fs);
      SpreadStart(fs[1..], gaps[1..]);
      FieldsOfSpread(fs[1..], gaps[1..]);
      FieldsOfSpreadStep(gaps[0], fs[0], rest, fs[1..]);
    }
  }

  lemma HeadTail<T>(s: seq<T>)
    requires s != []
    ensures [s[0]] + s[1..] == s
  {
  }

  /** One step of FieldsOfSpread: white space, then a word, then text with fields `fs`. */
  lemma FieldsOfSpreadStep(g: string, w: string, rest: string, fs: seq<string>)
    requires IsBlank(g) && IsWord(w) && (rest == [] || IsSpace(rest[0])) && Fields(rest) == fs
    ensures Fields(g + (w + rest)) == [w] + fs
  {
    FieldsSkipBlank(g, w + rest);
    FieldsOfWordThen(w, rest);
  }

  /**
   * The white space around and between the fields of `s`: every string is its fields
   * laid out with white space, so together with FieldsOfSpread this pins Fields down.
   */
  function GapsOf(s: string): (gaps: seq<string>)
    ensures Separators(Fields(s), gaps) && Spread(Fields(s), gaps) == s
    ensures gaps[0] == s[..|s| - |TrimLeft(s)|]
    decreases |s|
  {
    var t := TrimLeft(s);
    var lead := s[..|s| - |t|];
    if t == [] then
      assert s == lead;
      [lead]
    else
      var w := LeadingWord(t);
      LeadingWordIsWord(t);
      var rest := t[|w|..];
      var g := GapsOf(rest);
      FieldsStep(s, t, w, rest);
      GapAfterWord(t, w, rest);
      TrimLeftSplit(s);
      LeadingWordSplit(t);
      LayoutCons(s, lead, w, rest, Fields(rest), g);
      [lead] + g
  }

  /** A string is its leading white space followed by the rest. */
  lemma TrimLeftSplit(s: string)
    ensures s == s[..|s| - |TrimLeft(s)|] + TrimLeft(s)
  {
  }

  /** A string is its leading word followed by the rest. */
  lemma LeadingWordSplit(t: string)
    ensures t == LeadingWord(t) + t[|LeadingWord(t)|..]
  {
  }

  /** Fields splits off the leading word of the string with its leading white space removed. */
  lemma FieldsStep(s: string, t: string, w: string, rest: string)
    requires t == TrimLeft(s) && t != [] && w == LeadingWord(t) && rest == t[|w|..]
    ensures Fields(s) == [w] + Fields(rest)
  {
  }

  /** After a leading word, more text starts with white space, so its leading white space is not empty. */
  lemma GapAfterWord(t: string, w: string, rest: string)
    requires w == LeadingWord(t) && rest == t[|w|..]
    ensures !IsBlank(rest) ==> rest[..|rest| - |TrimLeft(rest)|] != []
  {
    if !IsBlank(rest) {
      assert rest != [];
      assert IsSpace(rest[0]);
    }
  }

  /** A field with white space before it, in front of a layout, is a layout with one more field. */
  lemma LayoutCons(s: string, lead: string, w: string, rest: string, fs: seq<string>, g: seq<string>)
    requires s == lead + (w + rest) && IsBlank(lead)
    requires Separators(fs, g) && Spread(fs, g) == rest && (fs != [] ==> g[0] != [])
    ensures Separators([w] + fs, [lead] + g) && Spread([w] + fs, [lead] + g) == s
  {
    SeparatorsCons(w, fs, lead, g);
    SpreadCons(w, fs, lead, g);
  }

  /** The last field of a layout is followed by nothing but the trailing white space. */
  lemma {:induction false} SpreadLast(fs: seq<string>, gaps: seq<string>) returns (front: string)
    requires fs != [] && |gaps| == |fs| + 1
    ensures Spread(fs, gaps) == front + (fs[|fs| - 1] + gaps[|fs|])
    decreases |fs|
  {
    var tail := fs[|fs| - 1] + gaps[|fs|];
    if |fs| == 1 {
      front := gaps[0];
      assert Spread(fs[1..], gaps[1..]) == gaps[1];
    } else {
      var f := SpreadLast(fs[1..], gaps[1..]);
      assert fs[1..][|fs| - 2] == fs[|fs| - 1];
      assert gaps[1..][|fs| - 1] == gaps[|fs|];
      assert Spread(fs, gaps) == gaps[0] + (fs[0] + (f + tail));
      front := gaps[0] + fs[0] + f;
      AppendAssoc3(gaps[0], fs[0], f, tail);
    }
  }

  lemma AppendAssoc3(a: string, b: string, c: string, d: string)
    ensures a + (b + (c + d)) == (a + b + c) + d
  {
  }

  /** The trailing white space of a layout is blank. */
  lemma {:induction false} SeparatorsLastBlank(fs: seq<string>, gaps: seq<string>)
    requires Separators(fs, gaps)
    ensures IsBlank(gaps[|fs|])
    decreases |fs|
  {
    if fs != [] {
      SeparatorsLastBlank(fs[1..], gaps[1..]);
      assert gaps[1..][|fs| - 1] == gaps[|fs|];
    }
  }

  /** `suffix` ends `s`. */
  predicate EndsWith(s: string, suffix: string) {
    |suffix| <= |s| && s[|s| - |suffix|..] == suffix
  }

  /** The first field opens the string once its leading white space is removed. */
  lemma FirstFieldOpens(s: string)
    requires Fields(s) != []
    ensures Fields(s)[0] <= TrimLeft(s)
  {
    var t := TrimLeft(s);
    FieldsStep(s, t, LeadingWord(t), t[|LeadingWord(t)|..]);
  }

  /** The last field closes the string once its trailing white space is removed. */
  lemma LastFieldCloses(s: string)
    requires Fields(s) != []
    ensures EndsWith(TrimRight(s), Fields(s)[|Fields(s)| - 1])
  {
    var fs := Fields(s);
    var gaps := GapsOf(s);
    var front := SpreadLast(fs, gaps);
    SeparatorsLastBlank(fs, gaps);
    EndsWithBeforeBlank(front, fs[|fs| - 1], gaps[|fs|]);
  }

  /** A word followed only by white space ends the text once that white space is removed. */
  lemma EndsWithBeforeBlank(front: string, w: string, g: string)
    requires IsWord(w) && IsBlank(g)
    ensures EndsWith(TrimRight(front + (w + g)), w)
  {
    assert front + (w + g) == (front + w) + g;
    TrimRightOf(front + w, g);
    assert (front + w)[|front|..] == w;
  }

  /** Removing trailing white space from text that ends in a non-space leaves that text. */
  lemma {:induction false} TrimRightOf(x: string, g: string)
    requires x != [] && !IsSpace(x[|x| - 1]) && IsBlank(g)
    ensures TrimRight(x + g) == x
    decreases |g|
  {
    if g == [] {
      assert x + g == x;
    } else {
      var s := x + g;
      assert s[..|s| - 1] == x + g[..|g| - 1];
      assert IsSpace(s[|s| - 1]);
      TrimRightOf(x, g[..|g| - 1]);
    }
  }

  /** No CR immediately followed by LF. */
  predicate NoCRLF(s: string) {
    forall i :: 0 <= i < |s| - 1 ==> !(s[i] == '\r' && s[i + 1] == '\n')
  }

  /**
   * Splits off the text before the first CRLF, and the text after it; None when
   * there is no CRLF.
   */
  function SplitLine(s: string): (r: Option<(string, string)>)
    ensures r.Some? ==> s == r.value.0 + CRLF + r.value.1 && NoCRLF(r.value.0)
    ensures r.None? ==> NoCRLF(s)
  {
    if |s| < 2 then None
    else if s[0] == '\r' && s[1] == '\n' then
      assert s == [] + CRLF + s[2..];
      Some(([], s[2..]))
    else
      match SplitLine(s[1..])
      case None => None
      case Some((line, rest)) =>
        assert s == ([s[0]] + line) + CRLF + rest;
        Some(([s[0]] + line, rest))
  }

  /** A line with no CRLF in it is split off at the CRLF that ends it. */
  lemma {:induction false} SplitLineOf(line: string, rest: string)
    requires NoCRLF(line)
    ensures SplitLine(line + CRLF + rest) == Some((line, rest))
  {
    var s := line + CRLF + rest;
    if line == [] {
      assert s == CRLF + rest;
      assert s[2..] == rest;
    } else {
      assert s[1..] == line[1..] + CRLF + rest;
      assert !(s[0] == '\r' && s[1] == '\n') by {
        if |line| == 1 {
          assert s[1] == '\r';
        } else {
          assert s[1] == line[1];
        }
      }
      SplitLineOf(line[1..], rest);
      assert [line[0]] + line[1..] == line;
    }
  }

  /** `sub` occurs in `s`. */
  ghost predicate Contains(s: string, sub: string) {
    exists i :: 0 <= i && OccursAt(s, sub, i)
  }

  /** `sub` occurs in `s` starting at index `i`. */
  predicate OccursAt(s: string, sub: string, i: nat) {
    i + |sub| <= |s| && s[i..i + |sub|] == sub
  }
}
