/**
 Text handling: trimming, thread titles, user names and the lines of a post. The Unicode
 tables are parameters; a string is a sequence of code points with its UTF-8 length.
 */
module Text {
  import opened Options

  /** The character classes and the case folding of the Unicode tables. */
  datatype Alphabet = Alphabet(
    space: char -> bool,
    titleChar: char -> bool,
    letterOrNumber: char -> bool,
    equalFold: (string, string) -> bool)
  {
    /** What is used of the tables: a line feed is a space, folding is an equivalence. */
    ghost predicate Sane() {
      && space('\n')
      && (forall s :: equalFold(s, s))
      && (forall s, t :: equalFold(s, t) ==> equalFold(t, s))
      && (forall s, t, u :: equalFold(s, t) && equalFold(t, u) ==> equalFold(s, u))
    }
  }

  function CharBytes(c: char): nat {
    if c as int < 0x80 then 1 else if c as int < 0x800 then 2 else if c as int < 0x1_0000 then 3 else 4
  }

  /** The length in bytes of the UTF-8 form of s. */
  function ByteLength(s: string): nat {
    if s == [] then 0 else CharBytes(s[0]) + ByteLength(s[1..])
  }

  /** Lengths add up, and a character has one byte for seven bits, two for eleven, three for sixteen, and else four. */
  lemma {:induction false} BytesAddUp(s: string, t: string, c: char)
    ensures ByteLength(s + t) == ByteLength(s) + ByteLength(t)
    ensures ByteLength([c]) == if c as int < 128 then 1 else if c as int < 2048 then 2
                               else if c as int < 65536 then 3 else 4
  {
    if s == [] {
      assert s + t == t;
    } else {
      BytesAddUp(s[1..], t, c);
      assert (s + t)[1..] == s[1..] + t;
    }
  }

  function TrimLeft(s: string, space: char -> bool): string {
    if s != [] && space(s[0]) then TrimLeft(s[1..], space) else s
  }

  function TrimRight(s: string, space: char -> bool): string {
    if s != [] && space(s[|s| - 1]) then TrimRight(s[..|s| - 1], space) else s
  }

  function Trim(s: string, space: char -> bool): string {
    TrimRight(TrimLeft(s, space), space)
  }

  /** The characters that are not spaces, in order. */
  function Visible(s: string, space: char -> bool): string {
    if s == [] then []
    else (if space(s[0]) then [] else [s[0]]) + Visible(s[1..], space)
  }

  lemma Associative(a: string, b: string, c: string)
    ensures a + (b + c) == (a + b) + c
  {
  }

  lemma VisibleCons(s: string, space: char -> bool)
    requires s != []
    ensures Visible(s, space) == (if space(s[0]) then [] else [s[0]]) + Visible(s[1..], space)
  {
  }

  lemma {:induction false} VisibleConcat(s: string, t: string, space: char -> bool)
    ensures Visible(s + t, space) == Visible(s, space) + Visible(t, space)
  {
    if s == [] {
      assert s + t == t;
    } else {
      VisibleConcat(s[1..], t, space);
      VisibleCons(s, space);
      VisibleCons(s + t, space);
      hide Visible;
      assert (s + t)[1..] == s[1..] + t && (s + t)[0] == s[0];
      Associative(if space(s[0]) then [] else [s[0]], Visible(s[1..], space), Visible(t, space));
    }
  }

  lemma {:induction false} TrimLeftFacts(s: string, space: char -> bool)
    ensures forall c :: c in TrimLeft(s, space) ==> c in s
    ensures Visible(TrimLeft(s, space), space) == Visible(s, space)
    ensures var r := TrimLeft(s, space); r == [] || !space(r[0])
  {
    if s != [] && space(s[0]) {
      TrimLeftFacts(s[1..], space);
      VisibleCons(s, space);
      hide Visible;
      assert s == [s[0]] + s[1..];
    }
  }

  lemma VisibleSnoc(s: string, c: char, space: char -> bool)
    requires space(c)
    ensures Visible(s + [c], space) == Visible(s, space)
  {
    VisibleConcat(s, [c], space);
    assert Visible([c], space) == [];
  }

  lemma {:induction false} TrimRightFacts(s: string, space: char -> bool)
    ensures forall c :: c in TrimRight(s, space) ==> c in s
    ensures Visible(TrimRight(s, space), space) == Visible(s, space)
    ensures var r := TrimRight(s, space); r == [] || !space(r[|r| - 1])
    ensures s == [] || space(s[0]) || (TrimRight(s, space) != [] && TrimRight(s, space)[0] == s[0])
  {
    if s != [] && space(s[|s| - 1]) {
      var rest := s[..|s| - 1];
      TrimRightFacts(rest, space);
      VisibleSnoc(rest, s[|s| - 1], space);
      hide Visible;
      assert s == rest + [s[|s| - 1]];
    }
  }

  /** Trimming cuts out a middle part, keeps every visible character and is idempotent. */
  lemma TrimFacts(s: string, space: char -> bool)
    ensures forall c :: c in Trim(s, space) ==> c in s
    ensures Visible(Trim(s, space), space) == Visible(s, space)
    ensures Trim(Trim(s, space), space) == Trim(s, space)
  {
    var l := TrimLeft(s, space);
    TrimLeftFacts(s, space);
    TrimRightFacts(l, space);
  }

  predicate AllSpaces(s: string, space: char -> bool) {
    forall c :: c in s ==> space(c)
  }

  lemma {:induction false} TrimLeftCut(s: string, space: char -> bool) returns (i: nat)
    ensures i <= |s| && TrimLeft(s, space) == s[i..] && AllSpaces(s[..i], space)
  {
    if s != [] && space(s[0]) {
      i := TrimLeftCut(s[1..], space);
      assert s[1..][i..] == s[i + 1..] && s[..i + 1] == [s[0]] + s[1..][..i];
      i := i + 1;
    } else {
      i := 0;
    }
  }

  lemma {:induction false} TrimRightCut(s: string, space: char -> bool) returns (j: nat)
    ensures j <= |s| && TrimRight(s, space) == s[..j] && AllSpaces(s[j..], space)
  {
    if s != [] && space(s[|s| - 1]) {
      j := TrimRightCut(s[..|s| - 1], space);
      assert s[..|s| - 1][..j] == s[..j] && s[j..] == s[..|s| - 1][j..] + [s[|s| - 1]];
    } else {
      j := |s|;
    }
  }

  /** Trimming takes spaces away at both ends, all of them, and nothing else. */
  lemma TrimIsMiddle(s: string, space: char -> bool) returns (i: nat, j: nat)
    ensures i <= j <= |s| && Trim(s, space) == s[i..j] && AllSpaces(s[..i], space) && AllSpaces(s[j..], space)
    ensures var r := Trim(s, space); r == [] || (!space(r[0]) && !space(r[|r| - 1]))
  {
    i := TrimLeftCut(s, space);
    j := TrimRightCut(s[i..], space);
    TrimLeftFacts(s, space);
    TrimRightFacts(s[i..], space);
    assert s[i..][..j] == s[i..i + j] && s[i..][j..] == s[i + j..];
    j := i + j;
  }

  // ---------- Thread titles and user names ----------

  const TITLE_MAX: nat := 96
  const USERNAME_MAX: nat := 24
  const PASSWORD_MIN: nat := 8

  datatype TitleError = TitleEmpty | TitleTooLong | TitleIllegalCharacter

  function TitleProblem(t: string, a: Alphabet): Option<TitleError> {
    var title := Trim(t, a.space);
    if title == [] then Some(TitleEmpty)
    else if ByteLength(title) > TITLE_MAX then Some(TitleTooLong)
    else if exists c :: c in t && !a.titleChar(c) then Some(TitleIllegalCharacter)
    else None
  }

  /** A title is not empty, does not begin or end with a space, has at most 96 bytes and only title characters. */
  predicate TitleShape(title: string, a: Alphabet) {
    && title != [] && !a.space(title[0]) && !a.space(title[|title| - 1])
    && ByteLength(title) <= 96
    && forall c :: c in title ==> a.titleChar(c)
  }

  /** A trimmed title is accepted if and only if it has the shape of a title; an empty one is called empty, and a
      longer one too long, whatever its characters. */
  lemma AcceptedTitles(t: string, a: Alphabet)
    ensures TitleProblem(Trim(t, a.space), a).None? <==> TitleShape(Trim(t, a.space), a)
    ensures TitleProblem(Trim(t, a.space), a) == Some(TitleEmpty) <==> Trim(t, a.space) == ""
    ensures TitleProblem(Trim(t, a.space), a) == Some(TitleTooLong) <==> ByteLength(Trim(t, a.space)) > 96
  {
    hide TrimLeft, TrimRight;
    assert ByteLength("") == 0;
    hide ByteLength;
    TrimFacts(t, a.space);
    var _, _ := TrimIsMiddle(t, a.space);
    hide Trim;
  }

  /** The scan of ValidateThreadTitle; it looks at the untrimmed text. */
  method ValidateThreadTitle(t: string, a: Alphabet) returns (problem: Option<TitleError>)
    ensures problem == TitleProblem(t, a)
  {
    var title := Trim(t, a.space);
    if |title| == 0 {
      return Some(TitleEmpty);
    }
    if ByteLength(title) > TITLE_MAX {
      return Some(TitleTooLong);
    }
    for i := 0 to |t|
      invariant forall c :: c in t[..i] ==> a.titleChar(c)
    {
      if !a.titleChar(t[i]) {
        return Some(TitleIllegalCharacter);
      }
    }
    assert t[..|t|] == t;
    return None;
  }

  /** validatePassword, on the password as typed. */
  predicate PasswordFits(pass: string) {
    ByteLength(pass) >= PASSWORD_MIN
  }

  predicate WordChar(c: char, a: Alphabet) {
    a.letterOrNumber(c) || c == '_'
  }

  /** The shape of every stored user name. */
  predicate UsernameShape(name: string, a: Alphabet) {
    && 1 <= ByteLength(name) <= USERNAME_MAX
    && forall c :: c in name ==> WordChar(c, a)
  }

  // ---------- Lines of a post ----------

  /** The length of the first run of characters other than a line feed. */
  function RunLength(s: string): (n: nat)
    ensures n <= |s|
    ensures forall i :: 0 <= i < n ==> s[i] != '\n'
    ensures n < |s| ==> s[n] == '\n'
  {
    if s == [] || s[0] == '\n' then 0 else 1 + RunLength(s[1..])
  }

  /** FieldsFunc over the line feed: the maximal runs, none of them empty. */
  function Fields(s: string): seq<string>
    decreases |s|
  {
    if s == [] then []
    else if s[0] == '\n' then Fields(s[1..])
    else [s[..RunLength(s)]] + Fields(s[RunLength(s)..])
  }

  /** The trimmed lines that are not empty. */
  function Clean(lines: seq<string>, space: char -> bool): seq<string> {
    if lines == [] then []
    else
      var rest := Clean(lines[..|lines| - 1], space);
      var str := Trim(lines[|lines| - 1], space);
      if |str| != 0 then rest + [str] else rest
  }

  /** GetLinesOfPost. */
  method GetLinesOfPost(text: string, a: Alphabet) returns (out: seq<string>)
    ensures out == Clean(Fields(text), a.space)
  {
    out := [];
    var fields := Fields(text);
    for i := 0 to |fields|
      invariant out == Clean(fields[..i], a.space)
    {
      assert fields[..i + 1][..i] == fields[..i];
      var str := Trim(fields[i], a.space);
      if |str| != 0 {
        out := out + [str];
      }
    }
    assert fields[..|fields|] == fields;
  }

  ghost predicate PlainLine(l: string, space: char -> bool) {
    l != [] && '\n' !in l && Trim(l, space) == l
  }

  ghost function Join(lines: seq<string>): string {
    if lines == [] then [] else if |lines| == 1 then lines[0] else lines[0] + ['\n'] + Join(lines[1..])
  }

  ghost function Concat(lines: seq<string>): string {
    if lines == [] then [] else Concat(lines[..|lines| - 1]) + lines[|lines| - 1]
  }

  lemma {:induction false} FieldsArePlain(s: string)
    ensures forall l :: l in Fields(s) ==> l != [] && '\n' !in l
    decreases |s|
  {
    if s == [] {
    } else {
      if s[0] == '\n' {
        FieldsArePlain(s[1..]);
      } else {
        FieldsArePlain(s[RunLength(s)..]);
      }
    }
  }

  lemma {:induction false} CleanIsPlain(lines: seq<string>, space: char -> bool)
    requires forall l :: l in lines ==> '\n' !in l
    ensures forall l :: l in Clean(lines, space) ==> PlainLine(l, space)
  {
    if lines == [] {
    } else {
      CleanIsPlain(lines[..|lines| - 1], space);
      TrimFacts(lines[|lines| - 1], space);
      assert lines[|lines| - 1] in lines;
    }
  }

  lemma {:induction false} CleanOfPlain(lines: seq<string>, space: char -> bool)
    requires forall l :: l in lines ==> PlainLine(l, space)
    ensures Clean(lines, space) == lines
  {
    if lines == [] {
    } else {
      CleanOfPlain(lines[..|lines| - 1], space);
      assert lines[|lines| - 1] in lines;
      assert lines == lines[..|lines| - 1] + [lines[|lines| - 1]];
    }
  }

  lemma RunOfLine(l: string, rest: string)
    requires '\n' !in l
    requires rest == [] || rest[0] == '\n'
    ensures RunLength(l + rest) == |l|
  {
    assert rest != [] ==> (l + rest)[|l|] == rest[0];
  }

  lemma {:induction false} FieldsOfJoin(lines: seq<string>)
    requires forall l :: l in lines ==> l != [] && '\n' !in l
    ensures Fields(Join(lines)) == lines
  {
    if |lines| == 1 {
      RunOfLine(lines[0], []);
      assert lines[0] + [] == lines[0];
      assert lines[0][..|lines[0]|] == lines[0];
    } else if |lines| > 1 {
      var l, rest := lines[0], ['\n'] + Join(lines[1..]);
      assert forall x :: x in lines[1..] ==> x in lines;
      FieldsOfJoin(lines[1..]);
      RunOfLine(l, rest);
      assert Join(lines) == l + rest;
      assert (l + rest)[..|l|] == l && (l + rest)[|l|..] == rest;
      assert rest[1..] == Join(lines[1..]);
      assert lines == [l] + lines[1..];
    }
  }

  /** Every line shown is non-empty, trimmed and free of line feeds; showing them again changes nothing. */
  lemma LinesAreStable(text: string, a: Alphabet)
    ensures var out := Clean(Fields(text), a.space);
            && (forall l :: l in out ==> PlainLine(l, a.space))
            && Clean(Fields(Join(out)), a.space) == out
  {
    var out := Clean(Fields(text), a.space);
    FieldsArePlain(text);
    CleanIsPlain(Fields(text), a.space);
    FieldsOfJoin(out);
    CleanOfPlain(out, a.space);
  }

  lemma {:induction false} RunBeforeFeed(s: string, t: string)
    ensures RunLength(s + ['\n'] + t) == RunLength(s)
  {
    var all := s + ['\n'] + t;
    if s == [] || s[0] == '\n' {
    } else {
      assert all[1..] == s[1..] + ['\n'] + t;
      RunBeforeFeed(s[1..], t);
    }
  }

  lemma FieldsStep(s: string)
    ensures s == [] ==> Fields(s) == []
    ensures s != [] && s[0] == '\n' ==> Fields(s) == Fields(s[1..])
    ensures s != [] && s[0] != '\n' ==>
      0 < RunLength(s) <= |s| && Fields(s) == [s[..RunLength(s)]] + Fields(s[RunLength(s)..])
  {
  }

  lemma {:induction false} FieldsOfTwo(s: string, t: string)
    ensures Fields(s + ['\n'] + t) == Fields(s) + Fields(t)
    decreases |s|
  {
    hide Fields, RunLength;
    var all := s + ['\n'] + t;
    FieldsStep(s);
    FieldsStep(all);
    if s == [] {
      assert all[1..] == t;
    } else if s[0] == '\n' {
      assert all[1..] == s[1..] + ['\n'] + t;
      FieldsOfTwo(s[1..], t);
    } else {
      var n := RunLength(s);
      RunBeforeFeed(s, t);
      assert all[..n] == s[..n] && all[n..] == s[n..] + ['\n'] + t;
      FieldsOfTwo(s[n..], t);
      assert [s[..n]] + (Fields(s[n..]) + Fields(t)) == ([s[..n]] + Fields(s[n..])) + Fields(t);
    }
  }

  lemma {:induction false} CleanOfTwo(lines: seq<string>, more: seq<string>, space: char -> bool)
    ensures Clean(lines + more, space) == Clean(lines, space) + Clean(more, space)
  {
    if more == [] {
      assert lines + more == lines;
    } else {
      CleanOfTwo(lines, more[..|more| - 1], space);
      assert (lines + more)[..|lines + more| - 1] == lines + more[..|more| - 1];
    }
  }

  /** What is a line: a text without line feed is one, trimmed, unless nothing is left of it; and the lines before a
      line feed and those behind it are the lines of the whole. */
  lemma LinesEndAtFeeds(s: string, t: string, a: Alphabet)
    ensures '\n' !in s ==>
      var line := Trim(s, a.space);
      Clean(Fields(s), a.space) == if line == "" then [] else [line]
    ensures Clean(Fields(s + ['\n'] + t), a.space) == Clean(Fields(s), a.space) + Clean(Fields(t), a.space)
  {
    FieldsOfTwo(s, t);
    CleanOfTwo(Fields(s), Fields(t), a.space);
    if '\n' !in s && s != [] {
      OneField(s);
      assert [s][..0] == [];
      hide Fields, Trim;
      assert Clean([], a.space) == [];
    }
  }

  lemma OneField(s: string)
    requires s != [] && '\n' !in s
    ensures Fields(s) == [s]
  {
    assert s + [] == s;
    RunOfLine(s, []);
    assert s[..|s|] == s && s[|s|..] == [];
    assert Fields([]) == [];
  }

  lemma {:induction false} ConcatCons(l: string, lines: seq<string>)
    ensures Concat([l] + lines) == l + Concat(lines)
  {
    if lines == [] {
      assert ([l] + lines)[..0] == [];
      assert Concat([l] + lines) == Concat([]) + l;
    } else {
      var init := lines[..|lines| - 1];
      ConcatCons(l, init);
      assert ([l] + lines)[..|lines|] == [l] + init;
      assert l + (Concat(init) + lines[|lines| - 1]) == l + Concat(init) + lines[|lines| - 1];
    }
  }

  lemma {:induction false} FieldsVisible(s: string, space: char -> bool)
    requires space('\n')
    ensures Visible(Concat(Fields(s)), space) == Visible(s, space)
    decreases |s|
  {
    if s == [] {
    } else {
      if s[0] == '\n' {
        FieldsVisible(s[1..], space);
      } else {
        var l, rest := s[..RunLength(s)], s[RunLength(s)..];
        FieldsVisible(rest, space);
        ConcatCons(l, Fields(rest));
        VisibleConcat(l, Concat(Fields(rest)), space);
        VisibleConcat(l, rest, space);
        assert s == l + rest;
      }
    }
  }

  lemma {:induction false} CleanVisible(lines: seq<string>, space: char -> bool)
    ensures Visible(Concat(Clean(lines, space)), space) == Visible(Concat(lines), space)
  {
    if lines == [] {
    } else {
      var init, l := lines[..|lines| - 1], lines[|lines| - 1];
      CleanVisible(init, space);
      TrimFacts(l, space);
      VisibleConcat(Concat(init), l, space);
      var out := Clean(init, space);
      VisibleConcat(Concat(out), Trim(l, space), space);
      assert (out + [Trim(l, space)])[..|out|] == out;
      if Trim(l, space) == [] {
        assert Visible([], space) == [];
      }
    }
  }

  /** The lines shown have the visible characters of the text, all of them and in order. */
  lemma LinesConserveText(text: string, a: Alphabet)
    requires a.Sane()
    ensures Visible(Concat(Clean(Fields(text), a.space)), a.space) == Visible(text, a.space)
  {
    CleanVisible(Fields(text), a.space);
    FieldsVisible(text, a.space);
  }
}
