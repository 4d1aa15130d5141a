/** The two patterns of `strip_signatures`, each as what it says: a text of the form, in one piece. */
module SignaturePatterns {
  import opened Json
  import opened Models
  import opened Text
  import opened Signatures

  predicate IsMark(c: char) {
    c in {'\U{26A1}', '\U{1F9E0}', '\U{1F680}', '\U{1F30D}', '\U{1F433}', '\U{2728}'}
  }

  predicate IsName(name: string) {
    name != "" && forall i | 0 <= i < |name| ::
      'a' <= name[i] <= 'z' || 'A' <= name[i] <= 'Z' || '0' <= name[i] <= '9' || name[i] in {'.', '_', '/', '-'}
  }

  predicate IsGap(s: string) {
    s != "" && AllSpace(s)
  }

  /** The words for the efforts, and the one for none. */
  predicate IsEffortWord(w: string) {
    w == "low" || w == "medium" || w == "high" || w == "xhigh" || w == "max"
  }

  const NO_EFFORT := "non sp\U{e9}cifi\U{e9}"

  lemma EffortWords(w: string)
    ensures IsEffortWord(w) <==> exists e :: e in EFFORTS && EffortLabel(e) == w
    ensures IsEffortWord(w) || w == NO_EFFORT <==> exists e :: e in LABELS && EffortLabel(e) == w
  {
    EffortsAre();
    assert EffortLabel(None) == NO_EFFORT;
    if e :| e in EFFORTS && EffortLabel(e) == w {
      match e.value case Low => case Medium => case High => case Xhigh => case Max =>
    }
    assert EffortLabel(Some(Low)) == "low" && EffortLabel(Some(Medium)) == "medium" &&
           EffortLabel(Some(High)) == "high" && EffortLabel(Some(Xhigh)) == "xhigh" && EffortLabel(Some(Max)) == "max";
  }

  lemma EffortsAre()
    ensures forall e :: e in EFFORTS <==> e.Some?
    ensures forall e :: e in LABELS
  {
    forall e ensures e in LABELS {
      AllLabels(e);
    }
    forall e: Option<Effort> | e.Some? ensures e in EFFORTS {
      assert EFFORTS[0] == Some(Low) && EFFORTS[1] == Some(Medium) && EFFORTS[2] == Some(High) &&
             EFFORTS[3] == Some(Xhigh) && EFFORTS[4] == Some(Max);
      match e.value case Low => case Medium => case High => case Xhigh => case Max =>
    }
  }

  // ---------------------------------------------------------------- pieces

  lemma NamesAre(c: char)
    ensures IsNameChar(c) <==> IsName([c])
    ensures IsGlyph(c) <==> IsMark(c)
    ensures IsSpace(c) ==> !IsNameChar(c) && !IsMark(c)
  {
    assert [c][0] == c;
  }

  lemma {:induction false} SkipNameIs(s: string) returns (name: string)
    ensures s == name + SkipName(s) && (name == "" || IsName(name))
    ensures name != "" <==> MatchName(s).Some?
    ensures MatchName(s).Some? ==> MatchName(s) == Some(SkipName(s))
    decreases |s|
  {
    if s != "" && IsNameChar(s[0]) {
      var rest := SkipNameIs(s[1..]);
      name := [s[0]] + rest;
      NamesAre(s[0]);
      assert IsName([s[0]]) && [s[0]][0] == s[0];
    } else {
      name := "";
      assert "" + s == s;
    }
  }

  lemma NameSkipped(name: string, rest: string)
    requires IsName(name) && (rest == "" || !IsNameChar(rest[0]))
    ensures MatchName(name + rest) == Some(rest)
  {
    forall i | 0 <= i < |name| ensures IsNameChar(name[i]) {
    }
    if rest == "" {
      WholeName(name);
      assert name + rest == name;
    } else {
      SkipNameAll(name, rest);
    }
  }

  lemma {:induction false} WholeName(name: string)
    requires forall i | 0 <= i < |name| :: IsNameChar(name[i])
    ensures SkipName(name) == ""
    decreases |name|
  {
    if name != "" {
      WholeName(name[1..]);
    }
  }

  lemma {:induction false} GapSkipped(gap: string, rest: string)
    requires AllSpace(gap) && (rest == "" || !IsSpace(rest[0]))
    ensures StripLeft(gap + rest) == rest
    ensures gap != "" ==> MatchSpaces(gap + rest) == Some(rest)
    decreases |gap|
  {
    if gap == "" {
      assert gap + rest == rest;
    } else {
      GapSkipped(gap[1..], rest);
      assert (gap + rest)[1..] == gap[1..] + rest;
    }
  }

  lemma SpacesMatched(s: string) returns (gap: string)
    requires MatchSpaces(s).Some?
    ensures IsGap(gap) && s == gap + MatchSpaces(s).value
    ensures MatchSpaces(s).value == "" || !IsSpace(MatchSpaces(s).value[0])
  {
    StripLeftIs(s);
    gap :| s == gap + StripLeft(s) && AllSpace(gap);
    assert gap == "" ==> s == StripLeft(s);
  }

  lemma LabelMatched(s: string, labels: seq<Option<Effort>>) returns (e: Option<Effort>)
    requires MatchLabel(s, labels).Some?
    ensures e in labels && s == EffortLabel(e) + MatchLabel(s, labels).value
  {
    hide EffortLabel;
    if EffortLabel(labels[0]) <= s { e := labels[0]; } else { e := LabelMatched(s, labels[1..]); }
  }

  // ---------------------------------------------------------------- the trailing form

  /** A dash, a mark, a name, and maybe an effort behind a dot, with white space between and around them. */
  ghost predicate IsTailOf(s: string, a: string, b: string, mark: char, c: string, name: string, rest: string) {
    && AllSpace(a) && IsGap(b) && IsMark(mark) && IsGap(c) && IsName(name)
    && s == a + ("\U{2014}" + (b + ([mark] + (c + (name + rest)))))
  }

  ghost predicate IsTailEnd(rest: string) {
    AllSpace(rest) ||
    exists a, b, effort, c :: IsGap(a) && IsGap(b) && IsEffortWord(effort) && AllSpace(c) &&
      rest == a + ("\U{b7}" + (b + (effort + c)))
  }

  /** The matcher accepts exactly these texts. */
  lemma TailIs(s: string)
    ensures IsTail(s) <==> exists a, b, mark, c, name, rest :: IsTailOf(s, a, b, mark, c, name, rest) && IsTailEnd(rest)
  {
    hide IsTailOf, IsTailEnd, IsTail;
    if IsTail(s) {
      var a, b, mark, c, name, rest := TailMatched(s);
    }
    if a, b, mark, c, name, rest :| IsTailOf(s, a, b, mark, c, name, rest) && IsTailEnd(rest) {
      TailAccepted(s, a, b, mark, c, name, rest);
    }
  }

  /** What the matcher reads behind the name. */
  predicate MatchTailEnd(rest: string) {
    StripLeft(rest) == "" ||
    var afterDot := Then(Then(MatchSpaces(rest), t => Skip(t, "\U{b7}")), MatchSpaces);
    var afterEffort := Then(afterDot, t => MatchLabel(t, EFFORTS));
    afterEffort.Some? && StripLeft(afterEffort.value) == ""
  }

  function MatchTailStart(s: string): Option<string> {
    Then(Then(Then(Then(Skip(StripLeft(s), "\U{2014}"), MatchSpaces), MatchGlyph), MatchSpaces), MatchName)
  }

  lemma TailSplits(s: string)
    ensures IsTail(s) <==> MatchTailStart(s).Some? && MatchTailEnd(MatchTailStart(s).value)
  {
  }

  lemma TailMatched(s: string)
    returns (a: string, b: string, mark: char, c: string, name: string, rest: string)
    requires IsTail(s)
    ensures IsTailOf(s, a, b, mark, c, name, rest) && IsTailEnd(rest)
  {
    hide IsTail, MatchTailEnd, IsTailEnd, StripLeft, SkipName;
    TailSplits(s);
    a, b, mark, c, name, rest := StartMatched(s);
    TailEndIs(rest);
  }

  lemma StartMatched(s: string)
    returns (a: string, b: string, mark: char, c: string, name: string, rest: string)
    requires MatchTailStart(s).Some?
    ensures IsTailOf(s, a, b, mark, c, name, rest) && MatchTailStart(s) == Some(rest)
  {
    hide StripLeft, SkipName, MatchSpaces, MatchName;
    StripLeftIs(s);
    a :| s == a + StripLeft(s) && AllSpace(a);
    var s1 := Skip(StripLeft(s), "\U{2014}").value;
    b := SpacesMatched(s1);
    var s2 := MatchSpaces(s1).value;
    mark := s2[0];
    NamesAre(mark);
    var s3 := s2[1..];
    c := SpacesMatched(s3);
    var s4 := MatchSpaces(s3).value;
    name := SkipNameIs(s4);
    rest := SkipName(s4);
    assert StripLeft(s) == "\U{2014}" + s1 && s2 == [mark] + s3;
  }

  lemma TailEndIs(rest: string)
    ensures MatchTailEnd(rest) <==> IsTailEnd(rest)
  {
    hide StripLeft, MatchSpaces, MatchLabel, IsEffortWord;
    BlankIs(rest);
    if MatchTailEnd(rest) && StripLeft(rest) != "" {
      var a := SpacesMatched(rest);
      var s1 := MatchSpaces(rest).value;
      var s2 := s1[1..];
      var b := SpacesMatched(s2);
      var s3 := MatchSpaces(s2).value;
      var e := LabelMatched(s3, EFFORTS);
      var c := MatchLabel(s3, EFFORTS).value;
      EffortWords(EffortLabel(e));
      BlankIs(c);
      assert s1 == "\U{b7}" + s2;
      assert rest == a + ("\U{b7}" + (b + (EffortLabel(e) + c)));
    }
    if a, b, effort, c :| IsGap(a) && IsGap(b) && IsEffortWord(effort) && AllSpace(c) &&
                          rest == a + ("\U{b7}" + (b + (effort + c)))
    {
      EndAccepted(a, b, effort, c);
    }
  }

  lemma EndAccepted(a: string, b: string, effort: string, c: string)
    requires IsGap(a) && IsGap(b) && IsEffortWord(effort) && AllSpace(c)
    ensures MatchTailEnd(a + ("\U{b7}" + (b + (effort + c))))
  {
    hide StripLeft, MatchSpaces, MatchLabel;
    EffortWords(effort);
    var e :| e in EFFORTS && EffortLabel(e) == effort;
    var s2 := b + (effort + c);
    assert !IsSpace(effort[0]);
    GapSkipped(a, "\U{b7}" + s2);
    SkipPrefix("\U{b7}", s2);
    GapSkipped(b, effort + c);
    LabelMatches(e, c, EFFORTS);
    BlankIs(c);
  }

  lemma BlankIs(s: string)
    ensures StripLeft(s) == "" <==> AllSpace(s)
  {
    StripLeftIs(s);
    if AllSpace(s) {
      GapSkipped(s, "");
      assert s + "" == s;
    } else {
      var before :| s == before + StripLeft(s) && AllSpace(before);
      assert StripLeft(s) == "" ==> s == before;
    }
  }

  lemma TailAccepted(s: string, a: string, b: string, mark: char, c: string, name: string, rest: string)
    requires IsTailOf(s, a, b, mark, c, name, rest) && IsTailEnd(rest)
    ensures IsTail(s)
  {
    hide IsTail, MatchTailEnd, StripLeft, SkipName, MatchSpaces, MatchName;
    TailSplits(s);
    EndStart(rest);
    var s4 := name + rest;
    var s3 := c + s4;
    var s2 := [mark] + s3;
    var s1 := b + s2;
    NamesAre(mark);
    NamesAre(name[0]);
    GapSkipped(a, "\U{2014}" + s1);
    SkipPrefix("\U{2014}", s1);
    GapSkipped(b, s2);
    assert s2[0] == mark && s2[1..] == s3;
    GapSkipped(c, s4);
    NameSkipped(name, rest);
    TailEndIs(rest);
  }

  /** Behind the name there is white space or nothing. */
  lemma EndStart(rest: string)
    requires IsTailEnd(rest)
    ensures rest == "" || (IsSpace(rest[0]) && !IsNameChar(rest[0]))
  {
    if rest != "" { NamesAre(rest[0]); }
  }

  // ---------------------------------------------------------------- the leading form

  ghost predicate IsHeaderOf(s: string, mark: char, name: string, effort: string, breaks: string, rest: string) {
    && IsMark(mark) && IsName(name) && (IsEffortWord(effort) || effort == NO_EFFORT)
    && breaks in {"\n\n", "\r\n\n", "\n\r\n", "\r\n\r\n"}
    && s == "**" + ([mark] + (" " + (name + (" \U{b7} thinking: " + (effort + ("**" + (breaks + rest)))))))
  }

  /** The matcher finds a header exactly at the beginning of these texts, and leaves what is behind it. */
  lemma HeaderIs(s: string, rest: string)
    ensures MatchHeader(s) == Some(rest) <==>
            exists mark, name, effort, breaks :: IsHeaderOf(s, mark, name, effort, breaks, rest)
  {
    hide IsHeaderOf, MatchHeader;
    if MatchHeader(s) == Some(rest) {
      var mark, name, effort, breaks := HeaderMatched(s, rest);
    }
    if mark, name, effort, breaks :| IsHeaderOf(s, mark, name, effort, breaks, rest) {
      HeaderAccepted(s, mark, name, effort, breaks, rest);
    }
  }

  lemma HeaderAccepted(s: string, mark: char, name: string, effort: string, breaks: string, rest: string)
    requires IsHeaderOf(s, mark, name, effort, breaks, rest)
    ensures MatchHeader(s) == Some(rest)
  {
    hide MatchHeaderWith, MatchLabel, MatchNewline, EffortLabel, IsEffortWord;
    EffortWords(effort);
    var e :| e in LABELS && EffortLabel(e) == effort;
    NamesAre(mark);
    forall i | 0 <= i < |name| ensures IsNameChar(name[i]) {
    }
    assert THINKING == " \U{b7} thinking: " && THINKING[0] == ' ';
    var tail := effort + ("**" + (breaks + rest));
    FormMatches(THINKING, LABELS, mark, name, tail);
    LabelMatches(e, "**" + (breaks + rest), LABELS);
    SkipPrefix("**", breaks + rest);
    BreaksMatch(breaks, rest);
  }

  lemma HeaderMatched(s: string, rest: string) returns (mark: char, name: string, effort: string, breaks: string)
    requires MatchHeader(s) == Some(rest)
    ensures IsHeaderOf(s, mark, name, effort, breaks, rest)
  {
    hide MatchLabel, MatchNewline, EffortLabel, IsEffortWord, SkipName, MatchName;
    var s1 := Skip(s, "**").value;
    mark := s1[0];
    NamesAre(mark);
    var s2 := Skip(s1[1..], " ").value;
    name := SkipNameIs(s2);
    var s3 := Skip(SkipName(s2), THINKING).value;
    var e := LabelMatched(s3, LABELS);
    effort := EffortLabel(e);
    EffortWords(effort);
    var s4 := MatchLabel(s3, LABELS).value;
    var s5 := Skip(s4, "**").value;
    breaks := MatchedBreaks(s5);
    BreaksMatch(breaks, s5[|breaks|..]);
    assert s5 == breaks + s5[|breaks|..];
    assert s5 == breaks + rest;
    assert s4 == "**" + s5 && s1 == [mark] + s1[1..] && s1[1..] == " " + s2 && SkipName(s2) == THINKING + s3;
  }

  /** What the header of a decision reads. */
  lemma HeaderReads(m: Model, effort: Option<Effort>)
    ensures
      var (mark, name) := match m
        case Luna => ('\U{26A1}', "luna")
        case Terra => ('\U{1F30D}', "terra")
        case Sol => ('\U{1F9E0}', "sol")
        case Astra => ('\U{1F680}', "astra");
      IsHeaderOf(Header(m, effort), mark, name, EffortLabel(effort), "\n\n", "")
  {
    hide EffortLabel, IsEffortWord;
    AllLabels(effort);
    EffortWords(EffortLabel(effort));
    var end := "**" + ("\n\n" + "");
    assert end == "**\n\n";
    PolicyName(m);
  }
}
