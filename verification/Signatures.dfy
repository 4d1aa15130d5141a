/** Route headers on replayed history: what `strip_signatures` removes, and that it undoes the signing. */
module Signatures {
  import opened Json
  import opened Models
  import opened Text
  import opened MarkerSpec

  // ---------------------------------------------------------------- labels

  function ShortName(m: Model): string {
    match m
    case Luna => "luna"
    case Terra => "terra"
    case Sol => "sol"
    case Astra => "astra"
  }

  function Glyph(m: Model): char {
    match m
    case Luna => '\U{26A1}'
    case Terra => '\U{1F30D}'
    case Sol => '\U{1F9E0}'
    case Astra => '\U{1F680}'
  }

  function EffortWord(e: Effort): string {
    match e
    case Low => "low"
    case Medium => "medium"
    case High => "high"
    case Xhigh => "xhigh"
    case Max => "max"
  }

  const UNSPECIFIED := "non sp\U{e9}cifi\U{e9}"

  function EffortLabel(e: Option<Effort>): string {
    if e.Some? then EffortWord(e.value) else UNSPECIFIED
  }

  const THINKING := " \U{b7} thinking: "

  /** `answer_signature`. */
  function Header(m: Model, effort: Option<Effort>): string {
    HeaderOf(Glyph(m), ShortName(m), EffortLabel(effort))
  }

  function HeaderOf(glyph: char, name: string, effort: string): string {
    "**" + ([glyph] + (" " + (name + (THINKING + (effort + "**\n\n")))))
  }

  // ---------------------------------------------------------------- the two patterns

  predicate IsGlyph(c: char) {
    c in {'\U{26A1}', '\U{1F9E0}', '\U{1F680}', '\U{1F30D}', '\U{1F433}', '\U{2728}'}
  }

  predicate IsNameChar(c: char) {
    'A' <= c <= 'Z' || 'a' <= c <= 'z' || '0' <= c <= '9' || c in {'.', '_', '/', '-'}
  }

  /** The text behind an exact prefix. */
  function Skip(s: string, prefix: string): Option<string> {
    if prefix <= s then Some(s[|prefix|..]) else None
  }

  function SkipName(s: string): string {
    if s != "" && IsNameChar(s[0]) then SkipName(s[1..]) else s
  }

  /** A non-empty name; the text behind it. */
  function MatchName(s: string): Option<string> {
    if s != "" && IsNameChar(s[0]) then Some(SkipName(s)) else None
  }

  function MatchGlyph(s: string): Option<string> {
    if s != "" && IsGlyph(s[0]) then Some(s[1..]) else None
  }

  /** The first of the labels that the text begins with; the text behind it. */
  function MatchLabel(s: string, labels: seq<Option<Effort>>): Option<string> {
    if labels == [] then None
    else if EffortLabel(labels[0]) <= s then Some(s[|EffortLabel(labels[0])|..])
    else MatchLabel(s, labels[1..])
  }

  const EFFORTS := [Some(Low), Some(Medium), Some(High), Some(Xhigh), Some(Max)]
  const LABELS := EFFORTS + [None]

  function MatchNewline(s: string): Option<string> {
    if "\r\n" <= s then Some(s[2..]) else Skip(s, "\n")
  }

  function Then(r: Option<string>, next: string -> Option<string>): Option<string> {
    if r.Some? then next(r.value) else None
  }

  /** The leading header pattern: the text behind the header, if there is one. */
  function MatchHeader(s: string): Option<string> {
    MatchHeaderWith(THINKING, LABELS, s)
  }

  function MatchHeaderWith(thinking: string, labels: seq<Option<Effort>>, s: string): Option<string> {
    var afterGlyph := Then(Skip(s, "**"), MatchGlyph);
    var afterName := Then(Then(afterGlyph, t => Skip(t, " ")), MatchName);
    var afterEffort := Then(Then(afterName, t => Skip(t, thinking)), t => MatchLabel(t, labels));
    Then(Then(Then(afterEffort, t => Skip(t, "**")), MatchNewline), MatchNewline)
  }

  function MatchSpaces(s: string): Option<string> {
    if s != "" && IsSpace(s[0]) then Some(StripLeft(s)) else None
  }

  /** The legacy trailing signature, matched against a whole text. */
  predicate IsTail(s: string) {
    var afterDash := Then(Skip(StripLeft(s), "\U{2014}"), MatchSpaces);
    var afterName := Then(Then(Then(afterDash, MatchGlyph), MatchSpaces), MatchName);
    afterName.Some? &&
    (StripLeft(afterName.value) == "" ||
     var afterDot := Then(Then(MatchSpaces(afterName.value), t => Skip(t, "\U{b7}")), MatchSpaces);
     var afterEffort := Then(afterDot, t => MatchLabel(t, EFFORTS));
     afterEffort.Some? && StripLeft(afterEffort.value) == "")
  }

  /** The text before its leftmost trailing signature. */
  function StripTail(s: string, from: nat): (r: string)
    requires from <= |s|
    ensures r <= s && from <= |r|
    ensures |r| < |s| ==> IsTail(s[|r|..])
    ensures forall i | from <= i < |r| :: !IsTail(s[i..])
    decreases |s| - from
  {
    if IsTail(s[from..]) then s[..from]
    else if from == |s| then s
    else StripTail(s, from + 1)
  }

  function StripHeader(s: string): string {
    var r := MatchHeader(s);
    if r.Some? then r.value else s
  }

  /** What `strip_signatures` does to one text. */
  function StripText(s: string): string {
    StripTail(StripHeader(s), 0)
  }

  predicate HasTail(s: string) {
    exists i | 0 <= i < |s| :: IsTail(s[i..])
  }

  // ---------------------------------------------------------------- the header is what the pattern removes

  lemma {:induction false} SkipNameAll(name: string, rest: string)
    requires forall i | 0 <= i < |name| :: IsNameChar(name[i])
    requires rest != "" && !IsNameChar(rest[0])
    ensures SkipName(name + rest) == rest
    decreases |name|
  {
    if name == "" {
      assert name + rest == rest;
    } else {
      SkipNameAll(name[1..], rest);
      assert (name + rest)[1..] == name[1..] + rest;
    }
  }

  lemma SkipPrefix(prefix: string, rest: string)
    ensures Skip(prefix + rest, prefix) == Some(rest)
  {
  }

  lemma PolicyName(m: Model)
    ensures ShortName(m) != "" && forall i | 0 <= i < |ShortName(m)| :: IsNameChar(ShortName(m)[i])
  {
  }

  /** The first two letters tell the labels apart. */
  lemma LabelsDiffer(a: Option<Effort>, b: Option<Effort>)
    ensures |EffortLabel(a)| >= 2
    ensures a != b ==> EffortLabel(a)[0] != EffortLabel(b)[0] || EffortLabel(a)[1] != EffortLabel(b)[1]
  {
    LabelStart(a);
    LabelStart(b);
  }

  function Start(e: Option<Effort>): (char, char) {
    if e.None? then ('n', 'o')
    else match e.value
      case Low => ('l', 'o')
      case Medium => ('m', 'e')
      case High => ('h', 'i')
      case Xhigh => ('x', 'h')
      case Max => ('m', 'a')
  }

  lemma LabelStart(e: Option<Effort>)
    ensures |EffortLabel(e)| >= 2 && (EffortLabel(e)[0], EffortLabel(e)[1]) == Start(e)
  {
  }

  /** No label is the beginning of another: the right one is found. */
  lemma {:induction false} LabelMatches(e: Option<Effort>, rest: string, labels: seq<Option<Effort>>)
    requires e in labels
    ensures MatchLabel(EffortLabel(e) + rest, labels) == Some(rest)
    decreases |labels|
  {
    hide EffortLabel;
    var s := EffortLabel(e) + rest;
    if labels[0] == e {
      assert s[|EffortLabel(e)|..] == rest;
    } else {
      LabelsDiffer(labels[0], e);
      LabelsDiffer(e, e);
      assert s[0] == EffortLabel(e)[0] && s[1] == EffortLabel(e)[1];
      LabelMatches(e, rest, labels[1..]);
    }
  }

  lemma AllLabels(e: Option<Effort>)
    ensures e in LABELS
  {
    if e.None? {
      assert LABELS[5] == e;
    } else {
      match e.value
      case Low => assert LABELS[0] == e;
      case Medium => assert LABELS[1] == e;
      case High => assert LABELS[2] == e;
      case Xhigh => assert LABELS[3] == e;
      case Max => assert LABELS[4] == e;
    }
  }

  /** What follows the effort in a header. */
  function MatchEnd(afterEffort: Option<string>): Option<string> {
    Then(Then(Then(afterEffort, t => Skip(t, "**")), MatchNewline), MatchNewline)
  }

  /** A header of the right form is matched up to its effort, whatever that is. */
  lemma FormMatches(thinking: string, labels: seq<Option<Effort>>, glyph: char, name: string, tail: string)
    requires IsGlyph(glyph)
    requires name != "" && forall i | 0 <= i < |name| :: IsNameChar(name[i])
    requires thinking != "" && !IsNameChar(thinking[0])
    ensures MatchHeaderWith(thinking, labels, "**" + ([glyph] + (" " + (name + (thinking + tail))))) ==
            MatchEnd(MatchLabel(tail, labels))
  {
    hide MatchLabel, SkipName, IsGlyph, IsNameChar, MatchNewline;
    var t2 := thinking + tail;
    var t1 := name + t2;
    var t0 := " " + t1;
    var s := [glyph] + t0;
    SkipPrefix("**", s);
    assert s[0] == glyph && s[1..] == t0;
    SkipPrefix(" ", t1);
    assert t2[0] == thinking[0];
    SkipNameAll(name, t2);
    assert t1[0] == name[0];
    SkipPrefix(thinking, tail);
  }

  /** The header of every policy model and effort is matched whole, whatever text follows. */
  lemma HeaderMatches(m: Model, effort: Option<Effort>, text: string)
    ensures MatchHeader(Header(m, effort) + text) == Some(text)
  {
    hide MatchHeaderWith, EffortLabel, ShortName, Glyph, IsGlyph, MatchLabel, MatchNewline;
    var e, name := EffortLabel(effort), ShortName(m);
    var tail := e + ("**" + ("\n\n" + text));
    PolicyName(m);
    PolicyGlyph(m);
    AllLabels(effort);
    assert THINKING[0] == ' ';
    FormMatches(THINKING, LABELS, Glyph(m), name, tail);
    Reassociate(Glyph(m), name, THINKING, e, text);
    LabelMatches(effort, "**" + ("\n\n" + text), LABELS);
    SkipPrefix("**", "\n\n" + text);
    HeaderEnd(text);
  }

  lemma NoStars(e: Option<Effort>)
    ensures '*' !in EffortLabel(e)
  {
    if e.Some? { match e.value case Low => case Medium => case High => case Xhigh => case Max => }
  }

  lemma FirstStar(s: string, a: string, b: string)
    requires a <= s && b <= s && |a| < |s| && |b| < |s| && s[|a|] == '*' && s[|b|] == '*'
    requires '*' !in a && '*' !in b
    ensures a == b
  {
    assert forall i | 0 <= i < |a| :: a[i] == s[i];
    assert forall i | 0 <= i < |b| :: b[i] == s[i];
  }

  /** Two line breaks, as the header pattern has them. */
  predicate IsBreaks(b: string) {
    b == "\n\n" || b == "\n\r\n" || b == "\r\n\n" || b == "\r\n\r\n"
  }

  /** The text begins with the label, the closing stars and two line breaks. */
  ghost predicate EndsLabel(s: string, e: Option<Effort>) {
    exists b: string :: IsBreaks(b) && EffortLabel(e) + ("**" + b) <= s
  }

  lemma BreaksMatch(b: string, rest: string)
    requires IsBreaks(b)
    ensures Then(MatchNewline(b + rest), MatchNewline) == Some(rest)
  {
    var first := if b[0] == '\r' then b[2..] else b[1..];
    assert MatchNewline(b + rest) == Some(first + rest) by {
      if b[0] == '\r' {
        assert (b + rest)[..2] == "\r\n" && (b + rest)[2..] == first + rest;
      } else {
        assert (b + rest)[0] == '\n' && (b + rest)[..1] == "\n" && (b + rest)[1..] == first + rest;
      }
    }
    if first[0] == '\r' {
      assert (first + rest)[..2] == "\r\n" && (first + rest)[2..] == rest;
    } else {
      assert (first + rest)[0] == '\n' && (first + rest)[..1] == "\n" && (first + rest)[1..] == rest;
    }
  }

  lemma MatchedBreaks(s: string) returns (b: string)
    requires Then(MatchNewline(s), MatchNewline).Some?
    ensures IsBreaks(b) && b <= s
  {
    var rest := MatchNewline(s).value;
    var first := if "\r\n" <= s then "\r\n" else "\n";
    var second := if "\r\n" <= rest then "\r\n" else "\n";
    b := first + second;
    assert first <= s && rest == s[|first|..] && second <= rest;
    BreaksAre(first, second);
    assert s == first + rest && rest == second + rest[|second|..];
    assert s == b + rest[|second|..];
  }

  lemma BreaksAre(first: string, second: string)
    requires (first == "\n" || first == "\r\n") && (second == "\n" || second == "\r\n")
    ensures IsBreaks(first + second)
  {
    assert "\n" + "\n" == "\n\n" && "\n" + "\r\n" == "\n\r\n";
    assert "\r\n" + "\n" == "\r\n\n" && "\r\n" + "\r\n" == "\r\n\r\n";
  }

  lemma {:induction false} MatchedLabel(s: string, labels: seq<Option<Effort>>) returns (e: Option<Effort>)
    requires MatchLabel(s, labels).Some?
    ensures EffortLabel(e) <= s && MatchLabel(s, labels) == Some(s[|EffortLabel(e)|..])
    decreases |labels|
  {
    hide EffortLabel;
    if EffortLabel(labels[0]) <= s { e := labels[0]; } else { e := MatchedLabel(s, labels[1..]); }
  }

  /** What follows the name is matched exactly when it begins with a label and what ends it. */
  lemma EndMatches(s: string)
    ensures MatchEnd(MatchLabel(s, LABELS)).Some? <==> exists e :: EndsLabel(s, e)
  {
    hide EffortLabel, MatchLabel, MatchNewline, IsBreaks;
    if MatchEnd(MatchLabel(s, LABELS)).Some? {
      var e := MatchedLabel(s, LABELS);
      var rest := s[|EffortLabel(e)|..];
      var b := MatchedBreaks(rest[2..]);
      assert rest == "**" + rest[2..] && rest[2..] == b + rest[2..][|b|..];
      assert s == EffortLabel(e) + ("**" + b) + rest[2..][|b|..];
      assert EndsLabel(s, e);
    }
    if e :| EndsLabel(s, e) {
      var b :| IsBreaks(b) && EffortLabel(e) + ("**" + b) <= s;
      var rest := s[|EffortLabel(e) + ("**" + b)|..];
      assert s == EffortLabel(e) + ("**" + (b + rest));
      AllLabels(e);
      LabelMatches(e, "**" + (b + rest), LABELS);
      SkipPrefix("**", b + rest);
      BreaksMatch(b, rest);
    }
  }

  /** The text behind the header does not help to end a label. */
  lemma EndsInside(w: string, text: string, e: Option<Effort>)
    ensures EndsLabel(w + "**\n\n" + text, e) <==> EndsLabel(w + "**\n\n", e)
  {
    hide EffortLabel;
    var inner := w + "**\n\n";
    var whole := inner + text;
    if EndsLabel(inner, e) {
      var b :| IsBreaks(b) && EffortLabel(e) + ("**" + b) <= inner;
      assert inner <= whole;
    }
    if EndsLabel(whole, e) {
      var b :| IsBreaks(b) && EffortLabel(e) + ("**" + b) <= whole;
      var found := EffortLabel(e) + ("**" + b);
      if |found| <= |inner| {
        assert found <= inner;
      } else {
        assert inner <= found;
        NotLonger(w, e, b);
      }
    }
  }

  lemma NotLonger(w: string, e: Option<Effort>, b: string)
    requires IsBreaks(b) && w + "**\n\n" <= EffortLabel(e) + ("**" + b)
    ensures w + "**\n\n" == EffortLabel(e) + ("**" + b)
  {
    hide EffortLabel;
    NoStars(e);
    var effort, inner := EffortLabel(e), w + "**\n\n";
    var found := effort + ("**" + b);
    var k := |w|;
    assert inner[k] == '*' && inner[k + 1] == '*' && inner[k + 2] == '\n' && inner[k + 3] == '\n';
    assert found[k] == '*' && found[k + 1] == '*' && found[k + 2] == '\n' && found[k + 3] == '\n';
    assert forall i | 0 <= i < |effort| :: found[i] == effort[i];
    assert forall i | 0 <= i < |b| :: found[|effort| + 2 + i] == b[i];
    assert k == |effort|;
    assert b[0] == '\n' && b[1] == '\n';
  }

  /** A header is recognized on the way back exactly when what it shows in the place of the effort, up to
      the end of the header, begins with a label, the closing stars and two line breaks. */
  lemma HeaderRecognized(m: Model, w: string, text: string)
    ensures MatchHeader(HeaderOf(Glyph(m), ShortName(m), w) + text).Some? <==> exists e :: EndsLabel(w + "**\n\n", e)
  {
    hide MatchHeaderWith, EffortLabel, ShortName, Glyph, IsGlyph, MatchLabel, MatchNewline, EndsLabel;
    var tail := w + ("**" + ("\n\n" + text));
    PolicyName(m);
    PolicyGlyph(m);
    assert THINKING[0] == ' ';
    FormMatches(THINKING, LABELS, Glyph(m), ShortName(m), tail);
    Reassociate(Glyph(m), ShortName(m), THINKING, w, text);
    EndMatches(tail);
    assert tail == w + "**\n\n" + text;
    forall e ensures EndsLabel(tail, e) <==> EndsLabel(w + "**\n\n", e) {
      EndsInside(w, text, e);
    }
  }

  /** For a word without stars: exactly when it is one of the five efforts or the word for none. */
  lemma WordRecognized(m: Model, w: string, text: string)
    requires '*' !in w
    ensures MatchHeader(HeaderOf(Glyph(m), ShortName(m), w) + text).Some? <==> exists e :: EffortLabel(e) == w
  {
    hide EffortLabel, ShortName, Glyph, MatchHeader, HeaderOf, IsBreaks;
    HeaderRecognized(m, w, text);
    var inner := w + "**\n\n";
    if e :| EffortLabel(e) == w {
      TwoBreaks();
      assert w + ("**" + "\n\n") == inner;
      assert EndsLabel(inner, e);
    }
    if e :| EndsLabel(inner, e) {
      var b :| IsBreaks(b) && EffortLabel(e) + ("**" + b) <= inner;
      var effort := EffortLabel(e);
      assert effort <= inner && inner[|effort|] == '*';
      NoStars(e);
      assert w <= inner && inner[|w|] == '*';
      FirstStar(inner, w, effort);
    }
  }

  lemma TwoBreaks()
    ensures IsBreaks("\n\n")
  {
  }

  /** A request that is relayed without a decision may show such an effort. */
  lemma MinimalStays(text: string)
    ensures MatchHeader(HeaderOf(Glyph(Astra), ShortName(Astra), "minimal") + text).None?
  {
    hide MatchHeader, HeaderOf;
    WordRecognized(Astra, "minimal", text);
    forall e ensures EffortLabel(e) != "minimal" {
      LabelStart(e);
    }
  }

  lemma PolicyGlyph(m: Model)
    ensures IsGlyph(Glyph(m))
  {
  }

  lemma Reassociate(glyph: char, name: string, thinking: string, e: string, text: string)
    ensures "**" + ([glyph] + (" " + (name + (thinking + (e + "**\n\n"))))) + text ==
            "**" + ([glyph] + (" " + (name + (thinking + (e + ("**" + ("\n\n" + text)))))))
  {
    var end := "**\n\n";
    assert end == "**" + "\n\n";
    assert e + end + text == e + ("**" + ("\n\n" + text));
    assert thinking + (e + end) + text == thinking + (e + end + text);
    assert name + (thinking + (e + end)) + text == name + (thinking + (e + end) + text);
    var inner := name + (thinking + (e + end));
    assert " " + inner + text == " " + (inner + text);
    assert [glyph] + (" " + inner) + text == [glyph] + (" " + inner + text);
  }

  lemma HeaderEnd(text: string)
    ensures Then(MatchNewline("\n\n" + text), MatchNewline) == Some(text)
  {
    var t := "\n" + text;
    assert "\n\n" + text == "\n" + t;
    assert ("\n" + t)[0] != "\r\n"[0] && t[0] != "\r\n"[0];
    SkipPrefix("\n", t);
    SkipPrefix("\n", text);
  }

  lemma TailShortens(s: string)
    ensures StripTail(s, 0) == s <==> !HasTail(s)
  {
    var r := StripTail(s, 0);
    if |r| < |s| { assert IsTail(s[|r|..]); }
    if i :| 0 <= i < |s| && IsTail(s[i..]) {
      assert |r| <= i;
    }
  }

  /** Signing then stripping returns the text exactly when the text neither begins with this header
      nor ends with a legacy signature. */
  lemma SignThenStrip(m: Model, effort: Option<Effort>, marker: string, text: string)
    requires text != ""
    ensures
      var header := Header(m, effort);
      StripText(Sign(Config(marker, header), Str(text)).s) == text <==> !(header <= text) && !HasTail(text)
  {
    hide MatchHeader, IsTail, HeaderOf;
    var header := Header(m, effort);
    HeaderNotEmpty(m, effort);
    TailShortens(text);
    if header <= text {
      HeaderMatches(m, effort, text[|header|..]);
      assert header + text[|header|..] == text;
    } else {
      HeaderMatches(m, effort, text);
    }
  }

  lemma HeaderNotEmpty(m: Model, effort: Option<Effort>)
    ensures Header(m, effort) != ""
  {
  }

  // ---------------------------------------------------------------- replayed items

  predicate IsAssistant(item: Json) {
    item.Obj? && Get(item, KRole) == Str("assistant")
  }

  function StripValue(v: Json): Json {
    if NonEmptyStr(v) then Str(StripText(v.s)) else v
  }

  function StripPart(part: Json): Json {
    if part.Obj? && NonEmptyStr(Get(part, KText)) then Put(part, KText, StripValue(Get(part, KText))) else part
  }

  function StripParts(parts: seq<Json>): seq<Json> {
    seq(|parts|, i requires 0 <= i < |parts| => StripPart(parts[i]))
  }

  function StripContent(content: Json): Json {
    if content.Str? then StripValue(content)
    else if content.Arr? then Arr(StripParts(content.xs))
    else content
  }

  function StripItem(item: Json): Json {
    if IsAssistant(item) && KContent in item.m then Put(item, KContent, StripContent(item.m[KContent])) else item
  }

  /** How many parts of a list change when stripped. */
  function ChangedParts(parts: seq<Json>): nat {
    if parts == [] then 0
    else ChangedParts(parts[..|parts| - 1]) + if StripPart(parts[|parts| - 1]) != parts[|parts| - 1] then 1 else 0
  }

  function Changed(item: Json): nat {
    if !IsAssistant(item) then 0
    else
      var content := Get(item, KContent);
      if content.Str? then if StripValue(content) != content then 1 else 0
      else ChangedParts(Elements(content))
  }

  function ChangedAll(items: seq<Json>): nat {
    if items == [] then 0 else ChangedAll(items[..|items| - 1]) + Changed(items[|items| - 1])
  }

  lemma {:induction false} PartsCounted(parts: seq<Json>)
    ensures ChangedParts(parts) == |set i | 0 <= i < |parts| && StripPart(parts[i]) != parts[i]|
    decreases |parts|
  {
    hide StripPart;
    var changed := set i | 0 <= i < |parts| && StripPart(parts[i]) != parts[i];
    if parts != [] {
      var n := |parts| - 1;
      var before := set i | 0 <= i < |parts[..n]| && StripPart(parts[..n][i]) != parts[..n][i];
      PartsCounted(parts[..n]);
      if StripPart(parts[n]) != parts[n] {
        assert changed == before + {n};
      } else {
        assert changed == before;
      }
    } else {
      assert changed == {};
    }
  }

  /** What is counted are the texts that changed: of a plain text one, of a list its changed parts, and no
      item changes that is not counted. */
  lemma TextsCounted(item: Json)
    ensures Changed(item) == 0 <==> StripItem(item) == item
    ensures Get(item, KContent).Str? ==> Changed(item) <= 1
    ensures Get(item, KContent).Arr? && Get(item, KRole) == Str("assistant") ==>
              var parts := Get(item, KContent).xs;
              Changed(item) == |set i | 0 <= i < |parts| && StripPart(parts[i]) != parts[i]|
  {
    hide StripText, StripPart;
    var parts := Elements(Get(item, KContent));
    PartsCounted(parts);
    if IsAssistant(item) && KContent in item.m {
      PutSame(item, StripContent(item.m[KContent]));
      var changed := set i | 0 <= i < |parts| && StripPart(parts[i]) != parts[i];
      if changed == {} {
        forall i | 0 <= i < |parts| ensures StripPart(parts[i]) == parts[i] {
          assert i !in changed;
        }
        assert StripParts(parts) == parts;
      } else {
        var i :| i in changed;
        assert StripParts(parts)[i] != parts[i];
      }
    }
  }

  lemma PutSame(item: Json, content: Json)
    requires item.Obj? && KContent in item.m
    ensures Put(item, KContent, content) == item <==> content == item.m[KContent]
  {
    if content == item.m[KContent] {
      assert item.m[KContent := content] == item.m;
    } else {
      assert Put(item, KContent, content).m[KContent] != item.m[KContent];
    }
  }

  lemma EmptyText()
    ensures StripText("") == ""
  {
  }

  /** One assistant item: the cleaned item and how many of its texts changed. */
  method StripOne(item: Json) returns (r: Json, removed: nat)
    requires IsAssistant(item)
    ensures r == StripItem(item) && removed == Changed(item)
  {
    hide StripText;
    EmptyText();
    r, removed := item, 0;
    var content := Get(item, KContent);
    if content.Str? {
      var cleaned := StripText(content.s);
      if cleaned != content.s {
        r := Put(item, KContent, Str(cleaned));
        removed := 1;
      } else {
        assert item.m[KContent := content] == item.m;
      }
      return;
    }
    var parts := Elements(content);
    var done := parts;
    for i := 0 to |parts|
      invariant |done| == |parts| && removed == ChangedParts(parts[..i])
      invariant forall j | 0 <= j < i :: done[j] == StripPart(parts[j])
      invariant forall j | i <= j < |parts| :: done[j] == parts[j]
    {
      assert parts[..i + 1][..i] == parts[..i];
      if parts[i].Obj? && NonEmptyStr(Get(parts[i], KText)) {
        var text := Get(parts[i], KText).s;
        var cleaned := StripText(text);
        if cleaned != text {
          done := done[i := Put(parts[i], KText, Str(cleaned))];
          removed := removed + 1;
        } else {
          assert parts[i].m[KText := Str(text)] == parts[i].m;
        }
      }
    }
    assert parts[..|parts|] == parts;
    if content.Arr? {
      assert done == StripParts(parts);
      r := Put(item, KContent, Arr(done));
    } else if KContent in item.m {
      assert item.m[KContent := content] == item.m;
    }
  }

  /** `strip_signatures` on the request's items, in place. */
  method StripSignatures(items: array<Json>) returns (removed: nat)
    modifies items
    ensures forall i | 0 <= i < items.Length :: items[i] == StripItem(old(items[i]))
    ensures removed == ChangedAll(old(items[..]))
  {
    hide StripText;
    removed := 0;
    ghost var before := items[..];
    for i := 0 to items.Length
      invariant forall j | 0 <= j < i :: items[j] == StripItem(before[j])
      invariant forall j | i <= j < items.Length :: items[j] == before[j]
      invariant removed == ChangedAll(before[..i])
    {
      assert before[..i + 1][..i] == before[..i];
      if IsAssistant(items[i]) {
        var cleaned, n := StripOne(items[i]);
        items[i] := cleaned;
        removed := removed + n;
      }
    }
    assert before[..items.Length] == before;
  }

  // ---------------------------------------------------------------- relayed messages

  /** The part comes back as it was: a text the header does not touch is clean, and the one it heads
      has neither this header nor a trailing signature of its own. */
  ghost predicate PlainPart(cfg: Config, part: Json, headed: bool) {
    part.Obj? && NonEmptyStr(Get(part, KText)) ==>
      var text := Get(part, KText).s;
      if headed then !(cfg.signature <= text) && !HasTail(text) else StripText(text) == text
  }

  ghost predicate Plain(cfg: Config, parts: seq<Json>, n: nat) {
    forall i | 0 <= i < |parts| :: PlainPart(cfg, parts[i], i == n)
  }

  /** A headed message that comes back in the history is the original message exactly when it carries
      the role "assistant" and its texts are plain, or has no role and begins with the header already:
      the header is also given to messages without a role, but only the role "assistant" is cleaned. */
  lemma ReplayedMessage(m: Model, effort: Option<Effort>, marker: string, item: Json)
    requires Signable(Config(marker, Header(m, effort)), item)
    ensures
      var cfg := Config(marker, Header(m, effort));
      var parts := Get(item, KContent).xs;
      StripItem(SignItem(cfg, item)) == item <==>
        if Get(item, KRole) == Str("assistant") then Plain(cfg, parts, FirstText(parts))
        else cfg.signature <= Get(parts[FirstText(parts)], KText).s
  {
    hide StripText, Header, Plain;
    HeaderNotEmpty(m, effort);
    var cfg := Config(marker, Header(m, effort));
    var parts := Get(item, KContent).xs;
    var n := FirstText(parts);
    var signed := SignPart(cfg, parts, n);
    var out := SignItem(cfg, item);
    SignedItemIs(cfg, item);
    if Get(item, KRole) == Str("assistant") {
      StripSigned(m, effort, marker, parts, n);
      assert StripItem(out) == Put(item, KContent, Arr(StripParts(signed)));
      SameContent(item, StripParts(signed));
    } else {
      assert StripItem(out) == out;
      SameContent(item, signed);
      SameText(cfg, parts, n);
    }
  }

  lemma SignedItemIs(cfg: Config, item: Json)
    requires Signable(cfg, item)
    ensures
      var parts := Get(item, KContent).xs;
      SignItem(cfg, item) == Put(item, KContent, Arr(SignPart(cfg, parts, FirstText(parts))))
    ensures Get(item, KContent).Arr? && Get(SignItem(cfg, item), KRole) == Get(item, KRole)
  {
  }

  lemma SameContent(item: Json, parts: seq<Json>)
    requires item.Obj? && Get(item, KContent).Arr?
    ensures Put(item, KContent, Arr(parts)) == item <==> parts == Get(item, KContent).xs
  {
    if parts == Get(item, KContent).xs {
      assert item.m[KContent := Arr(parts)] == item.m;
    } else {
      assert Get(Put(item, KContent, Arr(parts)), KContent) != Get(item, KContent);
    }
  }

  lemma SameText(cfg: Config, parts: seq<Json>, n: nat)
    requires n < |parts| && HasOutputText(parts[n]) && cfg.signature != ""
    ensures SignPart(cfg, parts, n) == parts <==> cfg.signature <= Get(parts[n], KText).s
  {
    var text := Get(parts[n], KText).s;
    if cfg.signature <= text {
      assert parts[n].m[KText := Str(text)] == parts[n].m;
    } else {
      assert |cfg.signature + text| > |text|;
      assert Get(SignPart(cfg, parts, n)[n], KText) != Get(parts[n], KText);
    }
  }

  lemma PutText(part: Json, first: Json, back: string)
    requires part.Obj? && Get(part, KText).Str?
    ensures Put(Put(part, KText, first), KText, Str(back)) == part <==> back == Get(part, KText).s
    ensures Put(part, KText, Str(back)) == part <==> back == Get(part, KText).s
  {
    assert part.m[KText := first][KText := Str(back)] == part.m[KText := Str(back)];
    if back == Get(part, KText).s {
      assert part.m[KText := Str(back)] == part.m;
    } else {
      assert Get(Put(part, KText, Str(back)), KText) != Get(part, KText);
    }
  }

  function SignedPart(cfg: Config, part: Json, headed: bool): Json {
    if headed && part.Obj? then Put(part, KText, Sign(cfg, Get(part, KText))) else part
  }

  /** Stripping undoes the signing of a part exactly when its text is plain. */
  lemma PartComesBack(m: Model, effort: Option<Effort>, marker: string, part: Json, headed: bool)
    requires headed ==> part.Obj? && NonEmptyStr(Get(part, KText))
    ensures
      var cfg := Config(marker, Header(m, effort));
      StripPart(SignedPart(cfg, part, headed)) == part <==> PlainPart(cfg, part, headed)
  {
    hide StripText, Header, HasTail;
    HeaderNotEmpty(m, effort);
    var cfg := Config(marker, Header(m, effort));
    if part.Obj? && NonEmptyStr(Get(part, KText)) {
      var text := Get(part, KText).s;
      var signed := Sign(cfg, Str(text));
      SignThenStrip(m, effort, marker, text);
      PutText(part, signed, StripText(if headed then signed.s else text));
    }
  }

  lemma StripSigned(m: Model, effort: Option<Effort>, marker: string, parts: seq<Json>, n: nat)
    requires n < |parts| && HasOutputText(parts[n])
    ensures
      var cfg := Config(marker, Header(m, effort));
      StripParts(SignPart(cfg, parts, n)) == parts <==> Plain(cfg, parts, n)
  {
    hide StripPart, Header, PlainPart, Sign;
    var cfg := Config(marker, Header(m, effort));
    var signed := SignPart(cfg, parts, n);
    forall i: nat | i < |parts| ensures StripPart(signed[i]) == parts[i] <==> PlainPart(cfg, parts[i], i == n) {
      PartComesBack(m, effort, marker, parts[i], i == n);
    }
    if Plain(cfg, parts, n) {
      assert forall i: nat | i < |parts| :: StripParts(signed)[i] == parts[i];
    } else {
      var i: nat :| i < |parts| && !PlainPart(cfg, parts[i], i == n);
      assert StripParts(signed)[i] != parts[i];
    }
  }

  /** A message without a role comes back with its header. */
  lemma RolelessKeepsHeader(m: Model, effort: Option<Effort>, marker: string)
    ensures
      var cfg := Config(marker, Header(m, effort));
      var part := Obj(map[KType := Str("output_text"), KText := Str("a")]);
      var item := Obj(map[KType := Str("message"), KContent := Arr([part])]);
      Signable(cfg, item) && StripItem(SignItem(cfg, item)) != item
  {
    hide Header, StripItem, SignItem;
    var cfg := Config(marker, Header(m, effort));
    var part := Obj(map[KType := Str("output_text"), KText := Str("a")]);
    var item := Obj(map[KType := Str("message"), KContent := Arr([part])]);
    HeaderNotEmpty(m, effort);
    assert HasOutputText(Get(item, KContent).xs[0]);
    HeaderStart(m, effort);
    ReplayedMessage(m, effort, marker, item);
  }

  lemma HeaderStart(m: Model, effort: Option<Effort>)
    ensures |Header(m, effort)| > 1
  {
  }
}
