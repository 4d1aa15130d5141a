/** The Markdown code-span printer, read back by section 6.1 of the CommonMark specification. */
module CodeSpan {
  import opened Json

  // ---------------------------------------------------------------- escaping

  function HexDigit(n: nat): char
    requires n < 16
  {
    if n < 10 then ('0' as int + n) as char else ('a' as int + n - 10) as char
  }

  function Hex4(n: nat): string
    requires n < 0x10000
  {
    [HexDigit(n / 4096), HexDigit(n / 256 % 16), HexDigit(n / 16 % 16), HexDigit(n % 16)]
  }

  predicate NeedsEscape(c: char) {
    c < ' ' || c == '\U{7f}' || '\U{202a}' <= c <= '\U{202e}' || '\U{2066}' <= c <= '\U{2069}'
  }

  function EscapeChar(c: char): string {
    if c == '\r' then "\\r"
    else if c == '\n' then "\\n"
    else if c == '\t' then "\\t"
    else if NeedsEscape(c) then "\\u" + Hex4(c as int)
    else [c]
  }

  /** `markdown_escape`. */
  function Escape(value: string): string {
    if value == "" then "" else EscapeChar(value[0]) + Escape(value[1..])
  }

  /** No control or bidirectional character, line breaks included, survives. */
  lemma {:induction false} EscapedIsPlain(value: string)
    ensures forall i | 0 <= i < |Escape(value)| ::
              var c := Escape(value)[i];
              c >= ' ' && c != '\U{7f}' && !('\U{202a}' <= c <= '\U{202e}') && !('\U{2066}' <= c <= '\U{2069}')
  {
    if value != "" {
      EscapedIsPlain(value[1..]);
    }
  }

  function HexOf(c: char): int {
    if '0' <= c <= '9' then c as int - '0' as int
    else if 'a' <= c <= 'f' then c as int - 'a' as int + 10
    else 0
  }

  /** What is escaped reads as a backslash and a letter, or as the code of the character in four digits. */
  lemma EscapeReads(c: char)
    requires EscapeChar(c) != [c]
    ensures
      var e := EscapeChar(c);
      || (c == '\r' && e == ['\\', 'r']) || (c == '\n' && e == ['\\', 'n']) || (c == '\t' && e == ['\\', 't'])
      || (|e| == 6 && e[0] == '\\' && e[1] == 'u' &&
          c as int == 4096 * HexOf(e[2]) + 256 * HexOf(e[3]) + 16 * HexOf(e[4]) + HexOf(e[5]))
  {
    if c !in {'\r', '\n', '\t'} {
      var n := c as int;
      assert EscapeChar(c) == "\\u" + Hex4(n);
      assert n == 4096 * (n / 4096) + 256 * (n / 256 % 16) + 16 * (n / 16 % 16) + n % 16;
    }
  }

  lemma {:induction false} EscapeConcat(a: string, b: string)
    ensures Escape(a + b) == Escape(a) + Escape(b)
    decreases |a|
  {
    hide EscapeChar;
    if a == "" {
      assert a + b == b && Escape(a) + Escape(b) == Escape(b);
    } else {
      EscapeConcat(a[1..], b);
      assert (a + b)[1..] == a[1..] + b;
    }
  }

  /** Escaping the text around a character. */
  lemma EscapeAround(a: string, c: char, b: string)
    ensures Escape(a + ([c] + b)) == Escape(a) + (EscapeChar(c) + Escape(b))
  {
    EscapeConcat(a, [c] + b);
    assert ([c] + b)[1..] == b;
  }

  predicate Clean(value: string) {
    forall i | 0 <= i < |value| :: !NeedsEscape(value[i])
  }

  lemma {:induction false} CleanStays(value: string)
    requires Clean(value)
    ensures Escape(value) == value
  {
    if value != "" {
      CleanStays(value[1..]);
      assert [value[0]] + value[1..] == value;
    }
  }

  /** The text holds, letter for letter, what some escaped character prints as. */
  ghost predicate Spells(value: string, i: nat, c: char) {
    NeedsEscape(c) && i + |EscapeChar(c)| <= |value| && value[i..i + |EscapeChar(c)|] == EscapeChar(c)
  }

  ghost predicate Unambiguous(value: string) {
    Clean(value) && forall i: nat, c: char :: !Spells(value, i, c)
  }

  /** The escape marks are not themselves escaped. The printed form tells which text it was exactly
      when the text holds no character that is escaped and does not spell out an escape itself. */
  lemma EscapeDetermines(value: string)
    ensures (forall w :: Escape(w) == Escape(value) ==> w == value) <==> Unambiguous(value)
  {
    if Unambiguous(value) {
      CleanStays(value);
      forall w | Escape(w) == Escape(value) ensures w == value {
        OnlyItself(value, w);
      }
    } else {
      var w := Twin(value);
    }
  }

  lemma EscapeIsSpelled(w: string, i: nat)
    requires i < |w| && NeedsEscape(w[i])
    ensures Spells(Escape(w), |Escape(w[..i])|, w[i])
  {
    var a, b := w[..i], w[i + 1..];
    assert w == a + ([w[i]] + b);
    EscapeAround(a, w[i], b);
  }

  lemma OnlyItself(value: string, w: string)
    requires Unambiguous(value) && Escape(w) == value
    ensures w == value
  {
    if i :| 0 <= i < |w| && NeedsEscape(w[i]) {
      EscapeIsSpelled(w, i);
    } else {
      CleanStays(w);
    }
  }

  /** Another text with the same printed form: the form itself, or one with the spelled escape read back. */
  lemma Twin(value: string) returns (w: string)
    requires !Unambiguous(value)
    ensures Escape(w) == Escape(value) && w != value
  {
    hide Escape, EscapeChar;
    EscapedIsPlain(value);
    if !Clean(value) {
      w := Escape(value);
      CleanStays(w);
    } else {
      var i: nat, c :| Spells(value, i, c);
      w := ReadBack(value, i, c);
      assert w[i] == c;
    }
  }

  lemma ReadBack(value: string, i: nat, c: char) returns (w: string)
    requires Clean(value) && Spells(value, i, c)
    ensures Escape(w) == Escape(value) && i < |w| && w[i] == c
  {
    hide Escape, EscapeChar, NeedsEscape;
    var spelled := EscapeChar(c);
    var a, b := value[..i], value[i + |spelled|..];
    w := a + ([c] + b);
    EscapeAround(a, c, b);
    CleanStays(a);
    CleanStays(b);
    CleanStays(value);
    assert value == a + (spelled + b);
  }

  /** A line feed and a backslash before an n print alike. */
  lemma EscapeCollides()
    ensures Escape("\n") == Escape("\\n") && "\n" != "\\n"
  {
    var broken, spelled := "\n", "\\n";
    assert broken[1..] == "" && Escape(broken) == "\\n" + "";
    assert spelled[1..] == "n" && spelled[1..][1..] == "";
    assert Escape(spelled) == ['\\'] + (['n'] + "");
    assert "\\n" + "" == "\\n" && ['\\'] + (['n'] + "") == "\\n";
  }

  // ---------------------------------------------------------------- printing

  const TICK: char := '`'

  /** Length of the backtick run at the front. */
  function Run(s: string): (n: nat)
    ensures n <= |s|
  {
    if s != "" && s[0] == TICK then 1 + Run(s[1..]) else 0
  }

  function Max(a: nat, b: nat): nat {
    if a < b then b else a
  }

  /** The longest backtick run. */
  function Longest(s: string): nat
    decreases |s|
  {
    if s == "" then 0
    else Max(Run(s), Longest(s[Max(Run(s), 1)..]))
  }

  function Ticks(n: nat): string {
    seq(n, _ => TICK)
  }

  predicate Awkward(c: char) {
    c == TICK || c == ' '
  }

  function Padding(safe: string): string {
    if safe != "" && (Awkward(safe[0]) || Awkward(safe[|safe| - 1])) then " " else ""
  }

  /** `markdown_code`. */
  function Code(value: string): string {
    var safe := Escape(value);
    var fence := Ticks(Longest(safe) + 1);
    fence + (Padding(safe) + safe + Padding(safe) + fence)
  }

  // ---------------------------------------------------------------- reading

  /** Where the next run of exactly `n` backticks begins. */
  function FindClose(s: string, n: nat): Option<nat>
    requires n > 0
    decreases |s|
  {
    if s == "" then None
    else if Run(s) == n then Some(0)
    else
      var skip := Max(Run(s), 1);
      var more := FindClose(s[skip..], n);
      if more.Some? then Some(skip + more.value) else None
  }

  predicate AllSpaces(s: string) {
    forall i | 0 <= i < |s| :: s[i] == ' '
  }

  /** A span that begins and ends with a space, but is not all spaces, loses one on each side. */
  function Normalized(content: string): string {
    if |content| >= 2 && content[0] == ' ' && content[|content| - 1] == ' ' && !AllSpaces(content) then
      content[1..|content| - 1]
    else content
  }

  /** Read a text that is one code span and nothing else (a text without line endings). */
  function ReadSpan(text: string): Option<string> {
    var n := Run(text);
    if n == 0 then None
    else
      var close := FindClose(text[n..], n);
      if close.None? || n + close.value + n != |text| then None
      else Some(Normalized(text[n..n + close.value]))
  }

  // ---------------------------------------------------------------- round trip

  lemma {:induction false} RunOfTicks(n: nat, rest: string)
    requires rest == "" || rest[0] != TICK
    ensures Run(Ticks(n) + rest) == n
    decreases n
  {
    if n == 0 {
      assert Ticks(0) + rest == rest;
    } else {
      RunOfTicks(n - 1, rest);
      assert (Ticks(n) + rest)[1..] == Ticks(n - 1) + rest;
    }
  }

  /** A run inside a text that does not end with a backtick is not touched by what follows the text. */
  lemma {:induction false} RunInside(body: string, after: string)
    requires body != "" && body[|body| - 1] != TICK
    ensures Run(body + after) == Run(body) < |body|
    decreases |body|
  {
    if body[0] == TICK {
      RunInside(body[1..], after);
      assert (body + after)[1..] == body[1..] + after;
    }
  }

  /** The closing fence is the first run of its length. */
  lemma {:induction false} FenceFound(body: string, n: nat)
    requires Longest(body) < n
    requires body == "" || body[|body| - 1] != TICK
    ensures FindClose(body + Ticks(n), n) == Some(|body|)
    decreases |body|
  {
    hide Run;
    var text := body + Ticks(n);
    if body == "" {
      RunOfTicks(n, "");
      assert text == Ticks(n) + "";
    } else {
      RunInside(body, Ticks(n));
      var skip := Max(Run(body), 1);
      assert text[skip..] == body[skip..] + Ticks(n);
      FenceFound(body[skip..], n);
    }
  }

  lemma {:induction false} LongestConcat(a: string, b: string)
    requires a == "" || a[|a| - 1] != TICK
    ensures Longest(a + b) == Max(Longest(a), Longest(b))
    decreases |a|
  {
    if a == "" {
      assert a + b == b;
    } else {
      RunInside(a, b);
      var skip := Max(Run(a), 1);
      assert (a + b)[skip..] == a[skip..] + b;
      LongestConcat(a[skip..], b);
    }
  }

  /** A space behind a text adds no run and lengthens none. */
  lemma {:induction false} LongestThenSpace(s: string)
    ensures Longest(s + " ") == Longest(s)
    decreases |s|
  {
    if s == "" {
      assert s + " " == " ";
      assert " "[1..] == "";
    } else {
      RunBeforeSpace(s);
      var skip := Max(Run(s), 1);
      assert (s + " ")[skip..] == s[skip..] + " ";
      LongestThenSpace(s[skip..]);
    }
  }

  lemma {:induction false} RunBeforeSpace(s: string)
    ensures Run(s + " ") == Run(s)
    decreases |s|
  {
    if s != "" {
      RunBeforeSpace(s[1..]);
      assert (s + " ")[1..] == s[1..] + " ";
    }
  }

  /** Padding keeps the runs of the text away from the fences. */
  lemma PaddedBody(safe: string)
    requires safe != ""
    ensures
      var body := Padding(safe) + safe + Padding(safe);
      && Longest(body) == Longest(safe)
      && body[0] != TICK && body[|body| - 1] != TICK
  {
    if Padding(safe) == "" {
      assert "" + safe + "" == safe;
    } else {
      assert " " + safe + " " == " " + (safe + " ");
      LongestConcat(" ", safe + " ");
      LongestThenSpace(safe);
      assert " "[1..] == "";
    }
  }

  /** A body between two fences longer than its runs, and not touching them with a backtick. */
  lemma ReadFenced(body: string, n: nat)
    requires body != "" && body[0] != TICK && body[|body| - 1] != TICK && Longest(body) < n
    ensures ReadSpan(Ticks(n) + (body + Ticks(n))) == Some(Normalized(body))
  {
    hide Longest, FindClose, Normalized, Run;
    var text := Ticks(n) + (body + Ticks(n));
    RunOfTicks(n, body + Ticks(n));
    assert text[n..] == body + Ticks(n);
    FenceFound(body, n);
    assert text[n..n + |body|] == body;
  }

  /** A non-empty escaped text comes back up to the padding rule. */
  lemma ReadBody(value: string)
    requires Escape(value) != ""
    ensures
      var safe := Escape(value);
      ReadSpan(Code(value)) == Some(Normalized(Padding(safe) + safe + Padding(safe)))
  {
    hide Longest, ReadSpan, Normalized, Padding, Escape, Ticks;
    var safe := Escape(value);
    PaddedBody(safe);
    ReadFenced(Padding(safe) + safe + Padding(safe), Longest(safe) + 1);
  }

  /** The printed span reads back as the escaped text exactly when that text has a character other
      than a space. */
  lemma CodeSpanRoundTrip(value: string)
    ensures ReadSpan(Code(value)) == Some(Escape(value)) <==> !AllSpaces(Escape(value))
  {
    hide Longest, FindClose, Escape, ReadSpan, Code;
    var safe := Escape(value);
    if safe == "" {
      EmptySpan(value);
    } else {
      ReadBody(value);
      var body := Padding(safe) + safe + Padding(safe);
      if Padding(safe) == "" {
        assert body == safe;
      } else {
        assert body == " " + safe + " " && body[1..|body| - 1] == safe;
        if AllSpaces(safe) {
          assert AllSpaces(body);
          assert |body| > |safe|;
        } else {
          var i :| 0 <= i < |safe| && safe[i] != ' ';
          assert body[i + 1] != ' ';
        }
      }
    }
  }

  /** The empty text prints as two backticks, which open a span that never closes. */
  lemma EmptySpan(value: string)
    requires Escape(value) == ""
    ensures ReadSpan(Code(value)).None?
  {
    var text := Code(value);
    assert text == Ticks(2) + "" by {
      assert Ticks(1) + ("" + "" + "" + Ticks(1)) == Ticks(2) + "";
    }
    RunOfTicks(2, "");
    assert text[2..] == "";
  }

  /** The reader gets the text itself exactly when nothing in it is escaped and it is not blank. */
  lemma CodeSpanShowsText(value: string)
    ensures ReadSpan(Code(value)) == Some(value) <==> Clean(value) && !AllSpaces(value)
  {
    hide Longest, FindClose, ReadSpan, Code, Escape;
    CodeSpanRoundTrip(value);
    EscapedIsPlain(value);
    if Clean(value) {
      CleanStays(value);
    } else {
      EscapeShows(value);
    }
  }

  /** An escaped character leaves a mark, so the printed form is not blank. */
  lemma EscapeShows(value: string)
    requires !Clean(value)
    ensures !AllSpaces(Escape(value))
  {
    var i :| 0 <= i < |value| && NeedsEscape(value[i]);
    var a, b := value[..i], value[i + 1..];
    assert value == a + ([value[i]] + b);
    EscapeAround(a, value[i], b);
    assert EscapeChar(value[i])[0] == '\\';
    assert Escape(value)[|Escape(a)|] == '\\';
  }
}
