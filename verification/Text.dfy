/** White space and stripping, as `str.isspace` and `str.strip` have them. */
module Text {

  predicate IsSpace(c: char) {
    || '\t' <= c <= '\r' || '\U{1c}' <= c <= ' '
    || c == '\U{85}' || c == '\U{a0}' || c == '\U{1680}'
    || '\U{2000}' <= c <= '\U{200a}'
    || c == '\U{2028}' || c == '\U{2029}' || c == '\U{202f}' || c == '\U{205f}' || c == '\U{3000}'
  }

  function StripLeft(s: string): string {
    if s != "" && IsSpace(s[0]) then StripLeft(s[1..]) else s
  }

  function StripRight(s: string): string {
    if s != "" && IsSpace(s[|s| - 1]) then StripRight(s[..|s| - 1]) else s
  }

  function Strip(s: string): string {
    StripRight(StripLeft(s))
  }

  predicate AllSpace(s: string) {
    forall i | 0 <= i < |s| :: IsSpace(s[i])
  }

  lemma {:induction false} StripLeftIs(s: string)
    ensures exists before :: s == before + StripLeft(s) && AllSpace(before)
    ensures StripLeft(s) == "" || !IsSpace(StripLeft(s)[0])
    decreases |s|
  {
    if s != "" && IsSpace(s[0]) {
      StripLeftIs(s[1..]);
      var before :| s[1..] == before + StripLeft(s) && AllSpace(before);
      assert s == ([s[0]] + before) + StripLeft(s) && AllSpace([s[0]] + before);
    } else {
      assert s == "" + s && AllSpace("");
    }
  }

  lemma {:induction false} StripRightIs(s: string)
    ensures exists behind :: s == StripRight(s) + behind && AllSpace(behind)
    ensures StripRight(s) == "" || !IsSpace(StripRight(s)[|StripRight(s)| - 1])
    decreases |s|
  {
    if s != "" && IsSpace(s[|s| - 1]) {
      var n := |s| - 1;
      StripRightIs(s[..n]);
      var kept := StripRight(s[..n]);
      var behind :| s[..n] == kept + behind && AllSpace(behind);
      hide IsSpace;
      assert s == s[..n] + [s[n]];
      assert kept + behind + [s[n]] == kept + (behind + [s[n]]);
      assert AllSpace(behind + [s[n]]);
    } else {
      assert s == s + "" && AllSpace("");
    }
  }

  /** Stripping takes away the white space around a text, all of it and nothing else. */
  lemma StripIs(s: string)
    ensures exists before, behind :: s == before + Strip(s) + behind && AllSpace(before) && AllSpace(behind)
    ensures Strip(s) == "" || (!IsSpace(Strip(s)[0]) && !IsSpace(Strip(s)[|Strip(s)| - 1]))
  {
    StripLeftIs(s);
    StripRightIs(StripLeft(s));
    var before :| s == before + StripLeft(s) && AllSpace(before);
    var behind :| StripLeft(s) == Strip(s) + behind && AllSpace(behind);
    assert s == before + Strip(s) + behind;
  }
}
