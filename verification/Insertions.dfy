/** A text in pieces with marks put in between: when the marked text is the bare one with a single
    mark at its end or at its beginning. */
module Insertions {

  datatype Piece = Text(s: string) | Mark

  function Spelled(p: Piece, w: string): string {
    if p.Text? then p.s else w
  }

  /** The text with `w` at each mark. */
  function Marked(ps: seq<Piece>, w: string): string {
    if ps == [] then "" else Spelled(ps[0], w) + Marked(ps[1..], w)
  }

  /** The text without its marks. */
  function Bare(ps: seq<Piece>): string {
    Marked(ps, "")
  }

  function Marks(ps: seq<Piece>): nat {
    if ps == [] then 0 else (if ps[0].Mark? then 1 else 0) + Marks(ps[1..])
  }

  lemma {:induction false} MarkedConcat(a: seq<Piece>, b: seq<Piece>, w: string)
    ensures Marked(a + b, w) == Marked(a, w) + Marked(b, w)
    decreases |a|
  {
    hide Spelled;
    if a == [] {
      assert a + b == b;
    } else {
      MarkedConcat(a[1..], b, w);
      assert (a + b)[1..] == a[1..] + b;
      var first, rest := Spelled(a[0], w), Marked(a[1..], w);
      assert first + (rest + Marked(b, w)) == (first + rest) + Marked(b, w);
    }
  }

  lemma {:induction false} MarksConcat(a: seq<Piece>, b: seq<Piece>)
    ensures Marks(a + b) == Marks(a) + Marks(b)
    decreases |a|
  {
    if a == [] {
      assert a + b == b;
    } else {
      MarksConcat(a[1..], b);
      assert (a + b)[1..] == a[1..] + b;
    }
  }

  lemma Append(a: seq<Piece>, b: seq<Piece>, w: string)
    ensures Bare(a + b) == Bare(a) + Bare(b)
    ensures Marked(a + b, w) == Marked(a, w) + Marked(b, w)
    ensures Marks(a + b) == Marks(a) + Marks(b)
  {
    MarkedConcat(a, b, "");
    MarkedConcat(a, b, w);
    MarksConcat(a, b);
  }

  lemma OneText(p: Piece, w: string)
    ensures Marked([p], w) == Spelled(p, w)
  {
    var none: seq<Piece> := [p][1..];
    assert none == [];
    assert Marked(none, w) == "" && Spelled(p, w) + "" == Spelled(p, w);
  }

  lemma One(p: Piece, w: string)
    ensures Bare([p]) == Spelled(p, "") && Marked([p], w) == Spelled(p, w)
    ensures Marks([p]) == if p.Mark? then 1 else 0
  {
    OneText(p, w);
    OneText(p, "");
    assert [p][1..] == [];
  }

  /** Each mark makes the text longer. */
  lemma {:induction false} Lengths(ps: seq<Piece>, w: string)
    ensures |Marked(ps, w)| >= |Bare(ps)|
    ensures Marks(ps) == 0 ==> Marked(ps, w) == Bare(ps)
    ensures Marks(ps) == 1 ==> |Marked(ps, w)| == |Bare(ps)| + |w|
    ensures Marks(ps) >= 1 ==> |Marked(ps, w)| >= |Bare(ps)| + |w|
    ensures Marks(ps) >= 2 ==> |Marked(ps, w)| >= |Bare(ps)| + |w| + |w|
    decreases |ps|
  {
    if ps != [] {
      Lengths(ps[1..], w);
    }
  }

  /** The marked text is the bare one exactly when there is no mark. */
  lemma Unmarked(ps: seq<Piece>, w: string)
    requires w != ""
    ensures Marked(ps, w) == Bare(ps) <==> Marks(ps) == 0
  {
    Lengths(ps, w);
  }

  /** The marked text is longer by one mark only when it has one. */
  lemma ByOne(ps: seq<Piece>, w: string)
    requires w != ""
    ensures Marked(ps, w) == Bare(ps) + w || Marked(ps, w) == w + Bare(ps) ==> Marks(ps) == 1
  {
    Lengths(ps, w);
  }

  /** A single mark between two texts stands for one at the end, or at the beginning, exactly when it
      commutes with the text that is in the way. */
  lemma OneMark(a: seq<Piece>, b: seq<Piece>, w: string)
    requires Marks(a) == 0 && Marks(b) == 0
    ensures
      var ps := a + ([Mark] + b);
      && Marks(ps) == 1
      && Bare(ps) == Bare(a) + Bare(b) && Marked(ps, w) == Bare(a) + (w + Bare(b))
      && (Marked(ps, w) == Bare(ps) + w <==> w + Bare(b) == Bare(b) + w)
      && (Marked(ps, w) == w + Bare(ps) <==> Bare(a) + w == w + Bare(a))
  {
    var x, y := Bare(a), Bare(b);
    hide Marked, Marks;
    One(Mark, w);
    Append([Mark], b, w);
    Append(a, [Mark] + b, w);
    assert "" + y == y;
    Lengths(a, w);
    Lengths(b, w);
    assert x + y + w == x + (y + w);
    SameTail(x, w + y, y + w);
    assert x + (w + y) == (x + w) + y && w + (x + y) == (w + x) + y;
    SameFront(x + w, w + x, y);
  }

  lemma SameTail(x: string, a: string, b: string)
    ensures x + a == x + b <==> a == b
  {
    assert (x + a)[|x|..] == a && (x + b)[|x|..] == b;
  }

  lemma SameFront(a: string, b: string, y: string)
    requires |a| == |b|
    ensures a + y == b + y <==> a == b
  {
    assert (a + y)[..|a|] == a && (b + y)[..|b|] == b;
  }
}
