/** Runs of a machine that reads characters and writes a sequence (of characters, of blocks). */
module Transducer {
  import opened Sequences

  /** Read the text character by character, collecting what each step writes. */
  function Run<S, O>(step: (S, char) -> (S, seq<O>), st: S, text: string): (S, seq<O>)
    decreases |text|
  {
    if text == "" then (st, [])
    else
      var (mid, out) := step(st, text[0]);
      var (end, more) := Run(step, mid, text[1..]);
      (end, out + more)
  }

  function RunChunks<S, O>(step: (S, char) -> (S, seq<O>), st: S, chunks: seq<string>): (S, seq<O>)
    decreases |chunks|
  {
    if chunks == [] then (st, [])
    else
      var (mid, out) := Run(step, st, chunks[0]);
      var (end, more) := RunChunks(step, mid, chunks[1..]);
      (end, out + more)
  }

  lemma RunCons<S, O>(step: (S, char) -> (S, seq<O>), st: S, c: char, text: string)
    ensures
      var (mid, out) := step(st, c);
      var (end, more) := Run(step, mid, text);
      Run(step, st, [c] + text) == (end, out + more)
  {
    assert ([c] + text)[1..] == text;
  }

  lemma {:induction false} RunConcat<S, O>(step: (S, char) -> (S, seq<O>), st: S, a: string, b: string)
    ensures
      var (mid, out) := Run(step, st, a);
      var (end, more) := Run(step, mid, b);
      Run(step, st, a + b) == (end, out + more)
    decreases |a|
  {
    if a == "" {
      assert a + b == b;
      var (end, more) := Run(step, st, b);
      assert [] + more == more;
    } else {
      var (mid, out) := step(st, a[0]);
      RunConcat(step, mid, a[1..], b);
      assert (a + b)[1..] == a[1..] + b;
      var (half, out1) := Run(step, mid, a[1..]);
      var (end, out2) := Run(step, half, b);
      assert out + (out1 + out2) == (out + out1) + out2;
    }
  }

  lemma {:induction false} RunChunksConcat<S, O>(step: (S, char) -> (S, seq<O>), st: S, chunks: seq<string>)
    ensures RunChunks(step, st, chunks) == Run(step, st, Concat(chunks))
    decreases |chunks|
  {
    if chunks != [] {
      var (mid, _) := Run(step, st, chunks[0]);
      RunChunksConcat(step, mid, chunks[1..]);
      RunConcat(step, st, chunks[0], Concat(chunks[1..]));
    }
  }
}
