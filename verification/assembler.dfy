/**
 The read loop of the streamed answer, as a fold over the chunks the reader
 produced. Each chunk is already-decoded text paired with the clock reading taken
 right after it arrived. The fold carries the loop's four variables and collects
 the contents it dispatched for the assistant turn, in order.
 */
module Assembler {
  import opened Text
  import opened Pacing

  /** One successful read: its decoded text and the `Date.now()` value taken after it. */
  datatype Chunk = Chunk(text: string, now: int)

  /** The loop variables: text already shown, text held back, time of the last update, word flag. */
  datatype State = State(fullText: string, buffer: string, lastUpdateTime: int, inWord: bool)

  /** A state together with the contents dispatched while reaching it. */
  datatype Progress = Progress(state: State, dispatched: seq<string>)

  /** The loop's state before the first read; `t0` is the clock reading at that point. */
  function Start(t0: int): State {
    State("", "", t0, false)
  }

  /** The word flag agrees with the buffer: it is set exactly when the buffer ends inside a word. */
  predicate Coherent(s: State) {
    s.inWord == (|s.buffer| > 0 && !EndsWithSpace(s.buffer))
  }

  /** The texts of a list of chunks, in order. */
  function Texts(cs: seq<Chunk>): (ts: seq<string>)
    ensures |ts| == |cs| && forall i :: 0 <= i < |cs| ==> ts[i] == cs[i].text
  {
    seq(|cs|, i requires 0 <= i < |cs| => cs[i].text)
  }

  /** Every earlier dispatched content is a proper prefix of every later one. */
  predicate StrictlyGrowing(ds: seq<string>) {
    forall i, j :: 0 <= i < j < |ds| ==> IsStrictPrefix(ds[i], ds[j])
  }

  /**
   One iteration of the loop for a chunk that arrived. Nothing read is lost
   (shown text plus held-back text grow by exactly the chunk), at most one
   update is dispatched, exactly when the pacing policy says so, and the
   dispatched content is the shown text, which has strictly grown.
   */
  function Step(s: State, c: Chunk): (r: Progress)
    ensures r.state.fullText + r.state.buffer == s.fullText + s.buffer + c.text
    ensures Coherent(r.state)
    ensures r.dispatched == [] <==> !ShouldFlush(s.buffer + c.text, c.now - s.lastUpdateTime, s.inWord)
    ensures r.dispatched == [] ==> r.state.fullText == s.fullText && r.state.lastUpdateTime == s.lastUpdateTime
    ensures r.dispatched != [] ==>
      && r.dispatched == [r.state.fullText]
      && IsStrictPrefix(s.fullText, r.state.fullText)
      && r.state.buffer == ""
      && r.state.lastUpdateTime == c.now
  {
    var buffer := s.buffer + c.text;
    if ShouldFlush(buffer, c.now - s.lastUpdateTime, s.inWord) then
      var full := s.fullText + buffer;
      assert full[..|s.fullText|] == s.fullText;
      Progress(State(full, "", c.now, false), [full])
    else
      Progress(s.(buffer := buffer, inWord := |buffer| > 0 && !EndsWithSpace(buffer)), [])
  }

  /**
   What the loop guarantees from state `s` over chunks `cs` ending in `r`. Shown
   plus held-back text is the starting text followed by every chunk's text; the
   dispatched contents grow strictly, each extends the starting shown text and
   is a prefix of the final shown text, and the last one is the final shown text.
   */
  predicate RunSpec(s: State, cs: seq<Chunk>, r: Progress) {
    && r.state.fullText + r.state.buffer == s.fullText + s.buffer + Concat(Texts(cs))
    && StrictlyGrowing(r.dispatched)
    && (forall i :: 0 <= i < |r.dispatched| ==>
         IsStrictPrefix(s.fullText, r.dispatched[i]) && IsPrefix(r.dispatched[i], r.state.fullText))
    && (|r.dispatched| > 0 ==> r.dispatched[|r.dispatched| - 1] == r.state.fullText)
    && (|r.dispatched| == 0 ==> r.state.fullText == s.fullText)
    && (Coherent(s) ==> Coherent(r.state))
  }

  /** The loop over every chunk read. */
  function Run(s: State, cs: seq<Chunk>): (r: Progress)
    ensures RunSpec(s, cs, r)
    decreases |cs|
  {
    if cs == [] then
      assert Texts(cs) == [];
      Progress(s, [])
    else
      var a := Step(s, cs[0]);
      var b := Run(a.state, cs[1..]);
      RunCons(s, cs, a, b);
      Progress(b.state, a.dispatched + b.dispatched)
  }

  /** One step followed by the rest of the loop meets the loop's guarantee. */
  lemma RunCons(s: State, cs: seq<Chunk>, a: Progress, b: Progress)
    requires |cs| > 0 && a == Step(s, cs[0])
    requires RunSpec(a.state, cs[1..], b)
    ensures RunSpec(s, cs, Progress(b.state, a.dispatched + b.dispatched))
  {
    TextsCons(cs);
    PrefixFacts(s.fullText, a, b);
  }

  /** The text of a non-empty chunk list is the first chunk's text then the rest's. */
  lemma TextsCons(cs: seq<Chunk>)
    requires |cs| > 0
    ensures Concat(Texts(cs)) == cs[0].text + Concat(Texts(cs[1..]))
  {
    assert Texts(cs) == [cs[0].text] + Texts(cs[1..]);
    ConcatAppend([cs[0].text], Texts(cs[1..]));
    assert Concat([cs[0].text]) == cs[0].text by { assert [cs[0].text] == [] + [cs[0].text]; }
  }

  /** How the dispatches of one step and of the rest of the loop fit together. */
  lemma PrefixFacts(start: string, a: Progress, b: Progress)
    requires |a.dispatched| <= 1
    requires a.dispatched == [] ==> a.state.fullText == start
    requires a.dispatched != [] ==> a.dispatched == [a.state.fullText] && IsStrictPrefix(start, a.state.fullText)
    requires StrictlyGrowing(b.dispatched)
    requires forall i :: 0 <= i < |b.dispatched| ==>
      IsStrictPrefix(a.state.fullText, b.dispatched[i]) && IsPrefix(b.dispatched[i], b.state.fullText)
    requires |b.dispatched| > 0 ==> b.dispatched[|b.dispatched| - 1] == b.state.fullText
    requires |b.dispatched| == 0 ==> b.state.fullText == a.state.fullText
    ensures var ds := a.dispatched + b.dispatched;
      && StrictlyGrowing(ds)
      && (forall i :: 0 <= i < |ds| ==> IsStrictPrefix(start, ds[i]) && IsPrefix(ds[i], b.state.fullText))
      && (|ds| > 0 ==> ds[|ds| - 1] == b.state.fullText)
      && (|ds| == 0 ==> b.state.fullText == start)
  {
    var ds := a.dispatched + b.dispatched;
    if a.dispatched != [] {
      var f := a.state.fullText;
      assert ds == [f] + b.dispatched;
      forall i | 0 <= i < |b.dispatched| ensures IsStrictPrefix(start, b.dispatched[i]) {
        var d := b.dispatched[i];
        assert d[..|f|] == f;
        assert d[..|start|] == f[..|start|];
      }
      forall i, j | 0 <= i < j < |ds| ensures IsStrictPrefix(ds[i], ds[j]) {
        if i > 0 {
          assert ds[i] == b.dispatched[i - 1] && ds[j] == b.dispatched[j - 1];
        }
      }
      assert IsPrefix(f, b.state.fullText) by {
        if |b.dispatched| > 0 {
          assert IsStrictPrefix(f, b.dispatched[|b.dispatched| - 1]);
        }
      }
    }
  }

  /**
   End of stream: a non-empty residual buffer is flushed, then the whole text is
   dispatched once more. Every content dispatched here is all the text read.
   */
  function Finish(s: State): (ds: seq<string>)
    ensures |ds| == (if s.buffer == "" then 1 else 2)
    ensures forall i :: 0 <= i < |ds| ==> ds[i] == s.fullText + s.buffer
  {
    var full := s.fullText + s.buffer;
    if s.buffer != "" then [full, full] else [s.fullText]
  }

  /**
   A stream read to its end: the contents dispatched for the assistant turn.
   Whatever the chunk boundaries and the clock readings, each content is a prefix
   of the next and the final one is the concatenation of every chunk's text.
   */
  function Assemble(t0: int, cs: seq<Chunk>): (ds: seq<string>)
    ensures |ds| > 0
    ensures ds[|ds| - 1] == Concat(Texts(cs))
    ensures forall i, j :: 0 <= i < j < |ds| ==> IsPrefix(ds[i], ds[j])
  {
    var p := Run(Start(t0), cs);
    var tail := Finish(p.state);
    var ds := p.dispatched + tail;
    assert "" + "" + Concat(Texts(cs)) == Concat(Texts(cs));
    forall i, j | 0 <= i < j < |ds| ensures IsPrefix(ds[i], ds[j]) {
      var full := p.state.fullText + p.state.buffer;
      assert full[..|p.state.fullText|] == p.state.fullText;
      if j < |p.dispatched| {
        assert IsStrictPrefix(p.dispatched[i], p.dispatched[j]);
      } else if i < |p.dispatched| {
        assert IsPrefix(ds[i], p.state.fullText);
        assert ds[j] == full;
      }
    }
    ds
  }

  /** Two reads of the same text, chunked and timed differently, end with the same content. */
  lemma FinalContentIndependentOfPacing(t0: int, cs: seq<Chunk>, t0': int, cs': seq<Chunk>)
    requires Concat(Texts(cs)) == Concat(Texts(cs'))
    ensures var a := Assemble(t0, cs); var b := Assemble(t0', cs');
      a[|a| - 1] == b[|b| - 1]
  {
  }

  /** Between updates the word flag is exactly "held-back text ends inside a word". */
  lemma RunKeepsWordFlag(t0: int, cs: seq<Chunk>)
    ensures Coherent(Run(Start(t0), cs).state)
  {
  }
}
