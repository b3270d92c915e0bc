/**
  Splitting a knowledge file into chunks of bounded size: paragraphs are
  packed greedily, and a paragraph too large on its own is broken into
  sentences. Both retrieval variants use the same chunker.
 */
module Chunker {
  import opened Text

  /** `{ text, filename }`. */
  datatype TextChunk = TextChunk(text: string, filename: string)

  /** `content.split(/\n\n+/)`: the pieces between runs of two or more newlines. */
  function Paragraphs(s: string): (r: seq<string>)
    ensures |r| > 0
    decreases |s|
  {
    var i := IndexOf(s, "\n\n");
    if i == -1 then [s]
    else
      var e := SkipNewlines(s, i);
      assert s[i] == "\n\n"[0];
      [s[..i]] + Paragraphs(s[e..])
  }

  predicate IsTerminator(c: char) {
    c == '.' || c == '!' || c == '?'
  }

  /** The first index at or after `i` whose character is not (when `term`) or is (otherwise) a sentence terminator. */
  function RunEnd(s: string, i: nat, term: bool): (k: nat)
    requires i <= |s|
    ensures i <= k <= |s| && (k == |s| || IsTerminator(s[k]) != term)
    ensures forall j :: i <= j < k ==> IsTerminator(s[j]) == term
    decreases |s| - i
  {
    if i < |s| && IsTerminator(s[i]) == term then RunEnd(s, i + 1, term) else i
  }

  /** Whether a sentence match ends in a terminator. */
  predicate EndsInTerminator(x: string) {
    x != [] && IsTerminator(x[|x| - 1])
  }

  /** `s.match(/[^.!?]+[.!?]+/g)` from `i`: each run of other characters together with the terminators after it; a final unterminated run is not matched. */
  function SentencesFrom(s: string, i: nat): (r: seq<string>)
    requires i <= |s|
    ensures forall k :: 0 <= k < |r| ==> EndsInTerminator(r[k])
    decreases |s| - i
  {
    var p := RunEnd(s, i, true);
    if p == |s| then []
    else
      var q := RunEnd(s, p, false);
      if q == |s| then []
      else
        var e := RunEnd(s, q, true);
        [s[p..e]] + SentencesFrom(s, e)
  }

  /** `trimmed.match(...) || [trimmed]`: the sentences of an oversized paragraph, or the paragraph itself when no sentence matches. */
  function Pieces(tp: string): (r: seq<string>)
    requires tp != [] && IsTrimmed(tp)
    ensures forall k :: 0 <= k < |r| ==> HasText(r[k])
  {
    var ss := SentencesFrom(tp, 0);
    if ss == [] then [tp]
    else
      forall k | 0 <= k < |ss| ensures HasText(ss[k]) {
        TerminatorIsText(ss[k]);
      }
      ss
  }

  /** Some character is not whitespace. */
  predicate HasText(x: string) {
    !AllSpace(x)
  }

  lemma TerminatorIsText(x: string)
    requires EndsInTerminator(x)
    ensures HasText(x)
  {
    assert !IsSpace(x[|x| - 1]);
  }

  /** The loop state: the chunks pushed so far and `currentChunk`. */
  datatype Acc = Acc(chunks: seq<TextChunk>, current: string)

  /** Pushes the trimmed current chunk and starts a new one. */
  function Emit(acc: Acc, filename: string): Acc {
    Acc(acc.chunks + [TextChunk(Trim(acc.current), filename)], "")
  }

  /** Pushes the current chunk first when `next` would overflow it and it is not empty. */
  function MakeRoom(acc: Acc, next: string, max: nat, filename: string): Acc {
    if |acc.current| + |next| > max && |acc.current| > 0 then Emit(acc, filename) else acc
  }

  /** One iteration of the sentence loop. */
  function AddSentence(acc: Acc, sentence: string, max: nat, filename: string): Acc {
    var a := MakeRoom(acc, sentence, max, filename);
    a.(current := a.current + sentence + " ")
  }

  function AddSentences(acc: Acc, ss: seq<string>, max: nat, filename: string): Acc
    decreases |ss|
  {
    if ss == [] then acc else AddSentences(AddSentence(acc, ss[0], max, filename), ss[1..], max, filename)
  }

  /** One iteration of the paragraph loop. */
  function AddParagraph(acc: Acc, paragraph: string, max: nat, filename: string): Acc {
    var tp := Trim(paragraph);
    if tp == [] then acc
    else
      var a := MakeRoom(acc, tp, max, filename);
      if |tp| > max then AddSentences(a, Pieces(tp), max, filename)
      else a.(current := a.current + tp + "\n\n")
  }

  function AddParagraphs(acc: Acc, ps: seq<string>, max: nat, filename: string): Acc
    decreases |ps|
  {
    if ps == [] then acc else AddParagraphs(AddParagraph(acc, ps[0], max, filename), ps[1..], max, filename)
  }

  /** `chunkContent`. */
  function ChunkContent(content: string, filename: string, max: nat): (r: seq<TextChunk>)
    ensures forall i :: 0 <= i < |r| ==> GoodChunk(r[i], content, filename, max)
  {
    var acc := AddParagraphs(Acc([], ""), Paragraphs(content), max, filename);
    AddParagraphsKeeps(Acc([], ""), Paragraphs(content), content, max, filename);
    if |Trim(acc.current)| > 0 then acc.chunks + [TextChunk(Trim(acc.current), filename)] else acc.chunks
  }

  // ---------------------------------------------------------------------
  // the size bound

  /** A piece of an oversized paragraph of `content` that is itself longer than `max`. */
  ghost predicate IsLongPiece(content: string, max: nat, x: string) {
    |x| > max && exists par :: par in Paragraphs(content) && Trim(par) != [] && |Trim(par)| > max && x in Pieces(Trim(par))
  }

  /** Within the size bound, or the trimmed text of one long piece. */
  ghost predicate Bounded(t: string, content: string, max: nat) {
    |t| <= max || exists x :: IsLongPiece(content, max, x) && t == Trim(x)
  }

  /** A chunk that is not empty, trimmed, tagged with the file name, and bounded. */
  ghost predicate GoodChunk(c: TextChunk, content: string, filename: string, max: nat) {
    c.text != [] && IsTrimmed(c.text) && c.filename == filename && Bounded(c.text, content, max)
  }

  /** What the loops keep: good chunks, and a current chunk that trims to a non-empty bounded text. */
  ghost predicate Inv(acc: Acc, content: string, filename: string, max: nat) {
    && (forall i :: 0 <= i < |acc.chunks| ==> GoodChunk(acc.chunks[i], content, filename, max))
    && (acc.current == [] || (Trim(acc.current) != [] && Bounded(Trim(acc.current), content, max)))
  }

  lemma EmitKeeps(acc: Acc, content: string, filename: string, max: nat)
    requires Inv(acc, content, filename, max) && acc.current != []
    ensures Inv(Emit(acc, filename), content, filename, max)
  {
    var r := Emit(acc, filename);
    assert r.chunks[|acc.chunks|] == TextChunk(Trim(acc.current), filename);
  }

  lemma MakeRoomKeeps(acc: Acc, next: string, content: string, filename: string, max: nat)
    requires Inv(acc, content, filename, max)
    ensures Inv(MakeRoom(acc, next, max, filename), content, filename, max)
    ensures MakeRoom(acc, next, max, filename).current == [] || |acc.current| + |next| <= max
    ensures MakeRoom(acc, next, max, filename).current == [] || MakeRoom(acc, next, max, filename).current == acc.current
  {
    if |acc.current| + |next| > max && |acc.current| > 0 {
      EmitKeeps(acc, content, filename, max);
    }
  }

  /** Appending a piece with text, then whitespace: the trimmed result is the trim of the text before the whitespace. */
  lemma AppendPiece(cur: string, x: string, pad: string)
    requires HasText(x) && AllSpace(pad)
    ensures Trim(cur + x + pad) == Trim(cur + x) && Trim(cur + x) != []
    ensures |Trim(cur + x)| <= |cur| + |x|
    ensures cur == [] ==> Trim(cur + x) == Trim(x)
  {
    TrimAppendSpaces(cur + x, pad);
    var k :| 0 <= k < |x| && !IsSpace(x[k]);
    assert (cur + x)[|cur| + k] == x[k];
    if cur == [] {
      assert cur + x == x;
    }
  }

  lemma AddSentenceKeeps(acc: Acc, x: string, content: string, filename: string, max: nat)
    requires Inv(acc, content, filename, max)
    requires HasText(x) && (|x| <= max || IsLongPiece(content, max, x))
    ensures Inv(AddSentence(acc, x, max, filename), content, filename, max)
  {
    var a := MakeRoom(acc, x, max, filename);
    MakeRoomKeeps(acc, x, content, filename, max);
    AppendPiece(a.current, x, " ");
  }

  lemma {:induction false} AddSentencesKeeps(acc: Acc, ss: seq<string>, content: string, filename: string, max: nat)
    requires Inv(acc, content, filename, max)
    requires forall k :: 0 <= k < |ss| ==> HasText(ss[k]) && (|ss[k]| <= max || IsLongPiece(content, max, ss[k]))
    ensures Inv(AddSentences(acc, ss, max, filename), content, filename, max)
    decreases |ss|
  {
    if ss != [] {
      AddSentenceKeeps(acc, ss[0], content, filename, max);
      AddSentencesKeeps(AddSentence(acc, ss[0], max, filename), ss[1..], content, filename, max);
    }
  }

  lemma AddParagraphKeeps(acc: Acc, par: string, content: string, filename: string, max: nat)
    requires Inv(acc, content, filename, max) && par in Paragraphs(content)
    ensures Inv(AddParagraph(acc, par, max, filename), content, filename, max)
  {
    var tp := Trim(par);
    if tp != [] {
      var a := MakeRoom(acc, tp, max, filename);
      MakeRoomKeeps(acc, tp, content, filename, max);
      if |tp| > max {
        var ps := Pieces(tp);
        forall k | 0 <= k < |ps| ensures HasText(ps[k]) && (|ps[k]| <= max || IsLongPiece(content, max, ps[k])) {
          assert ps[k] in ps;
        }
        AddSentencesKeeps(a, ps, content, filename, max);
      } else {
        assert HasText(tp);
        AppendPiece(a.current, tp, "\n\n");
      }
    }
  }

  lemma {:induction false} AddParagraphsKeeps(acc: Acc, ps: seq<string>, content: string, max: nat, filename: string)
    requires Inv(acc, content, filename, max)
    requires forall k :: 0 <= k < |ps| ==> ps[k] in Paragraphs(content)
    ensures Inv(AddParagraphs(acc, ps, max, filename), content, filename, max)
    decreases |ps|
  {
    if ps != [] {
      AddParagraphKeeps(acc, ps[0], content, filename, max);
      AddParagraphsKeeps(AddParagraph(acc, ps[0], max, filename), ps[1..], content, max, filename);
    }
  }
}
