// The VectorFS chunker: a document is split into paragraphs, a paragraph too
// long for one chunk is split into sentences, and sentences are packed
// greedily into chunks of about `ChunkSize` tokens, a token being estimated
// as four characters. Every splitter is a loop accumulating into builders and
// slices; each is a method proved equal to a prefix-recursive specification,
// and the properties of the chunking are lemmas about those specifications.
module Chunker {
  import Text

  /** `ChunkerConfig`; the overlap is carried but never read. */
  datatype ChunkerConfig = ChunkerConfig(chunkSize: int, chunkOverlap: int)

  datatype Chunk = Chunk(text: string, index: int)

  /** The token estimate of a text. */
  function Tokens(s: string): nat { |s| / 4 }

  // ---------------------------------------------------------------------------------------
  // Sequence helpers

  /** The concatenation of a list of groups, in order. */
  function Flatten(gs: seq<seq<string>>): (r: seq<string>)
    decreases |gs|
  {
    if gs == [] then [] else Flatten(gs[..|gs| - 1]) + gs[|gs| - 1]
  }

  /** Each group joined with single spaces. */
  function JoinEach(gs: seq<seq<string>>): (r: seq<string>)
    ensures |r| == |gs|
    decreases |gs|
  {
    if gs == [] then [] else JoinEach(gs[..|gs| - 1]) + [Text.Join(gs[|gs| - 1], " ")]
  }

  /** The token estimates of a group, summed. */
  function SumTokens(g: seq<string>): (r: nat)
    decreases |g|
  {
    if g == [] then 0 else SumTokens(g[..|g| - 1]) + Tokens(g[|g| - 1])
  }

  /** Joining two non-empty lists is joining each and putting the separator between. */
  lemma {:induction false} JoinAppend(xs: seq<string>, ys: seq<string>, sep: string)
    requires xs != [] && ys != []
    ensures Text.Join(xs + ys, sep) == Text.Join(xs, sep) + sep + Text.Join(ys, sep)
    decreases |xs|
  {
    if |xs| == 1 {
      assert (xs + ys)[1..] == ys;
    } else {
      JoinAppend(xs[1..], ys, sep);
      assert (xs + ys)[1..] == xs[1..] + ys;
    }
  }

  /** Joining the joined groups with spaces is joining all their members with spaces. */
  lemma {:induction false} JoinFlatten(gs: seq<seq<string>>)
    requires forall k :: 0 <= k < |gs| ==> gs[k] != []
    ensures Text.Join(JoinEach(gs), " ") == Text.Join(Flatten(gs), " ")
    decreases |gs|
  {
    if gs != [] {
      var init := gs[..|gs| - 1];
      var g := gs[|gs| - 1];
      JoinFlatten(init);
      if init == [] {
        assert Flatten(gs) == g;
      } else {
        assert init[|init| - 1] != [];
        assert Flatten(init) != [];
        JoinAppend(JoinEach(init), [Text.Join(g, " ")], " ");
        JoinAppend(Flatten(init), g, " ");
      }
    }
  }

  /** A group's sum is at least the estimate of each of its members. */
  lemma {:induction false} SumTokensBounds(g: seq<string>, i: nat)
    requires i < |g|
    ensures Tokens(g[i]) <= SumTokens(g)
    decreases |g|
  {
    if i < |g| - 1 {
      SumTokensBounds(g[..|g| - 1], i);
    }
  }

  // ---------------------------------------------------------------------------------------
  // Sentences

  /** The characters after which a sentence may end. */
  predicate IsTerminator(c: char)
  {
    c == '.' || c == '!' || c == '?' || c == '。' || c == '！' || c == '？'
  }

  /** `isSentenceEnd`: a terminator followed by white space or by the end of the text. */
  function IsSentenceEnd(runes: string, i: nat): (b: bool)
    ensures b <==> i < |runes| && IsTerminator(runes[i]) && (i + 1 == |runes| || Text.IsSpace(runes[i + 1]))
  {
    if i >= |runes| then false
    else if IsTerminator(runes[i]) then
      if i + 1 >= |runes| then true else Text.IsSpace(runes[i + 1])
    else false
  }

  /** A trimmed text as a list: empty when nothing is left. */
  function Kept(s: string): (r: seq<string>)
  {
    if |s| > 0 then [s] else []
  }

  /** The sentences found in the first `n` characters and the text collected since the last
      sentence end. */
  function SentenceScan(text: string, n: nat): (r: (seq<string>, string))
    requires n <= |text|
    decreases n
  {
    if n == 0 then ([], "")
    else
      var prev := SentenceScan(text, n - 1);
      var current := prev.1 + [text[n - 1]];
      if IsSentenceEnd(text, n - 1) then (prev.0 + Kept(Text.TrimSpace(current)), "")
      else (prev.0, current)
  }

  /** `splitSentences`: the scan's sentences and the trimmed remainder. */
  function Sentences(text: string): (r: seq<string>)
  {
    var scan := SentenceScan(text, |text|);
    if |scan.1| > 0 then scan.0 + Kept(Text.TrimSpace(scan.1)) else scan.0
  }

  /** Trimmed and not empty. */
  predicate IsTrimmed(s: string)
  {
    |s| > 0 && !Text.IsSpace(s[0]) && !Text.IsSpace(s[|s| - 1])
  }

  /** Trimming a text that ends in a character other than white space keeps that character
      last. */
  lemma TrimKeepsLast(s: string)
    requires |s| > 0 && !Text.IsSpace(s[|s| - 1])
    ensures |Text.TrimSpace(s)| > 0 && Text.TrimSpace(s)[|Text.TrimSpace(s)| - 1] == s[|s| - 1]
  {
    var l := Text.TrimLeft(s);
    Text.TrimLeftDrops(s);
    assert |l| > 0;
    assert l[|l| - 1] == s[|s| - 1];
    var r := Text.TrimRight(l);
    Text.TrimRightDrops(l);
    assert |r| == |l|;
  }

  /** Every member is trimmed and not empty. */
  predicate AllTrimmed(p: seq<string>)
  {
    forall k :: 0 <= k < |p| ==> IsTrimmed(p[k])
  }

  /** Trimmed, not empty and ending with a terminator. */
  predicate IsClosed(s: string)
  {
    IsTrimmed(s) && IsTerminator(s[|s| - 1])
  }

  predicate AllClosed(p: seq<string>)
  {
    forall k :: 0 <= k < |p| ==> IsClosed(p[k])
  }

  lemma KeptTrimmed(p: seq<string>, x: string)
    requires AllTrimmed(p)
    ensures AllTrimmed(p + Kept(Text.TrimSpace(x)))
  {
    var t := Text.TrimSpace(x);
    if |t| > 0 {
      assert IsTrimmed(t);
    } else {
      assert p + Kept(t) == p;
    }
  }

  lemma KeptClosed(p: seq<string>, current: string)
    requires AllClosed(p) && |current| > 0 && IsTerminator(current[|current| - 1])
    ensures AllClosed(p + Kept(Text.TrimSpace(current)))
  {
    assert !Text.IsSpace(current[|current| - 1]);
    TrimKeepsLast(current);
    var t := Text.TrimSpace(current);
    assert IsClosed(t);
  }

  /** Every sentence the scan closed is trimmed, not empty and ends with its terminator. */
  lemma {:induction false} SentenceScanShape(text: string, n: nat)
    requires n <= |text|
    ensures AllClosed(SentenceScan(text, n).0)
    decreases n
  {
    if n > 0 {
      SentenceScanShape(text, n - 1);
      var prev := SentenceScan(text, n - 1);
      if IsSentenceEnd(text, n - 1) {
        KeptClosed(prev.0, prev.1 + [text[n - 1]]);
      }
    }
  }

  /** `splitSentences` yields only trimmed, non-empty sentences, and all but the last end
      with a terminator. */
  lemma SentencesShape(text: string)
    ensures AllTrimmed(Sentences(text))
    ensures forall k :: 0 <= k < |Sentences(text)| - 1 ==> IsClosed(Sentences(text)[k])
  {
    var scan := SentenceScan(text, |text|);
    SentenceScanShape(text, |text|);
    assert AllTrimmed(scan.0) by {
      forall k | 0 <= k < |scan.0| ensures IsTrimmed(scan.0[k]) {
        assert IsClosed(scan.0[k]);
      }
    }
    if |scan.1| > 0 {
      KeptTrimmed(scan.0, scan.1);
    }
  }

  method SplitSentences(text: string) returns (sentences: seq<string>)
    ensures sentences == Sentences(text)
  {
    sentences := [];
    var currentSentence := "";
    var i := 0;
    while i < |text|
      invariant 0 <= i <= |text|
      invariant sentences == SentenceScan(text, i).0
      invariant currentSentence == SentenceScan(text, i).1
    {
      currentSentence := currentSentence + [text[i]];
      if IsSentenceEnd(text, i) {
        var sentence := Text.TrimSpace(currentSentence);
        if |sentence| > 0 {
          sentences := sentences + [sentence];
        } else {
          assert Kept(sentence) == [];
        }
        currentSentence := "";
      }
      i := i + 1;
    }
    if |currentSentence| > 0 {
      var sentence := Text.TrimSpace(currentSentence);
      if |sentence| > 0 {
        sentences := sentences + [sentence];
      } else {
        assert Kept(sentence) == [];
      }
    }
  }

  // ---------------------------------------------------------------------------------------
  // Packing sentences into chunks

  /** The greedy packing of the first `n` sentences: the closed groups, the open group and
      its token estimate. A sentence joins the open group while the estimate stays within
      `chunkSize`; otherwise the open group is closed and the sentence opens the next. */
  function GroupScan(ss: seq<string>, chunkSize: int, n: nat): (r: (seq<seq<string>>, seq<string>, int))
    requires n <= |ss|
    decreases n
  {
    if n == 0 then ([], [], 0)
    else
      var prev := GroupScan(ss, chunkSize, n - 1);
      var s := ss[n - 1];
      if prev.2 + Tokens(s) <= chunkSize then (prev.0, prev.1 + [s], prev.2 + Tokens(s))
      else (if prev.1 != [] then prev.0 + [prev.1] else prev.0, [s], Tokens(s))
  }

  /** The groups of `splitLongText`: the closed ones and the last open one. */
  function Groups(ss: seq<string>, chunkSize: int): seq<seq<string>>
  {
    var scan := GroupScan(ss, chunkSize, |ss|);
    if scan.1 != [] then scan.0 + [scan.1] else scan.0
  }

  /** `splitLongText`: the sentences of the text packed into groups, each joined by spaces. */
  function LongTextChunks(text: string, chunkSize: int): seq<string>
  {
    JoinEach(Groups(Sentences(text), chunkSize))
  }

  /** A group is not empty and, when it holds more than one sentence, its estimate is within
      the chunk size. */
  predicate WellPacked(g: seq<string>, chunkSize: int)
  {
    g != [] && (|g| > 1 ==> SumTokens(g) <= chunkSize)
  }

  /** The scan's state after the sentences `prefix`: they are all in the groups, in order, and
      every group is well packed. */
  predicate ScanState(done: seq<seq<string>>, cur: seq<string>, tokens: int, prefix: seq<string>, chunkSize: int)
  {
    Flatten(done) + cur == prefix
    && tokens == SumTokens(cur)
    && (|cur| > 1 ==> tokens <= chunkSize)
    && (forall k :: 0 <= k < |done| ==> WellPacked(done[k], chunkSize))
  }

  /** A sentence that fits joins the current group. */
  lemma ScanStateJoin(done: seq<seq<string>>, cur: seq<string>, tokens: int, prefix: seq<string>, chunkSize: int, s: string)
    requires ScanState(done, cur, tokens, prefix, chunkSize)
    requires tokens + Tokens(s) <= chunkSize
    ensures ScanState(done, cur + [s], tokens + Tokens(s), prefix + [s], chunkSize)
  {
    assert (cur + [s])[..|cur|] == cur;
  }

  /** A sentence that does not fit closes the current group (when there is one) and starts the
      next. */
  lemma ScanStateClose(done: seq<seq<string>>, cur: seq<string>, tokens: int, prefix: seq<string>, chunkSize: int, s: string)
    requires ScanState(done, cur, tokens, prefix, chunkSize)
    ensures var done' := if cur != [] then done + [cur] else done;
            ScanState(done', [s], Tokens(s), prefix + [s], chunkSize)
  {
    assert [s][..0] == [];
    if cur != [] {
      var done' := done + [cur];
      assert done'[..|done'| - 1] == done;
      assert Flatten(done') == Flatten(done) + cur;
      assert WellPacked(cur, chunkSize);
      forall k | 0 <= k < |done'| ensures WellPacked(done'[k], chunkSize) {
        if k < |done| { assert done'[k] == done[k]; }
      }
    }
  }

  /** The scan keeps every sentence once and in order, and every group stays well packed. */
  lemma {:induction false} GroupScanInvariant(ss: seq<string>, chunkSize: int, n: nat)
    requires n <= |ss|
    ensures var r := GroupScan(ss, chunkSize, n);
            ScanState(r.0, r.1, r.2, ss[..n], chunkSize)
    decreases n
  {
    if n == 0 {
      assert ss[..0] == [];
    } else {
      GroupScanInvariant(ss, chunkSize, n - 1);
      GroupScanStep(ss, chunkSize, n);
    }
  }

  /** One sentence more keeps the scan's state. */
  lemma GroupScanStep(ss: seq<string>, chunkSize: int, n: nat)
    requires 0 < n <= |ss|
    requires var prev := GroupScan(ss, chunkSize, n - 1);
             ScanState(prev.0, prev.1, prev.2, ss[..n - 1], chunkSize)
    ensures var r := GroupScan(ss, chunkSize, n);
            ScanState(r.0, r.1, r.2, ss[..n], chunkSize)
  {
    var prev := GroupScan(ss, chunkSize, n - 1);
    var s := ss[n - 1];
    assert ss[..n] == ss[..n - 1] + [s];
    if prev.2 + Tokens(s) <= chunkSize {
      assert GroupScan(ss, chunkSize, n) == (prev.0, prev.1 + [s], prev.2 + Tokens(s));
      ScanStateJoin(prev.0, prev.1, prev.2, ss[..n - 1], chunkSize, s);
    } else {
      assert GroupScan(ss, chunkSize, n) == (if prev.1 != [] then prev.0 + [prev.1] else prev.0, [s], Tokens(s));
      ScanStateClose(prev.0, prev.1, prev.2, ss[..n - 1], chunkSize, s);
    }
  }

  /** `splitLongText` puts every sentence in exactly one chunk, in order: joining the chunks
      with spaces is joining the sentences with spaces. A chunk of several sentences stays
      within the chunk size, so a sentence estimated above it forms a chunk of its own. */
  lemma LongTextKeepsSentences(text: string, chunkSize: int)
    ensures var gs := Groups(Sentences(text), chunkSize);
            Flatten(gs) == Sentences(text)
            && (forall k :: 0 <= k < |gs| ==> WellPacked(gs[k], chunkSize))
            && Text.Join(LongTextChunks(text, chunkSize), " ") == Text.Join(Sentences(text), " ")
  {
    var ss := Sentences(text);
    GroupScanInvariant(ss, chunkSize, |ss|);
    var (done, cur, tokens) := GroupScan(ss, chunkSize, |ss|);
    assert Flatten(done) + cur == ss[..|ss|];
    var gs := Groups(ss, chunkSize);
    assert ss[..|ss|] == ss;
    if cur != [] {
      assert gs[..|gs| - 1] == done;
    }
    JoinFlatten(gs);
  }

  /** A sentence estimated above the chunk size is alone in its chunk. */
  lemma OversizedSentenceAlone(g: seq<string>, chunkSize: int, i: nat)
    requires WellPacked(g, chunkSize) && i < |g| && Tokens(g[i]) > chunkSize
    ensures g == [g[i]]
  {
    SumTokensBounds(g, i);
    assert |g| == 1;
  }

  /** A join of non-empty texts is empty only when there is nothing to join. */
  lemma JoinNonEmpty(g: seq<string>, sep: string)
    requires g != [] && g[0] != []
    ensures |Text.Join(g, sep)| > 0
  {
  }

  /** Appending one text to a non-empty join. */
  lemma JoinSnoc(g: seq<string>, s: string, sep: string)
    requires g != []
    ensures Text.Join(g + [s], sep) == Text.Join(g, sep) + sep + s
  {
    JoinAppend(g, [s], sep);
  }

  method SplitLongText(text: string, chunkSize: int) returns (chunks: seq<string>)
    ensures chunks == LongTextChunks(text, chunkSize)
  {
    var sentences := SplitSentences(text);
    SentencesShape(text);
    chunks := [];
    var currentChunk := "";
    var currentTokens := 0;
    ghost var done: seq<seq<string>> := [];
    ghost var cur: seq<string> := [];
    var i := 0;
    while i < |sentences|
      invariant 0 <= i <= |sentences|
      invariant done == GroupScan(sentences, chunkSize, i).0
      invariant cur == GroupScan(sentences, chunkSize, i).1
      invariant currentTokens == GroupScan(sentences, chunkSize, i).2
      invariant chunks == JoinEach(done)
      invariant currentChunk == Text.Join(cur, " ")
      invariant cur != [] ==> cur[0] != []
      invariant |currentChunk| > 0 <==> cur != []
    {
      var sentence := sentences[i];
      assert IsTrimmed(sentence);
      var sentenceTokens := |sentence| / 4;
      if currentTokens + sentenceTokens <= chunkSize {
        if |currentChunk| > 0 {
          JoinSnoc(cur, sentence, " ");
          currentChunk := currentChunk + " ";
        }
        currentChunk := currentChunk + sentence;
        currentTokens := currentTokens + sentenceTokens;
        cur := cur + [sentence];
      } else {
        if |currentChunk| > 0 {
          chunks := chunks + [currentChunk];
          assert (done + [cur])[..|done|] == done;
          done := done + [cur];
        }
        currentChunk := sentence;
        currentTokens := sentenceTokens;
        cur := [sentence];
      }
      JoinNonEmpty(cur, " ");
      i := i + 1;
    }
    if |currentChunk| > 0 {
      chunks := chunks + [currentChunk];
      assert (done + [cur])[..|done|] == done;
      done := done + [cur];
    }
    assert done == Groups(sentences, chunkSize);
  }

  // ---------------------------------------------------------------------------------------
  // Paragraphs

  /** The trimmed, non-empty parts among the first `n`. */
  function NonEmptyTrimmed(parts: seq<string>, n: nat): (r: seq<string>)
    requires n <= |parts|
    decreases n
  {
    if n == 0 then [] else NonEmptyTrimmed(parts, n - 1) + Kept(Text.TrimSpace(parts[n - 1]))
  }

  /** `splitParagraphs`: the trimmed non-empty parts between blank lines, else between line
      breaks, else the whole text as one paragraph. */
  function Paragraphs(text: string): (r: seq<string>)
  {
    var byBlank := Text.Split(text, "\n\n");
    var first := NonEmptyTrimmed(byBlank, |byBlank|);
    if |first| > 0 then first
    else
      var byLine := Text.Split(text, "\n");
      var second := NonEmptyTrimmed(byLine, |byLine|);
      if |second| > 0 then second else [text]
  }

  lemma {:induction false} NonEmptyTrimmedShape(parts: seq<string>, n: nat)
    requires n <= |parts|
    ensures |NonEmptyTrimmed(parts, n)| <= n && AllTrimmed(NonEmptyTrimmed(parts, n))
    decreases n
  {
    if n > 0 {
      NonEmptyTrimmedShape(parts, n - 1);
      KeptTrimmed(NonEmptyTrimmed(parts, n - 1), parts[n - 1]);
    }
  }

  /** There is always at least one paragraph; paragraphs found by either split are trimmed
      and non-empty, and only a text with no such part is kept whole. */
  lemma ParagraphsShape(text: string)
    ensures |Paragraphs(text)| > 0
    ensures Paragraphs(text) != [text] ==> AllTrimmed(Paragraphs(text))
    ensures Paragraphs(text) == [text] && !IsTrimmed(text) ==>
              |NonEmptyTrimmed(Text.Split(text, "\n"), |Text.Split(text, "\n")|)| == 0
  {
    var byBlank := Text.Split(text, "\n\n");
    var byLine := Text.Split(text, "\n");
    NonEmptyTrimmedShape(byBlank, |byBlank|);
    NonEmptyTrimmedShape(byLine, |byLine|);
  }

  /** One stage of `splitParagraphs`: the loop trimming and keeping the non-empty parts. */
  method KeepNonEmpty(parts: seq<string>) returns (result: seq<string>)
    ensures result == NonEmptyTrimmed(parts, |parts|)
  {
    result := [];
    var i := 0;
    while i < |parts|
      invariant 0 <= i <= |parts|
      invariant result == NonEmptyTrimmed(parts, i)
    {
      var para := Text.TrimSpace(parts[i]);
      if |para| > 0 {
        result := result + [para];
      }
      i := i + 1;
    }
  }

  method SplitParagraphs(text: string) returns (result: seq<string>)
    ensures result == Paragraphs(text)
  {
    result := KeepNonEmpty(Text.Split(text, "\n\n"));
    if |result| == 0 {
      result := KeepNonEmpty(Text.Split(text, "\n"));
    }
    if |result| == 0 {
      result := [text];
    }
  }

  // ---------------------------------------------------------------------------------------
  // Documents

  /** The chunk texts one paragraph contributes: itself when its estimate fits, otherwise
      the packed sentences. */
  function ParagraphChunks(para: string, chunkSize: int): seq<string>
  {
    if Tokens(para) <= chunkSize then [para] else LongTextChunks(para, chunkSize)
  }

  /** The chunk texts of each paragraph, paragraph by paragraph. */
  function Pieces(paras: seq<string>, chunkSize: int): (r: seq<seq<string>>)
    ensures |r| == |paras|
    decreases |paras|
  {
    if paras == [] then []
    else Pieces(paras[..|paras| - 1], chunkSize) + [ParagraphChunks(paras[|paras| - 1], chunkSize)]
  }

  /** Paragraph `k` contributes its own chunk texts. */
  lemma {:induction false} PiecesAt(paras: seq<string>, chunkSize: int, k: nat)
    requires k < |paras|
    ensures Pieces(paras, chunkSize)[k] == ParagraphChunks(paras[k], chunkSize)
    decreases |paras|
  {
    if k < |paras| - 1 {
      PiecesAt(paras[..|paras| - 1], chunkSize, k);
    }
  }

  /** Flattening one more group appends it. */
  lemma FlattenStep(gs: seq<seq<string>>, p: nat)
    requires p < |gs|
    ensures Flatten(gs[..p + 1]) == Flatten(gs[..p]) + gs[p]
  {
    assert gs[..p + 1][..p] == gs[..p];
  }

  /** The chunk texts of `ChunkDocument`: those of its paragraphs in order, or the text
      itself when they give none. */
  function DocumentTexts(text: string, cfg: ChunkerConfig): (r: seq<string>)
    ensures |r| > 0
  {
    var texts := Flatten(Pieces(Paragraphs(text), cfg.chunkSize));
    if |texts| == 0 then [text] else texts
  }

  /** The texts in order, numbered from 0. */
  function Numbered(texts: seq<string>): (r: seq<Chunk>)
    ensures |r| == |texts|
    decreases |texts|
  {
    if texts == [] then [] else Numbered(texts[..|texts| - 1]) + [Chunk(texts[|texts| - 1], |texts| - 1)]
  }

  /** Chunk `i` holds text `i` and carries the index `i`. */
  lemma {:induction false} NumberedIndices(texts: seq<string>, i: nat)
    requires i < |texts|
    ensures Numbered(texts)[i] == Chunk(texts[i], i)
    decreases |texts|
  {
    if i < |texts| - 1 {
      NumberedIndices(texts[..|texts| - 1], i);
    }
  }

  lemma NumberedAppend(texts: seq<string>, t: string)
    ensures Numbered(texts + [t]) == Numbered(texts) + [Chunk(t, |texts|)]
  {
    assert (texts + [t])[..|texts|] == texts;
  }

  /** The inner loop of `ChunkDocument`: each sub-chunk appended with the next index. */
  method AppendNumbered(chunks: seq<Chunk>, chunkIndex: int, ghost texts: seq<string>, subChunks: seq<string>)
    returns (result: seq<Chunk>, nextIndex: int)
    requires chunks == Numbered(texts) && chunkIndex == |chunks|
    ensures result == Numbered(texts + subChunks) && nextIndex == |result|
  {
    result, nextIndex := chunks, chunkIndex;
    var j := 0;
    assert texts + subChunks[..j] == texts;
    while j < |subChunks|
      invariant 0 <= j <= |subChunks|
      invariant nextIndex == |result|
      invariant result == Numbered(texts + subChunks[..j])
    {
      NumberedAppend(texts + subChunks[..j], subChunks[j]);
      assert texts + subChunks[..j + 1] == texts + subChunks[..j] + [subChunks[j]];
      result := result + [Chunk(subChunks[j], nextIndex)];
      nextIndex := nextIndex + 1;
      j := j + 1;
    }
    assert subChunks[..j] == subChunks;
  }

  /** The body of `ChunkDocument`'s loop: a fitting paragraph appended as one chunk, a long
      one as its packed sentences, each with the next index. */
  method AppendParagraph(para: string, chunkSize: int, chunks: seq<Chunk>, chunkIndex: int, ghost texts: seq<string>)
    returns (result: seq<Chunk>, nextIndex: int)
    requires chunks == Numbered(texts) && chunkIndex == |chunks|
    ensures result == Numbered(texts + ParagraphChunks(para, chunkSize)) && nextIndex == |result|
  {
    var estimatedTokens := |para| / 4;
    if estimatedTokens <= chunkSize {
      NumberedAppend(texts, para);
      result := chunks + [Chunk(para, chunkIndex)];
      nextIndex := chunkIndex + 1;
    } else {
      var subChunks := SplitLongText(para, chunkSize);
      result, nextIndex := AppendNumbered(chunks, chunkIndex, texts, subChunks);
    }
  }

  /** `ChunkDocument`: the texts numbered 0, 1, ... in order; never empty. */
  method ChunkDocument(text: string, cfg: ChunkerConfig) returns (chunks: seq<Chunk>)
    ensures |chunks| > 0 && chunks == Numbered(DocumentTexts(text, cfg))
  {
    var paragraphs := SplitParagraphs(text);
    chunks := ChunkParagraphs(paragraphs, cfg.chunkSize);
    if |chunks| == 0 {
      chunks := [Chunk(text, 0)];
      assert chunks == Numbered([text]);
    }
  }

  /** The loop of `ChunkDocument` over the paragraphs. */
  method ChunkParagraphs(paragraphs: seq<string>, chunkSize: int) returns (chunks: seq<Chunk>)
    ensures chunks == Numbered(Flatten(Pieces(paragraphs, chunkSize)))
  {
    ghost var pieces := Pieces(paragraphs, chunkSize);
    chunks := [];
    var chunkIndex := 0;
    ghost var texts: seq<string> := [];
    var p := 0;
    while p < |paragraphs|
      invariant 0 <= p <= |paragraphs|
      invariant texts == Flatten(pieces[..p])
      invariant chunkIndex == |chunks|
      invariant chunks == Numbered(texts)
    {
      FlattenStep(pieces, p);
      PiecesAt(paragraphs, chunkSize, p);
      chunks, chunkIndex := AppendParagraph(paragraphs[p], chunkSize, chunks, chunkIndex, texts);
      texts := texts + ParagraphChunks(paragraphs[p], chunkSize);
      p := p + 1;
    }
    assert pieces[..p] == pieces;
  }

  /** A text that is a single fitting paragraph is a single chunk holding it. */
  lemma ShortTextOneChunk(text: string, cfg: ChunkerConfig)
    requires |Paragraphs(text)| == 1 && Tokens(Paragraphs(text)[0]) <= cfg.chunkSize
    ensures DocumentTexts(text, cfg) == [Paragraphs(text)[0]]
  {
    var paras := Paragraphs(text);
    PiecesAt(paras, cfg.chunkSize, 0);
    var pieces := Pieces(paras, cfg.chunkSize);
    assert pieces == [[paras[0]]];
    assert pieces[..0] == [];
    assert Flatten(pieces) == [paras[0]];
  }
}
