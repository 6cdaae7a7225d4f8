/** The word-safe chunker of the ingestion service
    (`split_text_into_chunks` in src/application/ingestion.rs).

    The text is cut by `split_inclusive(char::is_whitespace)` into pieces,
    each ending in one whitespace character (except possibly the last), and
    the pieces are packed greedily into chunks of at most `ChunkSize` UTF-8
    bytes; a piece that alone exceeds the budget becomes a chunk of its own.
    `PackFrom` states the packing on pieces, `SplitTextIntoChunks` is the
    loop, and the lemmas state what the chunks are. */
module Chunking {
  import opened Text

  /** CHUNK_SIZE, a budget in bytes (Rust's `len()`). */
  const ChunkSize: nat := 24_000

  /** Length of the first piece of `s`: up to and including the first
      whitespace character, or all of `s` when it has none. */
  function PieceEnd(s: string): (e: nat)
    requires s != []
    ensures 1 <= e <= |s|
    ensures forall i :: 0 <= i < e - 1 ==> !IsWhitespace(s[i])
    ensures IsWhitespace(s[e - 1]) || e == |s|
    decreases |s|
  {
    if IsWhitespace(s[0]) || |s| == 1 then 1 else 1 + PieceEnd(s[1..])
  }

  /** `str::split_inclusive(char::is_whitespace)`. */
  function SplitInclusive(s: string): seq<string>
    decreases |s|
  {
    if s == [] then [] else var e := PieceEnd(s); [s[..e]] + SplitInclusive(s[e..])
  }

  predicate EndsInWhitespace(s: string) {
    s != [] && IsWhitespace(s[|s| - 1])
  }

  /** A word: non-empty, and whitespace can only be its last character. */
  predicate IsPiece(w: string) {
    w != [] && forall i :: 0 <= i < |w| - 1 ==> !IsWhitespace(w[i])
  }

  /** What `split_inclusive` yields: words, each but the last ending in whitespace. */
  predicate WellFormedPieces(pieces: seq<string>) {
    (forall j :: 0 <= j < |pieces| ==> IsPiece(pieces[j]))
    && (forall j :: 0 <= j < |pieces| - 1 ==> EndsInWhitespace(pieces[j]))
  }

  lemma SplitAt<T>(s: seq<T>, i: nat)
    requires i <= |s|
    ensures s[..i] + s[i..] == s
  {
  }

  lemma {:induction false} SplitInclusiveConcat(s: string)
    ensures Concat(SplitInclusive(s)) == s
    ensures s == [] <==> SplitInclusive(s) == []
    decreases |s|
  {
    if s != [] {
      var e := PieceEnd(s);
      var rest := SplitInclusive(s[e..]);
      SplitInclusiveConcat(s[e..]);
      assert SplitInclusive(s) == [s[..e]] + rest;
      ConcatAppend([s[..e]], rest);
      ConcatOne(s[..e]);
      SplitAt(s, e);
    }
  }

  lemma {:induction false} SplitInclusiveWellFormed(s: string)
    ensures WellFormedPieces(SplitInclusive(s))
    decreases |s|
  {
    if s != [] {
      var e := PieceEnd(s);
      SplitInclusiveWellFormed(s[e..]);
      var rest := SplitInclusive(s[e..]);
      var p := SplitInclusive(s);
      assert p == [s[..e]] + rest;
      assert IsPiece(p[0]);
      forall j | 0 <= j < |p| - 1
        ensures EndsInWhitespace(p[j])
      {
        if j == 0 {
          SplitInclusiveConcat(s[e..]);
          assert e < |s|;
        } else {
          assert p[j] == rest[j - 1];
        }
      }
      forall j | 0 <= j < |p|
        ensures IsPiece(p[j])
      {
        if j > 0 {
          assert p[j] == rest[j - 1];
        }
      }
    }
  }

  /** `split_inclusive` cuts the text into words that give it back when
      concatenated, each but the last ending in whitespace. */
  lemma SplitInclusiveSound(s: string)
    ensures Concat(SplitInclusive(s)) == s
    ensures WellFormedPieces(SplitInclusive(s))
    ensures s == [] <==> SplitInclusive(s) == []
  {
    SplitInclusiveConcat(s);
    SplitInclusiveWellFormed(s);
  }

  /** The first piece of a piece followed by more text is that piece, when
      the piece ends in whitespace or nothing follows it. */
  lemma {:induction false} PieceEndOfPiece(w: string, rest: string)
    requires IsPiece(w)
    requires EndsInWhitespace(w) || rest == []
    ensures PieceEnd(w + rest) == |w|
    decreases |w|
  {
    var s := w + rest;
    assert s[0] == w[0];
    if |w| > 1 {
      assert !IsWhitespace(w[0]);
      assert s[1..] == w[1..] + rest;
      assert IsPiece(w[1..]) by {
        forall i | 0 <= i < |w[1..]| - 1
          ensures !IsWhitespace(w[1..][i])
        {
          assert w[1..][i] == w[i + 1];
        }
      }
      PieceEndOfPiece(w[1..], rest);
    } else if rest != [] {
      assert IsWhitespace(s[0]);
    }
  }

  /** Fits(g): a group fits the budget, or it is a single piece. */
  predicate Fits(g: seq<string>) {
    SumLens(g) <= ChunkSize || |g| == 1
  }

  /** The greedy packing performed by the loop of `split_text_into_chunks`,
      on pieces: `cur` is the group being filled and `len` the byte length
      of its text (the loop's `current_chunk.len()`); the next piece starts a
      new group exactly when adding it to a non-empty group exceeds the budget. */
  function PackFrom(pieces: seq<string>, cur: seq<string>, len: nat): seq<seq<string>>
    decreases |pieces|
  {
    if pieces == [] then (if cur == [] then [] else [cur])
    else if cur != [] && len + Utf8Len(pieces[0]) > ChunkSize then
      [cur] + PackFrom(pieces[1..], [pieces[0]], Utf8Len(pieces[0]))
    else
      PackFrom(pieces[1..], cur + [pieces[0]], len + Utf8Len(pieces[0]))
  }

  /** The groups of pieces that become the chunks of `text`. */
  function Groups(text: string): seq<seq<string>> {
    PackFrom(SplitInclusive(text), [], 0)
  }

  /** The byte lengths of the pieces, added up. */
  function SumLens(pieces: seq<string>): nat
    decreases |pieces|
  {
    if pieces == [] then 0 else Utf8Len(pieces[0]) + SumLens(pieces[1..])
  }

  lemma {:induction false} SumLensConcat(pieces: seq<string>)
    ensures SumLens(pieces) == Utf8Len(Concat(pieces))
    decreases |pieces|
  {
    if pieces != [] {
      SumLensConcat(pieces[1..]);
      Utf8LenAppend(pieces[0], Concat(pieces[1..]));
    }
  }

  lemma {:induction false} SumLensAppend(a: seq<string>, b: seq<string>)
    ensures SumLens(a + b) == SumLens(a) + SumLens(b)
    decreases |a|
  {
    if a != [] {
      assert (a + b)[0] == a[0] && (a + b)[1..] == a[1..] + b;
      SumLensAppend(a[1..], b);
      assert SumLens(a + b) == Utf8Len(a[0]) + SumLens(a[1..] + b);
    } else {
      assert a + b == b;
    }
  }

  /** The length carried along is the byte length of the group's text. */
  predicate LenOf(cur: seq<string>, len: nat) {
    len == SumLens(cur)
  }

  /** Both ways the packing goes on keep the carried length exact. */
  lemma LenOfStep(cur: seq<string>, len: nat, w: string)
    requires LenOf(cur, len)
    ensures LenOf([w], Utf8Len(w))
    ensures LenOf(cur + [w], len + Utf8Len(w))
  {
    assert SumLens([w]) == Utf8Len(w) + SumLens([]);
    SumLensAppend(cur, [w]);
  }

  function ConcatEach(groups: seq<seq<string>>): (r: seq<string>)
    ensures |r| == |groups|
    ensures forall i :: 0 <= i < |groups| ==> r[i] == Concat(groups[i])
  {
    seq(|groups|, i requires 0 <= i < |groups| => Concat(groups[i]))
  }

  /** The chunks `split_text_into_chunks(text)` returns. */
  function Chunks(text: string): seq<string> {
    ConcatEach(Groups(text))
  }

  // ---------------------------------------------------------------------
  // Facts about the packing of pieces
  // ---------------------------------------------------------------------

  /** Packing keeps the pieces, in order: no piece is dropped, split or repeated. */
  lemma {:induction false} PackKeepsPieces(pieces: seq<string>, cur: seq<string>, len: nat)
    ensures Concat(PackFrom(pieces, cur, len)) == cur + pieces
    decreases |pieces|
  {
    if pieces == [] {
      if cur != [] { ConcatOne(cur); }
    } else if cur != [] && len + Utf8Len(pieces[0]) > ChunkSize {
      var w := pieces[0];
      PackKeepsPieces(pieces[1..], [w], Utf8Len(w));
      ConcatAppend([cur], PackFrom(pieces[1..], [w], Utf8Len(w)));
      ConcatOne(cur);
      assert [w] + pieces[1..] == pieces;
    } else {
      PackKeepsPieces(pieces[1..], cur + [pieces[0]], len + Utf8Len(pieces[0]));
      assert cur + [pieces[0]] + pieces[1..] == cur + pieces;
    }
  }

  /** Every group is non-empty, and there is no group at all exactly when
      there was nothing to pack. */
  lemma {:induction false} PackGroupsNonEmpty(pieces: seq<string>, cur: seq<string>, len: nat)
    ensures forall i :: 0 <= i < |PackFrom(pieces, cur, len)| ==> PackFrom(pieces, cur, len)[i] != []
    ensures PackFrom(pieces, cur, len) == [] <==> cur == [] && pieces == []
    decreases |pieces|
  {
    if pieces != [] {
      var w := pieces[0];
      if cur != [] && len + Utf8Len(w) > ChunkSize {
        PackGroupsNonEmpty(pieces[1..], [w], Utf8Len(w));
        var g' := PackFrom(pieces[1..], [w], Utf8Len(w));
        assert PackFrom(pieces, cur, len) == [cur] + g';
      } else {
        PackGroupsNonEmpty(pieces[1..], cur + [w], len + Utf8Len(w));
      }
    }
  }

  /** Every group holds only pieces that were packed. */
  lemma {:induction false} PackGroupsFromInput(pieces: seq<string>, cur: seq<string>, len: nat)
    ensures forall i, j :: 0 <= i < |PackFrom(pieces, cur, len)| && 0 <= j < |PackFrom(pieces, cur, len)[i]|
              ==> PackFrom(pieces, cur, len)[i][j] in cur + pieces
    decreases |pieces|
  {
    var g := PackFrom(pieces, cur, len);
    if pieces != [] {
      var w := pieces[0];
      if cur != [] && len + Utf8Len(w) > ChunkSize {
        PackGroupsFromInput(pieces[1..], [w], Utf8Len(w));
        var g' := PackFrom(pieces[1..], [w], Utf8Len(w));
        assert g == [cur] + g';
        assert [w] + pieces[1..] == pieces;
        forall i, j | 0 <= i < |g| && 0 <= j < |g[i]|
          ensures g[i][j] in cur + pieces
        {
          if i > 0 {
            assert g[i] == g'[i - 1];
          }
        }
      } else {
        PackGroupsFromInput(pieces[1..], cur + [w], len + Utf8Len(w));
        assert cur + [w] + pieces[1..] == cur + pieces;
      }
    }
  }

  /** The first piece of the first group is the first piece packed. */
  lemma {:induction false} PackFirstPiece(pieces: seq<string>, cur: seq<string>, len: nat)
    requires cur != [] || pieces != []
    ensures PackFrom(pieces, cur, len) != [] && PackFrom(pieces, cur, len)[0] != []
    ensures PackFrom(pieces, cur, len)[0][0] == (if cur != [] then cur[0] else pieces[0])
    decreases |pieces|
  {
    if pieces != [] {
      var w := pieces[0];
      if cur != [] && len + Utf8Len(w) > ChunkSize {
      } else {
        PackFirstPiece(pieces[1..], cur + [w], len + Utf8Len(w));
      }
    }
  }

  /** Budget: a group that starts fitting keeps fitting, so every group
      fits the budget or is a single piece. */
  lemma {:induction false} PackFits(pieces: seq<string>, cur: seq<string>, len: nat)
    requires LenOf(cur, len)
    requires cur == [] || Fits(cur)
    ensures forall i :: 0 <= i < |PackFrom(pieces, cur, len)| ==> Fits(PackFrom(pieces, cur, len)[i])
    decreases |pieces|
  {
    if pieces != [] {
      var w := pieces[0];
      LenOfStep(cur, len, w);
      if cur != [] && len + Utf8Len(w) > ChunkSize {
        PackFits(pieces[1..], [w], Utf8Len(w));
        var g' := PackFrom(pieces[1..], [w], Utf8Len(w));
        assert PackFrom(pieces, cur, len) == [cur] + g';
      } else {
        PackFits(pieces[1..], cur + [w], len + Utf8Len(w));
      }
    }
  }

  /** Group i was closed because the first piece of group i + 1 did not fit. */
  predicate ClosedGreedily(g: seq<seq<string>>, i: nat) {
    i + 1 < |g| && g[i + 1] != [] && SumLens(g[i]) + Utf8Len(g[i + 1][0]) > ChunkSize
  }

  /** Putting a group in front of greedily closed groups keeps them so,
      when the next group's first piece does not fit after it. */
  lemma GreedyCons(cur: seq<string>, len: nat, g: seq<seq<string>>)
    requires LenOf(cur, len)
    requires g != [] && g[0] != [] && len + Utf8Len(g[0][0]) > ChunkSize
    requires forall i: nat :: i < |g| - 1 ==> ClosedGreedily(g, i)
    ensures forall i: nat :: i < |[cur] + g| - 1 ==> ClosedGreedily([cur] + g, i)
  {
    var h := [cur] + g;
    forall i: nat | i < |h| - 1
      ensures ClosedGreedily(h, i)
    {
      if i > 0 {
        assert ClosedGreedily(g, i - 1);
        assert h[i] == g[i - 1] && h[i + 1] == g[i];
      }
    }
  }

  /** Greediness: a group is closed only when the first piece of the next
      group would have pushed it over the budget. */
  lemma {:induction false} PackGreedy(pieces: seq<string>, cur: seq<string>, len: nat)
    requires LenOf(cur, len)
    ensures forall i: nat :: i < |PackFrom(pieces, cur, len)| - 1 ==> ClosedGreedily(PackFrom(pieces, cur, len), i)
    decreases |pieces|
  {
    if pieces != [] {
      var w := pieces[0];
      LenOfStep(cur, len, w);
      if cur != [] && len + Utf8Len(w) > ChunkSize {
        PackGreedy(pieces[1..], [w], Utf8Len(w));
        PackFirstPiece(pieces[1..], [w], Utf8Len(w));
        var g' := PackFrom(pieces[1..], [w], Utf8Len(w));
        GreedyCons(cur, len, g');
      } else {
        PackGreedy(pieces[1..], cur + [w], len + Utf8Len(w));
      }
    }
  }

  predicate AllButLastEndInWhitespace(xs: seq<string>) {
    forall j :: 0 <= j < |xs| - 1 ==> EndsInWhitespace(xs[j])
  }

  /** Every piece of every group ends in whitespace, except the very last
      piece of the last group, when the packed pieces were like that. */
  lemma {:induction false} PackEndsInWhitespace(pieces: seq<string>, cur: seq<string>, len: nat)
    requires AllButLastEndInWhitespace(cur + pieces)
    ensures forall i, j :: 0 <= i < |PackFrom(pieces, cur, len)| && 0 <= j < |PackFrom(pieces, cur, len)[i]|
              && (i < |PackFrom(pieces, cur, len)| - 1 || j < |PackFrom(pieces, cur, len)[i]| - 1)
              ==> EndsInWhitespace(PackFrom(pieces, cur, len)[i][j])
    decreases |pieces|
  {
    var g := PackFrom(pieces, cur, len);
    if pieces == [] {
      assert cur + pieces == cur;
    } else if cur != [] && len + Utf8Len(pieces[0]) > ChunkSize {
      var w := pieces[0];
      var g' := PackFrom(pieces[1..], [w], Utf8Len(w));
      assert [w] + pieces[1..] == pieces;
      assert AllButLastEndInWhitespace(pieces) by {
        forall j | 0 <= j < |pieces| - 1
          ensures EndsInWhitespace(pieces[j])
        {
          assert pieces[j] == (cur + pieces)[|cur| + j];
        }
      }
      PackEndsInWhitespace(pieces[1..], [w], Utf8Len(w));
      PackGroupsNonEmpty(pieces[1..], [w], Utf8Len(w));
      assert g == [cur] + g';
      forall i, j | 0 <= i < |g| && 0 <= j < |g[i]| && (i < |g| - 1 || j < |g[i]| - 1)
        ensures EndsInWhitespace(g[i][j])
      {
        if i == 0 {
          assert g[0][j] == (cur + pieces)[j];
        } else {
          assert g[i] == g'[i - 1];
        }
      }
    } else {
      var w := pieces[0];
      assert cur + [w] + pieces[1..] == cur + pieces;
      PackEndsInWhitespace(pieces[1..], cur + [w], len + Utf8Len(w));
    }
  }

  /** When all that is left fits the budget, it all becomes one group. */
  lemma {:induction false} PackShort(pieces: seq<string>, cur: seq<string>, len: nat)
    requires len + SumLens(pieces) <= ChunkSize
    ensures PackFrom(pieces, cur, len) == if cur + pieces == [] then [] else [cur + pieces]
    decreases |pieces|
  {
    if pieces != [] {
      var w := pieces[0];
      PackShort(pieces[1..], cur + [w], len + Utf8Len(w));
      assert cur + [w] + pieces[1..] == cur + pieces;
    } else {
      assert cur + pieces == cur;
    }
  }

  /** Concatenating the concatenations of the groups concatenates their pieces. */
  lemma {:induction false} ConcatOfConcatEach(groups: seq<seq<string>>)
    ensures Concat(ConcatEach(groups)) == Concat(Concat(groups))
    decreases |groups|
  {
    if groups != [] {
      ConcatOfConcatEach(groups[1..]);
      assert ConcatEach(groups)[1..] == ConcatEach(groups[1..]);
      ConcatAppend(groups[0], Concat(groups[1..]));
    }
  }

  lemma {:induction false} ConcatEndsWithLast(g: seq<string>)
    requires g != [] && EndsInWhitespace(g[|g| - 1])
    ensures EndsInWhitespace(Concat(g))
  {
    assert g == g[..|g| - 1] + [g[|g| - 1]];
    ConcatAppend(g[..|g| - 1], [g[|g| - 1]]);
    ConcatOne(g[|g| - 1]);
  }

  lemma {:induction false} ConcatStartsWithFirst(g: seq<string>)
    requires g != []
    ensures Concat(g) == g[0] + Concat(g[1..])
  {
  }

  // ---------------------------------------------------------------------
  // What the chunks of a text are
  // ---------------------------------------------------------------------

  /** Reassembly: concatenating the chunks gives back the text exactly. */
  lemma ChunksReassemble(text: string)
    ensures Concat(Chunks(text)) == text
  {
    SplitInclusiveSound(text);
    PackKeepsPieces(SplitInclusive(text), [], 0);
    assert [] + SplitInclusive(text) == SplitInclusive(text);
    ConcatOfConcatEach(Groups(text));
  }

  /** Every chunk is non-empty, and there are no chunks exactly when the text is empty. */
  lemma ChunksNonEmpty(text: string)
    ensures forall i :: 0 <= i < |Chunks(text)| ==> Chunks(text)[i] != []
    ensures Chunks(text) == [] <==> text == []
  {
    var pieces := SplitInclusive(text);
    SplitInclusiveSound(text);
    PackGroupsNonEmpty(pieces, [], 0);
    PackGroupsFromInput(pieces, [], 0);
    var g := Groups(text);
    forall i | 0 <= i < |g|
      ensures Concat(g[i]) != []
    {
      assert g[i][0] in pieces;
      ConcatStartsWithFirst(g[i]);
    }
  }

  /** Word safety: every chunk but the last ends in a whitespace character,
      so no chunk boundary falls inside a word. */
  lemma ChunksWordSafe(text: string)
    ensures forall i :: 0 <= i < |Chunks(text)| - 1 ==> EndsInWhitespace(Chunks(text)[i])
  {
    var pieces := SplitInclusive(text);
    SplitInclusiveSound(text);
    assert [] + pieces == pieces;
    PackEndsInWhitespace(pieces, [], 0);
    PackGroupsNonEmpty(pieces, [], 0);
    var g := Groups(text);
    forall i | 0 <= i < |g| - 1
      ensures EndsInWhitespace(Concat(g[i]))
    {
      ConcatEndsWithLast(g[i]);
    }
  }

  /** Budget: a chunk longer than ChunkSize bytes is a single word (only
      its last character may be whitespace). */
  lemma ChunksBounded(text: string)
    ensures forall i :: 0 <= i < |Chunks(text)| ==>
              Utf8Len(Chunks(text)[i]) <= ChunkSize || IsPiece(Chunks(text)[i])
  {
    var pieces := SplitInclusive(text);
    SplitInclusiveSound(text);
    assert LenOf([], 0);
    PackFits(pieces, [], 0);
    PackGroupsFromInput(pieces, [], 0);
    PackGroupsNonEmpty(pieces, [], 0);
    var g := Groups(text);
    forall i | 0 <= i < |g| && Utf8Len(Concat(g[i])) > ChunkSize
      ensures IsPiece(Concat(g[i]))
    {
      SumLensConcat(g[i]);
      assert |g[i]| == 1;
      ConcatOne(g[i][0]);
      assert g[i] == [g[i][0]];
      assert g[i][0] in [] + pieces;
    }
  }

  /** The first word of a non-empty chunk. */
  function FirstWord(chunk: string): string
    requires chunk != []
  {
    chunk[..PieceEnd(chunk)]
  }

  /** Chunk i was closed because the first word of chunk i + 1 did not fit. */
  predicate ChunkClosedGreedily(chunks: seq<string>, i: nat) {
    i + 1 < |chunks| && chunks[i + 1] != []
    && Utf8Len(chunks[i]) + Utf8Len(FirstWord(chunks[i + 1])) > ChunkSize
  }

  /** The first word of a group's chunk is the group's first piece. */
  lemma GroupFirstWord(pieces: seq<string>, group: seq<string>, last: bool)
    requires WellFormedPieces(pieces)
    requires group != [] && forall j :: 0 <= j < |group| ==> group[j] in pieces
    requires forall j :: 0 <= j < |group| && (!last || j < |group| - 1) ==> EndsInWhitespace(group[j])
    ensures Concat(group) != [] && FirstWord(Concat(group)) == group[0]
  {
    assert group[0] in pieces;
    ConcatStartsWithFirst(group);
    if |group| == 1 {
      assert group[1..] == [];
    }
    PieceEndOfPiece(group[0], Concat(group[1..]));
    assert Concat(group)[..|group[0]|] == group[0];
  }

  /** Greediness: for every chunk but the last, adding the first word of the
      next chunk would have exceeded the budget. */
  lemma ChunksGreedy(text: string)
    ensures forall i: nat :: i < |Chunks(text)| - 1 ==> ChunkClosedGreedily(Chunks(text), i)
  {
    var pieces := SplitInclusive(text);
    SplitInclusiveSound(text);
    assert [] + pieces == pieces;
    assert LenOf([], 0);
    PackGreedy(pieces, [], 0);
    PackEndsInWhitespace(pieces, [], 0);
    PackGroupsNonEmpty(pieces, [], 0);
    PackGroupsFromInput(pieces, [], 0);
    var g := Groups(text);
    var chunks := Chunks(text);
    forall i: nat | i < |g| - 1
      ensures ChunkClosedGreedily(chunks, i)
    {
      assert ClosedGreedily(g, i);
      SumLensConcat(g[i]);
      var next := g[i + 1];
      GroupFirstWord(pieces, next, i + 1 == |g| - 1);
    }
  }

  /** A non-empty text within the budget is returned as a single chunk. */
  lemma ShortTextIsOneChunk(text: string)
    requires text != [] && Utf8Len(text) <= ChunkSize
    ensures Chunks(text) == [text]
  {
    var pieces := SplitInclusive(text);
    SplitInclusiveSound(text);
    assert Concat<string>([]) == [];
    SumLensConcat(pieces);
    PackShort(pieces, [], 0);
    assert [] + pieces == pieces;
  }

  // ---------------------------------------------------------------------
  // The chunker
  // ---------------------------------------------------------------------

  /** One step of the packing loop, closing the current group. */
  lemma CloseStep(pieces: seq<string>, k: nat, done: seq<seq<string>>, cur: seq<string>, len: nat)
    requires k < |pieces| && cur != [] && len + Utf8Len(pieces[k]) > ChunkSize
    requires done + PackFrom(pieces[k..], cur, len) == PackFrom(pieces, [], 0)
    ensures (done + [cur]) + PackFrom(pieces[k..], [], 0) == PackFrom(pieces, [], 0)
  {
    assert pieces[k..][0] == pieces[k] && pieces[k..][1..] == pieces[k + 1..];
    assert [] + [pieces[k]] == [pieces[k]];
    assert PackFrom(pieces[k..], [], 0) == PackFrom(pieces[k + 1..], [pieces[k]], Utf8Len(pieces[k]));
  }

  /** One step of the packing loop, extending the current group. */
  lemma ExtendStep(pieces: seq<string>, k: nat, done: seq<seq<string>>, cur: seq<string>, len: nat)
    requires k < |pieces| && !(cur != [] && len + Utf8Len(pieces[k]) > ChunkSize)
    requires done + PackFrom(pieces[k..], cur, len) == PackFrom(pieces, [], 0)
    ensures done + PackFrom(pieces[k + 1..], cur + [pieces[k]], len + Utf8Len(pieces[k])) == PackFrom(pieces, [], 0)
  {
    assert pieces[k..][0] == pieces[k] && pieces[k..][1..] == pieces[k + 1..];
  }

  lemma ConcatEachSnoc(done: seq<seq<string>>, g: seq<string>)
    ensures ConcatEach(done + [g]) == ConcatEach(done) + [Concat(g)]
  {
  }

  /** The properties of the chunks of a text, together. */
  lemma ChunksSpec(text: string)
    ensures Concat(Chunks(text)) == text
    ensures Chunks(text) == [] <==> text == []
    ensures forall i :: 0 <= i < |Chunks(text)| ==> Chunks(text)[i] != []
    ensures forall i :: 0 <= i < |Chunks(text)| - 1 ==> EndsInWhitespace(Chunks(text)[i])
    ensures forall i :: 0 <= i < |Chunks(text)| ==> Utf8Len(Chunks(text)[i]) <= ChunkSize || IsPiece(Chunks(text)[i])
  {
    ChunksReassemble(text);
    ChunksNonEmpty(text);
    ChunksWordSafe(text);
    ChunksBounded(text);
  }

  /** Closing the current chunk keeps the loop's invariant. */
  lemma CloseInvariant(pieces: seq<string>, k: nat, done: seq<seq<string>>, cur: seq<string>, len: nat,
                       current: string, chunks: seq<string>)
    requires k < |pieces| && cur != [] && len + Utf8Len(pieces[k]) > ChunkSize
    requires current == Concat(cur) && chunks == ConcatEach(done)
    requires done + PackFrom(pieces[k..], cur, len) == PackFrom(pieces, [], 0)
    ensures chunks + [current] == ConcatEach(done + [cur])
    ensures (done + [cur]) + PackFrom(pieces[k..], [], 0) == PackFrom(pieces, [], 0)
  {
    CloseStep(pieces, k, done, cur, len);
    ConcatEachSnoc(done, cur);
  }

  /** Adding the next piece to the current chunk keeps the loop's invariant. */
  lemma ExtendInvariant(pieces: seq<string>, k: nat, done: seq<seq<string>>, cur: seq<string>, len: nat, current: string)
    requires k < |pieces| && pieces[k] != [] && !(cur != [] && len + Utf8Len(pieces[k]) > ChunkSize)
    requires current == Concat(cur) && len == Utf8Len(current)
    requires done + PackFrom(pieces[k..], cur, len) == PackFrom(pieces, [], 0)
    ensures current + pieces[k] == Concat(cur + [pieces[k]])
    ensures len + Utf8Len(pieces[k]) == Utf8Len(current + pieces[k])
    ensures current + pieces[k] != []
    ensures done + PackFrom(pieces[k + 1..], cur + [pieces[k]], len + Utf8Len(pieces[k])) == PackFrom(pieces, [], 0)
  {
    ExtendStep(pieces, k, done, cur, len);
    ConcatAppend(cur, [pieces[k]]);
    ConcatOne(pieces[k]);
    Utf8LenAppend(current, pieces[k]);
  }

  /** The packing loop of `split_text_into_chunks`, over the pieces of the text. */
  method PackPieces(pieces: seq<string>) returns (chunks: seq<string>)
    requires forall j :: 0 <= j < |pieces| ==> pieces[j] != []
    ensures chunks == ConcatEach(PackFrom(pieces, [], 0))
  {
    chunks := [];
    var current: string := [];
    ghost var cur: seq<string> := [];
    ghost var len: nat := 0;
    ghost var done: seq<seq<string>> := [];
    for k := 0 to |pieces|
      invariant current == Concat(cur) && len == Utf8Len(current)
      invariant cur == [] <==> current == []
      invariant chunks == ConcatEach(done)
      invariant done + PackFrom(pieces[k..], cur, len) == PackFrom(pieces, [], 0)
    {
      var word := pieces[k];
      if Utf8Len(current) + Utf8Len(word) > ChunkSize {
        if current != [] {
          CloseInvariant(pieces, k, done, cur, len, current, chunks);
          chunks := chunks + [current];
          current := [];
          done := done + [cur];
          cur := [];
          len := 0;
        }
      }
      ExtendInvariant(pieces, k, done, cur, len, current);
      current := current + word;
      cur := cur + [word];
      len := len + Utf8Len(word);
    }
    if current != [] {
      ConcatEachSnoc(done, cur);
      chunks := chunks + [current];
      done := done + [cur];
    }
  }

  /** `split_text_into_chunks`. */
  method SplitTextIntoChunks(text: string) returns (chunks: seq<string>)
    ensures chunks == Chunks(text)
    ensures Concat(chunks) == text
    ensures chunks == [] <==> text == []
    ensures forall i :: 0 <= i < |chunks| ==> chunks[i] != []
    ensures forall i :: 0 <= i < |chunks| - 1 ==> EndsInWhitespace(chunks[i])
    ensures forall i :: 0 <= i < |chunks| ==> Utf8Len(chunks[i]) <= ChunkSize || IsPiece(chunks[i])
  {
    var pieces := SplitInclusive(text);
    SplitInclusiveSound(text);
    chunks := PackPieces(pieces);
    ChunksSpec(text);
    if chunks == [] && text != [] {
      chunks := [text];
    }
  }
}
