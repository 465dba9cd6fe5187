/** Overlapping chunks of a document (rag_ingest.py `chunk_text`). `spaces` is the set of characters
    that stripping removes; the newline is one of them. */
module Chunker {
  import opened Wrappers

  const CHUNK := 1100
  const OVERLAP := 150
  const LOOKBACK := 250

  // ---- cleaning ----

  /** Every run of three or more newlines becomes a run of two. */
  function Collapse(text: string): string {
    if text == "" then ""
    else
      var front, c := Collapse(text[..|text| - 1]), text[|text| - 1];
      if c == '\n' && |front| >= 2 && front[|front| - 1] == '\n' && front[|front| - 2] == '\n' then front else front + [c]
  }

  function Leading(text: string, spaces: set<char>): (n: nat)
    ensures n <= |text|
  {
    if text == "" || text[0] !in spaces then 0 else 1 + Leading(text[1..], spaces)
  }

  function Trailing(text: string, spaces: set<char>): (n: nat)
    ensures n <= |text|
  {
    if text == "" || text[|text| - 1] !in spaces then 0 else 1 + Trailing(text[..|text| - 1], spaces)
  }

  function Strip(text: string, spaces: set<char>): string {
    var rest := text[Leading(text, spaces)..];
    rest[..|rest| - Trailing(rest, spaces)]
  }

  function Clean(text: string, spaces: set<char>): string {
    Strip(Collapse(text), spaces)
  }

  // ---- cutting ----

  /** `text.rfind("\n", lo, hi)`. */
  function LastNewline(text: string, lo: nat, hi: nat): (r: Option<nat>)
    requires hi <= |text|
    ensures r.Some? ==> lo <= r.value < hi
  {
    if hi <= lo then None else if text[hi - 1] == '\n' then Some(hi - 1) else LastNewline(text, lo, hi - 1)
  }

  function Min(a: nat, b: nat): nat {
    if a <= b then a else b
  }

  /** Where the slice that starts at `i` ends: at a line break near its end, if there is one. */
  function CutAt(text: string, i: nat): (end: nat)
    requires i < |text|
    ensures i < end <= Min(i + CHUNK, |text|)
    ensures end < |text| ==> end >= i + CHUNK - LOOKBACK
  {
    var end := Min(i + CHUNK, |text|);
    match LastNewline(text, i + CHUNK - LOOKBACK, end)
    case Some(nl) => nl
    case None => end
  }

  function Sub(text: string, lo: nat, hi: nat): (r: string)
    requires lo <= hi <= |text|
    ensures |r| == hi - lo
  {
    text[lo..hi]
  }

  lemma SubOfSub(text: string, lo: nat, hi: nat, a: nat, b: nat)
    requires lo <= hi <= |text| && a <= b <= hi - lo
    ensures Sub(Sub(text, lo, hi), a, b) == Sub(text, lo + a, lo + b)
  {
    var x, y := text[lo..hi][a..b], text[lo + a..lo + b];
    forall k | 0 <= k < b - a ensures x[k] == y[k] {
      assert x[k] == text[lo..hi][a + k] == text[lo + (a + k)];
    }
  }

  lemma SubSplits(text: string, lo: nat, mid: nat, hi: nat)
    requires lo <= mid <= hi <= |text|
    ensures Sub(text, lo, hi) == Sub(text, lo, mid) + Sub(text, mid, hi)
  {
  }

  /** The raw slices from position `i` on: each starts one overlap before the end of the one before. */
  function Slices(text: string, i: nat): seq<string>
    requires i < |text|
    decreases |text| - i
  {
    var end := CutAt(text, i);
    [Sub(text, i, end)] + (if end >= |text| then [] else Slices(text, end - OVERLAP))
  }

  function Keep(piece: string): seq<string> {
    if piece == "" then [] else [piece]
  }

  /** The stripped slices, without the empty ones. */
  function Pieces(slices: seq<string>, spaces: set<char>): seq<string> {
    if slices == [] then [] else Keep(Strip(slices[0], spaces)) + Pieces(slices[1..], spaces)
  }

  function Chunks(text: string, spaces: set<char>): seq<string> {
    if text == "" then []
    else if |text| <= CHUNK then [text]
    else Pieces(Slices(text, 0), spaces)
  }

  /** The pieces from position `i` on, one slice at a time. */
  function PiecesFrom(text: string, i: nat, spaces: set<char>): seq<string>
    requires i < |text|
  {
    Pieces(Slices(text, i), spaces)
  }

  lemma PiecesStep(text: string, i: nat, spaces: set<char>)
    requires i < |text|
    ensures var end := CutAt(text, i);
            PiecesFrom(text, i, spaces)
            == Keep(Strip(Sub(text, i, end), spaces)) + (if end >= |text| then [] else PiecesFrom(text, end - OVERLAP, spaces))
  {
    hide Strip, Sub, CutAt, Keep;
    var end := CutAt(text, i);
    var tail := if end >= |text| then [] else Slices(text, end - OVERLAP);
    var all := [Sub(text, i, end)] + tail;
    assert all[1..] == tail && all[0] == Sub(text, i, end) && Slices(text, i) == all;
    assert Pieces(all, spaces) == Keep(Strip(all[0], spaces)) + Pieces(all[1..], spaces);
    assert Pieces([], spaces) == [];
  }

  lemma AppendKept(chunks: seq<string>, piece: string, rest: seq<string>)
    ensures chunks + (Keep(piece) + rest) == (if piece == "" then chunks else chunks + [piece]) + rest
  {
  }

  method FindCut(text: string, i: nat) returns (end: nat)
    requires i < |text|
    ensures end == CutAt(text, i)
  {
    end := Min(i + CHUNK, |text|);
    var nl := LastNewline(text, i + CHUNK - LOOKBACK, end);
    if nl.Some? && nl.value > i {
      end := nl.value;
    }
  }

  method ChunkText(raw: string, spaces: set<char>) returns (chunks: seq<string>)
    ensures chunks == Chunks(Clean(raw, spaces), spaces)
  {
    var text := Clean(raw, spaces);
    if |text| <= CHUNK {
      return if text == "" then [] else [text];
    }
    chunks := CutUp(text, spaces);
  }

  method CutUp(text: string, spaces: set<char>) returns (chunks: seq<string>)
    requires text != ""
    ensures chunks == PiecesFrom(text, 0, spaces)
  {
    hide Strip, CutAt, PiecesFrom, Sub, Keep;
    chunks := [];
    var i := 0;
    while i < |text|
      invariant i < |text|
      invariant PiecesFrom(text, 0, spaces) == chunks + PiecesFrom(text, i, spaces)
      decreases |text| - i
    {
      PiecesStep(text, i, spaces);
      var end := FindCut(text, i);
      var piece := Strip(Sub(text, i, end), spaces);
      AppendKept(chunks, piece, if end >= |text| then [] else PiecesFrom(text, end - OVERLAP, spaces));
      if piece != "" {
        chunks := chunks + [piece];
      }
      if end >= |text| {
        break;
      }
      i := if end - OVERLAP >= i + 1 then end - OVERLAP else i + 1;
    }
  }

  // ---- the slices ----

  ghost predicate Overlap(a: string, b: string) {
    |a| >= CHUNK - LOOKBACK && |b| >= OVERLAP && Sub(a, |a| - OVERLAP, |a|) == Sub(b, 0, OVERLAP)
  }

  ghost predicate Overlaps(slices: seq<string>) {
    |slices| > 1 ==> Overlap(slices[0], slices[1]) && Overlaps(slices[1..])
  }

  /** The first slice, and that what follows starts with the text at its place. */
  lemma FirstSlice(text: string, i: nat)
    requires i < |text|
    ensures var end := CutAt(text, i); |Slices(text, i)| > 0 && Slices(text, i)[0] == Sub(text, i, end)
    ensures var end := CutAt(text, i);
            end < |text| ==> Overlap(Sub(text, i, end), Sub(text, end - OVERLAP, CutAt(text, end - OVERLAP)))
  {
    hide Sub, CutAt;
    var end := CutAt(text, i);
    if end < |text| {
      var start := end - OVERLAP;
      SubOfSub(text, i, end, start - i, end - i);
      SubOfSub(text, start, CutAt(text, start), 0, OVERLAP);
    }
  }

  /** Each slice is at most a chunk long. Each but the last is at least 850 characters long and shares
      exactly its last 150 with the next, which therefore starts at least 700 further on. */
  lemma {:induction false} SlicesOverlap(text: string, i: nat)
    requires i < |text|
    ensures Overlaps(Slices(text, i)) && forall s :: s in Slices(text, i) ==> 0 < |s| <= CHUNK
    decreases |text| - i
  {
    hide Sub, CutAt, Overlap;
    var end := CutAt(text, i);
    FirstSlice(text, i);
    if end < |text| {
      SlicesOverlap(text, end - OVERLAP);
      FirstSlice(text, end - OVERLAP);
      assert Slices(text, i)[1..] == Slices(text, end - OVERLAP);
    }
  }

  /** The slices in order, each but the first without the overlap it starts with. */
  function Joined(slices: seq<string>): string {
    if slices == [] then "" else slices[0] + JoinedOn(slices[1..])
  }

  function JoinedOn(slices: seq<string>): string {
    if slices == [] then "" else Sub(slices[0], Min(OVERLAP, |slices[0]|), |slices[0]|) + JoinedOn(slices[1..])
  }

  lemma {:induction false} JoinedOnIs(text: string, i: nat)
    requires i + OVERLAP < |text|
    ensures JoinedOn(Slices(text, i)) == Sub(text, i + OVERLAP, |text|)
    decreases |text| - i
  {
    hide Sub, CutAt;
    var end := CutAt(text, i);
    FirstSlice(text, i);
    SubOfSub(text, i, end, OVERLAP, end - i);
    if end < |text| {
      assert Slices(text, i)[1..] == Slices(text, end - OVERLAP);
      JoinedOnIs(text, end - OVERLAP);
      SubSplits(text, i + OVERLAP, end, |text|);
    } else {
      assert Slices(text, i)[1..] == [];
    }
  }

  /** Dropping the overlaps rebuilds the text. */
  lemma OverlapsRebuild(text: string)
    requires text != ""
    ensures Joined(Slices(text, 0)) == text
  {
    var end := CutAt(text, 0);
    FirstSlice(text, 0);
    assert Sub(text, 0, |text|) == text;
    hide Sub, CutAt;
    if end < |text| {
      assert Slices(text, 0)[1..] == Slices(text, end - OVERLAP);
      JoinedOnIs(text, end - OVERLAP);
      SubSplits(text, 0, end, |text|);
    } else {
      assert Slices(text, 0)[1..] == [];
    }
  }

  lemma {:induction false} LeadingStops(t: string, spaces: set<char>, p: nat)
    requires p < |t| && t[p] !in spaces
    ensures Leading(t, spaces) <= p
  {
    if t[0] in spaces {
      LeadingStops(t[1..], spaces, p - 1);
    }
  }

  lemma {:induction false} TrailingStops(t: string, spaces: set<char>, p: nat)
    requires p < |t| && t[p] !in spaces
    ensures Trailing(t, spaces) < |t| - p
  {
    if t[|t| - 1] in spaces {
      TrailingStops(t[..|t| - 1], spaces, p);
    }
  }

  /** Stripping yields a stretch of the text that keeps every character that is not a space, in place. */
  lemma StripKeeps(t: string, spaces: set<char>, p: nat)
    requires p < |t| && t[p] !in spaces
    ensures var lead, n := Leading(t, spaces), |Strip(t, spaces)|;
            lead <= p < lead + n <= |t| && Strip(t, spaces) == Sub(t, lead, lead + n)
  {
    LeadingStops(t, spaces, p);
    var rest := t[Leading(t, spaces)..];
    assert rest[p - Leading(t, spaces)] == t[p];
    TrailingStops(rest, spaces, p - Leading(t, spaces));
  }

  /** The stretch of the text that starts at `from` reads `c`, and contains position `p`. */
  ghost predicate ReadsAround(text: string, c: string, from: nat, p: nat) {
    from <= p < from + |c| <= |text| && Sub(text, from, from + |c|) == c
  }

  lemma StrippedSliceHas(text: string, i: nat, end: nat, spaces: set<char>, p: nat) returns (c: string, from: nat)
    requires i <= p < end <= |text| && text[p] !in spaces
    ensures c == Strip(Sub(text, i, end), spaces) && ReadsAround(text, c, from, p)
  {
    var raw := Sub(text, i, end);
    StripKeeps(raw, spaces, p - i);
    hide Strip;
    c, from := Strip(raw, spaces), i + Leading(raw, spaces);
    SubOfSub(text, i, end, from - i, from - i + |c|);
  }

  lemma {:induction false} SomePieceHas(text: string, i: nat, spaces: set<char>, p: nat) returns (c: string, from: nat)
    requires i <= p < |text| && text[p] !in spaces
    ensures c in PiecesFrom(text, i, spaces) && ReadsAround(text, c, from, p)
    decreases |text| - i
  {
    hide CutAt, Strip, Sub, PiecesFrom, ReadsAround;
    var end := CutAt(text, i);
    PiecesStep(text, i, spaces);
    if p < end {
      c, from := StrippedSliceHas(text, i, end, spaces, p);
      NonEmpty(text, c, from, p);
      assert c in Keep(c);
    } else {
      c, from := SomePieceHas(text, end - OVERLAP, spaces, p);
    }
  }

  lemma NonEmpty(text: string, c: string, from: nat, p: nat)
    requires ReadsAround(text, c, from, p)
    ensures c != ""
  {
  }

  /** Every character of the cleaned text that is not a space stands in one of the chunks, with what
      surrounds it: some chunk is a stretch of the text that contains its position. */
  lemma EveryCharacterIsKept(text: string, spaces: set<char>, p: nat) returns (c: string, from: nat)
    requires p < |text| && text[p] !in spaces
    ensures c in Chunks(text, spaces) && ReadsAround(text, c, from, p)
  {
    if |text| <= CHUNK {
      c, from := text, 0;
      assert text[0..|text|] == text;
    } else {
      c, from := SomePieceHas(text, 0, spaces, p);
    }
  }

  lemma {:induction false} StripShortens(t: string, spaces: set<char>)
    ensures |Strip(t, spaces)| <= |t|
  {
  }

  lemma {:induction false} PiecesFit(slices: seq<string>, spaces: set<char>)
    requires forall s :: s in slices ==> |s| <= CHUNK
    ensures forall c :: c in Pieces(slices, spaces) ==> 0 < |c| <= CHUNK
    ensures |Pieces(slices, spaces)| <= |slices|
  {
    hide Strip;
    if slices != [] {
      StripShortens(slices[0], spaces);
      PiecesFit(slices[1..], spaces);
    }
  }

  lemma {:induction false} FewSlices(text: string, i: nat)
    requires i < |text|
    ensures 700 * (|Slices(text, i)| - 1) < |text| - i
    decreases |text| - i
  {
    hide LastNewline;
    if CutAt(text, i) < |text| {
      FewSlices(text, CutAt(text, i) - OVERLAP);
    }
  }

  /** Every chunk is non-empty and at most 1100 characters long, and there is at most one more than the
      text has stretches of 700. */
  lemma ChunksFit(text: string, spaces: set<char>)
    ensures forall c :: c in Chunks(text, spaces) ==> 0 < |c| <= CHUNK
    ensures text != "" ==> 700 * (|Chunks(text, spaces)| - 1) < |text|
  {
    if |text| > CHUNK {
      SlicesOverlap(text, 0);
      PiecesFit(Slices(text, 0), spaces);
      FewSlices(text, 0);
    }
  }

  // ---- what cleaning keeps ----

  /** The characters that are not spaces, in order. */
  function Visible(text: string, spaces: set<char>): string {
    if text == "" then ""
    else Visible(text[..|text| - 1], spaces) + (if text[|text| - 1] in spaces then "" else [text[|text| - 1]])
  }

  lemma {:induction false} VisibleAppends(a: string, b: string, spaces: set<char>)
    ensures Visible(a + b, spaces) == Visible(a, spaces) + Visible(b, spaces)
  {
    if b == "" {
      assert a + b == a;
    } else {
      VisibleAppends(a, b[..|b| - 1], spaces);
      assert (a + b)[..|a + b| - 1] == a + b[..|b| - 1];
    }
  }

  lemma {:induction false} CollapseKeepsVisible(text: string, spaces: set<char>)
    requires '\n' in spaces
    ensures Visible(Collapse(text), spaces) == Visible(text, spaces)
  {
    if text != "" {
      var front, c := Collapse(text[..|text| - 1]), text[|text| - 1];
      CollapseKeepsVisible(text[..|text| - 1], spaces);
      assert (front + [c])[..|front|] == front;
      assert Visible(front, spaces) + "" == Visible(front, spaces);
    }
  }

  lemma {:induction false} LeadingIsBlank(t: string, spaces: set<char>)
    ensures Visible(t[..Leading(t, spaces)], spaces) == ""
  {
    if t != "" && t[0] in spaces {
      LeadingIsBlank(t[1..], spaces);
      var n := Leading(t[1..], spaces);
      assert t[..n + 1] == [t[0]] + t[1..][..n];
      VisibleAppends([t[0]], t[1..][..n], spaces);
    }
  }

  lemma {:induction false} TrailingIsBlank(t: string, spaces: set<char>)
    ensures Visible(t, spaces) == Visible(t[..|t| - Trailing(t, spaces)], spaces)
  {
    if t != "" && t[|t| - 1] in spaces {
      TrailingIsBlank(t[..|t| - 1], spaces);
      assert Visible(t[..|t| - 1], spaces) + "" == Visible(t[..|t| - 1], spaces);
      assert t[..|t| - 1][..|t| - 1 - Trailing(t[..|t| - 1], spaces)] == t[..|t| - Trailing(t, spaces)];
    } else {
      assert t[..|t|] == t;
    }
  }

  /** Cleaning drops spaces only: the other characters survive, in order. */
  lemma CleanKeepsVisible(text: string, spaces: set<char>)
    requires '\n' in spaces
    ensures Visible(Clean(text, spaces), spaces) == Visible(text, spaces)
  {
    hide Collapse, Visible, Leading, Trailing;
    var t := Collapse(text);
    var n := Leading(t, spaces);
    CollapseKeepsVisible(text, spaces);
    LeadingIsBlank(t, spaces);
    assert t == t[..n] + t[n..];
    VisibleAppends(t[..n], t[n..], spaces);
    TrailingIsBlank(t[n..], spaces);
  }

  ghost predicate NoTriple(c: string) {
    forall i, j, k :: 0 <= i && i + 1 == j && j + 1 == k < |c| ==> !(c[i] == c[j] == c[k] == '\n')
  }

  /** Collapsed text never has three newlines in a row. */
  lemma {:induction false} NoTripleNewline(text: string)
    ensures NoTriple(Collapse(text))
  {
    if text != "" {
      var front := Collapse(text[..|text| - 1]);
      NoTripleNewline(text[..|text| - 1]);
      assert forall i :: 0 <= i < |front| ==> (front + [text[|text| - 1]])[i] == front[i];
    }
  }
}
