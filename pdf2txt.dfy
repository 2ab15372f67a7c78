/** The chunking core of the PDF-to-TSV converter: the sentence filter, the link-context
    scan, the chunker with its two break rules and sentence overlap, the inline link
    enrichment, and the id counter. The PDF library, the text cleaner and the sentence
    splitting pattern itself are outside the model; the splitter's raw pieces are an input. */
module PdfToTsv {

  import opened Wrappers
  import opened Strings

  datatype ChunkingConfig = ChunkingConfig(
    minChunkSize: int, maxChunkSize: int, minSentencesPerChunk: int, overlapSentences: int)

  const DefaultConfig: ChunkingConfig := ChunkingConfig(100, 1000, 2, 1)

  /** A link as the page scan records it: its text (absent when the link has no area) and its uri. */
  datatype Link = Link(text: Option<string>, uri: Option<string>)

  /** Python truthiness of an optional string: present and non-empty. */
  predicate Truthy(o: Option<string>) { o.Some? && o.value != "" }

  function MaxInt(a: int, b: int): int { if a >= b then a else b }

  // ---------------------------------------------------------------------------------
  // split_into_sentences: everything after the splitting pattern.

  /** Strips every piece and keeps the non-empty ones, in order. */
  function SplitIntoSentences(pieces: seq<string>): (sentences: seq<string>)
    ensures |sentences| <= |pieces|
    ensures forall i :: 0 <= i < |sentences| ==> sentences[i] != "" && Strip(sentences[i]) == sentences[i]
  {
    if pieces == [] then []
    else
      var sentence := Strip(pieces[0]);
      var rest := SplitIntoSentences(pieces[1..]);
      StripIdempotent(pieces[0]);
      if sentence != "" then [sentence] + rest else rest
  }

  /** Nothing but blank pieces is lost: every non-blank piece survives, stripped. */
  lemma SplitKeepsNonBlank(pieces: seq<string>)
    ensures forall i :: 0 <= i < |pieces| && Strip(pieces[i]) != "" ==> Strip(pieces[i]) in SplitIntoSentences(pieces)
  {
    forall i | 0 <= i < |pieces| && Strip(pieces[i]) != ""
      ensures Strip(pieces[i]) in SplitIntoSentences(pieces)
    {
      PieceKept(pieces, i);
    }
  }

  /** One non-blank piece survives, stripped. */
  lemma {:induction false} PieceKept(pieces: seq<string>, i: int)
    requires 0 <= i < |pieces| && Strip(pieces[i]) != ""
    ensures Strip(pieces[i]) in SplitIntoSentences(pieces)
    decreases i
  {
    var tail := pieces[1..];
    var rest := SplitIntoSentences(tail);
    var head := if Strip(pieces[0]) != "" then [Strip(pieces[0])] else [];
    assert SplitIntoSentences(pieces) == head + rest;
    if i > 0 {
      assert tail[i - 1] == pieces[i];
      PieceKept(tail, i - 1);
    }
  }

  /** The sentence list is empty exactly when every piece is blank. */
  lemma {:induction false} SplitEmptyIffBlank(pieces: seq<string>)
    ensures (forall i :: 0 <= i < |pieces| ==> Strip(pieces[i]) == "") <==> SplitIntoSentences(pieces) == []
  {
    if pieces != [] {
      var tail := pieces[1..];
      SplitEmptyIffBlank(tail);
      if forall i :: 0 <= i < |pieces| ==> Strip(pieces[i]) == "" {
        forall i | 0 <= i < |tail| ensures Strip(tail[i]) == "" {
          assert tail[i] == pieces[i + 1];
        }
      } else if Strip(pieces[0]) == "" {
        var i :| 0 <= i < |pieces| && Strip(pieces[i]) != "";
        assert tail[i - 1] == pieces[i];
      }
    }
  }

  // ---------------------------------------------------------------------------------
  // Sentence lists and their lengths.

  function SumLen(ss: seq<string>): (n: nat)
  {
    if ss == [] then 0 else SumLen(ss[..|ss| - 1]) + |ss[|ss| - 1]|
  }

  /** ' '.join(parts). */
  function Join(parts: seq<string>): string
  {
    if parts == [] then ""
    else if |parts| == 1 then parts[0]
    else Join(parts[..|parts| - 1]) + " " + parts[|parts| - 1]
  }

  /** A joined chunk ends with its last sentence. */
  lemma JoinEndsWithLast(parts: seq<string>)
    requires parts != []
    ensures EndsWith(Join(parts), parts[|parts| - 1])
  {
    var j := Join(parts);
    var last := parts[|parts| - 1];
    if |parts| > 1 {
      assert j == Join(parts[..|parts| - 1]) + " " + last;
      assert j[|j| - |last|..] == last;
    }
  }

  // ---------------------------------------------------------------------------------
  // Link context.

  predicate Mentions(link: Link, sentence: string)
  {
    Truthy(link.text) && Contains(sentence, Strip(link.text.value))
  }

  predicate Adjacent(k: int, j: int) { j == k - 1 || j == k || j == k + 1 }

  /** Sentence j is within one position of one of the first `upto` sentences that mentions link. */
  predicate NearMention(sentences: seq<string>, link: Link, upto: nat, j: int)
    requires upto <= |sentences|
  {
    if upto == 0 then false
    else NearMention(sentences, link, upto - 1, j) || (Adjacent(upto - 1, j) && Mentions(link, sentences[upto - 1]))
  }

  /** Sentence j is within one position of a sentence that one of the first `upto` links mentions. */
  predicate InContextUpTo(sentences: seq<string>, links: seq<Link>, upto: nat, j: int)
    requires upto <= |links|
  {
    if upto == 0 then false
    else InContextUpTo(sentences, links, upto - 1, j) || NearMention(sentences, links[upto - 1], |sentences|, j)
  }

  predicate InContext(sentences: seq<string>, links: seq<Link>, j: int)
  {
    InContextUpTo(sentences, links, |links|, j)
  }

  /** Link l's text occurs in sentence k, a neighbour of sentence j. */
  predicate MentionNear(sentences: seq<string>, links: seq<Link>, l: int, k: int, j: int)
  {
    0 <= l < |links| && 0 <= k < |sentences| && Adjacent(k, j) && Mentions(links[l], sentences[k])
  }

  lemma {:induction false} NearMentionMeans(sentences: seq<string>, links: seq<Link>, l: int, upto: nat, j: int)
    requires 0 <= l < |links| && upto <= |sentences|
    ensures NearMention(sentences, links[l], upto, j) <==> exists k :: 0 <= k < upto && MentionNear(sentences, links, l, k, j)
  {
    if upto > 0 {
      NearMentionMeans(sentences, links, l, upto - 1, j);
      if Adjacent(upto - 1, j) && Mentions(links[l], sentences[upto - 1]) {
        assert MentionNear(sentences, links, l, upto - 1, j);
      }
      if NearMention(sentences, links[l], upto - 1, j) {
        var k :| 0 <= k < upto - 1 && MentionNear(sentences, links, l, k, j);
        assert 0 <= k < upto && MentionNear(sentences, links, l, k, j);
      }
      if exists k :: 0 <= k < upto && MentionNear(sentences, links, l, k, j) {
        var k :| 0 <= k < upto && MentionNear(sentences, links, l, k, j);
        if k < upto - 1 {
          assert exists k :: 0 <= k < upto - 1 && MentionNear(sentences, links, l, k, j);
        }
      }
    }
  }

  /** Link l's text occurs in sentence j or in one of its neighbours. */
  ghost predicate LinkNear(sentences: seq<string>, links: seq<Link>, l: int, j: int)
  {
    exists k :: MentionNear(sentences, links, l, k, j)
  }

  lemma {:induction false} InContextUpToMeans(sentences: seq<string>, links: seq<Link>, upto: nat, j: int)
    requires upto <= |links|
    ensures InContextUpTo(sentences, links, upto, j) <==> exists l :: 0 <= l < upto && LinkNear(sentences, links, l, j)
  {
    if upto > 0 {
      var last := upto - 1;
      InContextUpToMeans(sentences, links, last, j);
      assert NearMention(sentences, links[last], |sentences|, j) <==> LinkNear(sentences, links, last, j) by {
        NearMentionMeans(sentences, links, last, |sentences|, j);
        if LinkNear(sentences, links, last, j) {
          var k :| MentionNear(sentences, links, last, k, j);
          assert 0 <= k < |sentences|;
        }
      }
      assert InContextUpTo(sentences, links, upto, j) <==>
        InContextUpTo(sentences, links, last, j) || LinkNear(sentences, links, last, j);
      if InContextUpTo(sentences, links, upto, j) {
        if InContextUpTo(sentences, links, last, j) {
          var l :| 0 <= l < last && LinkNear(sentences, links, l, j);
          assert 0 <= l < upto && LinkNear(sentences, links, l, j);
        } else {
          assert 0 <= last < upto && LinkNear(sentences, links, last, j);
        }
      }
      if exists l :: 0 <= l < upto && LinkNear(sentences, links, l, j) {
        var l :| 0 <= l < upto && LinkNear(sentences, links, l, j);
        if l < last {
          assert InContextUpTo(sentences, links, last, j);
        }
        assert InContextUpTo(sentences, links, upto, j);
      }
    }
  }

  /** Link context as the source states it: some link with a non-empty text whose stripped
      text occurs in sentence j or in one of its two neighbours. */
  lemma InContextMeans(sentences: seq<string>, links: seq<Link>, j: int)
    ensures InContext(sentences, links, j) <==> exists l, k :: MentionNear(sentences, links, l, k, j)
  {
    InContextUpToMeans(sentences, links, |links|, j);
    if exists l, k :: MentionNear(sentences, links, l, k, j) {
      var l, k :| MentionNear(sentences, links, l, k, j);
      assert 0 <= l < |links| && LinkNear(sentences, links, l, j);
    }
  }

  ghost predicate LinkContextSet(sentences: seq<string>, links: seq<Link>, ctx: set<int>)
  {
    forall j :: j in ctx <==> 0 <= j < |sentences| && InContext(sentences, links, j)
  }

  /** The link-context scan: the set of indices of sentences that contain the stripped text of
      a link whose raw text is non-empty, together with their in-bounds neighbours. A text of
      only whitespace strips to "" and so marks every sentence. */
  method LinkContext(sentences: seq<string>, links: seq<Link>) returns (ctx: set<int>)
    ensures forall j :: j in ctx <==> 0 <= j < |sentences| && InContext(sentences, links, j)
  {
    ctx := {};
    var l := 0;
    while l < |links|
      invariant 0 <= l <= |links|
      invariant forall j :: j in ctx <==> 0 <= j < |sentences| && InContextUpTo(sentences, links, l, j)
    {
      var link := links[l];
      if Truthy(link.text) {
        var linkText := Strip(link.text.value);
        var i := 0;
        while i < |sentences|
          invariant 0 <= i <= |sentences|
          invariant forall j :: j in ctx <==>
            0 <= j < |sentences| && (InContextUpTo(sentences, links, l, j) || NearMention(sentences, link, i, j))
        {
          if Contains(sentences[i], linkText) {
            ctx := ctx + {i};
            if i > 0 {
              ctx := ctx + {i - 1};
            }
            if i < |sentences| - 1 {
              ctx := ctx + {i + 1};
            }
          }
          i := i + 1;
        }
      } else {
        assert forall j :: !NearMention(sentences, link, |sentences|, j) by {
          forall j ensures !NearMention(sentences, link, |sentences|, j) {
            NoMentionWithoutText(sentences, link, |sentences|, j);
          }
        }
      }
      l := l + 1;
    }
  }

  lemma {:induction false} NoMentionWithoutText(sentences: seq<string>, link: Link, upto: nat, j: int)
    requires upto <= |sentences| && !Truthy(link.text)
    ensures !NearMention(sentences, link, upto, j)
  {
    if upto > 0 {
      NoMentionWithoutText(sentences, link, upto - 1, j);
    }
  }

  // ---------------------------------------------------------------------------------
  // _is_good_break_point.

  predicate EndsWithAbbreviation(s: string)
  {
    var lower := ToLowerAscii(s);
    EndsWith(lower, " etc.") || EndsWith(lower, "e.g.") || EndsWith(lower, "i.e.")
  }

  /** True after a full stop when the next sentence opens with a connective, or when the
      stop is not an abbreviation and the next sentence starts with a capital. None stands
      for the IndexError raised when that last test reads the first character of an empty
      next sentence. */
  function IsGoodBreakPoint(current: string, next: string): (r: Option<bool>)
    ensures !EndsWith(current, ".") ==> r == Some(false)
    ensures EndsWith(current, ".") && (StartsWith(next, "However") || StartsWith(next, "Moreover") || StartsWith(next, "Furthermore")) ==> r == Some(true)
    ensures r == None <==> EndsWith(current, ".") && !EndsWithAbbreviation(current) && next == ""
    ensures r == Some(true) ==> EndsWith(current, ".") && next != ""
    ensures EndsWith(current, ".") && next != "" && !EndsWithAbbreviation(current) && IsUpperAscii(next[0]) ==> r == Some(true)
  {
    if EndsWith(current, ".") &&
       (StartsWith(next, "However") || StartsWith(next, "Moreover") || StartsWith(next, "Furthermore")) then
      Some(true)
    else if EndsWith(current, ".") && !EndsWithAbbreviation(current) then
      if next == "" then None else Some(IsUpperAscii(next[0]))
    else
      Some(false)
  }

  // ---------------------------------------------------------------------------------
  // create_meaningful_chunks.

  /** How many sentences a new chunk carries over from a finished one of m sentences:
      the last min(overlap, m), or none when overlap is not positive. */
  function Keep(config: ChunkingConfig, m: nat): (k: nat)
    ensures k <= m
    ensures config.overlapSentences <= 0 ==> k == 0
    ensures config.overlapSentences > 0 ==> k == if config.overlapSentences < m then config.overlapSentences else m
  {
    if config.overlapSentences <= 0 then 0
    else if config.overlapSentences >= m then m
    else config.overlapSentences
  }

  /** A chunk as a window of the sentence list: sentences lo up to, not including, hi. */
  datatype Window = Window(lo: nat, hi: nat)

  /** Where the chunk after the windows ws starts: the first window starts at sentence 0,
      each later one Keep sentences before the end of the one before it. */
  function NextStart(config: ChunkingConfig, ws: seq<Window>): int
  {
    if ws == [] then 0
    else
      var w := ws[|ws| - 1];
      if w.lo <= w.hi then w.hi - Keep(config, w.hi - w.lo) else w.hi
  }

  /** The windows are well formed and each starts where the overlap rule says. */
  predicate WindowsChained(config: ChunkingConfig, ws: seq<Window>)
  {
    if ws == [] then true
    else
      var last := ws[|ws| - 1];
      WindowsChained(config, ws[..|ws| - 1]) && last.lo <= last.hi && last.lo == NextStart(config, ws[..|ws| - 1])
  }

  /** Each chunk is the sentences of its window joined by spaces. */
  ghost predicate ChunksJoined(sentences: seq<string>, chunks: seq<string>, ws: seq<Window>)
    decreases |ws|
  {
    |chunks| == |ws| &&
    (ws != [] ==>
      var w := ws[|ws| - 1];
      ChunksJoined(sentences, chunks[..|ws| - 1], ws[..|ws| - 1]) &&
      w.lo <= w.hi <= |sentences| && chunks[|ws| - 1] == Join(sentences[w.lo..w.hi]))
  }

  /** The reading by index: chunk k is the sentences of window k joined. */
  lemma {:induction false} ChunksJoinedMeans(sentences: seq<string>, chunks: seq<string>, ws: seq<Window>)
    ensures ChunksJoined(sentences, chunks, ws) <==>
      |chunks| == |ws| &&
      forall k :: 0 <= k < |ws| ==> ws[k].lo <= ws[k].hi <= |sentences| && chunks[k] == Join(sentences[ws[k].lo..ws[k].hi])
    decreases |ws|
  {
    if ws != [] && |chunks| == |ws| {
      var n := |ws| - 1;
      ChunksJoinedMeans(sentences, chunks[..n], ws[..n]);
      assert forall k :: 0 <= k < n ==> ws[..n][k] == ws[k] && chunks[..n][k] == chunks[k];
    }
  }

  /** Why a chunk was closed: by the size rule before sentence `at` was added, or at a
      good break point right after sentence `at`. */
  datatype Cut = SizeCut(at: nat) | PointCut(at: nat)

  function CutEnd(c: Cut): nat
  {
    match c
    case SizeCut(i) => i
    case PointCut(i) => i + 1
  }

  /** The loop's checks in order: check 2i is the size rule before sentence i joins the open
      chunk, check 2i + 1 the break-point rule right after it. */
  function CheckAt(c: Cut): nat
  {
    match c
    case SizeCut(i) => 2 * i
    case PointCut(i) => 2 * i + 1
  }

  /** The cut that check t would make. */
  function CutOf(t: nat): (c: Cut)
    ensures CheckAt(c) == t
  {
    if t % 2 == 0 then SizeCut(t / 2) else PointCut(t / 2)
  }

  lemma CutOfCheckAt(c: Cut)
    ensures CutOf(CheckAt(c)) == c
  {
  }

  /** A later check never cuts before an earlier one. */
  lemma CutEndMonotone(a: Cut, b: Cut)
    requires CheckAt(a) < CheckAt(b)
    ensures CutEnd(a) <= CutEnd(b)
  {
  }

  /** The rule that closed the chunk of window w holds, and w ends where that rule cut. */
  ghost predicate Justified(config: ChunkingConfig, sentences: seq<string>, links: seq<Link>, w: Window, c: Cut)
  {
    match c
    case SizeCut(i) =>
      w.lo <= w.hi == i < |sentences| &&
      SumLen(sentences[w.lo..w.hi]) + |sentences[i]| > config.maxChunkSize &&
      w.hi - w.lo >= config.minSentencesPerChunk && !InContext(sentences, links, i)
    case PointCut(i) =>
      w.lo <= w.hi == i + 1 < |sentences| && w.hi - w.lo >= config.minSentencesPerChunk * 2 &&
      SumLen(sentences[w.lo..w.hi]) >= config.minChunkSize &&
      IsGoodBreakPoint(sentences[i], sentences[i + 1]) == Some(true) &&
      !InContext(sentences, links, i) && !InContext(sentences, links, i + 1)
  }

  /** Each of the first |cuts| windows was closed for its reason in cuts. */
  ghost predicate CutsJustified(config: ChunkingConfig, sentences: seq<string>, links: seq<Link>,
                                ws: seq<Window>, cuts: seq<Cut>)
    decreases |cuts|
  {
    |cuts| <= |ws| &&
    (cuts != [] ==>
      CutsJustified(config, sentences, links, ws, cuts[..|cuts| - 1]) &&
      Justified(config, sentences, links, ws[|cuts| - 1], cuts[|cuts| - 1]))
  }

  /** The reading by index: window k was closed for reason cuts[k]. */
  lemma {:induction false} CutsJustifiedMeans(config: ChunkingConfig, sentences: seq<string>, links: seq<Link>,
                                              ws: seq<Window>, cuts: seq<Cut>)
    ensures CutsJustified(config, sentences, links, ws, cuts) <==>
      |cuts| <= |ws| && forall k :: 0 <= k < |cuts| ==> Justified(config, sentences, links, ws[k], cuts[k])
    decreases |cuts|
  {
    if cuts != [] && |cuts| <= |ws| {
      var init := cuts[..|cuts| - 1];
      CutsJustifiedMeans(config, sentences, links, ws, init);
      assert forall k :: 0 <= k < |init| ==> init[k] == cuts[k];
    }
  }

  /** Adding a window after the justified ones changes nothing about them. */
  lemma {:induction false} CutsJustifiedExtend(config: ChunkingConfig, sentences: seq<string>, links: seq<Link>,
                                               ws: seq<Window>, cuts: seq<Cut>, w: Window)
    requires CutsJustified(config, sentences, links, ws, cuts)
    ensures CutsJustified(config, sentences, links, ws + [w], cuts)
    decreases |cuts|
  {
    if cuts != [] {
      CutsJustifiedExtend(config, sentences, links, ws, cuts[..|cuts| - 1], w);
      assert (ws + [w])[|cuts| - 1] == ws[|cuts| - 1];
    }
  }

  /** Check t closes an open chunk that starts at sentence lo. */
  ghost predicate Fires(config: ChunkingConfig, sentences: seq<string>, links: seq<Link>, lo: int, t: int)
  {
    0 <= lo && 0 <= t && Justified(config, sentences, links, Window(lo, CutEnd(CutOf(t))), CutOf(t))
  }

  /** Check t raises for an open chunk that starts at sentence lo: it is the break-point
      check after a sentence i = t / 2 with a next sentence, the chunk from lo through i has the
      sentences and the length the good-point rule asks for, and the break-point test
      fails on the next sentence. */
  ghost predicate Crashes(config: ChunkingConfig, sentences: seq<string>, links: seq<Link>, lo: int, t: int)
  {
    0 <= lo && 0 <= t && t % 2 == 1 &&
    lo <= t / 2 + 1 < |sentences| && t / 2 + 1 - lo >= config.minSentencesPerChunk * 2 &&
    SumLen(sentences[lo..t / 2 + 1]) >= config.minChunkSize &&
    IsGoodBreakPoint(sentences[t / 2], sentences[t / 2 + 1]).None?
  }

  /** No check after `from` and before `to` closes or raises for a chunk that starts at lo. */
  ghost predicate Quiet(config: ChunkingConfig, sentences: seq<string>, links: seq<Link>, lo: int, from: int, to: int)
  {
    forall t :: from < t < to ==> !Fires(config, sentences, links, lo, t) && !Crashes(config, sentences, links, lo, t)
  }

  /** The check at which window k was opened: the cut that closed window k - 1, or -1 for the
      first window. */
  function OpenedAt(cuts: seq<Cut>, k: int): int
  {
    if 0 < k <= |cuts| then CheckAt(cuts[k - 1]) else -1
  }

  /** Window k was cut at the first check after its opening that fires for its start. */
  ghost predicate CutFirst(config: ChunkingConfig, sentences: seq<string>, links: seq<Link>,
                           ws: seq<Window>, cuts: seq<Cut>, k: int)
    requires 0 <= k < |cuts| <= |ws|
  {
    OpenedAt(cuts, k) < CheckAt(cuts[k]) &&
    Quiet(config, sentences, links, ws[k].lo, OpenedAt(cuts, k), CheckAt(cuts[k]))
  }

  /** No cut was missed: each closed window was cut at the first check after its opening that
      fires for its start. */
  ghost predicate CutsFirst(config: ChunkingConfig, sentences: seq<string>, links: seq<Link>,
                            ws: seq<Window>, cuts: seq<Cut>)
  {
    |cuts| <= |ws| &&
    forall k :: 0 <= k < |cuts| ==> CutFirst(config, sentences, links, ws, cuts, k)
  }

  lemma CutsFirstExtend(config: ChunkingConfig, sentences: seq<string>, links: seq<Link>,
                        ws: seq<Window>, cuts: seq<Cut>, w: Window)
    requires CutsFirst(config, sentences, links, ws, cuts)
    ensures CutsFirst(config, sentences, links, ws + [w], cuts)
  {
    forall k | 0 <= k < |cuts|
      ensures CutFirst(config, sentences, links, ws + [w], cuts, k)
    {
      assert CutFirst(config, sentences, links, ws, cuts, k);
      assert (ws + [w])[k] == ws[k];
    }
  }

  /** Cutting the open window at the first check that fires for it keeps no cut missed. */
  lemma FirstSnoc(config: ChunkingConfig, sentences: seq<string>, links: seq<Link>,
                  ws: seq<Window>, cuts: seq<Cut>, w: Window, c: Cut)
    requires CutsFirst(config, sentences, links, ws, cuts) && |cuts| == |ws|
    requires OpenedAt(cuts, |cuts|) < CheckAt(c)
    requires Quiet(config, sentences, links, w.lo, OpenedAt(cuts, |cuts|), CheckAt(c))
    ensures CutsFirst(config, sentences, links, ws + [w], cuts + [c])
  {
    var cuts', ws' := cuts + [c], ws + [w];
    forall k | 0 <= k < |cuts'|
      ensures CutFirst(config, sentences, links, ws', cuts', k)
    {
      assert OpenedAt(cuts', k) == OpenedAt(cuts, k);
      if k < |cuts| {
        assert CutFirst(config, sentences, links, ws, cuts, k);
        assert cuts'[k] == cuts[k] && ws'[k] == ws[k];
      }
    }
  }

  /** A justified window fires at its own check. */
  lemma JustifiedFires(config: ChunkingConfig, sentences: seq<string>, links: seq<Link>, w: Window, c: Cut)
    requires Justified(config, sentences, links, w, c)
    ensures w.hi == CutEnd(c) && CheckAt(c) < 2 * |sentences|
    ensures Fires(config, sentences, links, w.lo, CheckAt(c))
  {
    CutOfCheckAt(c);
  }

  predicate InWindow(ws: seq<Window>, k: int, j: int)
  {
    0 <= k < |ws| && ws[k].lo <= j < ws[k].hi
  }

  /** Chained windows cover every sentence before the end of the last one: no sentence is
      skipped between two chunks. */
  lemma {:induction false} WindowsCover(config: ChunkingConfig, ws: seq<Window>, j: int)
    requires WindowsChained(config, ws) && ws != [] && 0 <= j < ws[|ws| - 1].hi
    ensures Covered(ws, j)
  {
    var init := ws[..|ws| - 1];
    if ws[|ws| - 1].lo <= j {
      assert InWindow(ws, |ws| - 1, j);
    } else if init != [] {
      WindowsCover(config, init, j);
      var k :| InWindow(init, k, j);
      assert InWindow(ws, k, j);
    }
  }

  /** Sentence j lies in the window of some chunk. */
  ghost predicate Covered(ws: seq<Window>, j: int)
  {
    exists k :: InWindow(ws, k, j)
  }

  /** What the chunker knows after its first e sentences: the open chunk is the window from
      NextStart to e; the finished chunks are their windows joined, each with its reason. */
  ghost predicate ChunkState(config: ChunkingConfig, sentences: seq<string>, links: seq<Link>, e: int,
                             chunks: seq<string>, current: seq<string>, currentLength: int,
                             ws: seq<Window>, cuts: seq<Cut>)
  {
    0 <= NextStart(config, ws) <= e <= |sentences| &&
    current == sentences[NextStart(config, ws)..e] && currentLength == SumLen(current) &&
    |cuts| == |ws| && (ws != [] ==> ws[|ws| - 1].hi <= e) &&
    ChunksJoined(sentences, chunks, ws) && WindowsChained(config, ws) &&
    CutsJustified(config, sentences, links, ws, cuts)
  }

  /** No cut was missed up to check t: each finished chunk was cut at the first check after
      its opening that fired for it, and no check since the open chunk was opened has fired
      for it. */
  ghost predicate Unmissed(config: ChunkingConfig, sentences: seq<string>, links: seq<Link>,
                           ws: seq<Window>, cuts: seq<Cut>, t: int)
  {
    CutsFirst(config, sentences, links, ws, cuts) && OpenedAt(cuts, |cuts|) < t &&
    Quiet(config, sentences, links, NextStart(config, ws), OpenedAt(cuts, |cuts|), t)
  }

  /** The run raised at the break-point check after sentence i: the closed windows are
      chained and each was cut for its reason at its first firing check, the open chunk
      starts Keep sentences before the end of the last closed one, no check since its
      opening fired or raised for it, and check 2i + 1 raises for it. */
  ghost predicate CrashedAt(config: ChunkingConfig, sentences: seq<string>, links: seq<Link>,
                            ws: seq<Window>, cuts: seq<Cut>, i: int)
  {
    0 <= i < |sentences| && |cuts| == |ws| && WindowsChained(config, ws) &&
    CutsJustified(config, sentences, links, ws, cuts) &&
    Unmissed(config, sentences, links, ws, cuts, 2 * i + 1) &&
    Crashes(config, sentences, links, NextStart(config, ws), 2 * i + 1)
  }

  /** The sentences the source carries into the next chunk: `current[max(0, len - overlap):]`. */
  function Overlap(config: ChunkingConfig, current: seq<string>): seq<string>
  {
    var start := MaxInt(0, |current| - config.overlapSentences);
    if start <= |current| then current[start..] else []
  }

  /** The overlap of the open window lo..e is the window of its last Keep sentences. */
  lemma OverlapOfWindow(config: ChunkingConfig, sentences: seq<string>, lo: int, e: int, current: seq<string>)
    requires 0 <= lo <= e <= |sentences| && current == sentences[lo..e]
    ensures Overlap(config, current) == sentences[e - Keep(config, e - lo)..e]
  {
    assert current[|current| - Keep(config, |current|)..] == sentences[e - Keep(config, e - lo)..e];
  }

  /** Closing the open chunk for a justified reason, keeping its last Keep sentences open. */
  lemma CloseChunk(config: ChunkingConfig, sentences: seq<string>, links: seq<Link>, e: int,
                   chunks: seq<string>, current: seq<string>, currentLength: int,
                   ws: seq<Window>, cuts: seq<Cut>, c: Cut)
    requires ChunkState(config, sentences, links, e, chunks, current, currentLength, ws, cuts) == true
    requires Justified(config, sentences, links, Window(NextStart(config, ws), e), c)
    ensures ChunkState(config, sentences, links, e, chunks + [Join(current)], Overlap(config, current),
                       SumLen(Overlap(config, current)), ws + [Window(NextStart(config, ws), e)], cuts + [c]) == true
  {
    var w := Window(NextStart(config, ws), e);
    ChainedSnoc(config, ws, w);
    JoinedSnoc(sentences, chunks, ws, w);
    JustifiedSnoc(config, sentences, links, ws, cuts, w, c);
    OverlapOfWindow(config, sentences, w.lo, e, current);
    StateIntro(config, sentences, links, e, chunks + [Join(current)], Overlap(config, current),
               ws + [w], cuts + [c], e - Keep(config, e - w.lo));
  }

  /** Cutting the open chunk at check t, the first that fired for it, keeps no cut missed
      up to the next check. */
  lemma UnmissedClose(config: ChunkingConfig, sentences: seq<string>, links: seq<Link>,
                      ws: seq<Window>, cuts: seq<Cut>, w: Window, c: Cut, t: int)
    requires Unmissed(config, sentences, links, ws, cuts, t) && |cuts| == |ws|
    requires w.lo == NextStart(config, ws) && CheckAt(c) == t
    ensures Unmissed(config, sentences, links, ws + [w], cuts + [c], t + 1)
  {
    FirstSnoc(config, sentences, links, ws, cuts, w, c);
    assert Quiet(config, sentences, links, NextStart(config, ws + [w]), t, t + 1);
  }

  /** The state from its parts, each established on its own. */
  lemma StateIntro(config: ChunkingConfig, sentences: seq<string>, links: seq<Link>, e: int,
                   chunks: seq<string>, current: seq<string>, ws: seq<Window>, cuts: seq<Cut>, lo: int)
    requires lo == NextStart(config, ws) && 0 <= lo <= e <= |sentences| && current == sentences[lo..e]
    requires |cuts| == |ws| && (ws != [] ==> ws[|ws| - 1].hi <= e)
    requires ChunksJoined(sentences, chunks, ws) == true
    requires WindowsChained(config, ws) == true
    requires CutsJustified(config, sentences, links, ws, cuts) == true
    ensures ChunkState(config, sentences, links, e, chunks, current, SumLen(current), ws, cuts) == true
  {}

  /** A check that neither fires nor raises for the open chunk leaves it open. */
  lemma SkipCheck(config: ChunkingConfig, sentences: seq<string>, links: seq<Link>,
                  ws: seq<Window>, cuts: seq<Cut>, t: int)
    requires Unmissed(config, sentences, links, ws, cuts, t)
    requires !Fires(config, sentences, links, NextStart(config, ws), t)
    requires !Crashes(config, sentences, links, NextStart(config, ws), t)
    ensures Unmissed(config, sentences, links, ws, cuts, t + 1)
  {
  }

  /** A window that starts where the overlap rule says extends a chain. */
  lemma ChainedSnoc(config: ChunkingConfig, ws: seq<Window>, w: Window)
    requires WindowsChained(config, ws) && w.lo <= w.hi && w.lo == NextStart(config, ws)
    ensures WindowsChained(config, ws + [w])
    ensures NextStart(config, ws + [w]) == w.hi - Keep(config, w.hi - w.lo)
  {
    assert (ws + [w])[..|ws|] == ws;
  }

  lemma JoinedSnoc(sentences: seq<string>, chunks: seq<string>, ws: seq<Window>, w: Window)
    requires ChunksJoined(sentences, chunks, ws) && w.lo <= w.hi <= |sentences|
    ensures ChunksJoined(sentences, chunks + [Join(sentences[w.lo..w.hi])], ws + [w])
  {
    assert (chunks + [Join(sentences[w.lo..w.hi])])[..|ws|] == chunks;
    assert (ws + [w])[..|ws|] == ws;
  }

  lemma JustifiedSnoc(config: ChunkingConfig, sentences: seq<string>, links: seq<Link>,
                      ws: seq<Window>, cuts: seq<Cut>, w: Window, c: Cut)
    requires CutsJustified(config, sentences, links, ws, cuts) && |cuts| == |ws|
    requires Justified(config, sentences, links, w, c)
    ensures CutsJustified(config, sentences, links, ws + [w], cuts + [c])
  {
    CutsJustifiedExtend(config, sentences, links, ws, cuts, w);
    assert (cuts + [c])[..|cuts|] == cuts;
  }

  /** Adding the next sentence to the open chunk. */
  lemma AddSentence(config: ChunkingConfig, sentences: seq<string>, links: seq<Link>, e: int,
                    chunks: seq<string>, current: seq<string>, currentLength: int,
                    ws: seq<Window>, cuts: seq<Cut>)
    requires ChunkState(config, sentences, links, e, chunks, current, currentLength, ws, cuts) == true
    requires e < |sentences|
    ensures ChunkState(config, sentences, links, e + 1, chunks, current + [sentences[e]],
                       currentLength + |sentences[e]|, ws, cuts)
  {
    var next := current + [sentences[e]];
    assert next == sentences[NextStart(config, ws)..e + 1];
    assert next[..|current|] == current;
  }

  datatype ChunkError = EmptyNextSentence

  /** Both break rules close a chunk the same way: emit the joined sentences and start the
      next chunk with the last `overlap_sentences` of them. */
  method StartNextChunk(config: ChunkingConfig, ghost sentences: seq<string>, ghost links: seq<Link>,
                        ghost e: int, ghost t: int,
                        chunks: seq<string>, current: seq<string>, ghost currentLength: int,
                        ghost ws: seq<Window>, ghost cuts: seq<Cut>, ghost c: Cut)
    returns (chunks': seq<string>, current': seq<string>, currentLength': int,
             ghost ws': seq<Window>, ghost cuts': seq<Cut>)
    requires ChunkState(config, sentences, links, e, chunks, current, currentLength, ws, cuts) == true
    requires Unmissed(config, sentences, links, ws, cuts, t) == true
    requires Justified(config, sentences, links, Window(NextStart(config, ws), e), c) && CheckAt(c) == t
    ensures ChunkState(config, sentences, links, e, chunks', current', currentLength', ws', cuts') == true
    ensures Unmissed(config, sentences, links, ws', cuts', t + 1) == true
    ensures ws' == ws + [Window(NextStart(config, ws), e)] && cuts' == cuts + [c]
  {
    CloseChunk(config, sentences, links, e, chunks, current, currentLength, ws, cuts, c);
    UnmissedClose(config, sentences, links, ws, cuts, Window(NextStart(config, ws), e), c, t);
    chunks' := chunks + [Join(current)];
    current' := Overlap(config, current);
    currentLength' := SumLen(current');
    ws' := ws + [Window(NextStart(config, ws), e)];
    cuts' := cuts + [c];
  }

  /** The size rule, applied before sentence i joins the open chunk: close the chunk when
      the sentence would take it past the maximum length, it has the minimum number of
      sentences, and sentence i is not link context. */
  method SizeRule(config: ChunkingConfig, sentences: seq<string>, links: seq<Link>, ghost ctx: set<int>,
                  i: int, isLinkContext: bool,
                  chunks: seq<string>, current: seq<string>, currentLength: int,
                  ghost ws: seq<Window>, ghost cuts: seq<Cut>)
    returns (chunks': seq<string>, current': seq<string>, currentLength': int,
             ghost ws': seq<Window>, ghost cuts': seq<Cut>)
    requires 0 <= i < |sentences|
    requires ChunkState(config, sentences, links, i, chunks, current, currentLength, ws, cuts) == true
    requires Unmissed(config, sentences, links, ws, cuts, 2 * i) == true
    requires LinkContextSet(sentences, links, ctx) && isLinkContext == (i in ctx)
    ensures ChunkState(config, sentences, links, i, chunks', current', currentLength', ws', cuts') == true
    ensures Unmissed(config, sentences, links, ws', cuts', 2 * i + 1) == true
  {
    chunks', current', currentLength', ws', cuts' := chunks, current, currentLength, ws, cuts;
    if currentLength + |sentences[i]| > config.maxChunkSize && |current| >= config.minSentencesPerChunk && !isLinkContext {
      chunks', current', currentLength', ws', cuts' :=
        StartNextChunk(config, sentences, links, i, 2 * i, chunks, current, currentLength, ws, cuts, SizeCut(i));
    } else {
      assert CutOf(2 * i) == SizeCut(i);
      SkipCheck(config, sentences, links, ws, cuts, 2 * i);
    }
  }

  /** The point check after sentence i fires for the window opened at lo exactly when the
      good-point rule's condition holds for the sentences from lo through i, and raises
      exactly when the rule reaches a break-point test that fails. */
  lemma PointFires(config: ChunkingConfig, sentences: seq<string>, links: seq<Link>, lo: int, i: int)
    requires 0 <= lo <= i + 1 && 0 <= i < |sentences|
    ensures Fires(config, sentences, links, lo, 2 * i + 1) <==>
      i + 1 < |sentences| && i + 1 - lo >= config.minSentencesPerChunk * 2 &&
      SumLen(sentences[lo..i + 1]) >= config.minChunkSize &&
      IsGoodBreakPoint(sentences[i], sentences[i + 1]) == Some(true) &&
      !InContext(sentences, links, i) && !InContext(sentences, links, i + 1)
    ensures Crashes(config, sentences, links, lo, 2 * i + 1) <==>
      i + 1 < |sentences| && i + 1 - lo >= config.minSentencesPerChunk * 2 &&
      SumLen(sentences[lo..i + 1]) >= config.minChunkSize &&
      IsGoodBreakPoint(sentences[i], sentences[i + 1]).None?
  {
    assert CutOf(2 * i + 1) == PointCut(i);
  }

  /** A point check at which the good-point rule does not close the open chunk, and whose
      break-point test, when the rule reaches it, does not raise, leaves the chunk open. */
  lemma PointSkip(config: ChunkingConfig, sentences: seq<string>, links: seq<Link>, i: int,
                  current: seq<string>, currentLength: int, ws: seq<Window>, cuts: seq<Cut>)
    requires 0 <= i < |sentences| && 0 <= NextStart(config, ws) <= i + 1
    requires current == sentences[NextStart(config, ws)..i + 1] && currentLength == SumLen(current)
    requires Unmissed(config, sentences, links, ws, cuts, 2 * i + 1) == true
    requires |current| >= config.minSentencesPerChunk * 2 && currentLength >= config.minChunkSize && i < |sentences| - 1 ==>
      IsGoodBreakPoint(sentences[i], sentences[i + 1]).Some? &&
      (IsGoodBreakPoint(sentences[i], sentences[i + 1]) == Some(false) ||
       InContext(sentences, links, i) || InContext(sentences, links, i + 1))
    ensures Unmissed(config, sentences, links, ws, cuts, 2 * i + 2) == true
  {
    PointFires(config, sentences, links, NextStart(config, ws), i);
    SkipCheck(config, sentences, links, ws, cuts, 2 * i + 1);
  }

  /** A point check whose break-point test is reached and fails raises for the open chunk. */
  lemma PointCrash(config: ChunkingConfig, sentences: seq<string>, links: seq<Link>, i: int,
                   chunks: seq<string>, current: seq<string>, currentLength: int, ws: seq<Window>, cuts: seq<Cut>)
    requires 0 <= i < |sentences| - 1
    requires ChunkState(config, sentences, links, i + 1, chunks, current, currentLength, ws, cuts) == true
    requires Unmissed(config, sentences, links, ws, cuts, 2 * i + 1) == true
    requires |current| >= config.minSentencesPerChunk * 2 && currentLength >= config.minChunkSize
    requires IsGoodBreakPoint(sentences[i], sentences[i + 1]).None?
    ensures CrashedAt(config, sentences, links, ws, cuts, i)
  {
    PointFires(config, sentences, links, NextStart(config, ws), i);
  }

  /** The good-point rule, applied after sentence i joined the open chunk: close the chunk
      when it has at least twice the minimum number of sentences and the minimum length,
      a next sentence exists, the break point is good, and neither sentence is link context.
      `failed` reports the IndexError of the break-point test on an empty next sentence. */
  method PointRule(config: ChunkingConfig, sentences: seq<string>, links: seq<Link>, ghost ctx: set<int>, i: int,
                   isLinkContext: bool, nextIsLinkContext: bool,
                   chunks: seq<string>, current: seq<string>, currentLength: int,
                   ghost ws: seq<Window>, ghost cuts: seq<Cut>)
    returns (failed: bool, chunks': seq<string>, current': seq<string>, currentLength': int,
             ghost ws': seq<Window>, ghost cuts': seq<Cut>)
    requires 0 <= i < |sentences|
    requires ChunkState(config, sentences, links, i + 1, chunks, current, currentLength, ws, cuts) == true
    requires Unmissed(config, sentences, links, ws, cuts, 2 * i + 1) == true
    requires LinkContextSet(sentences, links, ctx) && isLinkContext == (i in ctx)
    requires nextIsLinkContext == (i + 1 in ctx)
    ensures failed ==> i + 1 < |sentences| && sentences[i + 1] == ""
    ensures failed ==> ws' == ws && cuts' == cuts && CrashedAt(config, sentences, links, ws, cuts, i) == true
    ensures !failed ==> ChunkState(config, sentences, links, i + 1, chunks', current', currentLength', ws', cuts') == true
    ensures !failed ==> Unmissed(config, sentences, links, ws', cuts', 2 * i + 2) == true
    ensures !failed && i == |sentences| - 1 ==> current' == current && ws' == ws
  {
    failed, chunks', current', currentLength', ws', cuts' := false, chunks, current, currentLength, ws, cuts;
    if |current| >= config.minSentencesPerChunk * 2 && currentLength >= config.minChunkSize && i < |sentences| - 1 {
      var good := IsGoodBreakPoint(sentences[i], sentences[i + 1]);
      if good.None? {
        PointCrash(config, sentences, links, i, chunks, current, currentLength, ws, cuts);
        failed := true;
        return;
      }
      if good.value && !nextIsLinkContext && !isLinkContext {
        chunks', current', currentLength', ws', cuts' :=
          StartNextChunk(config, sentences, links, i + 1, 2 * i + 1, chunks, current, currentLength, ws, cuts, PointCut(i));
      } else {
        PointSkip(config, sentences, links, i, current, currentLength, ws, cuts);
      }
    } else {
      PointSkip(config, sentences, links, i, current, currentLength, ws, cuts);
    }
  }

  /** Emitting the last open chunk gives the final chunk list. */
  lemma FinishChunks(config: ChunkingConfig, sentences: seq<string>, links: seq<Link>,
                     chunks: seq<string>, current: seq<string>, currentLength: int,
                     ws: seq<Window>, cuts: seq<Cut>)
    requires ChunkState(config, sentences, links, |sentences|, chunks, current, currentLength, ws, cuts) == true
    requires Unmissed(config, sentences, links, ws, cuts, 2 * |sentences|) == true
    requires current != []
    ensures var ws' := ws + [Window(NextStart(config, ws), |sentences|)];
      ChunksJoined(sentences, chunks + [Join(current)], ws') && WindowsChained(config, ws') &&
      CutsJustified(config, sentences, links, ws', cuts) && CutsFirst(config, sentences, links, ws', cuts) &&
      Quiet(config, sentences, links, ws'[|ws'| - 1].lo, OpenedAt(cuts, |cuts|), 2 * |sentences|) &&
      EndsWith(Join(current), sentences[|sentences| - 1])
  {
    var w := Window(NextStart(config, ws), |sentences|);
    ChainedSnoc(config, ws, w);
    JoinedSnoc(sentences, chunks, ws, w);
    JoinEndsWithLast(current);
    CutsJustifiedExtend(config, sentences, links, ws, cuts, w);
    UnmissedLast(config, sentences, links, ws, cuts, Window(NextStart(config, ws), |sentences|), 2 * |sentences|);
  }

  /** Once the open window is closed as the last one, no cut was missed before check t and
      none fired for it after its opening. */
  lemma UnmissedLast(config: ChunkingConfig, sentences: seq<string>, links: seq<Link>,
                     ws: seq<Window>, cuts: seq<Cut>, w: Window, t: int)
    requires Unmissed(config, sentences, links, ws, cuts, t) && w.lo == NextStart(config, ws)
    ensures CutsFirst(config, sentences, links, ws + [w], cuts)
    ensures Quiet(config, sentences, links, (ws + [w])[|ws|].lo, OpenedAt(cuts, |cuts|), t)
  {
    CutsFirstExtend(config, sentences, links, ws, cuts, w);
  }

  /** The chunks of a successful run: chunk k is the sentences of window k joined by spaces;
      the windows start at sentence 0, each later one starts Keep sentences before the end of
      the one before, and the last ends at the last sentence, which ends the last chunk;
      there are no chunks exactly when there are no sentences; every chunk but the last was
      closed by a rule that held at its end, at the first check after its opening at which
      a rule held; and no rule held for the last chunk at any check after its opening.
      ChunkingDetermined shows that this fixes chunks, windows and cuts. */
  ghost predicate Chunking(config: ChunkingConfig, sentences: seq<string>, links: seq<Link>,
                           chunks: seq<string>, ws: seq<Window>, cuts: seq<Cut>)
  {
    ChunksJoined(sentences, chunks, ws) && WindowsChained(config, ws) &&
    (sentences == [] <==> ws == []) &&
    (sentences != [] ==>
      ws[|ws| - 1].hi == |sentences| && ws[|ws| - 1].lo < |sentences| &&
      |cuts| + 1 == |ws| && EndsWith(chunks[|chunks| - 1], sentences[|sentences| - 1]) &&
      Quiet(config, sentences, links, ws[|ws| - 1].lo, OpenedAt(cuts, |cuts|), 2 * |sentences|)) &&
    CutsJustified(config, sentences, links, ws, cuts) && CutsFirst(config, sentences, links, ws, cuts)
  }

  /** The reading of the chain by index: window 0 starts at sentence 0 and window k + 1
      starts Keep sentences before the end of window k. */
  lemma {:induction false} ChainedAt(config: ChunkingConfig, ws: seq<Window>, k: int)
    requires WindowsChained(config, ws) && 0 <= k < |ws|
    ensures ws[k].lo <= ws[k].hi
    ensures k == 0 ==> ws[k].lo == 0
    ensures k > 0 ==> ws[k - 1].lo <= ws[k - 1].hi && ws[k].lo == ws[k - 1].hi - Keep(config, ws[k - 1].hi - ws[k - 1].lo)
    decreases |ws|
  {
    var n := |ws| - 1;
    var init := ws[..n];
    if k < n {
      ChainedAt(config, init, k);
      if k > 0 {
        assert init[k - 1] == ws[k - 1];
      }
    } else if k > 0 {
      ChainedAt(config, init, k - 1);
      assert init[k - 1] == ws[k - 1];
    }
  }

  /** Window ends never decrease: a later check never cuts before an earlier one, and every
      cut lies before the last sentence. */
  lemma WindowEndsInOrder(config: ChunkingConfig, sentences: seq<string>, links: seq<Link>,
                          chunks: seq<string>, ws: seq<Window>, cuts: seq<Cut>)
    requires Chunking(config, sentences, links, chunks, ws, cuts)
    ensures forall k :: 0 <= k < |ws| ==> ws[k].lo <= ws[k].hi <= |sentences|
    ensures forall k :: 0 <= k < |ws| - 1 ==> ws[k].hi <= ws[k + 1].hi
    ensures forall k :: 0 <= k < |cuts| ==> ws[k].hi == CutEnd(cuts[k]) < |sentences|
  {
    ChunksJoinedMeans(sentences, chunks, ws);
    CutsJustifiedMeans(config, sentences, links, ws, cuts);
    forall k | 0 <= k < |ws| - 1
      ensures ws[k].hi <= ws[k + 1].hi
    {
      JustifiedFires(config, sentences, links, ws[k], cuts[k]);
      if k + 1 < |cuts| {
        JustifiedFires(config, sentences, links, ws[k + 1], cuts[k + 1]);
        assert CutFirst(config, sentences, links, ws, cuts, k + 1);
        assert OpenedAt(cuts, k + 1) == CheckAt(cuts[k]);
        CutEndMonotone(cuts[k], cuts[k + 1]);
      }
    }
  }

  /** With more sentences per chunk than are carried over, every window ends strictly after
      the one before (so no chunk is only the overlap of the one before it). */
  lemma WindowEndsIncrease(config: ChunkingConfig, sentences: seq<string>, links: seq<Link>,
                           chunks: seq<string>, ws: seq<Window>, cuts: seq<Cut>)
    requires Chunking(config, sentences, links, chunks, ws, cuts)
    requires config.minSentencesPerChunk > MaxInt(0, config.overlapSentences)
    ensures forall k :: 0 <= k < |ws| - 1 ==> ws[k].hi < ws[k + 1].hi
  {
    WindowEndsInOrder(config, sentences, links, chunks, ws, cuts);
    CutsJustifiedMeans(config, sentences, links, ws, cuts);
    forall k | 0 <= k < |ws| - 1
      ensures ws[k].hi < ws[k + 1].hi
    {
      ChainedAt(config, ws, k + 1);
      if k + 1 < |cuts| {
        assert Justified(config, sentences, links, ws[k + 1], cuts[k + 1]);
      }
    }
  }

  /** The sentences each window adds past the end of the window before it, in window order. */
  function FreshParts(sentences: seq<string>, ws: seq<Window>): seq<string>
  {
    if ws == [] then []
    else
      var n := |ws| - 1;
      var from := if n == 0 then 0 else ws[n - 1].hi;
      FreshParts(sentences, ws[..n]) + (if from <= ws[n].hi <= |sentences| then sentences[from..ws[n].hi] else [])
  }

  lemma {:induction false} FreshPartsPrefix(sentences: seq<string>, ws: seq<Window>)
    requires ws != [] && ws[|ws| - 1].hi <= |sentences|
    requires forall k :: 0 <= k < |ws| - 1 ==> ws[k].hi <= ws[k + 1].hi
    ensures FreshParts(sentences, ws) == sentences[..ws[|ws| - 1].hi]
    decreases |ws|
  {
    var n := |ws| - 1;
    if n > 0 {
      var init := ws[..n];
      assert forall k :: 0 <= k < n - 1 ==> init[k].hi <= init[k + 1].hi by {
        assert forall k :: 0 <= k < n ==> init[k] == ws[k];
      }
      assert init[n - 1] == ws[n - 1];
      FreshPartsPrefix(sentences, init);
      assert FreshParts(sentences, ws) == sentences[..ws[n - 1].hi] + sentences[ws[n - 1].hi..ws[n].hi];
      PrefixSplit(sentences, ws[n - 1].hi, ws[n].hi);
    } else {
      assert FreshParts(sentences, ws) == [] + sentences[0..ws[0].hi];
      PrefixSplit(sentences, 0, ws[0].hi);
    }
  }

  lemma PrefixSplit<T>(s: seq<T>, b: nat, c: nat)
    requires b <= c <= |s|
    ensures s[..b] + s[b..c] == s[..c]
  {
    assert s[..b] + s[b..c] == s[..c];
  }

  /** Sentence j lies in the window of some chunk, and the sentences the chunks add, each past
      the end of the chunk before it, are the whole sentence list in order. */
  lemma ChunksCoverSentences(config: ChunkingConfig, sentences: seq<string>, links: seq<Link>,
                             chunks: seq<string>, ws: seq<Window>, cuts: seq<Cut>)
    requires Chunking(config, sentences, links, chunks, ws, cuts)
    ensures forall j :: 0 <= j < |sentences| ==> Covered(ws, j)
    ensures FreshParts(sentences, ws) == sentences
  {
    forall j | 0 <= j < |sentences| ensures Covered(ws, j) {
      WindowsCover(config, ws, j);
    }
    if sentences != [] {
      WindowEndsInOrder(config, sentences, links, chunks, ws, cuts);
      FreshPartsPrefix(sentences, ws);
    }
  }

  /** Window w' follows window w: it starts no later than w ends and ends no earlier, and
      its sentences are the overlap of w's followed by the sentences up to its own end. */
  ghost predicate Follows(config: ChunkingConfig, sentences: seq<string>, w: Window, w': Window)
  {
    w.lo <= w'.lo <= w.hi <= w'.hi <= |sentences| &&
    sentences[w'.lo..w'.hi] == Overlap(config, sentences[w.lo..w.hi]) + sentences[w.hi..w'.hi]
  }

  lemma FollowsIntro(config: ChunkingConfig, sentences: seq<string>, w: Window, w': Window)
    requires w.lo <= w.hi <= w'.hi <= |sentences| && w'.lo == w.hi - Keep(config, w.hi - w.lo)
    ensures Follows(config, sentences, w, w')
  {
    OverlapOfWindow(config, sentences, w.lo, w.hi, sentences[w.lo..w.hi]);
    assert sentences[w'.lo..w'.hi] == sentences[w'.lo..w.hi] + sentences[w.hi..w'.hi];
  }

  /** Chunk k + 1 is the overlap of chunk k followed by the sentences it adds: its sentences
      are the last Keep sentences of chunk k's, then those up to its own end. */
  lemma ChunksOverlap(config: ChunkingConfig, sentences: seq<string>, links: seq<Link>,
                      chunks: seq<string>, ws: seq<Window>, cuts: seq<Cut>)
    requires Chunking(config, sentences, links, chunks, ws, cuts)
    ensures ws != [] ==> ws[0].lo == 0
    ensures forall k :: 0 <= k < |ws| - 1 ==> Follows(config, sentences, ws[k], ws[k + 1])
  {
    WindowEndsInOrder(config, sentences, links, chunks, ws, cuts);
    if ws != [] {
      ChainedAt(config, ws, 0);
    }
    forall k | 0 <= k < |ws| - 1
      ensures Follows(config, sentences, ws[k], ws[k + 1])
    {
      ChainedAt(config, ws, k + 1);
      FollowsIntro(config, sentences, ws[k], ws[k + 1]);
    }
  }

  /** The part of a run's description that fixes its windows and cuts. */
  ghost predicate CutRun(config: ChunkingConfig, sentences: seq<string>, links: seq<Link>,
                         ws: seq<Window>, cuts: seq<Cut>)
  {
    WindowsChained(config, ws) && |cuts| + 1 == |ws| && ws[|cuts|].hi == |sentences| &&
    (forall k :: 0 <= k < |cuts| ==> Justified(config, sentences, links, ws[k], cuts[k])) &&
    CutsFirst(config, sentences, links, ws, cuts) &&
    Quiet(config, sentences, links, ws[|cuts|].lo, OpenedAt(cuts, |cuts|), 2 * |sentences|)
  }

  lemma ChunkingRun(config: ChunkingConfig, sentences: seq<string>, links: seq<Link>,
                    chunks: seq<string>, ws: seq<Window>, cuts: seq<Cut>)
    requires Chunking(config, sentences, links, chunks, ws, cuts) && sentences != []
    ensures CutRun(config, sentences, links, ws, cuts)
  {
    CutsJustifiedMeans(config, sentences, links, ws, cuts);
  }

  /** Two cuts of the same open chunk, each at the first check after the same opening that
      fires for it, are the same cut. */
  lemma FirstCutUnique(config: ChunkingConfig, sentences: seq<string>, links: seq<Link>,
                       lo: int, since: int, c1: Cut, c2: Cut)
    requires since < CheckAt(c1) && Quiet(config, sentences, links, lo, since, CheckAt(c1))
    requires since < CheckAt(c2) && Quiet(config, sentences, links, lo, since, CheckAt(c2))
    requires Fires(config, sentences, links, lo, CheckAt(c1)) && Fires(config, sentences, links, lo, CheckAt(c2))
    ensures c1 == c2
  {
    CutOfCheckAt(c1);
    CutOfCheckAt(c2);
  }

  /** Two chained runs that agree on their first k windows and cuts open window k at the
      same sentence and after the same check. */
  lemma SameOpening(config: ChunkingConfig, ws1: seq<Window>, cuts1: seq<Cut>, ws2: seq<Window>, cuts2: seq<Cut>, k: nat)
    requires WindowsChained(config, ws1) && WindowsChained(config, ws2)
    requires k < |ws1| && k < |ws2| && k <= |cuts1| && k <= |cuts2|
    requires ws1[..k] == ws2[..k] && cuts1[..k] == cuts2[..k]
    ensures ws1[k].lo == ws2[k].lo && OpenedAt(cuts1, k) == OpenedAt(cuts2, k)
  {
    ChainedAt(config, ws1, k);
    ChainedAt(config, ws2, k);
    if k > 0 {
      assert ws1[..k][k - 1] == ws1[k - 1] && ws2[..k][k - 1] == ws2[k - 1];
      assert cuts1[..k][k - 1] == cuts1[k - 1] && cuts2[..k][k - 1] == cuts2[k - 1];
    }
  }

  /** A window closed for its reason after check `since` breaks the quiet of its start
      from `since` to the end of the run. */
  lemma CutBreaksQuiet(config: ChunkingConfig, sentences: seq<string>, links: seq<Link>, w: Window, c: Cut, since: int)
    requires Justified(config, sentences, links, w, c) && since < CheckAt(c)
    ensures !Quiet(config, sentences, links, w.lo, since, 2 * |sentences|)
  {
    JustifiedFires(config, sentences, links, w, c);
  }

  /** Two windows with the same start, each closed for its reason at the first check after
      the same opening that fires for that start, are the same window with the same cut. */
  lemma SameCut(config: ChunkingConfig, sentences: seq<string>, links: seq<Link>,
                w1: Window, c1: Cut, w2: Window, c2: Cut, since: int)
    requires w1.lo == w2.lo
    requires Justified(config, sentences, links, w1, c1) && Justified(config, sentences, links, w2, c2)
    requires since < CheckAt(c1) && Quiet(config, sentences, links, w1.lo, since, CheckAt(c1))
    requires since < CheckAt(c2) && Quiet(config, sentences, links, w2.lo, since, CheckAt(c2))
    ensures c1 == c2 && w1 == w2
  {
    JustifiedFires(config, sentences, links, w1, c1);
    JustifiedFires(config, sentences, links, w2, c2);
    FirstCutUnique(config, sentences, links, w1.lo, since, c1, c2);
  }

  /** Two runs that agree on their first k windows and cuts agree on all of them: window k
      starts at the same sentence in both, and each is cut at the first check after the same
      opening that fires for that start, or at none. */
  lemma {:induction false} RunsAgree(config: ChunkingConfig, sentences: seq<string>, links: seq<Link>,
                                     ws1: seq<Window>, cuts1: seq<Cut>, ws2: seq<Window>, cuts2: seq<Cut>, k: nat)
    requires CutRun(config, sentences, links, ws1, cuts1) && CutRun(config, sentences, links, ws2, cuts2)
    requires k <= |cuts1| && k <= |cuts2|
    requires ws1[..k] == ws2[..k] && cuts1[..k] == cuts2[..k]
    ensures ws1 == ws2 && cuts1 == cuts2
    decreases |cuts1| - k
  {
    SameOpening(config, ws1, cuts1, ws2, cuts2, k);
    var since := OpenedAt(cuts1, k);
    if k < |cuts1| && k < |cuts2| {
      assert CutFirst(config, sentences, links, ws1, cuts1, k) && CutFirst(config, sentences, links, ws2, cuts2, k);
      SameCut(config, sentences, links, ws1[k], cuts1[k], ws2[k], cuts2[k], since);
      PrefixSnoc(ws1, k);
      PrefixSnoc(ws2, k);
      PrefixSnoc(cuts1, k);
      PrefixSnoc(cuts2, k);
      RunsAgree(config, sentences, links, ws1, cuts1, ws2, cuts2, k + 1);
    } else if k < |cuts2| {
      assert CutFirst(config, sentences, links, ws2, cuts2, k);
      CutBreaksQuiet(config, sentences, links, ws2[k], cuts2[k], since);
      assert false;
    } else if k < |cuts1| {
      assert CutFirst(config, sentences, links, ws1, cuts1, k);
      CutBreaksQuiet(config, sentences, links, ws1[k], cuts1[k], since);
      assert false;
    } else {
      PrefixSnoc(ws1, k);
      PrefixSnoc(ws2, k);
      assert cuts1 == cuts1[..k] && cuts2 == cuts2[..k];
    }
  }

  lemma PrefixSnoc<T>(s: seq<T>, k: nat)
    requires k < |s|
    ensures s[..k + 1] == s[..k] + [s[k]]
    ensures k + 1 == |s| ==> s == s[..k] + [s[k]]
  {
    assert s[..k + 1] == s[..k] + [s[k]];
  }

  /** The description of a run fixes it: two chunk lists, with their windows and cuts, that
      both meet it are the same. */
  lemma ChunkingDetermined(config: ChunkingConfig, sentences: seq<string>, links: seq<Link>,
                           chunks1: seq<string>, ws1: seq<Window>, cuts1: seq<Cut>,
                           chunks2: seq<string>, ws2: seq<Window>, cuts2: seq<Cut>)
    requires Chunking(config, sentences, links, chunks1, ws1, cuts1)
    requires Chunking(config, sentences, links, chunks2, ws2, cuts2)
    ensures chunks1 == chunks2 && ws1 == ws2 && cuts1 == cuts2
  {
    if sentences != [] {
      ChunkingRun(config, sentences, links, chunks1, ws1, cuts1);
      ChunkingRun(config, sentences, links, chunks2, ws2, cuts2);
      RunsAgree(config, sentences, links, ws1, cuts1, ws2, cuts2, 0);
    }
    ChunksJoinedMeans(sentences, chunks1, ws1);
    ChunksJoinedMeans(sentences, chunks2, ws2);
  }

  /** Where a run that was not cut short would have opened window k, given the same first
      k windows and cuts as a run that has closed exactly k windows. */
  lemma SameOpenStart(config: ChunkingConfig, ws1: seq<Window>, cuts1: seq<Cut>, ws2: seq<Window>, cuts2: seq<Cut>, k: nat)
    requires WindowsChained(config, ws1) && WindowsChained(config, ws2)
    requires k < |ws1| && k <= |cuts1| && k == |ws2| == |cuts2|
    requires ws1[..k] == ws2[..k] && cuts1[..k] == cuts2[..k]
    ensures ws1[k].lo == NextStart(config, ws2) && OpenedAt(cuts1, k) == OpenedAt(cuts2, k)
  {
    ChainedAt(config, ws1, k);
    if k > 0 {
      assert ws1[..k][k - 1] == ws1[k - 1] && ws2[..k][k - 1] == ws2[k - 1];
      assert cuts1[..k][k - 1] == cuts1[k - 1] && cuts2[..k][k - 1] == cuts2[k - 1];
    }
  }

  /** A check after `since` and before `to` that fires or raises for lo breaks its quiet. */
  lemma CheckBreaksQuiet(config: ChunkingConfig, sentences: seq<string>, links: seq<Link>,
                         lo: int, t: int, since: int, to: int)
    requires (Fires(config, sentences, links, lo, t) || Crashes(config, sentences, links, lo, t)) == true
    requires since < t < to
    ensures !Quiet(config, sentences, links, lo, since, to)
  {}

  /** The check at which a window is closed for its reason does not raise for it. */
  lemma CutNotCrash(config: ChunkingConfig, sentences: seq<string>, links: seq<Link>, w: Window, c: Cut)
    requires Justified(config, sentences, links, w, c)
    ensures !Crashes(config, sentences, links, w.lo, CheckAt(c))
  {
    CutOfCheckAt(c);
  }

  /** A run that ends with all its sentences in chunks and a run that raised after sentence i
      do not agree on their first k windows and cuts: where they would first part, one of
      them would close or raise at a check the other passed while quiet. */
  lemma {:induction false} CrashAgrees(config: ChunkingConfig, sentences: seq<string>, links: seq<Link>,
                                       ws1: seq<Window>, cuts1: seq<Cut>, ws2: seq<Window>, cuts2: seq<Cut>,
                                       i: int, k: nat)
    requires CutRun(config, sentences, links, ws1, cuts1) && k <= |cuts1|
    ensures !(CrashedAt(config, sentences, links, ws2, cuts2, i) && k <= |cuts2| &&
              ws1[..k] == ws2[..k] && cuts1[..k] == cuts2[..k])
    decreases |cuts1| - k
  {
    if CrashedAt(config, sentences, links, ws2, cuts2, i) && k <= |cuts2| &&
       ws1[..k] == ws2[..k] && cuts1[..k] == cuts2[..k] {
      CutsJustifiedMeans(config, sentences, links, ws2, cuts2);
      if k < |cuts2| {
        SameOpening(config, ws1, cuts1, ws2, cuts2, k);
        var since := OpenedAt(cuts1, k);
        assert CutFirst(config, sentences, links, ws2, cuts2, k);
        if k < |cuts1| {
          assert CutFirst(config, sentences, links, ws1, cuts1, k);
          SameCut(config, sentences, links, ws1[k], cuts1[k], ws2[k], cuts2[k], since);
          PrefixSnoc(ws1, k);
          PrefixSnoc(ws2, k);
          PrefixSnoc(cuts1, k);
          PrefixSnoc(cuts2, k);
          CrashAgrees(config, sentences, links, ws1, cuts1, ws2, cuts2, i, k + 1);
        } else {
          CutBreaksQuiet(config, sentences, links, ws2[k], cuts2[k], since);
          assert false;
        }
      } else {
        SameOpenStart(config, ws1, cuts1, ws2, cuts2, k);
        if k < |cuts1| {
          assert CutFirst(config, sentences, links, ws1, cuts1, k);
        }
        OpenWindowQuiet(config, sentences, links, ws1, cuts1, ws2, cuts2, i);
      }
    }
  }

  /** A window closed for its reason at the first check after `since` that fires for it,
      and whose start raises at a later check `crash`, is closed before that check: the
      cut breaks the quiet from `since` to `crash`. */
  lemma CutBeforeCrash(config: ChunkingConfig, sentences: seq<string>, links: seq<Link>,
                       w: Window, c: Cut, since: int, crash: int)
    requires Justified(config, sentences, links, w, c) == true
    requires since < CheckAt(c) && Quiet(config, sentences, links, w.lo, since, CheckAt(c)) == true
    requires since < crash && Crashes(config, sentences, links, w.lo, crash) == true
    ensures CheckAt(c) < crash && !Quiet(config, sentences, links, w.lo, since, crash)
  {
    JustifiedFires(config, sentences, links, w, c);
    CutNotCrash(config, sentences, links, w, c);
    if CheckAt(c) > crash {
      CheckBreaksQuiet(config, sentences, links, w.lo, crash, since, CheckAt(c));
      assert false;
    }
    CheckBreaksQuiet(config, sentences, links, w.lo, CheckAt(c), since, crash);
  }

  /** When window k = |cuts2| of run 1 starts where the window run 2 left open does, after
      the same check, and is closed for its reason at its first firing check or stays quiet
      to the end, then check 2i + 1 is not the first after that opening to fire or raise for
      that start: run 1 fires before it, or passes it quietly. */
  lemma OpenWindowQuiet(config: ChunkingConfig, sentences: seq<string>, links: seq<Link>,
                        ws1: seq<Window>, cuts1: seq<Cut>, ws2: seq<Window>, cuts2: seq<Cut>, i: int)
    requires |cuts1| + 1 == |ws1| && |cuts2| <= |cuts1|
    requires ws1[|cuts2|].lo == NextStart(config, ws2) && OpenedAt(cuts1, |cuts2|) == OpenedAt(cuts2, |cuts2|)
    requires |cuts2| < |cuts1| ==>
      Justified(config, sentences, links, ws1[|cuts2|], cuts1[|cuts2|]) && CutFirst(config, sentences, links, ws1, cuts1, |cuts2|)
    requires |cuts2| == |cuts1| ==>
      Quiet(config, sentences, links, ws1[|cuts2|].lo, OpenedAt(cuts1, |cuts2|), 2 * |sentences|)
    ensures !(0 <= i < |sentences| && OpenedAt(cuts2, |cuts2|) < 2 * i + 1 &&
              Quiet(config, sentences, links, NextStart(config, ws2), OpenedAt(cuts2, |cuts2|), 2 * i + 1) &&
              Crashes(config, sentences, links, NextStart(config, ws2), 2 * i + 1))
  {
    var k := |cuts2|;
    var lo, since := ws1[k].lo, OpenedAt(cuts1, k);
    if 0 <= i < |sentences| && since < 2 * i + 1 && Crashes(config, sentences, links, lo, 2 * i + 1) {
      if k < |cuts1| {
        CutBeforeCrash(config, sentences, links, ws1[k], cuts1[k], since, 2 * i + 1);
      } else {
        CheckBreaksQuiet(config, sentences, links, lo, 2 * i + 1, since, 2 * |sentences|);
      }
    }
  }

  /** A run that meets the description of a successful run never reaches a break-point test
      that raises: no run of closed windows and cuts has raised on these sentences. */
  lemma ChunkingExcludesCrash(config: ChunkingConfig, sentences: seq<string>, links: seq<Link>,
                              chunks: seq<string>, ws: seq<Window>, cuts: seq<Cut>,
                              ws': seq<Window>, cuts': seq<Cut>, i: int)
    requires Chunking(config, sentences, links, chunks, ws, cuts)
    ensures !CrashedAt(config, sentences, links, ws', cuts', i)
  {
    if sentences != [] {
      ChunkingRun(config, sentences, links, chunks, ws, cuts);
      CrashAgrees(config, sentences, links, ws, cuts, ws', cuts', i, 0);
    }
  }

  /** With no minimum length, no minimum number of sentences and one sentence carried over,
      the sentences "A.", "" raise at the break-point test after "A.", so no chunk list meets
      the description of a successful run. */
  lemma RaisingInputHasNoChunking(chunks: seq<string>, ws: seq<Window>, cuts: seq<Cut>)
    ensures var config := ChunkingConfig(0, 1000, 0, 1);
      CrashedAt(config, ["A.", ""], [], [], [], 0) && !Chunking(config, ["A.", ""], [], chunks, ws, cuts)
  {
    var config := ChunkingConfig(0, 1000, 0, 1);
    var s := ["A.", ""];
    assert IsGoodBreakPoint("A.", "") == None by {
      assert EndsWith("A.", ".") && !EndsWithAbbreviation("A.");
    }
    assert CutOf(0) == SizeCut(0) && CutOf(1) == PointCut(0);
    assert s[0..1] == ["A."];
    assert Crashes(config, s, [], 0, 1);
    assert CrashedAt(config, s, [], [], [], 0);
    if Chunking(config, s, [], chunks, ws, cuts) {
      ChunkingExcludesCrash(config, s, [], chunks, ws, cuts, [], [], 0);
    }
  }

  /** A chunk can be exactly the overlap of the one before it. With at least one sentence per
      chunk, one sentence carried over and a maximum length of 5, the sentences "x", "A.",
      "However" are chunked as "x A.", "A.", "A. However": the good break point after "A."
      closes the first chunk, and the size rule closes the carried-over "A." before "However"
      joins it, so the first two windows end at the same sentence. */
  lemma OverlapOnlyChunk()
    ensures var config := ChunkingConfig(0, 5, 1, 1);
      var ws := [Window(0, 2), Window(1, 2), Window(1, 3)];
      Chunking(config, ["x", "A.", "However"], [], ["x A.", "A.", "A. However"], ws, [PointCut(1), SizeCut(2)]) &&
      ws[0].hi == ws[1].hi
  {
    var s := ["x", "A.", "However"];
    var ws := [Window(0, 2), Window(1, 2), Window(1, 3)];
    OverlapOnlyLayout();
    OverlapOnlyCuts();
    CutsJustifiedMeans(ChunkingConfig(0, 5, 1, 1), s, [], ws, [PointCut(1), SizeCut(2)]);
  }

  /** The windows of OverlapOnlyChunk are chained and give its chunks. */
  lemma OverlapOnlyLayout()
    ensures var ws := [Window(0, 2), Window(1, 2), Window(1, 3)];
      ChunksJoined(["x", "A.", "However"], ["x A.", "A.", "A. However"], ws) &&
      WindowsChained(ChunkingConfig(0, 5, 1, 1), ws)
  {
    var config := ChunkingConfig(0, 5, 1, 1);
    var s := ["x", "A.", "However"];
    var ws := [Window(0, 2), Window(1, 2), Window(1, 3)];
    assert s[0..2] == ["x", "A."] && s[1..2] == ["A."] && s[1..3] == ["A.", "However"];
    assert ws[..2] == [Window(0, 2), Window(1, 2)] && ws[..2][..1] == [Window(0, 2)] && [Window(0, 2)][..0] == [];
    assert WindowsChained(config, [Window(0, 2)]);
    assert WindowsChained(config, ws[..2]);
    assert Join(["x", "A."]) == "x A." && Join(["A.", "However"]) == "A. However";
    ChunksJoinedMeans(s, ["x A.", "A.", "A. However"], ws);
  }

  /** The cuts of OverlapOnlyChunk are justified, each is the first for its window, and no
      check fires for the last window. */
  lemma OverlapOnlyCuts()
    ensures var s := ["x", "A.", "However"];
      var ws := [Window(0, 2), Window(1, 2), Window(1, 3)];
      var cuts := [PointCut(1), SizeCut(2)];
      var config := ChunkingConfig(0, 5, 1, 1);
      (forall k :: 0 <= k < |cuts| ==> Justified(config, s, [], ws[k], cuts[k])) &&
      CutsFirst(config, s, [], ws, cuts) && Quiet(config, s, [], ws[2].lo, OpenedAt(cuts, 2), 6)
  {
    var config := ChunkingConfig(0, 5, 1, 1);
    var s := ["x", "A.", "However"];
    var ws := [Window(0, 2), Window(1, 2), Window(1, 3)];
    var cuts := [PointCut(1), SizeCut(2)];
    assert IsGoodBreakPoint("A.", "However") == Some(true) by {
      assert StartsWith("However", "However");
    }
    assert s[0..2] == ["x", "A."] && s[1..2] == ["A."];
    forall t | -1 < t < 3 ensures !Fires(config, s, [], 0, t) && !Crashes(config, s, [], 0, t) {
      assert t == 0 || t == 1 || t == 2;
      assert s[0..0] == [] && s[0..1] == ["x"];
    }
    assert !Fires(config, s, [], 1, 5) && !Crashes(config, s, [], 1, 5) by {
      assert CutOf(5) == PointCut(2);
    }
    assert Justified(config, s, [], ws[0], cuts[0]);
    assert Justified(config, s, [], ws[1], cuts[1]);
    assert CutFirst(config, s, [], ws, cuts, 0);
    assert CutFirst(config, s, [], ws, cuts, 1);
  }

  /** After the last sentence: the open chunk, when it has any sentence, is the last chunk. */
  method EmitLastChunk(config: ChunkingConfig, ghost sentences: seq<string>, ghost links: seq<Link>,
                       chunks: seq<string>, current: seq<string>, ghost currentLength: int,
                       ghost ws: seq<Window>, ghost cuts: seq<Cut>)
    returns (chunks': seq<string>, ghost ws': seq<Window>)
    requires ChunkState(config, sentences, links, |sentences|, chunks, current, currentLength, ws, cuts) == true
    requires Unmissed(config, sentences, links, ws, cuts, 2 * |sentences|) == true
    requires sentences == [] ==> ws == [] && current == []
    requires sentences != [] ==> current != [] && NextStart(config, ws) < |sentences|
    ensures Chunking(config, sentences, links, chunks', ws', cuts)
  {
    chunks', ws' := chunks, ws;
    if current != [] {
      FinishChunks(config, sentences, links, chunks, current, currentLength, ws, cuts);
      chunks' := chunks + [Join(current)];
      ws' := ws + [Window(NextStart(config, ws), |sentences|)];
    }
  }

  /** One pass of the loop of create_meaningful_chunks over sentence i. */
  method ChunkSentence(config: ChunkingConfig, sentences: seq<string>, links: seq<Link>, ctx: set<int>, i: int,
                       chunks: seq<string>, current: seq<string>, currentLength: int,
                       ghost ws: seq<Window>, ghost cuts: seq<Cut>)
    returns (failed: bool, chunks': seq<string>, current': seq<string>, currentLength': int,
             ghost ws': seq<Window>, ghost cuts': seq<Cut>)
    requires 0 <= i < |sentences| && LinkContextSet(sentences, links, ctx)
    requires ChunkState(config, sentences, links, i, chunks, current, currentLength, ws, cuts) == true
    requires Unmissed(config, sentences, links, ws, cuts, 2 * i) == true
    ensures failed ==> i + 1 < |sentences| && sentences[i + 1] == ""
    ensures failed ==> CrashedAt(config, sentences, links, ws', cuts', i) == true
    ensures !failed ==> ChunkState(config, sentences, links, i + 1, chunks', current', currentLength', ws', cuts') == true
    ensures !failed ==> Unmissed(config, sentences, links, ws', cuts', 2 * i + 2) == true
    ensures !failed && i == |sentences| - 1 ==> current' != [] && NextStart(config, ws') <= i
  {
    var isLinkContext := i in ctx;

    // Size rule: close the chunk before a sentence that would overflow it.
    var chunks1, current1, currentLength1, ws1, cuts1 :=
      SizeRule(config, sentences, links, ctx, i, isLinkContext, chunks, current, currentLength, ws, cuts);

    AddSentence(config, sentences, links, i, chunks1, current1, currentLength1, ws1, cuts1);

    // Good-point rule: close the chunk after this sentence.
    var nextIsLinkContext := if i + 1 < |sentences| then (i + 1) in ctx else false;
    failed, chunks', current', currentLength', ws', cuts' :=
      PointRule(config, sentences, links, ctx, i, isLinkContext, nextIsLinkContext,
                chunks1, current1 + [sentences[i]], currentLength1 + |sentences[i]|, ws1, cuts1);
  }

  /** create_meaningful_chunks. The ghost outputs record each chunk's window of sentences and
      why each chunk but the last was closed. */
  method CreateMeaningfulChunks(config: ChunkingConfig, sentences: seq<string>, links: seq<Link>)
    returns (result: Result<seq<string>, ChunkError>, ghost windows: seq<Window>, ghost cuts: seq<Cut>)
    ensures (forall j :: 0 <= j < |sentences| ==> sentences[j] != "") ==> result.Success?
    ensures result.Failure? ==> exists j :: 0 < j < |sentences| && sentences[j] == ""
    ensures result.Failure? ==> exists j :: CrashedAt(config, sentences, links, windows, cuts, j)
    ensures result.Success? ==> Chunking(config, sentences, links, result.value, windows, cuts)
  {
    var ctx := LinkContext(sentences, links);
    var chunks: seq<string> := [];
    var current: seq<string> := [];
    var currentLength := 0;
    windows := [];
    cuts := [];
    var i := 0;
    var failed := false;
    while i < |sentences| && !failed
      invariant 0 <= i <= |sentences|
      // Stated as `== true` so that the verifier keeps the state as one fact rather than
      // checking each of its conjuncts separately at the loop head.
      invariant !failed ==> ChunkState(config, sentences, links, i, chunks, current, currentLength, windows, cuts) == true
      invariant !failed ==> Unmissed(config, sentences, links, windows, cuts, 2 * i) == true
      invariant sentences == [] ==> windows == [] && current == []
      invariant !failed && i == |sentences| && i > 0 ==> current != [] && NextStart(config, windows) < i
      invariant failed ==> 0 < i < |sentences| && sentences[i] == ""
      invariant failed ==> CrashedAt(config, sentences, links, windows, cuts, i - 1) == true
    {
      failed, chunks, current, currentLength, windows, cuts :=
        ChunkSentence(config, sentences, links, ctx, i, chunks, current, currentLength, windows, cuts);
      i := i + 1;
    }

    // The IndexError raised by the break-point test ends the whole call.
    if failed {
      assert CrashedAt(config, sentences, links, windows, cuts, i - 1);
      return Failure(EmptyNextSentence), windows, cuts;
    }
    chunks, windows := EmitLastChunk(config, sentences, links, chunks, current, currentLength, windows, cuts);
    result := Success(chunks);
  }

  // ---------------------------------------------------------------------------------
  // enrich_chunk_with_links.

  /** len(link.get('text', '')). */
  function TextLength(l: Link): nat
  {
    if l.text.Some? then |l.text.value| else 0
  }

  predicate SortedByTextLengthDesc(ls: seq<Link>)
  {
    forall i, j :: 0 <= i < j < |ls| ==> TextLength(ls[i]) >= TextLength(ls[j])
  }

  /** The links of text length n, in their original order. */
  function WithLength(ls: seq<Link>, n: nat): seq<Link>
  {
    if ls == [] then []
    else (if TextLength(ls[0]) == n then [ls[0]] else []) + WithLength(ls[1..], n)
  }

  function Insert(x: Link, s: seq<Link>): (r: seq<Link>)
    requires SortedByTextLengthDesc(s)
    ensures SortedByTextLengthDesc(r)
    ensures |r| == |s| + 1 && (r[0] == x || (s != [] && r[0] == s[0]))
    ensures multiset(r) == multiset(s) + multiset{x}
  {
    if s == [] || TextLength(s[0]) <= TextLength(x) then [x] + s
    else
      var rest := Insert(x, s[1..]);
      assert s == [s[0]] + s[1..];
      [s[0]] + rest
  }

  /** sorted(links, key=text length, reverse=True): a stable sort, longest text first. */
  function SortByTextLengthDesc(ls: seq<Link>): (r: seq<Link>)
    ensures SortedByTextLengthDesc(r)
    ensures multiset(r) == multiset(ls)
  {
    if ls == [] then []
    else
      assert ls == [ls[0]] + ls[1..];
      Insert(ls[0], SortByTextLengthDesc(ls[1..]))
  }

  lemma WithLengthCons(x: Link, s: seq<Link>, n: nat)
    ensures WithLength([x] + s, n) == (if TextLength(x) == n then [x] else []) + WithLength(s, n)
  {
    assert ([x] + s)[1..] == s;
  }

  lemma {:induction false} InsertKeepsOrder(x: Link, s: seq<Link>, n: nat)
    requires SortedByTextLengthDesc(s)
    ensures WithLength(Insert(x, s), n) == (if TextLength(x) == n then [x] else []) + WithLength(s, n)
  {
    if s == [] || TextLength(s[0]) <= TextLength(x) {
      WithLengthCons(x, s, n);
    } else {
      var tail := s[1..];
      SortedTail(s);
      var r := Insert(x, tail);
      assert Insert(x, s) == [s[0]] + r;
      InsertKeepsOrder(x, tail, n);
      WithLengthCons(s[0], r, n);
      WithLengthCons(s[0], tail, n);
      assert [s[0]] + tail == s;
      // x and s[0] have different lengths, so at most one of them is kept.
      var mine: seq<Link> := if TextLength(x) == n then [x] else [];
      var first: seq<Link> := if TextLength(s[0]) == n then [s[0]] else [];
      assert mine == [] || first == [];
      SwapAroundEmpty(first, mine, WithLength(tail, n));
    }
  }

  lemma SwapAroundEmpty(a: seq<Link>, b: seq<Link>, c: seq<Link>)
    requires a == [] || b == []
    ensures a + (b + c) == b + (a + c)
  {
    if a == [] {
      assert a + (b + c) == b + c == b + (a + c);
    } else {
      assert a + (b + c) == a + c == b + (a + c);
    }
  }

  lemma SortedTail(s: seq<Link>)
    requires SortedByTextLengthDesc(s) && s != []
    ensures SortedByTextLengthDesc(s[1..])
  {
    assert forall i :: 0 <= i < |s| - 1 ==> s[1..][i] == s[i + 1];
  }

  /** The sort is stable: links of equal text length keep their relative order. */
  lemma {:induction false} SortIsStable(ls: seq<Link>, n: nat)
    ensures WithLength(SortByTextLengthDesc(ls), n) == WithLength(ls, n)
  {
    if ls != [] {
      SortIsStable(ls[1..], n);
      InsertKeepsOrder(ls[0], SortByTextLengthDesc(ls[1..]), n);
    }
  }

  predicate Usable(l: Link) { Truthy(l.text) && Truthy(l.uri) }

  /** One link's step: a usable link whose stripped text occurs is turned into text[link:uri]
      at every occurrence. */
  function ApplyLink(text: string, l: Link): string
  {
    if !Usable(l) then text
    else
      var linkText := Strip(l.text.value);
      if Contains(text, linkText) then ReplaceAll(text, linkText, linkText + "[link:" + l.uri.value + "]")
      else text
  }

  /** The links applied in order. */
  function ApplyLinks(text: string, ls: seq<Link>): string
  {
    if ls == [] then text else ApplyLink(ApplyLinks(text, ls[..|ls| - 1]), ls[|ls| - 1])
  }

  /** Links missing a text or a uri make no difference. */
  lemma {:induction false} UnusableLinksIgnored(text: string, ls: seq<Link>, l: Link)
    requires !Usable(l)
    ensures ApplyLinks(text, ls + [l]) == ApplyLinks(text, ls)
  {
    assert (ls + [l])[..|ls|] == ls;
  }

  /** No usable link's stripped text occurs in the text. */
  predicate NothingOccurs(text: string, ls: seq<Link>)
  {
    forall l :: l in ls && Usable(l) ==> !Contains(text, Strip(l.text.value))
  }

  /** When no usable link's stripped text occurs in the chunk, no step applies. */
  lemma {:induction false} NoOccurrenceUnchanged(text: string, ls: seq<Link>)
    requires NothingOccurs(text, ls)
    ensures ApplyLinks(text, ls) == text
  {
    if ls != [] {
      var init := ls[..|ls| - 1];
      assert forall l :: l in init ==> l in ls;
      NoOccurrenceUnchanged(text, init);
    }
  }

  /** The sort only reorders: every sorted link is one of the inputs. */
  lemma SortedFromInput(ls: seq<Link>)
    ensures forall l :: l in SortByTextLengthDesc(ls) ==> l in ls
  {
    var r := SortByTextLengthDesc(ls);
    forall l | l in r ensures l in ls {
      assert l in multiset(r);
    }
  }

  /** enrich_chunk_with_links. */
  method EnrichChunkWithLinks(chunk: string, links: seq<Link>) returns (enriched: string)
    ensures links == [] ==> enriched == chunk
    ensures enriched == ApplyLinks(chunk, SortByTextLengthDesc(links))
    ensures NothingOccurs(chunk, links) ==> enriched == chunk
  {
    if links == [] {
      return chunk;
    }
    var sorted := SortByTextLengthDesc(links);
    enriched := chunk;
    var k := 0;
    while k < |sorted|
      invariant 0 <= k <= |sorted|
      invariant enriched == ApplyLinks(chunk, sorted[..k])
    {
      var link := sorted[k];
      ApplyLinksStep(chunk, sorted, k);
      if !Truthy(link.text) || !Truthy(link.uri) {
        k := k + 1;
        continue;
      }
      var linkText := Strip(link.text.value);
      if Contains(enriched, linkText) {
        var replacement := linkText + "[link:" + link.uri.value + "]";
        enriched := ReplaceAll(enriched, linkText, replacement);
      }
      k := k + 1;
    }
    assert sorted[..|sorted|] == sorted;
    NoMatchCase(chunk, links);
  }

  lemma ApplyLinksStep(text: string, ls: seq<Link>, k: int)
    requires 0 <= k < |ls|
    ensures ApplyLinks(text, ls[..k + 1]) == ApplyLink(ApplyLinks(text, ls[..k]), ls[k])
  {
    assert ls[..k + 1][..k] == ls[..k];
  }

  lemma NoMatchCase(chunk: string, links: seq<Link>)
    ensures NothingOccurs(chunk, links) ==>
      ApplyLinks(chunk, SortByTextLengthDesc(links)) == chunk
  {
    SortedFromInput(links);
    if NothingOccurs(chunk, links) {
      NoOccurrenceUnchanged(chunk, SortByTextLengthDesc(links));
    }
  }

  /** The links process_pdf hands to the enrichment for one chunk: those with a text that
      occurs, unstripped, in the chunk. */
  function ChunkLinks(links: seq<Link>, chunk: string): (r: seq<Link>)
    ensures forall l :: l in r <==> l in links && Truthy(l.text) && Contains(chunk, l.text.value)
  {
    if links == [] then []
    else
      var rest := ChunkLinks(links[1..], chunk);
      assert forall l :: l in links <==> l == links[0] || l in links[1..];
      (if Truthy(links[0].text) && Contains(chunk, links[0].text.value) then [links[0]] else []) + rest
  }

  /** A chunk with the page links whose text it contains applied, longest text first. */
  function EnrichedChunk(links: seq<Link>, chunk: string): string
  {
    ApplyLinks(chunk, SortByTextLengthDesc(ChunkLinks(links, chunk)))
  }

  // ---------------------------------------------------------------------------------
  // The converter object.

  /** One chunk of the loop of process_pdf: the page links whose text it contains, applied. */
  method EnrichPageChunk(chunk: string, pageLinks: seq<Link>) returns (enriched: string)
    ensures enriched == EnrichedChunk(pageLinks, chunk)
  {
    enriched := EnrichChunkWithLinks(chunk, ChunkLinks(pageLinks, chunk));
  }

  /** The loop of process_pdf over a page's chunks: each chunk enriched with the page links
      whose text it contains. */
  method EnrichChunks(chunks: seq<string>, pageLinks: seq<Link>) returns (enrichedChunks: seq<string>)
    ensures |enrichedChunks| == |chunks|
    ensures forall j :: 0 <= j < |chunks| ==> enrichedChunks[j] == EnrichedChunk(pageLinks, chunks[j])
  {
    enrichedChunks := [];
    for k := 0 to |chunks|
      invariant |enrichedChunks| == k
      invariant forall j :: 0 <= j < k ==> enrichedChunks[j] == EnrichedChunk(pageLinks, chunks[j])
    {
      var enriched := EnrichPageChunk(chunks[k], pageLinks);
      enrichedChunks := enrichedChunks + [enriched];
    }
  }

  class PdfToTsvConverter {
    var config: ChunkingConfig
    var docIdCounter: int

    /** `chunking_config or ChunkingConfig()`, and the counter seeded from the clock in
        milliseconds (a parameter here). */
    constructor (chunkingConfig: Option<ChunkingConfig>, nowMillis: int)
      ensures config == (if chunkingConfig.Some? then chunkingConfig.value else DefaultConfig)
      ensures docIdCounter == nowMillis
    {
      config := if chunkingConfig.Some? then chunkingConfig.value else DefaultConfig;
      docIdCounter := nowMillis;
    }

    /** get_next_id: the counter's previous value plus one, which becomes the new counter. */
    method GetNextId() returns (id: int)
      modifies this
      ensures id == old(docIdCounter) + 1 && docIdCounter == id
      ensures config == old(config)
    {
      docIdCounter := docIdCounter + 1;
      id := docIdCounter;
    }

    /** The TSV rows of process_pdf: one fresh id per chunk, in order; the ids strictly increase. */
    method NumberChunks(chunks: seq<string>) returns (rows: seq<(int, string)>)
      modifies this
      ensures |rows| == |chunks|
      ensures forall k :: 0 <= k < |rows| ==> rows[k] == (old(docIdCounter) + k + 1, chunks[k])
      ensures forall a, b :: 0 <= a < b < |rows| ==> rows[a].0 < rows[b].0
      ensures docIdCounter == old(docIdCounter) + |chunks| && config == old(config)
    {
      rows := [];
      for k := 0 to |chunks|
        invariant |rows| == k
        invariant forall j :: 0 <= j < k ==> rows[j] == (old(docIdCounter) + j + 1, chunks[j])
        invariant docIdCounter == old(docIdCounter) + k && config == old(config)
      {
        var id := GetNextId();
        rows := rows + [(id, chunks[k])];
      }
    }

    /** One page of process_pdf after cleaning: split, chunk, and enrich each chunk with the
        page links whose text it contains. Split sentences are never empty, so chunking
        cannot fail here. The ghost outputs are the page's chunks before enrichment, with
        their windows and cuts. */
    method ProcessPage(pieces: seq<string>, pageLinks: seq<Link>)
      returns (enrichedChunks: seq<string>, ghost chunks: seq<string>, ghost windows: seq<Window>, ghost cuts: seq<Cut>)
      ensures Chunking(config, SplitIntoSentences(pieces), pageLinks, chunks, windows, cuts)
      ensures |enrichedChunks| == |chunks|
      ensures forall j :: 0 <= j < |chunks| ==> enrichedChunks[j] == EnrichedChunk(pageLinks, chunks[j])
      ensures (forall i :: 0 <= i < |pieces| ==> Strip(pieces[i]) == "") <==> enrichedChunks == []
    {
      var sentences := SplitIntoSentences(pieces);
      SplitEmptyIffBlank(pieces);
      var result;
      result, windows, cuts := CreateMeaningfulChunks(config, sentences, pageLinks);
      var pageChunks := result.value;
      chunks := pageChunks;
      enrichedChunks := EnrichChunks(pageChunks, pageLinks);
    }
  }
}
