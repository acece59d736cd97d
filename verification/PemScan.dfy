/**
 Masking PEM blocks in text (packages/ai/src/redact.ts): the linear scan with
 its early break, against the plain meaning of "every PEM block".
 */
module PemScan {

  const PEM_BEGIN := "-----BEGIN "
  const PEM_END := "-----END "
  const PEM_DASHES := "-----"
  const REDACTED := "[redacted]"

  // ----- what a block is -----

  predicate IsLabelChar(c: char) {
    'A' <= c <= 'Z' || '0' <= c <= '9' || c == ' '
  }

  /** `pattern` occurs in `text` at `i`. */
  predicate At(text: string, i: int, pattern: string) {
    0 <= i && i + |pattern| <= |text| && text[i..i + |pattern|] == pattern
  }

  /** A label starts at `from`, and its closing dashes end at `end`. */
  predicate LabelEndsAt(text: string, from: int, end: int) {
    && 0 <= from && from + |PEM_DASHES| < end <= |text|
    && (forall i :: from <= i < end - |PEM_DASHES| ==> IsLabelChar(text[i]))
    && At(text, end - |PEM_DASHES|, PEM_DASHES)
  }

  predicate Header(text: string, b: int, h: int) {
    At(text, b, PEM_BEGIN) && LabelEndsAt(text, b + |PEM_BEGIN|, h)
  }

  predicate EndMark(text: string, i: int, e: int) {
    At(text, i, PEM_END) && LabelEndsAt(text, i + |PEM_END|, e)
  }

  /** No complete END mark starts in `[lo, hi)`. */
  ghost predicate NoEndIn(text: string, lo: int, hi: int) {
    forall i, e :: lo <= i < hi ==> !EndMark(text, i, e)
  }

  /** The block that opens at `b`: its header up to the first complete END mark after it. */
  ghost predicate Block(text: string, b: int, e: int) {
    exists h, i :: Header(text, b, h) && h <= i && EndMark(text, i, e) && NoEndIn(text, h, i)
  }

  /** A block opens at `b`: a header with a complete END mark somewhere after it. */
  ghost predicate Opens(text: string, b: int) {
    exists h, i, e :: Header(text, b, h) && h <= i && EndMark(text, i, e)
  }

  ghost predicate NoBlockIn(text: string, lo: int, hi: int) {
    forall b :: lo <= b < hi ==> !Opens(text, b)
  }

  datatype Span = Span(begin: nat, end: nat)

  /** Where the last of the spans ends: what follows is not covered yet. */
  function EndOf(spans: seq<Span>): nat {
    if spans == [] then 0 else spans[|spans| - 1].end
  }

  /** The span is the first block at or after `from`. */
  ghost predicate IsNextBlock(text: string, from: nat, span: Span) {
    && from <= span.begin < span.end <= |text|
    && Block(text, span.begin, span.end)
    && NoBlockIn(text, from, span.begin)
  }

  /**
   The spans are blocks, leftmost first and not overlapping, and skip none:
   each is the first block after the one before it.
   */
  ghost predicate AreBlocks(text: string, spans: seq<Span>)
    decreases |spans|
  {
    spans == [] ||
    var init, last := spans[..|spans| - 1], spans[|spans| - 1];
    AreBlocks(text, init) && IsNextBlock(text, EndOf(init), last)
  }

  /** All the blocks of the text. */
  ghost predicate AllBlocks(text: string, spans: seq<Span>) {
    AreBlocks(text, spans) && NoBlockIn(text, EndOf(spans), |text|)
  }

  /** The text up to the end of the last span, each span replaced by the marker. */
  ghost function Masked(text: string, spans: seq<Span>, marker: string): string
    requires AreBlocks(text, spans)
    decreases |spans|
  {
    if spans == [] then ""
    else
      var init, last := spans[..|spans| - 1], spans[|spans| - 1];
      Masked(text, init, marker) + text[EndOf(init)..last.begin] + marker
  }

  // ----- blocks are determined by where they open -----

  lemma LabelStop(text: string, from: int, e: int)
    requires LabelEndsAt(text, from, e)
    ensures text[e - |PEM_DASHES|] == '-'
  {
    assert text[e - |PEM_DASHES|..e][0] == PEM_DASHES[0];
  }

  lemma LabelEndUnique(text: string, from: int, d: int, e: int)
    requires LabelEndsAt(text, from, d) && LabelEndsAt(text, from, e)
    ensures d == e
  {
    LabelStop(text, from, d);
    LabelStop(text, from, e);
  }

  lemma BlockUnique(text: string, b: int, d: int, e: int)
    requires Block(text, b, d) && Block(text, b, e)
    ensures d == e
  {
    var h, i :| Header(text, b, h) && h <= i && EndMark(text, i, d) && NoEndIn(text, h, i);
    var h', i' :| Header(text, b, h') && h' <= i' && EndMark(text, i', e) && NoEndIn(text, h', i');
    LabelEndUnique(text, b + |PEM_BEGIN|, h, h');
    assert i == i';
    LabelEndUnique(text, i + |PEM_END|, d, e);
  }

  // ----- a block as it is written -----

  /** One or more capitals, digits and spaces, as between BEGIN or END and the dashes. */
  predicate IsLabel(name: string) {
    name != "" && forall c :: c in name ==> 'A' <= c <= 'Z' || '0' <= c <= '9' || c == ' '
  }

  /** After `before` and a mark the text goes on with a label and its dashes. */
  lemma LabelWritten(before: string, name: string, after: string)
    requires forall c :: c in name ==> c != '-'
    ensures LabelEndsAt(before + name + PEM_DASHES + after, |before|, |before| + |name| + |PEM_DASHES|) <==> IsLabel(name)
  {
    var text, end := before + name + PEM_DASHES + after, |before| + |name|;
    assert text[end..end + |PEM_DASHES|] == PEM_DASHES && At(text, end, PEM_DASHES);
    forall k | |before| <= k < end
      ensures text[k] in name
    {
      assert text[k] == name[k - |before|];
    }
    if LabelEndsAt(text, |before|, end + |PEM_DASHES|) {
      forall c | c in name
        ensures IsLabelChar(c)
      {
        var k :| 0 <= k < |name| && name[k] == c;
        assert text[|before| + k] == c;
      }
    }
  }

  /** The text of one block: two labels and what is between them. */
  function WrittenBlock(name: string, body: string, last: string): string {
    PEM_BEGIN + name + PEM_DASHES + body + PEM_END + last + PEM_DASHES
  }

  lemma WrittenHeader(name: string, body: string, last: string)
    requires IsLabel(name)
    ensures Header(WrittenBlock(name, body, last), 0, |PEM_BEGIN| + |name| + |PEM_DASHES|)
  {
    var text := WrittenBlock(name, body, last);
    LabelWritten(PEM_BEGIN, name, body + PEM_END + last + PEM_DASHES);
    assert text == PEM_BEGIN + name + PEM_DASHES + (body + PEM_END + last + PEM_DASHES);
    assert text[0..|PEM_BEGIN|] == PEM_BEGIN;
  }

  lemma WrittenEnd(name: string, body: string, last: string)
    requires IsLabel(last)
    ensures var text := WrittenBlock(name, body, last);
            EndMark(text, |PEM_BEGIN| + |name| + |PEM_DASHES| + |body|, |text|)
  {
    var text, before := WrittenBlock(name, body, last), PEM_BEGIN + name + PEM_DASHES + body;
    LabelWritten(before + PEM_END, last, "");
    assert text == before + PEM_END + last + PEM_DASHES + "";
    assert text[|before|..|before| + |PEM_END|] == PEM_END;
  }

  /** Every block that is written with labels of capitals, digits and spaces, and no dash inside, is one block. */
  lemma WrittenIsBlock(name: string, body: string, last: string)
    requires IsLabel(name) && IsLabel(last) && forall c :: c in body ==> c != '-'
    ensures var text := WrittenBlock(name, body, last); AllBlocks(text, [Span(0, |text|)])
  {
    WrittenOpens(name, body, last);
    var text := WrittenBlock(name, body, last);
    assert [Span(0, |text|)][..0] == [];
    assert IsNextBlock(text, 0, Span(0, |text|));
  }

  lemma MarkStartsWithDash(text: string, i: int, e: int)
    ensures EndMark(text, i, e) ==> text[i] == '-'
  {
    if EndMark(text, i, e) {
      assert text[i..i + |PEM_END|][0] == text[i];
    }
  }

  lemma WrittenOpens(name: string, body: string, last: string)
    requires IsLabel(name) && IsLabel(last) && forall c :: c in body ==> c != '-'
    ensures var text := WrittenBlock(name, body, last); Block(text, 0, |text|)
  {
    var text, h := WrittenBlock(name, body, last), |PEM_BEGIN| + |name| + |PEM_DASHES|;
    WrittenHeader(name, body, last);
    WrittenEnd(name, body, last);
    forall i, e | h <= i < h + |body|
      ensures !EndMark(text, i, e)
    {
      assert text[i] == body[i - h] && body[i - h] in body;
      MarkStartsWithDash(text, i, e);
    }
    assert Header(text, 0, h) && EndMark(text, h + |body|, |text|) && NoEndIn(text, h, h + |body|);
  }

  /** And a mark with any other label, one without a dash, is none. */
  lemma OtherLabelsAreNone(before: string, name: string, after: string, h: int)
    requires !IsLabel(name) && forall c :: c in name ==> c != '-'
    ensures !LabelEndsAt(before + name + PEM_DASHES + after, |before|, h)
  {
    var text, end := before + name + PEM_DASHES + after, |before| + |name|;
    if LabelEndsAt(text, |before|, h) {
      LabelStop(text, |before|, h);
      forall k | |before| <= k < end
        ensures text[k] in name
      {
        assert text[k] == name[k - |before|];
      }
      assert text[end] == PEM_DASHES[0];
      LabelWritten(before, name, after);
    }
  }

  /** The first END mark at or after `h`, once there is one. */
  lemma {:induction false} FirstEndMark(text: string, h: int, i: int, e: int) returns (i': int, e': int)
    requires h <= i && EndMark(text, i, e)
    ensures h <= i' <= i && EndMark(text, i', e') && NoEndIn(text, h, i')
    decreases i
  {
    if NoEndIn(text, h, i) {
      return i, e;
    }
    var j, f :| h <= j < i && EndMark(text, j, f);
    i', e' := FirstEndMark(text, h, j, f);
  }

  /** A block opens exactly where there is one. */
  lemma OpensExactly(text: string, b: int)
    ensures Opens(text, b) <==> exists e :: Block(text, b, e)
  {
    if Opens(text, b) {
      var h, i, e :| Header(text, b, h) && h <= i && EndMark(text, i, e);
      var i', e' := FirstEndMark(text, h, i, e);
      assert Block(text, b, e');
    }
  }

  /** Labels never overlap: a later header ends no earlier. */
  lemma LaterHeaderEndsLater(text: string, b: int, h: int, b': int, h': int)
    requires Header(text, b, h) && Header(text, b', h') && b < b'
    ensures h <= h'
  {
    LabelStop(text, b' + |PEM_BEGIN|, h');
  }

  /** Once a header is left open, so is every header to its right: the scan may stop. */
  lemma NoEndNoLaterBlock(text: string, b: int, h: int)
    requires Header(text, b, h) && NoEndIn(text, h, |text|)
    ensures NoBlockIn(text, b, |text|)
  {
    forall b' | b <= b' < |text|
      ensures !Opens(text, b')
    {
      if Opens(text, b') {
        var h', i, e :| Header(text, b', h') && h' <= i && EndMark(text, i, e);
        if b' == b {
          LabelEndUnique(text, b + |PEM_BEGIN|, h, h');
        } else {
          LaterHeaderEndsLater(text, b, h, b', h');
        }
      }
    }
  }

  /** A text has one list of blocks: any two lists that agree so far agree on the next block. */
  lemma NextBlockUnique(text: string, from: nat, s: Span, t: Span)
    requires IsNextBlock(text, from, s) && IsNextBlock(text, from, t)
    ensures s == t
  {
    OpensExactly(text, s.begin);
    OpensExactly(text, t.begin);
    BlockUnique(text, s.begin, s.end, t.end);
  }

  lemma {:induction false} BlocksPrefix(text: string, spans: seq<Span>, n: nat)
    requires AreBlocks(text, spans) && n <= |spans|
    ensures AreBlocks(text, spans[..n])
  {
    if n < |spans| {
      assert spans[..|spans| - 1][..n] == spans[..n];
      BlocksPrefix(text, spans[..|spans| - 1], n);
    } else {
      assert spans[..n] == spans;
    }
  }

  /** What `AreBlocks` says of the block at `n`. */
  lemma BlockAtIndex(text: string, spans: seq<Span>, n: nat)
    requires AreBlocks(text, spans) && n < |spans|
    ensures IsNextBlock(text, EndOf(spans[..n]), spans[n])
  {
    BlocksPrefix(text, spans, n + 1);
    assert spans[..n + 1][..n] == spans[..n];
  }

  /** A list of all blocks goes on as long as another one does. */
  lemma BlocksGoOn(text: string, s: seq<Span>, t: seq<Span>, n: nat)
    requires AreBlocks(text, s) && AllBlocks(text, t)
    requires n < |s| && n <= |t| && s[..n] == t[..n]
    ensures n < |t|
  {
    BlockAtIndex(text, s, n);
    OpensExactly(text, s[n].begin);
    assert t[..|t|] == t;
  }

  lemma SameBlock(text: string, s: seq<Span>, t: seq<Span>, n: nat)
    requires AreBlocks(text, s) && AreBlocks(text, t)
    requires n < |s| && n < |t| && s[..n] == t[..n]
    ensures s[..n + 1] == t[..n + 1]
  {
    BlockAtIndex(text, s, n);
    BlockAtIndex(text, t, n);
    NextBlockUnique(text, EndOf(s[..n]), s[n], t[n]);
    SameTake(s, t, n);
  }

  lemma SameTake(s: seq<Span>, t: seq<Span>, n: nat)
    requires n < |s| && n < |t| && s[..n] == t[..n] && s[n] == t[n]
    ensures s[..n + 1] == t[..n + 1]
  {
    assert s[..n + 1] == s[..n] + [s[n]] && t[..n + 1] == t[..n] + [t[n]];
  }

  lemma {:induction false} BlocksAgree(text: string, s: seq<Span>, t: seq<Span>, n: nat)
    requires AllBlocks(text, s) && AllBlocks(text, t) && n <= |s|
    ensures n <= |t| && s[..n] == t[..n]
  {
    if n > 0 {
      BlocksAgree(text, s, t, n - 1);
      BlocksGoOn(text, s, t, n - 1);
      SameBlock(text, s, t, n - 1);
    }
  }

  /** The blocks of a text are determined by the text. */
  lemma AllBlocksUnique(text: string, s: seq<Span>, t: seq<Span>)
    requires AllBlocks(text, s) && AllBlocks(text, t)
    ensures s == t
  {
    BlocksAgree(text, s, t, |s|);
    BlocksAgree(text, t, s, |t|);
    assert s[..|s|] == s && t[..|t|] == t;
  }

  // ----- the scan -----

  /** `indexOf`: the first occurrence at or after `from`, or -1. */
  method IndexOf(text: string, pattern: string, from: nat) returns (index: int)
    requires from <= |text| && pattern != ""
    ensures index == -1 ==> forall i :: from <= i ==> !At(text, i, pattern)
    ensures index != -1 ==> from <= index && At(text, index, pattern) && forall i :: from <= i < index ==> !At(text, i, pattern)
  {
    var i := from;
    while i < |text|
      invariant from <= i <= |text|
      invariant forall j :: from <= j < i ==> !At(text, j, pattern)
    {
      if At(text, i, pattern) {
        return i;
      }
      i := i + 1;
    }
    return -1;
  }

  ghost predicate HasLabel(text: string, from: int) {
    exists e :: LabelEndsAt(text, from, e)
  }

  /** The end of a label that starts at `from`, or -1. */
  method PemLabelEnd(text: string, from: nat) returns (end: int)
    requires from <= |text|
    ensures end == -1 ==> !HasLabel(text, from)
    ensures end != -1 ==> LabelEndsAt(text, from, end)
  {
    var i := from;
    while i < |text| && IsLabelChar(text[i])
      invariant from <= i <= |text|
      invariant forall j :: from <= j < i ==> IsLabelChar(text[j])
    {
      i := i + 1;
    }
    if i == from || !At(text, i, PEM_DASHES) {
      if e :| LabelEndsAt(text, from, e) {
        LabelStop(text, from, e);
      }
      return -1;
    }
    return i + |PEM_DASHES|;
  }

  /** The end of the first complete END mark at or after `headerEnd`, or -1. */
  method BlockEnd(text: string, headerEnd: nat) returns (blockEnd: int, ghost mark: int)
    requires headerEnd <= |text|
    ensures blockEnd == -1 ==> NoEndIn(text, headerEnd, |text|)
    ensures blockEnd != -1 ==> headerEnd <= mark && EndMark(text, mark, blockEnd) && NoEndIn(text, headerEnd, mark)
  {
    blockEnd, mark := -1, -1;
    var endSearch := headerEnd;
    while true
      invariant blockEnd == -1
      invariant headerEnd <= endSearch <= |text|
      invariant NoEndIn(text, headerEnd, endSearch)
      decreases |text| - endSearch
    {
      var end := IndexOf(text, PEM_END, endSearch);
      if end == -1 {
        return;
      }
      blockEnd := PemLabelEnd(text, end + |PEM_END|);
      if blockEnd != -1 {
        mark := end;
        return;
      }
      endSearch := end + 1;
    }
  }

  /** Skipping to where the next header text is passes no block. */
  lemma SkipTo(text: string, copied: int, search: int, begin: int)
    requires NoBlockIn(text, copied, search)
    requires forall i :: search <= i < begin ==> !At(text, i, PEM_BEGIN)
    ensures NoBlockIn(text, copied, begin)
  {
  }

  /** Header text without a complete label opens no block. */
  lemma SkipOver(text: string, copied: int, begin: int)
    requires NoBlockIn(text, copied, begin)
    requires !HasLabel(text, begin + |PEM_BEGIN|)
    ensures NoBlockIn(text, copied, begin + 1)
  {
  }

  /** What the scan has done when the first `copied` characters are dealt with. */
  ghost predicate Scanned(text: string, spans: seq<Span>, marker: string, out: string, count: nat, copied: nat) {
    && AreBlocks(text, spans)
    && out == Masked(text, spans, marker)
    && count == |spans|
    && copied == EndOf(spans)
  }

  lemma ScanBlock(text: string, spans: seq<Span>, marker: string, out: string, count: nat, copied: nat, last: Span)
    requires Scanned(text, spans, marker, out, count, copied) && IsNextBlock(text, copied, last)
    ensures Scanned(text, spans + [last], marker, out + text[copied..last.begin] + marker, count + 1, last.end)
  {
    assert (spans + [last])[..|spans|] == spans;
  }

  lemma ScanDone(text: string, spans: seq<Span>, marker: string, out: string, count: nat, copied: nat)
    requires Scanned(text, spans, marker, out, count, copied) && NoBlockIn(text, copied, |text|)
    ensures AllBlocks(text, spans) && EndOf(spans) == copied && count == |spans|
    ensures copied == 0 ==> out == ""
    ensures out == Masked(text, spans, marker)
  {
  }

  lemma BlockFound(text: string, from: nat, begin: nat, headerEnd: int, mark: int, blockEnd: nat)
    requires from <= begin && NoBlockIn(text, from, begin)
    requires Header(text, begin, headerEnd) && headerEnd <= mark
    requires EndMark(text, mark, blockEnd) && NoEndIn(text, headerEnd, mark)
    ensures IsNextBlock(text, from, Span(begin, blockEnd))
  {
  }

  /** `result` is the text with exactly its `spans` masked. */
  ghost predicate MasksSpans(text: string, spans: seq<Span>, result: string) {
    && AllBlocks(text, spans)
    && EndOf(spans) <= |text| && result == Masked(text, spans, REDACTED) + text[EndOf(spans)..]
  }

  /** `result` is the text with each of its `count` blocks masked, as the rescan from the left finds them. */
  ghost predicate IsRedaction(text: string, result: string, count: nat) {
    exists spans :: MasksSpans(text, spans, result) && |spans| == count
  }

  /** The masked text, how many blocks were masked, and where they were. */
  method RedactPemBlocks(text: string) returns (result: string, count: nat, ghost spans: seq<Span>)
    ensures IsRedaction(text, result, count)
    ensures MasksSpans(text, spans, result) && |spans| == count
  {
    var out := "";
    var copied: nat, search: nat := 0, 0;
    count, spans := 0, [];
    while true
      invariant copied <= search <= |text|
      invariant NoBlockIn(text, copied, search)
      invariant Scanned(text, spans, REDACTED, out, count, copied)
      decreases |text| - search
    {
      var begin := IndexOf(text, PEM_BEGIN, search);
      if begin == -1 {
        SkipTo(text, copied, search, |text|);
        break;
      }
      SkipTo(text, copied, search, begin);
      var headerEnd := PemLabelEnd(text, begin + |PEM_BEGIN|);
      if headerEnd == -1 {
        SkipOver(text, copied, begin);
        search := begin + 1;
        continue;
      }
      var blockEnd, mark := BlockEnd(text, headerEnd);
      if blockEnd == -1 {
        NoEndNoLaterBlock(text, begin, headerEnd);
        break;
      }
      BlockFound(text, copied, begin, headerEnd, mark, blockEnd);
      ScanBlock(text, spans, REDACTED, out, count, copied, Span(begin, blockEnd));
      spans := spans + [Span(begin, blockEnd)];
      out := out + text[copied..begin] + REDACTED;
      count := count + 1;
      copied := blockEnd;
      search := blockEnd;
    }
    ScanDone(text, spans, REDACTED, out, count, copied);
    result := if copied == 0 then text else out + text[copied..];
  }

  // ----- nothing is left to mask -----

  /** A character that can be part of a header. */
  predicate IsFrameChar(c: char) {
    IsLabelChar(c) || c == '-'
  }

  /** A marker that can neither hold a header nor be part of one. */
  ghost predicate IsSafeMarker(marker: string) {
    && marker != ""
    && !IsFrameChar(marker[0])
    && !IsFrameChar(marker[|marker| - 1])
    && forall b, h :: !Header(marker, b, h)
  }

  lemma RedactedIsSafe()
    ensures IsSafeMarker(REDACTED)
  {
    forall b, h
      ensures !Header(REDACTED, b, h)
    {
      if Header(REDACTED, b, h) {
        FrameOfHeader(REDACTED, b, h, if b == 0 then 0 else |REDACTED| - 1);
      }
    }
  }

  lemma FrameOfHeader(text: string, b: int, h: int, i: int)
    requires Header(text, b, h) && b <= i < h
    ensures IsFrameChar(text[i])
  {
    if i < b + |PEM_BEGIN| {
      assert text[b..b + |PEM_BEGIN|][i - b] == PEM_BEGIN[i - b];
    } else if i >= h - |PEM_DASHES| {
      assert text[h - |PEM_DASHES|..h][i - (h - |PEM_DASHES|)] == PEM_DASHES[i - (h - |PEM_DASHES|)];
    }
  }

  /** `other`, from `shift` on, reads like `text` on `[lo, hi)`. */
  predicate ReadsLike(text: string, lo: int, hi: int, other: string, shift: int) {
    && 0 <= lo <= hi <= |text| && 0 <= lo + shift && hi + shift <= |other|
    && forall i :: lo <= i < hi ==> text[i] == other[i + shift]
  }

  lemma AtMoves(text: string, i: int, pattern: string, lo: int, hi: int, other: string, shift: int)
    requires At(text, i, pattern) && lo <= i && i + |pattern| <= hi
    requires ReadsLike(text, lo, hi, other, shift)
    ensures At(other, i + shift, pattern)
  {
    var there := other[i + shift..i + shift + |pattern|];
    forall j | 0 <= j < |pattern|
      ensures there[j] == text[i..i + |pattern|][j]
    {
      assert text[i + j] == other[i + j + shift];
    }
  }

  lemma LabelMoves(text: string, from: int, e: int, lo: int, hi: int, other: string, shift: int)
    requires LabelEndsAt(text, from, e) && lo <= from && e <= hi
    requires ReadsLike(text, lo, hi, other, shift)
    ensures LabelEndsAt(other, from + shift, e + shift)
  {
    AtMoves(text, e - |PEM_DASHES|, PEM_DASHES, lo, hi, other, shift);
    forall i | from + shift <= i < e + shift - |PEM_DASHES|
      ensures IsLabelChar(other[i])
    {
      assert text[i - shift] == other[i - shift + shift];
    }
  }

  /** What a header or an END mark is depends only on the characters it spans. */
  lemma MarksMove(text: string, b: int, h: int, other: string, shift: int)
    requires ReadsLike(text, b, h, other, shift)
    ensures Header(text, b, h) ==> Header(other, b + shift, h + shift)
    ensures EndMark(text, b, h) ==> EndMark(other, b + shift, h + shift)
  {
    if Header(text, b, h) {
      AtMoves(text, b, PEM_BEGIN, b, h, other, shift);
      LabelMoves(text, b + |PEM_BEGIN|, h, b, h, other, shift);
    }
    if EndMark(text, b, h) {
      AtMoves(text, b, PEM_END, b, h, other, shift);
      LabelMoves(text, b + |PEM_END|, h, b, h, other, shift);
    }
  }

  lemma MarksInHead(x: string, y: string, b: int, h: int)
    requires h <= |x|
    ensures Header(x + y, b, h) ==> Header(x, b, h)
  {
    if Header(x + y, b, h) {
      MarksMove(x + y, b, h, x, 0);
    }
  }

  lemma MarksInTail(x: string, y: string, b: int, h: int)
    requires |x| <= b
    ensures Header(x + y, b, h) ==> Header(y, b - |x|, h - |x|)
    ensures EndMark(x + y, b, h) ==> EndMark(y, b - |x|, h - |x|)
  {
    if Header(x + y, b, h) || EndMark(x + y, b, h) {
      MarksMove(x + y, b, h, y, -|x|);
    }
  }

  lemma MarksInSlice(text: string, from: nat, to: nat, b: int, h: int)
    requires from <= to <= |text|
    ensures Header(text[from..to], b, h) ==> Header(text, b + from, h + from)
    ensures EndMark(text[from..to], b, h) ==> EndMark(text, b + from, h + from)
  {
    if Header(text[from..to], b, h) || EndMark(text[from..to], b, h) {
      MarksMove(text[from..to], b, h, text, from);
    }
  }

  /** A header in the output stands wholly before the marker or wholly after it. */
  lemma HeaderSide(pre: string, marker: string, rest: string, b: int, h: int)
    requires IsSafeMarker(marker) && Header(pre + marker + rest, b, h)
    ensures h <= |pre| || b >= |pre| + |marker|
  {
    var out := pre + marker + rest;
    var first, last := |pre|, |pre| + |marker| - 1;
    assert out[first] == marker[0] && out[last] == marker[|marker| - 1];
    if b <= first < h { FrameOfHeader(out, b, h, first); }
    if b <= last < h { FrameOfHeader(out, b, h, last); }
    if first < b && h <= last {
      MarksMove(out, b, h, marker, -first);
    }
  }

  /** A complete END mark at or after `b`. */
  ghost predicate EndsAfter(text: string, b: int) {
    exists i, e :: b <= i && EndMark(text, i, e)
  }

  lemma BlockHasEnd(text: string, b: int, e: int)
    requires Block(text, b, e)
    ensures EndsAfter(text, b)
  {
    var h, i :| Header(text, b, h) && h <= i && EndMark(text, i, e) && NoEndIn(text, h, i);
    assert b <= i;
  }

  /** A header that stands before an END mark opens a block. */
  lemma HeaderBeforeEnd(text: string, b: int, c: int, h: int)
    requires EndsAfter(text, b) && Header(text, c, h) && h <= b
    ensures Opens(text, c)
  {
  }

  lemma HeaderRange(text: string, b: int, h: int)
    requires Header(text, b, h)
    ensures 0 <= b < h <= |text|
  {
  }

  lemma HeaderOfGap(text: string, gap: string, from: nat, b: nat, c: int, h: int)
    requires from <= b <= |text| && gap == text[from..b] && Header(gap, c, h)
    ensures from <= c + from < h + from <= b && Header(text, c + from, h + from)
  {
    HeaderRange(gap, c, h);
    MarksInSlice(text, from, b, c, h);
  }

  lemma NoHeaderInGap(text: string, from: nat, b: nat, c: int, h: int)
    requires from <= b <= |text| && EndsAfter(text, b) && NoBlockIn(text, from, b)
    ensures !Header(text[from..b], c, h)
  {
    if Header(text[from..b], c, h) {
      HeaderOfGap(text, text[from..b], from, b, c, h);
      HeaderBeforeEnd(text, b, c + from, h + from);
    }
  }

  /** A header up to and including the marker is a header of what precedes the marker, outside the gap. */
  lemma {:induction false} HeadersAfterMasked(text: string, spans: seq<Span>, marker: string, rest: string, b: int, h: int)
    requires AreBlocks(text, spans) && IsSafeMarker(marker)
    requires Header(Masked(text, spans, marker) + rest, b, h)
    ensures b >= |Masked(text, spans, marker)|
    decreases |spans|
  {
    if spans != [] {
      var init, last := spans[..|spans| - 1], spans[|spans| - 1];
      HeadersAfterLast(text, EndOf(init), last, Masked(text, init, marker), marker, rest, b, h);
      if h <= |Masked(text, init, marker) + text[EndOf(init)..last.begin]| {
        HeadersAfterMasked(text, init, marker, text[EndOf(init)..last.begin], b, h);
      }
    }
  }

  /** Around one masked block: a header is in `head` and the gap, but not in the gap alone, or after the marker. */
  lemma HeadersAfterLast(text: string, from: nat, last: Span, head: string, marker: string, rest: string, b: int, h: int)
    requires from <= last.begin <= |text| && IsSafeMarker(marker)
    requires Block(text, last.begin, last.end) && NoBlockIn(text, from, last.begin)
    requires Header(head + text[from..last.begin] + marker + rest, b, h)
    ensures var before := head + text[from..last.begin];
            || b >= |before + marker|
            || (h <= |before| && Header(before, b, h) && b < |head|)
  {
    var gap := text[from..last.begin];
    var before := head + gap;
    HeaderSide(before, marker, rest, b, h);
    if h <= |before| {
      assert before + marker + rest == before + (marker + rest);
      MarksInHead(before, marker + rest, b, h);
      BlockHasEnd(text, last.begin, last.end);
      HeaderStartsInHead(text, from, last.begin, head, gap, b, h);
    }
  }

  lemma HeaderStartsInHead(text: string, from: nat, to: nat, head: string, gap: string, b: int, h: int)
    requires from <= to <= |text| && gap == text[from..to]
    requires EndsAfter(text, to) && NoBlockIn(text, from, to)
    requires Header(head + gap, b, h)
    ensures b < |head|
  {
    if b >= |head| {
      MarksInTail(head, gap, b, h);
      NoHeaderInGap(text, from, to, b - |head|, h - |head|);
    }
  }

  lemma BlockInTail(head: string, rest: string, b: int)
    requires |head| <= b && Opens(head + rest, b)
    ensures Opens(rest, b - |head|)
  {
    var h, i, e :| Header(head + rest, b, h) && h <= i && EndMark(head + rest, i, e);
    MarksInTail(head, rest, b, h);
    MarksInTail(head, rest, i, e);
  }

  lemma BlockInSlice(text: string, from: nat, b: int)
    requires from <= |text| && Opens(text[from..], b)
    ensures Opens(text, b + from)
  {
    var rest := text[from..];
    var h, i, e :| Header(rest, b, h) && h <= i && EndMark(rest, i, e);
    assert rest == text[from..|text|];
    MarksInSlice(text, from, |text|, b, h);
    MarksInSlice(text, from, |text|, i, e);
  }

  /** The masked text has no complete block. */
  lemma MaskedHasNoBlock(text: string, spans: seq<Span>, marker: string)
    requires AllBlocks(text, spans) && IsSafeMarker(marker)
    ensures var out := Masked(text, spans, marker) + text[EndOf(spans)..];
            NoBlockIn(out, 0, |out|)
  {
    var head, from := Masked(text, spans, marker), EndOf(spans);
    var out := head + text[from..];
    forall b | 0 <= b < |out|
      ensures !Opens(out, b)
    {
      if Opens(out, b) {
        var h, i, e :| Header(out, b, h) && h <= i && EndMark(out, i, e);
        HeadersAfterMasked(text, spans, marker, text[from..], b, h);
        BlockInTail(head, text[from..], b);
        BlockInSlice(text, from, b - |head|);
      }
    }
  }

  /** Masking the masked text again finds no block and changes nothing. */
  lemma MaskingIsIdempotent(text: string, spans: seq<Span>, marker: string, again: seq<Span>)
    requires AllBlocks(text, spans) && IsSafeMarker(marker)
    requires AllBlocks(Masked(text, spans, marker) + text[EndOf(spans)..], again)
    ensures var out := Masked(text, spans, marker) + text[EndOf(spans)..];
            again == [] && Masked(out, again, marker) + out[EndOf(again)..] == out
  {
    var out := Masked(text, spans, marker) + text[EndOf(spans)..];
    MaskedHasNoBlock(text, spans, marker);
    if again != [] {
      BlockAtIndex(out, again, 0);
      OpensExactly(out, again[0].begin);
    }
  }

  /** A second run of the redaction returns the same text, and masks nothing. */
  lemma RedactionIsIdempotent(text: string, result: string, count: nat, again: string, countAgain: nat)
    requires IsRedaction(text, result, count) && IsRedaction(result, again, countAgain)
    ensures again == result && countAgain == 0
  {
    var spans :| MasksSpans(text, spans, result) && |spans| == count;
    var more :| MasksSpans(result, more, again) && |more| == countAgain;
    RedactedIsSafe();
    MaskingIsIdempotent(text, spans, REDACTED, more);
  }
}
