/** Editing one marked block inside a text somebody else also edits: insert, replace, remove. */
module PolicyBlock {
  import opened Wrappers
  import opened Markup

  /** The markers the policy block uses. */
  function PolicyMarkers(): Markers {
    Markers("<!-- gpuq-policy:start -->", "<!-- gpuq-policy:end -->")
  }

  lemma {:induction false} StartMarkerIsBracketed()
    ensures Bracketed("<!-- gpuq-policy:start -->")
  {
  }

  lemma {:induction false} EndMarkerIsBracketed()
    ensures Bracketed("<!-- gpuq-policy:end -->")
  {
  }

  lemma {:induction false} PolicyMarkersAreProper()
    ensures Proper(PolicyMarkers())
  {
    StartMarkerIsBracketed();
    EndMarkerIsBracketed();
    assert PolicyMarkers().open[17] == 's' && PolicyMarkers().close[17] == 'e';
  }

  datatype Span = Span(from: nat, to: nat)

  /** The first opening marker and the first closing marker behind it. */
  function FindBlock(mk: Markers, text: string): (span: Option<Span>)
    ensures span.Some? ==> span.value.from <= span.value.to <= |text|
  {
    var start := FindFrom(text, mk.open, 0);
    if start.None? then None
    else
      var end := FindFrom(text, mk.close, start.value);
      if end.None? then None else Some(Span(start.value, end.value + |mk.close|))
  }

  function CountBlocks(mk: Markers, text: string): nat
    requires Proper(mk)
  {
    Count(text, mk.open)
  }

  /** The two sides of a stretch taken out, one new line left in its place. */
  function Closed(before: string, behind: string): string {
    StripRight(before) + "\n" + StripLeft(behind)
  }

  /** The last block of several: its opening marker is the last there is. */
  function LastBlock(mk: Markers, text: string): (span: Option<Span>)
    ensures span.Some? ==> span.value.from <= span.value.to <= |text|
  {
    var start := FindLast(text, mk.open);
    if start.None? then None
    else
      var end := FindFrom(text, mk.close, start.value);
      if end.None? then None else Some(Span(start.value, end.value + |mk.close|))
  }

  /** Another round of collapsing duplicates would change the text. */
  predicate Collapsible(mk: Markers, text: string)
    requires Proper(mk)
  {
    CountBlocks(mk, text) > 1 && FindBlock(mk, text).Some? && LastBlock(mk, text).Some?
  }

  // ---- what a block is to the marks --------------------------------------

  /** A block: one opening marker, one closing marker, and text without markers between them. */
  predicate IsBlock(mk: Markers, block: string, body: string) {
    block == mk.open + body + mk.close && Marks(mk, body) == []
  }

  lemma {:induction false} BlockMarks(mk: Markers, block: string, body: string)
    requires Proper(mk) && IsBlock(mk, block, body)
    ensures Marks(mk, block) == [Open, Close]
    ensures EndsWith(block, mk.close) && block != "" && block[0] == '<'
  {
    MarksAround(mk, "", mk.open, body);
    assert "" + mk.open + body == mk.open + body;
    MarksAround(mk, mk.open + body, mk.close, "");
    assert mk.open + body + mk.close + "" == block;
  }

  /** A block set between two texts. */
  lemma {:induction false} MarksWithBlock(mk: Markers, left: string, block: string, body: string, right: string)
    requires Proper(mk) && IsBlock(mk, block, body)
    ensures Marks(mk, left + block + right) == Marks(mk, left) + [Open, Close] + Marks(mk, right)
  {
    BlockMarks(mk, block, body);
    SeamBefore(mk, left, block);
    EndsWithAppend(left, block, mk.close);
    SeamAfterMarker(mk, left + block, right, mk.close);
    MarksOfThree(mk, left, block, right);
  }

  lemma {:induction false} EndsWithAppend(a: string, b: string, m: string)
    requires EndsWith(b, m)
    ensures EndsWith(a + b, m)
  {
    assert (a + b)[|a + b| - |m|..] == b[|b| - |m|..];
  }

  /** Taking out a stretch joins the marks on its two sides. */
  lemma {:induction false} ClosedMarks(mk: Markers, before: string, behind: string)
    requires Proper(mk)
    ensures Marks(mk, Closed(before, behind)) == Marks(mk, before) + Marks(mk, behind)
  {
    StrippingRightKeepsMarks(mk, before);
    StrippingLeftKeepsMarks(mk, behind);
    MarksAroundNewlines(mk, StripRight(before), "\n", StripLeft(behind));
  }

  // ---- balance -----------------------------------------------------------

  /** Every opening marker has at least as many closing as opening markers from there on: each block can
      be closed by a marker of its own. */
  predicate Balanced(marks: seq<Mark>) {
    marks == [] || ((marks[0] == Open ==> Closes(marks) >= Opens(marks)) && Balanced(marks[1..]))
  }

  lemma {:induction false} NothingOpenIsBalanced(marks: seq<Mark>)
    requires Opens(marks) == 0
    ensures Balanced(marks)
  {
    if marks != [] {
      NothingOpenIsBalanced(marks[1..]);
    }
  }

  lemma {:induction false} SuffixIsBalanced(before: seq<Mark>, marks: seq<Mark>)
    requires Balanced(before + marks)
    ensures Balanced(marks)
  {
    if before == [] {
      assert before + marks == marks;
    } else {
      assert (before + marks)[1..] == before[1..] + marks;
      SuffixIsBalanced(before[1..], marks);
    }
  }

  lemma {:induction false} PairCounts(a: seq<Mark>, b: seq<Mark>)
    ensures Opens(a + [Open, Close] + b) == Opens(a + b) + 1
    ensures Closes(a + [Open, Close] + b) == Closes(a + b) + 1
  {
    OpensAppend(a + [Open, Close], b);
    OpensAppend(a, [Open, Close]);
    OpensAppend(a, b);
    ClosesAppend(a + [Open, Close], b);
    ClosesAppend(a, [Open, Close]);
    ClosesAppend(a, b);
    assert [Open, Close][1..] == [Close] && [Close][1..] == [];
    assert Opens([Close]) == 0 && Closes([Close]) == 1;
  }

  lemma {:induction false} LonePair(behind: seq<Mark>)
    requires Opens(behind) == 0
    ensures Balanced([Open, Close] + behind)
  {
    assert ([Open, Close] + behind)[1..] == [Close] + behind;
    OpensAppend([Close], behind);
    NothingOpenIsBalanced([Close] + behind);
    PairCounts([], behind);
    assert [] + [Open, Close] + behind == [Open, Close] + behind && [] + behind == behind;
  }

  /** Taking out the last opening marker with the first closing marker behind it changes nothing. */
  lemma {:induction false} LastPairIsNeutral(before: seq<Mark>, behind: seq<Mark>)
    requires Opens(behind) == 0
    ensures Balanced(before + [Open, Close] + behind) <==> Balanced(before + behind)
  {
    if before == [] {
      LonePair(behind);
      NothingOpenIsBalanced(behind);
      assert before + [Open, Close] + behind == [Open, Close] + behind && before + behind == behind;
    } else {
      assert (before + [Open, Close] + behind)[1..] == before[1..] + [Open, Close] + behind;
      assert (before + behind)[1..] == before[1..] + behind;
      PairCounts(before, behind);
      LastPairIsNeutral(before[1..], behind);
    }
  }

  lemma {:induction false} OpenForGood(before: seq<Mark>, behind: seq<Mark>)
    requires Closes(behind) == 0
    ensures !Balanced(before + [Open] + behind)
  {
    assert before + [Open] + behind == before + ([Open] + behind);
    assert ([Open] + behind)[1..] == behind;
    if Balanced(before + ([Open] + behind)) {
      SuffixIsBalanced(before, [Open] + behind);
    }
  }

  lemma {:induction false} UnclosedIsUnbalanced(mk: Markers, text: string, p: nat)
    requires Proper(mk) && At(text, mk.open, p) && Absent(text, mk.close, p, |text| + 1)
    ensures !Balanced(Marks(mk, text))
  {
    CutAt(text, mk.open, p);
    MarksAround(mk, text[..p], mk.open, text[p + |mk.open|..]);
    NoClosesFrom(mk, text, p + |mk.open|);
    OpenForGood(Marks(mk, text[..p]), Marks(mk, text[p + |mk.open|..]));
  }

  lemma {:induction false} NothingInside(marks: seq<Mark>)
    requires Opens(marks) == 0 && Closes(marks) == 0
    ensures marks == []
  {
  }

  // ---- collapsing duplicates ---------------------------------------------

  /** The text between the markers of a block. */
  lemma {:induction false} Inside(mk: Markers, text: string, from: nat, to: nat) returns (inside: string)
    requires |mk.close| <= to && At(text, mk.open, from) && At(text, mk.close, to - |mk.close|)
    requires from + |mk.open| <= to - |mk.close|
    ensures inside == text[from + |mk.open|..to - |mk.close|]
    ensures text == text[..from] + mk.open + inside + mk.close + text[to..]
  {
    CutPair(text, mk.open, from, mk.close, to - |mk.close|);
    inside := text[from + |mk.open|..to - |mk.close|];
  }

  lemma {:induction false} NothingClosedInside(mk: Markers, text: string, from: nat, to: nat, inside: string)
    requires from + |mk.open| + |mk.close| <= to <= |text| && inside == text[from + |mk.open|..to - |mk.close|]
    requires Absent(text, mk.close, from, to - |mk.close|)
    ensures Closes(Marks(mk, inside)) == 0
  {
    NoClosesBetween(mk, text, from + |mk.open|, to - |mk.close|);
  }

  lemma {:induction false} NothingOpenInside(mk: Markers, text: string, from: nat, to: nat, inside: string)
    requires mk.open != "" && from + |mk.open| + |mk.close| <= to <= |text|
    requires inside == text[from + |mk.open|..to - |mk.close|]
    requires Absent(text, mk.open, from + 1, |text| + 1)
    ensures Opens(Marks(mk, inside)) == 0
  {
    NoOpensBetween(mk, text, from + |mk.open|, to - |mk.close|);
  }

  /** The last opening marker, and the first closing marker behind it. */
  ghost predicate LastPair(mk: Markers, text: string, from: nat, to: nat) {
    && |mk.close| <= to
    && At(text, mk.open, from) && At(text, mk.close, to - |mk.close|)
    && from + |mk.open| <= to - |mk.close|
    && Absent(text, mk.close, from, to - |mk.close|) && Absent(text, mk.open, from + 1, |text| + 1)
  }

  lemma {:induction false} LastBlockPlace(mk: Markers, text: string)
    requires Proper(mk) && LastBlock(mk, text).Some?
    ensures LastPair(mk, text, LastBlock(mk, text).value.from, LastBlock(mk, text).value.to)
  {
    var span := LastBlock(mk, text).value;
    FindsLast(text, mk.open, |text|);
    FindsFirst(text, mk.close, span.from);
    MarkersApart(mk, text, span.from, span.to - |mk.close|);
  }

  lemma {:induction false} CollapsingShortens(mk: Markers, text: string)
    requires Proper(mk) && LastBlock(mk, text).Some?
    ensures var span := LastBlock(mk, text).value; |Closed(text[..span.from], text[span.to..])| < |text|
  {
    LastBlockPlace(mk, text);
  }

  /** Remove the last block until at most one is left, or the last has no end. */
  function Collapse(mk: Markers, text: string): string
    requires Proper(mk)
    decreases |text|
  {
    if !Collapsible(mk, text) then text
    else
      var span := LastBlock(mk, text).value;
      CollapsingShortens(mk, text);
      Collapse(mk, Closed(text[..span.from], text[span.to..]))
  }

  lemma {:induction false} EmptyPair(marks: seq<Mark>, before: seq<Mark>, inside: seq<Mark>, behind: seq<Mark>)
    requires marks == before + [Open] + inside + [Close] + behind && Opens(inside) == 0 && Closes(inside) == 0
    ensures marks == before + [Open, Close] + behind
  {
    NothingInside(inside);
    assert before + [Open] + [] + [Close] + behind == before + [Open, Close] + behind;
  }

  lemma {:induction false} PlainPairMarks(mk: Markers, text: string, a: string, inside: string, b: string)
    requires Proper(mk) && text == a + mk.open + inside + mk.close + b
    requires Opens(Marks(mk, inside)) == 0 && Closes(Marks(mk, inside)) == 0
    ensures Marks(mk, text) == Marks(mk, a) + [Open, Close] + Marks(mk, b)
  {
    MarksAroundPair(mk, a, inside, b);
    EmptyPair(Marks(mk, text), Marks(mk, a), Marks(mk, inside), Marks(mk, b));
  }

  lemma {:induction false} LastPairMarks(mk: Markers, text: string, from: nat, to: nat)
    requires Proper(mk) && LastPair(mk, text, from, to)
    ensures Marks(mk, text) == Marks(mk, text[..from]) + [Open, Close] + Marks(mk, text[to..])
  {
    var inside := Inside(mk, text, from, to);
    NothingOpenInside(mk, text, from, to, inside);
    NothingClosedInside(mk, text, from, to, inside);
    PlainPairMarks(mk, text, text[..from], inside, text[to..]);
  }

  /** One round removes one opening marker and neither gains nor loses balance. */
  lemma {:induction false} OneRound(mk: Markers, text: string, from: nat, to: nat)
    requires Proper(mk) && LastPair(mk, text, from, to)
    ensures var after := Marks(mk, Closed(text[..from], text[to..]));
      && Opens(after) + 1 == Opens(Marks(mk, text))
      && (Balanced(after) <==> Balanced(Marks(mk, text)))
  {
    LastPairMarks(mk, text, from, to);
    NoOpensFrom(mk, text, to);
    ClosedMarks(mk, text[..from], text[to..]);
    PairCounts(Marks(mk, text[..from]), Marks(mk, text[to..]));
    LastPairIsNeutral(Marks(mk, text[..from]), Marks(mk, text[to..]));
  }

  lemma {:induction false} OpensAreFound(mk: Markers, text: string)
    requires Proper(mk)
    ensures Opens(Marks(mk, text)) > 0 ==> FindFrom(text, mk.open, 0).Some? && FindLast(text, mk.open).Some?
  {
    if FindFrom(text, mk.open, 0).None? {
      NothingFound(mk, text);
    }
    if FindLast(text, mk.open).None? {
      FindsLast(text, mk.open, |text|);
      NoOpensFrom(mk, text, 0);
      assert text[0..] == text;
    }
  }

  /** When collapsing stops early, some opening marker has no closing marker behind it. */
  lemma {:induction false} StoppedEarlyIsUnbalanced(mk: Markers, text: string)
    requires Proper(mk) && !Collapsible(mk, text) && CountBlocks(mk, text) > 1
    ensures !Balanced(Marks(mk, text))
  {
    CountCountsOpens(mk, text);
    OpensAreFound(mk, text);
    var p := if FindBlock(mk, text).None? then FindFrom(text, mk.open, 0).value else FindLast(text, mk.open).value;
    FindsFirst(text, mk.close, p);
    UnclosedIsUnbalanced(mk, text, p);
  }

  lemma {:induction false} CollapseKeepsBalance(mk: Markers, text: string)
    requires Proper(mk)
    ensures Balanced(Marks(mk, Collapse(mk, text))) <==> Balanced(Marks(mk, text))
    ensures !Collapsible(mk, Collapse(mk, text))
    decreases |text|
  {
    if Collapsible(mk, text) {
      var span := LastBlock(mk, text).value;
      CollapsingShortens(mk, text);
      LastBlockPlace(mk, text);
      OneRound(mk, text, span.from, span.to);
      CollapseKeepsBalance(mk, Closed(text[..span.from], text[span.to..]));
    }
  }

  // ---- setting the block -------------------------------------------------

  /** The text an appended block follows. */
  function AppendLeft(text: string): string {
    if StripRight(text) == "" then "" else StripRight(text) + "\n\n"
  }

  function Appended(text: string, block: string): string {
    AppendLeft(text) + block + "\n"
  }

  /** Replace the first complete block, or append one where there is none. */
  function Place(mk: Markers, text: string, block: string): string {
    var span := FindBlock(mk, text);
    if span.None? then Appended(text, block)
    else text[..span.value.from] + block + text[span.value.to..]
  }

  function Upserted(mk: Markers, text: string, block: string): string
    requires Proper(mk)
  {
    Place(mk, Collapse(mk, text), block)
  }

  /** Exactly one block, and the search returns it word for word. */
  predicate OneBlock(mk: Markers, text: string, block: string)
    requires Proper(mk)
  {
    CountBlocks(mk, text) == 1
    && FindBlock(mk, text).Some? && text[FindBlock(mk, text).value.from..FindBlock(mk, text).value.to] == block
  }

  /** No opening marker is found before the block when the text on its left holds none. */
  lemma {:induction false} NoneOnTheLeft(mk: Markers, left: string, rest: string)
    requires Proper(mk) && rest != "" && rest[0] == '<' && Absent(left, mk.open, 0, |left| + 1)
    ensures Absent(left + rest, mk.open, 0, |left|)
  {
    SeamBefore(mk, left, rest);
    forall k: nat | k < |left| ensures !At(left + rest, mk.open, k) {
      if At(left + rest, mk.open, k) {
        AtOnTheLeft(mk, left, rest, mk.open, k);
      }
    }
  }

  /** A block stands in a text: its opening marker, its body, its closing marker. */
  predicate Stands(mk: Markers, text: string, from: nat, body: string) {
    var e := from + |mk.open| + |body|;
    At(text, mk.open, from) && At(text, mk.close, e) && text[from + |mk.open|..e] == body
  }

  /** Put between two texts, a block stands there. */
  lemma {:induction false} PutBlockStands(mk: Markers, left: string, block: string, body: string, right: string)
    requires block == mk.open + body + mk.close
    ensures Stands(mk, left + block + right, |left|, body)
  {
    var text, e := left + block + right, |left| + |mk.open| + |body|;
    assert text[|left|..|left| + |mk.open|] == mk.open;
    assert text[|left| + |mk.open|..e] == body;
    assert text[e..e + |mk.close|] == mk.close;
  }

  lemma {:induction false} AtWithin(text: string, m: string, i: nat, j: nat, k: nat)
    requires i <= k && k + |m| <= j <= |text| && At(text, m, k)
    ensures At(text[i..j], m, k - i)
  {
    AtSuffix(text, m, k - i, i);
    assert text[i..j] == text[i..][..j - i];
    assert text[i..][..j - i][k - i..k - i + |m|] == text[i..][k - i..k - i + |m|];
  }

  /** No closing marker is found before the end of a body that holds none. */
  lemma {:induction false} NoneInTheBody(mk: Markers, text: string, from: nat, body: string)
    requires Proper(mk) && Stands(mk, text, from, body) && Absent(body, mk.close, 0, |body| + 1)
    ensures Absent(text, mk.close, from, from + |mk.open| + |body|)
  {
    var e := from + |mk.open| + |body|;
    forall k: nat | from <= k < e ensures !At(text, mk.close, k) {
      if At(text, mk.close, k) {
        MarkersApart(mk, text, from, k);
        OverlapCharacter(text, mk.close, k, mk.close, e);
        AtWithin(text, mk.close, from + |mk.open|, e, k);
      }
    }
  }

  lemma {:induction false} ItsEndIsFound(mk: Markers, text: string, from: nat, body: string)
    requires Proper(mk) && Stands(mk, text, from, body) && Absent(body, mk.close, 0, |body| + 1)
    ensures FindFrom(text, mk.close, from) == Some(from + |mk.open| + |body|)
  {
    NoneInTheBody(mk, text, from, body);
    FoundAt(text, mk.close, from, from + |mk.open| + |body|);
  }

  lemma {:induction false} BothFound(mk: Markers, text: string, from: nat, e: nat)
    requires FindFrom(text, mk.open, 0) == Some(from) && FindFrom(text, mk.close, from) == Some(e)
    ensures FindBlock(mk, text) == Some(Span(from, e + |mk.close|))
  {
  }

  lemma {:induction false} StandingBlockIsFound(mk: Markers, text: string, from: nat, body: string)
    requires Proper(mk) && Stands(mk, text, from, body) && Absent(body, mk.close, 0, |body| + 1)
    requires Absent(text, mk.open, 0, from)
    ensures FindBlock(mk, text) == Some(Span(from, from + |mk.open| + |body| + |mk.close|))
  {
    FoundAt(text, mk.open, 0, from);
    ItsEndIsFound(mk, text, from, body);
    BothFound(mk, text, from, from + |mk.open| + |body|);
  }

  lemma {:induction false} UnmarkedIsAbsent(mk: Markers, text: string)
    requires Proper(mk)
    ensures Opens(Marks(mk, text)) == 0 ==> Absent(text, mk.open, 0, |text| + 1)
    ensures Closes(Marks(mk, text)) == 0 ==> Absent(text, mk.close, 0, |text| + 1)
  {
    forall k: nat | At(text, mk.open, k) ensures Opens(Marks(mk, text)) > 0 {
      FoundIsMarked(mk, text, mk.open, k);
    }
    forall k: nat | At(text, mk.close, k) ensures Closes(Marks(mk, text)) > 0 {
      FoundIsMarked(mk, text, mk.close, k);
    }
  }

  lemma {:induction false} NoneBeforeTheBlock(mk: Markers, left: string, block: string, right: string)
    requires Proper(mk) && Opens(Marks(mk, left)) == 0 && mk.open <= block
    ensures Absent(left + block + right, mk.open, 0, |left|)
  {
    UnmarkedIsAbsent(mk, left);
    assert left + block + right == left + (block + right);
    NoneOnTheLeft(mk, left, block + right);
  }

  lemma {:induction false} FoundWhereItStands(mk: Markers, text: string, from: nat, block: string, body: string)
    requires Proper(mk) && IsBlock(mk, block, body) && Stands(mk, text, from, body) && Absent(text, mk.open, 0, from)
    ensures FindBlock(mk, text) == Some(Span(from, from + |block|))
  {
    UnmarkedIsAbsent(mk, body);
    StandingBlockIsFound(mk, text, from, body);
  }

  /** A block behind a text without opening markers is the one the search returns. */
  lemma {:induction false} SetBlockIsFound(mk: Markers, left: string, block: string, body: string, right: string)
    requires Proper(mk) && IsBlock(mk, block, body) && Opens(Marks(mk, left)) == 0
    ensures FindBlock(mk, left + block + right) == Some(Span(|left|, |left| + |block|))
  {
    PutBlockStands(mk, left, block, body, right);
    NoneBeforeTheBlock(mk, left, block, right);
    FoundWhereItStands(mk, left + block + right, |left|, block, body);
  }

  lemma {:induction false} PutMarks(mk: Markers, left: string, block: string, body: string, right: string)
    requires Proper(mk) && IsBlock(mk, block, body)
    ensures CountBlocks(mk, left + block + right) == Opens(Marks(mk, left)) + 1 + Opens(Marks(mk, right))
  {
    CountCountsOpens(mk, left + block + right);
    MarksWithBlock(mk, left, block, body, right);
    PairCounts(Marks(mk, left), Marks(mk, right));
    OpensAppend(Marks(mk, left), Marks(mk, right));
  }

  lemma {:induction false} PutOnce(mk: Markers, left: string, block: string, body: string, right: string)
    requires Proper(mk) && IsBlock(mk, block, body)
    ensures OneBlock(mk, left + block + right, block)
      <== Opens(Marks(mk, left)) == 0 && Opens(Marks(mk, right)) == 0
    ensures OneBlock(mk, left + block + right, block)
      ==> Opens(Marks(mk, left)) == 0 && Opens(Marks(mk, right)) == 0
  {
    PutMarks(mk, left, block, body, right);
    if Opens(Marks(mk, left)) == 0 {
      SetBlockIsFound(mk, left, block, body, right);
      BlockBetween(left, block, right);
    }
  }

  lemma {:induction false} BlockBetween(left: string, block: string, right: string)
    ensures (left + block + right)[|left|..|left| + |block|] == block
    ensures (left + block + right)[..|left|] == left && (left + block + right)[|left| + |block|..] == right
  {
  }

  lemma {:induction false} AppendLeftMarks(mk: Markers, text: string)
    requires Proper(mk)
    ensures Marks(mk, AppendLeft(text)) == Marks(mk, text) && Marks(mk, "\n") == []
  {
    var base := StripRight(text);
    StrippingRightKeepsMarks(mk, text);
    NewlinesHaveNoMarks(mk, "\n");
    if base != "" {
      MarksAroundNewlines(mk, base, "\n\n", "");
      assert base + "\n\n" + "" == AppendLeft(text);
      assert Marks(mk, base) + [] == Marks(mk, base);
    }
  }

  lemma {:induction false} AppendingGivesOneBlock(mk: Markers, text: string, block: string, body: string)
    requires Proper(mk) && IsBlock(mk, block, body) && FindBlock(mk, text).None?
    ensures OneBlock(mk, Appended(text, block), block) <==> Balanced(Marks(mk, text))
  {
    AppendLeftMarks(mk, text);
    PutOnce(mk, AppendLeft(text), block, body, "\n");
    if Opens(Marks(mk, text)) == 0 {
      NothingOpenIsBalanced(Marks(mk, text));
    } else {
      OpensAreFound(mk, text);
      var p := FindFrom(text, mk.open, 0).value;
      FindsFirst(text, mk.close, p);
      UnclosedIsUnbalanced(mk, text, p);
    }
  }

  lemma {:induction false} SingleIsBalanced(marks: seq<Mark>, before: seq<Mark>, inside: seq<Mark>, behind: seq<Mark>)
    requires marks == before + [Open] + inside + [Close] + behind && Closes(inside) == 0 && Opens(before) == 0
    ensures Opens(marks) == 1 + Opens(inside) + Opens(behind)
    ensures Opens(inside) == 0 && Opens(behind) == 0 ==> Balanced(marks)
  {
    MarkCounts(before + [Open] + inside, Close, behind);
    MarkCounts(before, Open, inside);
    if Opens(inside) == 0 && Opens(behind) == 0 {
      EmptyPair(marks, before, inside, behind);
      LastPairIsNeutral(before, behind);
      OpensAppend(before, behind);
      NothingOpenIsBalanced(before + behind);
    }
  }

  /** Where the first block is. */
  ghost predicate FirstPair(mk: Markers, text: string, from: nat, to: nat) {
    && |mk.close| <= to
    && At(text, mk.open, from) && At(text, mk.close, to - |mk.close|) && from + |mk.open| <= to - |mk.close|
    && Absent(text, mk.close, from, to - |mk.close|) && Absent(text, mk.open, 0, from)
  }

  lemma {:induction false} FirstBlockPlace(mk: Markers, text: string)
    requires Proper(mk) && FindBlock(mk, text).Some?
    ensures FirstPair(mk, text, FindBlock(mk, text).value.from, FindBlock(mk, text).value.to)
  {
    var span := FindBlock(mk, text).value;
    FindsFirst(text, mk.open, 0);
    FindsFirst(text, mk.close, span.from);
    MarkersApart(mk, text, span.from, span.to - |mk.close|);
  }

  lemma {:induction false} SinglePairMarks(mk: Markers, text: string, a: string, inside: string, b: string)
    requires Proper(mk) && text == a + mk.open + inside + mk.close + b
    requires Opens(Marks(mk, a)) == 0 && Closes(Marks(mk, inside)) == 0
    ensures Opens(Marks(mk, text)) == 1 ==> Opens(Marks(mk, b)) == 0 && Balanced(Marks(mk, text))
  {
    MarksAroundPair(mk, a, inside, b);
    SingleIsBalanced(Marks(mk, text), Marks(mk, a), Marks(mk, inside), Marks(mk, b));
  }

  lemma {:induction false} FirstPairMarks(mk: Markers, text: string, from: nat, to: nat)
    requires Proper(mk) && FirstPair(mk, text, from, to)
    ensures Opens(Marks(mk, text[..from])) == 0
    ensures Opens(Marks(mk, text)) == 1 ==> Opens(Marks(mk, text[to..])) == 0 && Balanced(Marks(mk, text))
  {
    var inside := Inside(mk, text, from, to);
    NoOpensBefore(mk, text, from);
    NothingClosedInside(mk, text, from, to, inside);
    SinglePairMarks(mk, text, text[..from], inside, text[to..]);
  }

  /** An opening marker nothing closes stays behind the first block. */
  lemma {:induction false} UnclosedStaysBehind(mk: Markers, text: string, from: nat, to: nat, p: nat)
    requires Proper(mk) && FirstPair(mk, text, from, to)
    requires At(text, mk.open, p) && Absent(text, mk.close, p, |text| + 1)
    ensures Opens(Marks(mk, text[to..])) > 0
  {
    MarkersApart(mk, text, p, to - |mk.close|);
    AtSuffix(text, mk.open, p - to, to);
    FoundIsMarked(mk, text[to..], mk.open, p - to);
  }

  lemma {:induction false} ReplacingGivesOneBlock(mk: Markers, text: string, block: string, body: string)
    requires Proper(mk) && IsBlock(mk, block, body) && !Collapsible(mk, text) && FindBlock(mk, text).Some?
    ensures OneBlock(mk, Place(mk, text, block), block) <==> Balanced(Marks(mk, text))
  {
    var span := FindBlock(mk, text).value;
    FirstBlockPlace(mk, text);
    FirstPairMarks(mk, text, span.from, span.to);
    PutOnce(mk, text[..span.from], block, body, text[span.to..]);
    CountCountsOpens(mk, text);
    FoundIsMarked(mk, text, mk.open, span.from);
    if CountBlocks(mk, text) > 1 {
      StoppedEarlyIsUnbalanced(mk, text);
      OpensAreFound(mk, text);
      var p := FindLast(text, mk.open).value;
      FindsFirst(text, mk.close, p);
      UnclosedStaysBehind(mk, text, span.from, span.to, p);
    }
  }

  // ---- main results ------------------------------------------------------

  /** After an update the text holds exactly one block, found word for word, if and only if the blocks
      it held before could be matched: every opening marker has, from itself on, at least as many closing
      as opening markers. */
  lemma {:induction false} UpdateLeavesOneBlockExactlyWhenBalanced(
      mk: Markers, text: string, block: string, body: string)
    requires Proper(mk) && IsBlock(mk, block, body)
    ensures OneBlock(mk, Upserted(mk, text, block), block) <==> Balanced(Marks(mk, text))
  {
    var collapsed := Collapse(mk, text);
    CollapseKeepsBalance(mk, text);
    if FindBlock(mk, collapsed).None? {
      AppendingGivesOneBlock(mk, collapsed, block, body);
    } else {
      ReplacingGivesOneBlock(mk, collapsed, block, body);
    }
  }

  lemma {:induction false} CutAndPutBack(text: string, from: nat, to: nat)
    requires from <= to <= |text|
    ensures text[..from] + text[from..to] + text[to..] == text
  {
  }

  /** Updating twice is updating once. */
  lemma {:induction false} UpdateIsIdempotent(mk: Markers, text: string, block: string, body: string)
    requires Proper(mk) && IsBlock(mk, block, body) && Balanced(Marks(mk, text))
    ensures Upserted(mk, Upserted(mk, text, block), block) == Upserted(mk, text, block)
  {
    UpdateLeavesOneBlockExactlyWhenBalanced(mk, text, block, body);
    var once := Upserted(mk, text, block);
    var span := FindBlock(mk, once).value;
    CutAndPutBack(once, span.from, span.to);
  }

  /** The text before and behind the first block; all of it is before when there is none. */
  function Outside(mk: Markers, text: string): (string, string) {
    var span := FindBlock(mk, text);
    if span.None? then (text, "") else (text[..span.value.from], text[span.value.to..])
  }

  lemma {:induction false} StrippedOnce(base: string)
    requires base == "" || base[|base| - 1] != '\n'
    ensures StripRight(base + "\n") == base
  {
    assert (base + "\n")[..|base|] == base;
  }

  lemma {:induction false} StrippedTwice(base: string)
    requires base == "" || base[|base| - 1] != '\n'
    ensures StripRight(base + "\n\n") == base
  {
    assert (base + "\n\n")[..|base| + 1] == base + "\n";
    StrippedOnce(base);
  }

  /** With at most one opening marker there, everything else is kept. A block is replaced word for word in its
      place; where there is none, an opening marker without a closing one included, the block is put behind the
      text, which stays as it was up to trailing new lines. On balanced texts the block is then found there. */
  lemma {:induction false} UpdateKeepsTheRest(mk: Markers, text: string, block: string, body: string)
    requires Proper(mk) && IsBlock(mk, block, body) && CountBlocks(mk, text) <= 1
    ensures FindBlock(mk, text).Some? ==>
      && Outside(mk, Upserted(mk, text, block)) == Outside(mk, text)
      && Upserted(mk, text, block) == Outside(mk, text).0 + block + Outside(mk, text).1
    ensures FindBlock(mk, text).None? ==>
      var kept := AppendLeft(text);
      && Upserted(mk, text, block) == kept + block + "\n" && StripRight(kept) == StripRight(text)
      && (Balanced(Marks(mk, text)) ==> Outside(mk, Upserted(mk, text, block)) == (kept, "\n"))
  {
    CountCountsOpens(mk, text);
    if FindBlock(mk, text).Some? {
      var span := FindBlock(mk, text).value;
      FirstBlockPlace(mk, text);
      FirstPairMarks(mk, text, span.from, span.to);
      SetBlockIsFound(mk, text[..span.from], block, body, text[span.to..]);
      BlockBetween(text[..span.from], block, text[span.to..]);
    } else {
      StripsRight(text);
      StrippedTwice(StripRight(text));
      if Balanced(Marks(mk, text)) {
        NoBlockNoOpens(mk, text);
        AppendLeftMarks(mk, text);
        SetBlockIsFound(mk, AppendLeft(text), block, body, "\n");
        BlockBetween(AppendLeft(text), block, "\n");
      }
    }
  }

  /** A balanced text without a complete block has no opening marker at all. */
  lemma {:induction false} NoBlockNoOpens(mk: Markers, text: string)
    requires Proper(mk) && FindBlock(mk, text).None? && Balanced(Marks(mk, text))
    ensures Opens(Marks(mk, text)) == 0
  {
    if Opens(Marks(mk, text)) > 0 {
      OpensAreFound(mk, text);
      var p := FindFrom(text, mk.open, 0).value;
      FindsFirst(text, mk.close, p);
      UnclosedIsUnbalanced(mk, text, p);
    }
  }

  // ---- removing ----------------------------------------------------------

  lemma {:induction false} MarkersAreLong(mk: Markers)
    requires Proper(mk)
    ensures |mk.open| >= 2 && |mk.close| >= 2
  {
    assert |mk.open| == 1 ==> mk.open <= mk.close;
    assert |mk.close| == 1 ==> mk.close <= mk.open;
  }

  /** What is left on the two sides of a removed block, an empty line between them. */
  function Rejoined(before: string, after: string): string {
    if before != "" && after != "" then before + "\n\n" + after
    else if before != "" then before + "\n"
    else after
  }

  /** The two sides of a removed block, as they are joined again. */
  function Mended(before: string, behind: string): string {
    Rejoined(StripRight(before), StripLeft(behind))
  }

  lemma {:induction false} MendedIsShort(before: string, behind: string)
    ensures |Mended(before, behind)| <= |before| + |behind| + 2
  {
  }

  lemma {:induction false} RemovingShortens(mk: Markers, text: string)
    requires Proper(mk) && FindBlock(mk, text).Some?
    ensures |Mended(text[..FindBlock(mk, text).value.from], text[FindBlock(mk, text).value.to..])| < |text|
  {
    var span := FindBlock(mk, text).value;
    FirstBlockPlace(mk, text);
    MarkersAreLong(mk);
    MendedIsShort(text[..span.from], text[span.to..]);
  }

  function Removed(mk: Markers, text: string): string
    requires Proper(mk)
    decreases |text|
  {
    var span := FindBlock(mk, text);
    if span.None? then text
    else
      RemovingShortens(mk, text);
      Removed(mk, Mended(text[..span.value.from], text[span.value.to..]))
  }

  lemma {:induction false} RejoinedMarks(mk: Markers, before: string, after: string)
    requires Proper(mk)
    ensures Marks(mk, Rejoined(before, after)) == Marks(mk, before) + Marks(mk, after)
  {
    if before != "" && after != "" {
      MarksAroundNewlines(mk, before, "\n\n", after);
    } else if before != "" {
      MarksAroundNewlines(mk, before, "\n", "");
      assert before + "\n" + "" == before + "\n";
    } else {
      assert Marks(mk, before) == [];
    }
  }

  lemma {:induction false} MendedMarks(mk: Markers, before: string, behind: string)
    requires Proper(mk)
    ensures Marks(mk, Mended(before, behind)) == Marks(mk, before) + Marks(mk, behind)
  {
    StrippingRightKeepsMarks(mk, before);
    StrippingLeftKeepsMarks(mk, behind);
    RejoinedMarks(mk, StripRight(before), StripLeft(behind));
  }

  lemma {:induction false} DroppingThePairKeepsBalance(
      marks: seq<Mark>, before: seq<Mark>, inside: seq<Mark>, behind: seq<Mark>)
    requires marks == before + [Open] + inside + [Close] + behind && Opens(before) == 0 && Balanced(marks)
    ensures Balanced(before + behind)
  {
    assert marks == (before + [Open] + inside + [Close]) + behind;
    SuffixIsBalanced(before + [Open] + inside + [Close], behind);
    NothingThenBalanced(before, behind);
  }

  lemma {:induction false} NothingThenBalanced(before: seq<Mark>, behind: seq<Mark>)
    requires Opens(before) == 0 && Balanced(behind)
    ensures Balanced(before + behind)
  {
    if before == [] {
      assert before + behind == behind;
    } else {
      assert (before + behind)[1..] == before[1..] + behind;
      NothingThenBalanced(before[1..], behind);
    }
  }

  /** Removal ends with no complete block, and on a balanced text with no opening marker at all. */
  lemma {:induction false} RemovalLeavesNoBlock(mk: Markers, text: string)
    requires Proper(mk)
    ensures FindBlock(mk, Removed(mk, text)).None?
    ensures Balanced(Marks(mk, text)) ==> CountBlocks(mk, Removed(mk, text)) == 0
    decreases |text|
  {
    if FindBlock(mk, text).Some? {
      var span := FindBlock(mk, text).value;
      RemovingShortens(mk, text);
      RemovalLeavesNoBlock(mk, Mended(text[..span.from], text[span.to..]));
      if Balanced(Marks(mk, text)) {
        FirstBlockPlace(mk, text);
        RemovalKeepsBalance(mk, text, span.from, span.to);
      }
    } else if Balanced(Marks(mk, text)) {
      NoBlockNoOpens(mk, text);
      CountCountsOpens(mk, text);
    }
  }

  lemma {:induction false} SidesStayBalanced(mk: Markers, text: string, a: string, inside: string, b: string)
    requires Proper(mk) && text == a + mk.open + inside + mk.close + b
    requires Opens(Marks(mk, a)) == 0 && Balanced(Marks(mk, text))
    ensures Balanced(Marks(mk, a) + Marks(mk, b))
  {
    MarksAroundPair(mk, a, inside, b);
    DroppingThePairKeepsBalance(Marks(mk, text), Marks(mk, a), Marks(mk, inside), Marks(mk, b));
  }

  lemma {:induction false} RemovalKeepsBalance(mk: Markers, text: string, from: nat, to: nat)
    requires Proper(mk) && FirstPair(mk, text, from, to) && Balanced(Marks(mk, text))
    ensures Balanced(Marks(mk, Mended(text[..from], text[to..])))
  {
    var inside := Inside(mk, text, from, to);
    NoOpensBefore(mk, text, from);
    SidesStayBalanced(mk, text, text[..from], inside, text[to..]);
    MendedMarks(mk, text[..from], text[to..]);
  }

  lemma {:induction false} NoOpensNoBlock(mk: Markers, text: string)
    requires Proper(mk) && Opens(Marks(mk, text)) == 0
    ensures FindBlock(mk, text).None? && CountBlocks(mk, text) == 0
  {
    CountCountsOpens(mk, text);
  }

  lemma {:induction false} TakenOutAgain(text: string)
    ensures var base, left := StripRight(text), AppendLeft(text);
      Mended(left, "\n") == if base == "" then "" else base + "\n"
  {
    StripsRight(text);
    StrippedTwice(StripRight(text));
    assert "\n"[1..] == "";
    assert StripLeft("\n") == "";
  }

  /** Removal undoes an update of a text without opening markers, up to trailing new lines. */
  lemma {:induction false} RemovalUndoesUpdate(mk: Markers, text: string, block: string, body: string)
    requires Proper(mk) && IsBlock(mk, block, body) && CountBlocks(mk, text) == 0
    ensures StripRight(Removed(mk, Upserted(mk, text, block))) == StripRight(text)
    ensures StripRight(text) != "" ==> Removed(mk, Upserted(mk, text, block)) == StripRight(text) + "\n"
  {
    var left, base := AppendLeft(text), StripRight(text);
    CountCountsOpens(mk, text);
    NoOpensNoBlock(mk, text);
    AppendLeftMarks(mk, text);
    SetBlockIsFound(mk, left, block, body, "\n");
    BlockBetween(left, block, "\n");
    StripsRight(text);
    StrippedOnce(base);
    var rest := if base == "" then "" else base + "\n";
    TakenOutAgain(text);
    BareText(mk, text, rest);
    NoOpensNoBlock(mk, rest);
  }

  lemma {:induction false} BareText(mk: Markers, text: string, rest: string)
    requires Proper(mk) && Opens(Marks(mk, text)) == 0
    requires rest == if StripRight(text) == "" then "" else StripRight(text) + "\n"
    ensures Opens(Marks(mk, rest)) == 0
  {
    var base := StripRight(text);
    StrippingRightKeepsMarks(mk, text);
    MarksAroundNewlines(mk, base, "\n", "");
    assert base + "\n" + "" == base + "\n";
    assert Marks(mk, base) + [] == Marks(mk, base);
  }

  // ---- the programs ------------------------------------------------------

  /** Where the last block is, if the text still holds several and can be collapsed. */
  method SpareBlock(mk: Markers, text: string) returns (spare: Option<Span>)
    requires Proper(mk)
    ensures spare == if Collapsible(mk, text) then LastBlock(mk, text) else None
  {
    if CountBlocks(mk, text) <= 1 || FindBlock(mk, text).None? {
      return None;
    }
    return LastBlock(mk, text);
  }

  lemma {:induction false} CollapseGoesOn(mk: Markers, text: string, span: Span)
    requires Proper(mk) && Collapsible(mk, text) && LastBlock(mk, text) == Some(span)
    ensures var next := Closed(text[..span.from], text[span.to..]);
      |next| < |text| && Collapse(mk, text) == Collapse(mk, next)
  {
    CollapsingShortens(mk, text);
  }

  /** Insert or replace the block; duplicates collapse into one. Each round shortens the text, so the
      loop cannot stand still. */
  method UpsertBlock(mk: Markers, original: string, block: string) returns (text: string)
    requires Proper(mk)
    ensures text == Upserted(mk, original, block)
  {
    text := original;
    var spare := SpareBlock(mk, text);
    while spare.Some?
      invariant Collapse(mk, text) == Collapse(mk, original)
      invariant spare == if Collapsible(mk, text) then LastBlock(mk, text) else None
      decreases |text|
    {
      CollapseGoesOn(mk, text, spare.value);
      text := StripRight(text[..spare.value.from]) + "\n" + StripLeft(text[spare.value.to..]);
      spare := SpareBlock(mk, text);
    }
    var span := FindBlock(mk, text);
    if span.None? {
      var base := StripRight(text);
      text := (if base != "" then base + "\n\n" else "") + block + "\n";
    } else {
      text := text[..span.value.from] + block + text[span.value.to..];
    }
  }

  method RemoveBlock(mk: Markers, original: string) returns (text: string)
    requires Proper(mk)
    ensures text == Removed(mk, original)
  {
    text := original;
    while true
      invariant Removed(mk, text) == Removed(mk, original)
      decreases |text|
    {
      var span := FindBlock(mk, text);
      if span.None? {
        return;
      }
      RemovingShortens(mk, text);
      var before, after := StripRight(text[..span.value.from]), StripLeft(text[span.value.to..]);
      if before != "" && after != "" {
        text := before + "\n\n" + after;
      } else if before != "" {
        text := before + "\n";
      } else {
        text := after;
      }
    }
  }
}
