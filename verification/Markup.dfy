/** Searching text for a pair of block markers.

    Texts are compared through their marks, the opening and closing markers they hold in order: where two
    texts meet without a marker straddling the seam, their marks simply follow one another. */
module Markup {
  import opened Wrappers

  datatype Markers = Markers(open: string, close: string)

  /** A marker starts with the only '<' it holds and stays on one line. */
  predicate Bracketed(m: string) {
    m != "" && m[0] == '<' && forall k :: 0 < k < |m| ==> m[k] != '<' && m[k] != '\n'
  }

  predicate Proper(mk: Markers) {
    Bracketed(mk.open) && Bracketed(mk.close) && !(mk.open <= mk.close) && !(mk.close <= mk.open)
  }

  // ---- searching ---------------------------------------------------------

  predicate At(s: string, m: string, i: nat) {
    i + |m| <= |s| && s[i..i + |m|] == m
  }

  /** Python's `find(m, i)`. */
  function FindFrom(s: string, m: string, i: nat): (r: Option<nat>)
    ensures r.Some? ==> i <= r.value && At(s, m, r.value)
    decreases |s| - i
  {
    if i + |m| > |s| then None
    else if s[i..i + |m|] == m then Some(i)
    else FindFrom(s, m, i + 1)
  }

  /** It is not found between `i` and `j`. */
  ghost predicate Absent(s: string, m: string, i: nat, j: nat) {
    forall k: nat :: i <= k < j ==> !At(s, m, k)
  }

  /** A search finds the first place, or there is none. */
  lemma {:induction false} FindsFirst(s: string, m: string, i: nat)
    ensures FindFrom(s, m, i).Some? ==> Absent(s, m, i, FindFrom(s, m, i).value)
    ensures FindFrom(s, m, i).None? ==> Absent(s, m, i, |s| + 1)
    decreases |s| - i
  {
    if i + |m| <= |s| && s[i..i + |m|] != m {
      FindsFirst(s, m, i + 1);
    }
  }

  /** The last place at or before `i`. */
  function LastUpTo(s: string, m: string, i: nat): (r: Option<nat>)
    ensures r.Some? ==> r.value <= i && At(s, m, r.value)
  {
    if At(s, m, i) then Some(i) else if i == 0 then None else LastUpTo(s, m, i - 1)
  }

  /** Python's `rfind(m)`. */
  function FindLast(s: string, m: string): Option<nat> {
    LastUpTo(s, m, |s|)
  }

  lemma {:induction false} FindsLast(s: string, m: string, i: nat)
    ensures LastUpTo(s, m, i).Some? ==> Absent(s, m, LastUpTo(s, m, i).value + 1, i + 1)
    ensures LastUpTo(s, m, i).None? ==> Absent(s, m, 0, i + 1)
  {
    if !At(s, m, i) && i > 0 {
      FindsLast(s, m, i - 1);
    }
  }

  /** Python's `count`: after each find the search goes on behind it. */
  function Count(s: string, m: string): nat
    requires m != ""
    decreases |s|
  {
    var next := FindFrom(s, m, 0);
    if next.None? then 0 else 1 + Count(s[next.value + |m|..], m)
  }

  function StripRight(s: string): (r: string)
    ensures |r| <= |s|
  {
    if s != "" && s[|s| - 1] == '\n' then StripRight(s[..|s| - 1]) else s
  }

  function StripLeft(s: string): (r: string)
    ensures |r| <= |s|
  {
    if s != "" && s[0] == '\n' then StripLeft(s[1..]) else s
  }

  /** Stripping takes away new lines, all of them at that end, and nothing else. */
  lemma {:induction false} StripsRight(s: string)
    ensures StripRight(s) <= s && (StripRight(s) == "" || StripRight(s)[|StripRight(s)| - 1] != '\n')
    ensures forall k :: |StripRight(s)| <= k < |s| ==> s[k] == '\n'
  {
    if s != "" && s[|s| - 1] == '\n' {
      StripsRight(s[..|s| - 1]);
    }
  }

  lemma {:induction false} StripsLeft(s: string)
    ensures s[|s| - |StripLeft(s)|..] == StripLeft(s) && (StripLeft(s) == "" || StripLeft(s)[0] != '\n')
    ensures forall k :: 0 <= k < |s| - |StripLeft(s)| ==> s[k] == '\n'
  {
    if s != "" && s[0] == '\n' {
      StripsLeft(s[1..]);
    }
  }

  // ---- marks -------------------------------------------------------------

  datatype Mark = Open | Close

  function MarkAt(mk: Markers, s: string, i: nat): seq<Mark> {
    if At(s, mk.open, i) then [Open] else if At(s, mk.close, i) then [Close] else []
  }

  /** The markers in a text, in order. */
  function Marks(mk: Markers, s: string): seq<Mark> {
    if s == "" then [] else MarkAt(mk, s, 0) + Marks(mk, s[1..])
  }

  function Opens(marks: seq<Mark>): nat {
    if marks == [] then 0 else (if marks[0] == Open then 1 else 0) + Opens(marks[1..])
  }

  function Closes(marks: seq<Mark>): nat {
    if marks == [] then 0 else (if marks[0] == Close then 1 else 0) + Closes(marks[1..])
  }

  // ---- seams -------------------------------------------------------------

  predicate Straddles(a: string, b: string, m: string, i: nat) {
    i < |a| < i + |m| && At(a + b, m, i)
  }

  /** No marker begins in `a` and ends in `b`. */
  ghost predicate Seam(mk: Markers, a: string, b: string) {
    forall i: nat :: !Straddles(a, b, mk.open, i) && !Straddles(a, b, mk.close, i)
  }

  lemma {:induction false} AtBehindFirst(s: string, m: string, i: nat)
    requires s != ""
    ensures At(s[1..], m, i) == At(s, m, i + 1)
  {
    if i + 1 + |m| <= |s| {
      assert s[1..][i..i + |m|] == s[i + 1..i + 1 + |m|];
    }
  }

  lemma {:induction false} SeamBehindFirst(mk: Markers, a: string, b: string)
    requires a != "" && Seam(mk, a, b)
    ensures Seam(mk, a[1..], b)
  {
    assert (a + b)[1..] == a[1..] + b;
    forall i: nat ensures !Straddles(a[1..], b, mk.open, i) && !Straddles(a[1..], b, mk.close, i) {
      AtBehindFirst(a + b, mk.open, i);
      AtBehindFirst(a + b, mk.close, i);
      assert !Straddles(a, b, mk.open, i + 1) && !Straddles(a, b, mk.close, i + 1);
    }
  }

  lemma {:induction false} AtBeforeSeam(a: string, b: string, m: string)
    requires a != "" && !Straddles(a, b, m, 0)
    ensures At(a + b, m, 0) == At(a, m, 0)
  {
    if |m| <= |a| {
      assert (a + b)[0..|m|] == a[0..|m|];
    }
  }

  /** Across a seam, marks follow one another. */
  lemma {:induction false} MarksJoin(mk: Markers, a: string, b: string)
    requires Seam(mk, a, b)
    ensures Marks(mk, a + b) == Marks(mk, a) + Marks(mk, b)
  {
    if a == "" {
      assert a + b == b;
    } else {
      assert (a + b)[1..] == a[1..] + b;
      assert !Straddles(a, b, mk.open, 0) && !Straddles(a, b, mk.close, 0);
      AtBeforeSeam(a, b, mk.open);
      AtBeforeSeam(a, b, mk.close);
      SeamBehindFirst(mk, a, b);
      MarksJoin(mk, a[1..], b);
    }
  }

  lemma {:induction false} StraddleCharacter(a: string, b: string, m: string, i: nat, k: nat)
    requires Straddles(a, b, m, i) && k < |m|
    ensures m[k] == (a + b)[i + k]
  {
    assert (a + b)[i..i + |m|][k] == m[k];
  }

  /** A text that begins like a marker, or with a new line, or is empty, can follow anything. */
  lemma {:induction false} SeamBefore(mk: Markers, a: string, b: string)
    requires Proper(mk) && (b == "" || b[0] == '<' || b[0] == '\n')
    ensures Seam(mk, a, b)
  {
    forall m: string, i: nat | (m == mk.open || m == mk.close) && Straddles(a, b, m, i) ensures false {
      StraddleCharacter(a, b, m, i, |a| - i);
    }
  }

  predicate EndsWith(s: string, m: string) {
    |m| <= |s| && s[|s| - |m|..] == m
  }

  /** Where a straddling text meets a marker at the end of `a`. */
  lemma {:induction false} StraddleMeetsMarker(a: string, b: string, m: string, i: nat, last: string)
    requires Straddles(a, b, m, i) && EndsWith(a, last) && last != ""
    ensures var from := |a| - |last|;
      && (i < from ==> m[from - i] == last[0])
      && (i > from ==> m[0] == last[i - from])
      && (i == from ==> last <= m)
  {
    var from := |a| - |last|;
    assert a[from..][0] == last[0];
    if i < from {
      StraddleCharacter(a, b, m, i, from - i);
    } else if i > from {
      StraddleCharacter(a, b, m, i, 0);
      assert a[from..][i - from] == last[i - from];
    } else {
      assert (a + b)[i..i + |m|][..|last|] == a[from..];
    }
  }

  /** Anything can follow a marker. */
  lemma {:induction false} SeamAfterMarker(mk: Markers, a: string, b: string, last: string)
    requires Proper(mk) && (last == mk.open || last == mk.close) && EndsWith(a, last)
    ensures Seam(mk, a, b)
  {
    forall m: string, i: nat | (m == mk.open || m == mk.close) && Straddles(a, b, m, i) ensures false {
      StraddleMeetsMarker(a, b, m, i, last);
    }
  }

  /** Anything can follow a new line. */
  lemma {:induction false} SeamAfterNewline(mk: Markers, a: string, b: string)
    requires Proper(mk) && (a == "" || a[|a| - 1] == '\n')
    ensures Seam(mk, a, b)
  {
    forall m: string, i: nat | (m == mk.open || m == mk.close) && Straddles(a, b, m, i) ensures false {
      StraddleCharacter(a, b, m, i, |a| - 1 - i);
    }
  }

  lemma {:induction false} OverlapCharacter(s: string, m: string, i: nat, m': string, j: nat)
    requires At(s, m, i) && At(s, m', j) && i < j && m' != ""
    ensures j < i + |m| ==> m[j - i] == m'[0]
  {
    assert s[j..j + |m'|][0] == m'[0];
    if j < i + |m| {
      assert s[i..i + |m|][j - i] == m[j - i];
    }
  }

  lemma {:induction false} SamePlace(s: string, m: string, m': string, i: nat)
    requires At(s, m, i) && At(s, m', i)
    ensures m <= m' || m' <= m
  {
    if |m| <= |m'| {
      assert s[i..i + |m'|][..|m|] == s[i..i + |m|];
    } else {
      assert s[i..i + |m|][..|m'|] == s[i..i + |m'|];
    }
  }

  /** An opening and a closing marker never overlap. */
  lemma {:induction false} MarkersApart(mk: Markers, s: string, i: nat, j: nat)
    requires Proper(mk) && At(s, mk.open, i) && At(s, mk.close, j)
    ensures if i <= j then i + |mk.open| <= j else j + |mk.close| <= i
  {
    if i < j {
      OverlapCharacter(s, mk.open, i, mk.close, j);
    } else if j < i {
      OverlapCharacter(s, mk.close, j, mk.open, i);
    } else {
      SamePlace(s, mk.open, mk.close, i);
    }
  }

  // ---- marks and searches ------------------------------------------------

  lemma {:induction false} NoMarks(mk: Markers, s: string)
    requires forall i :: 0 <= i < |s| ==> !At(s, mk.open, i) && !At(s, mk.close, i)
    ensures Marks(mk, s) == []
  {
    if s != "" {
      forall i | 0 <= i < |s[1..]| ensures !At(s[1..], mk.open, i) && !At(s[1..], mk.close, i) {
        AtBehindFirst(s, mk.open, i);
        AtBehindFirst(s, mk.close, i);
      }
      NoMarks(mk, s[1..]);
    }
  }

  lemma {:induction false} NoOpens(mk: Markers, s: string)
    requires forall i :: 0 <= i < |s| ==> !At(s, mk.open, i)
    ensures Opens(Marks(mk, s)) == 0
  {
    if s != "" {
      forall i | 0 <= i < |s[1..]| ensures !At(s[1..], mk.open, i) {
        AtBehindFirst(s, mk.open, i);
      }
      NoOpens(mk, s[1..]);
      OpensAppend(MarkAt(mk, s, 0), Marks(mk, s[1..]));
    }
  }

  lemma {:induction false} NoCloses(mk: Markers, s: string)
    requires forall i :: 0 <= i < |s| ==> !At(s, mk.close, i)
    ensures Closes(Marks(mk, s)) == 0
  {
    if s != "" {
      forall i | 0 <= i < |s[1..]| ensures !At(s[1..], mk.close, i) {
        AtBehindFirst(s, mk.close, i);
      }
      NoCloses(mk, s[1..]);
      ClosesAppend(MarkAt(mk, s, 0), Marks(mk, s[1..]));
    }
  }

  lemma {:induction false} OpensAppend(a: seq<Mark>, b: seq<Mark>)
    ensures Opens(a + b) == Opens(a) + Opens(b)
  {
    if a == [] {
      assert a + b == b;
    } else {
      assert (a + b)[1..] == a[1..] + b;
      OpensAppend(a[1..], b);
    }
  }

  lemma {:induction false} ClosesAppend(a: seq<Mark>, b: seq<Mark>)
    ensures Closes(a + b) == Closes(a) + Closes(b)
  {
    if a == [] {
      assert a + b == b;
    } else {
      assert (a + b)[1..] == a[1..] + b;
      ClosesAppend(a[1..], b);
    }
  }

  lemma {:induction false} AtPrefix(s: string, m: string, i: nat, n: nat)
    requires n <= |s| && At(s[..n], m, i)
    ensures At(s, m, i)
  {
    assert s[..n][i..i + |m|] == s[i..i + |m|];
  }

  lemma {:induction false} AtSuffix(s: string, m: string, i: nat, n: nat)
    requires n <= |s|
    ensures At(s[n..], m, i) == At(s, m, n + i)
  {
    if n + i + |m| <= |s| {
      assert s[n..][i..i + |m|] == s[n + i..n + i + |m|];
    }
  }

  lemma {:induction false} MarksOfMarker(mk: Markers, m: string)
    requires Proper(mk) && (m == mk.open || m == mk.close)
    ensures Marks(mk, m) == if m == mk.open then [Open] else [Close]
  {
    assert m[0..|m|] == m;
    forall i | 0 <= i < |m[1..]| ensures !At(m[1..], mk.open, i) && !At(m[1..], mk.close, i) {
      assert m[1..][i] == m[i + 1];
    }
    NoMarks(mk, m[1..]);
    assert At(mk.close, mk.open, 0) ==> mk.open <= mk.close;
  }

  lemma {:induction false} NewlinesHaveNoMarks(mk: Markers, s: string)
    requires Proper(mk) && forall k :: 0 <= k < |s| ==> s[k] == '\n'
    ensures Marks(mk, s) == []
  {
    forall i | 0 <= i < |s| ensures !At(s, mk.open, i) && !At(s, mk.close, i) {
      if i + |mk.open| <= |s| {
        assert s[i..i + |mk.open|][0] == '\n';
      }
      if i + |mk.close| <= |s| {
        assert s[i..i + |mk.close|][0] == '\n';
      }
    }
    NoMarks(mk, s);
  }

  /** Trailing and leading new lines carry no marks. */
  lemma {:induction false} StrippingRightKeepsMarks(mk: Markers, s: string)
    requires Proper(mk)
    ensures Marks(mk, StripRight(s)) == Marks(mk, s)
  {
    StripsRight(s);
    var left := StripRight(s);
    var tail := s[|left|..];
    assert s == left + tail;
    SeamBefore(mk, left, tail);
    MarksJoin(mk, left, tail);
    NewlinesHaveNoMarks(mk, tail);
  }

  lemma {:induction false} StrippingLeftKeepsMarks(mk: Markers, s: string)
    requires Proper(mk)
    ensures Marks(mk, StripLeft(s)) == Marks(mk, s)
  {
    StripsLeft(s);
    var right := StripLeft(s);
    var head := s[..|s| - |right|];
    assert s == head + right;
    SeamAfterNewline(mk, head, right);
    MarksJoin(mk, head, right);
    NewlinesHaveNoMarks(mk, head);
  }

  /** Where no search finds a marker there is no mark. */
  lemma {:induction false} NoOpensBefore(mk: Markers, s: string, j: nat)
    requires j <= |s| && Absent(s, mk.open, 0, j)
    ensures Opens(Marks(mk, s[..j])) == 0
  {
    forall k: nat | k < j ensures !At(s[..j], mk.open, k) {
      if At(s[..j], mk.open, k) {
        AtPrefix(s, mk.open, k, j);
      }
    }
    NoOpens(mk, s[..j]);
  }

  lemma {:induction false} NoClosesBefore(mk: Markers, s: string, j: nat)
    requires j <= |s| && Absent(s, mk.close, 0, j)
    ensures Closes(Marks(mk, s[..j])) == 0
  {
    forall k: nat | k < j ensures !At(s[..j], mk.close, k) {
      if At(s[..j], mk.close, k) {
        AtPrefix(s, mk.close, k, j);
      }
    }
    NoCloses(mk, s[..j]);
  }

  lemma {:induction false} NoClosesBetween(mk: Markers, s: string, i: nat, j: nat)
    requires i <= j <= |s| && Absent(s, mk.close, i, j)
    ensures Closes(Marks(mk, s[i..j])) == 0
  {
    forall k: nat | k < j - i ensures !At(s[i..], mk.close, k) {
      AtSuffix(s, mk.close, k, i);
    }
    NoClosesBefore(mk, s[i..], j - i);
    assert s[i..][..j - i] == s[i..j];
  }

  lemma {:induction false} NoOpensBetween(mk: Markers, s: string, i: nat, j: nat)
    requires i <= j <= |s| && Absent(s, mk.open, i, j)
    ensures Opens(Marks(mk, s[i..j])) == 0
  {
    forall k: nat | k < j - i ensures !At(s[i..], mk.open, k) {
      AtSuffix(s, mk.open, k, i);
    }
    NoOpensBefore(mk, s[i..], j - i);
    assert s[i..][..j - i] == s[i..j];
  }

  /** A marker found is a mark. */
  lemma {:induction false} FoundIsMarked(mk: Markers, s: string, m: string, i: nat)
    requires Proper(mk) && (m == mk.open || m == mk.close) && At(s, m, i)
    ensures m == mk.open ==> Opens(Marks(mk, s)) > 0
    ensures m == mk.close ==> Closes(Marks(mk, s)) > 0
  {
    var mark := if m == mk.open then Open else Close;
    var a, b := Marks(mk, s[..i]), Marks(mk, s[i + |m|..]);
    CutAt(s, m, i);
    MarksAround(mk, s[..i], m, s[i + |m|..]);
    MarkCounts(a, mark, b);
  }

  lemma {:induction false} MarkCounts(a: seq<Mark>, mark: Mark, b: seq<Mark>)
    ensures Opens(a + [mark] + b) == Opens(a) + Opens(b) + if mark == Open then 1 else 0
    ensures Closes(a + [mark] + b) == Closes(a) + Closes(b) + if mark == Close then 1 else 0
  {
    OpensAppend(a + [mark], b);
    OpensAppend(a, [mark]);
    ClosesAppend(a + [mark], b);
    ClosesAppend(a, [mark]);
    assert [mark][1..] == [];
  }

  /** A marker that begins before a seam lies before it. */
  lemma {:induction false} AtOnTheLeft(mk: Markers, a: string, b: string, m: string, k: nat)
    requires Seam(mk, a, b) && (m == mk.open || m == mk.close) && k < |a| && At(a + b, m, k)
    ensures At(a, m, k)
  {
    assert !Straddles(a, b, m, k);
    assert (a + b)[k..k + |m|] == a[k..k + |m|];
  }

  lemma {:induction false} NoOpensFrom(mk: Markers, s: string, j: nat)
    requires j <= |s| && Absent(s, mk.open, j, |s| + 1)
    ensures Opens(Marks(mk, s[j..])) == 0
  {
    forall k: nat | k < |s| - j ensures !At(s[j..], mk.open, k) {
      AtSuffix(s, mk.open, k, j);
    }
    NoOpens(mk, s[j..]);
  }

  lemma {:induction false} NoClosesFrom(mk: Markers, s: string, j: nat)
    requires j <= |s| && Absent(s, mk.close, j, |s| + 1)
    ensures Closes(Marks(mk, s[j..])) == 0
  {
    forall k: nat | k < |s| - j ensures !At(s[j..], mk.close, k) {
      AtSuffix(s, mk.close, k, j);
    }
    NoCloses(mk, s[j..]);
  }

  /** A search finds a place when nothing comes before it. */
  lemma {:induction false} FoundAt(s: string, m: string, i: nat, j: nat)
    requires i <= j && Absent(s, m, i, j) && At(s, m, j)
    ensures FindFrom(s, m, i) == Some(j)
    decreases j - i
  {
    if i < j {
      assert !At(s, m, i);
      FoundAt(s, m, i + 1, j);
    }
  }

  lemma {:induction false} CutAt(s: string, m: string, j: nat)
    requires At(s, m, j)
    ensures s == s[..j] + m + s[j + |m|..]
  {
    assert s == s[..j] + s[j..j + |m|] + s[j + |m|..];
  }

  lemma {:induction false} NothingFound(mk: Markers, s: string)
    requires Proper(mk) && FindFrom(s, mk.open, 0).None?
    ensures Count(s, mk.open) == 0 && Opens(Marks(mk, s)) == 0
  {
    FindsFirst(s, mk.open, 0);
    NoOpensBefore(mk, s, |s|);
    assert s[..|s|] == s;
  }

  lemma {:induction false} CountGoesOn(s: string, m: string, j: nat)
    requires m != "" && FindFrom(s, m, 0) == Some(j)
    ensures Count(s, m) == 1 + Count(s[j + |m|..], m)
  {
  }

  lemma {:induction false} MarksGoOn(mk: Markers, s: string, j: nat)
    requires Proper(mk) && FindFrom(s, mk.open, 0) == Some(j)
    ensures Opens(Marks(mk, s)) == 1 + Opens(Marks(mk, s[j + |mk.open|..]))
  {
    FindsFirst(s, mk.open, 0);
    FirstOpenCounts(mk, s, j);
  }

  lemma {:induction false} RestIsShorter(s: string, m: string, j: nat)
    requires m != "" && FindFrom(s, m, 0) == Some(j)
    ensures j + |m| <= |s| && |s[j + |m|..]| < |s|
  {
  }

  /** Both counts lose the first find. */
  lemma {:induction false} CountsGoOn(mk: Markers, s: string, j: nat) returns (rest: string)
    requires Proper(mk) && FindFrom(s, mk.open, 0) == Some(j)
    ensures |rest| < |s|
    ensures Count(s, mk.open) - Opens(Marks(mk, s)) == Count(rest, mk.open) - Opens(Marks(mk, rest))
  {
    RestIsShorter(s, mk.open, j);
    rest := s[j + |mk.open|..];
    CountGoesOn(s, mk.open, j);
    MarksGoOn(mk, s, j);
  }

  /** Python's count, which never looks inside a find, counts every opening marker there is. */
  lemma {:induction false} CountCountsOpens(mk: Markers, s: string)
    requires Proper(mk)
    ensures Count(s, mk.open) == Opens(Marks(mk, s))
    decreases |s|
  {
    if FindFrom(s, mk.open, 0).None? {
      NothingFound(mk, s);
    } else {
      var rest := CountsGoOn(mk, s, FindFrom(s, mk.open, 0).value);
      CountCountsOpens(mk, rest);
    }
  }

  lemma {:induction false} FirstOpenCounts(mk: Markers, s: string, j: nat)
    requires Proper(mk) && At(s, mk.open, j) && Absent(s, mk.open, 0, j)
    ensures Opens(Marks(mk, s)) == 1 + Opens(Marks(mk, s[j + |mk.open|..]))
  {
    NoOpensBefore(mk, s, j);
    OpensAcross(mk, s[..j], s[j + |mk.open|..]);
    CutAt(s, mk.open, j);
  }

  lemma {:induction false} OpensAcross(mk: Markers, before: string, behind: string)
    requires Proper(mk)
    ensures Opens(Marks(mk, before + mk.open + behind)) == Opens(Marks(mk, before)) + 1 + Opens(Marks(mk, behind))
  {
    MarksAround(mk, before, mk.open, behind);
    OpensAppend(Marks(mk, before) + [Open], Marks(mk, behind));
    OpensAppend(Marks(mk, before), [Open]);
    assert Opens([Open]) == 1 + Opens([Open][1..]);
  }

  /** A marker between two texts. */
  lemma {:induction false} MarksAround(mk: Markers, a: string, m: string, b: string)
    requires Proper(mk) && (m == mk.open || m == mk.close)
    ensures Marks(mk, a + m + b) == Marks(mk, a) + [if m == mk.open then Open else Close] + Marks(mk, b)
  {
    SeamBefore(mk, a, m);
    MarksJoin(mk, a, m);
    MarksOfMarker(mk, m);
    assert (a + m)[|a + m| - |m|..] == m;
    SeamAfterMarker(mk, a + m, b, m);
    MarksJoin(mk, a + m, b);
  }

  lemma {:induction false} MarksOfThree(mk: Markers, a: string, m: string, b: string)
    requires Seam(mk, a, m) && Seam(mk, a + m, b)
    ensures Marks(mk, a + m + b) == Marks(mk, a) + Marks(mk, m) + Marks(mk, b)
  {
    MarksJoin(mk, a, m);
    MarksJoin(mk, a + m, b);
  }

  /** New lines between two texts. */
  lemma {:induction false} MarksAroundNewlines(mk: Markers, a: string, gap: string, b: string)
    requires Proper(mk) && gap != "" && forall k :: 0 <= k < |gap| ==> gap[k] == '\n'
    ensures Marks(mk, a + gap + b) == Marks(mk, a) + Marks(mk, b)
  {
    SeamBefore(mk, a, gap);
    NewlinesHaveNoMarks(mk, gap);
    SeamAfterNewline(mk, a + gap, b);
    MarksOfThree(mk, a, gap, b);
    assert Marks(mk, a) + [] == Marks(mk, a);
  }

  /** A pair of markers in a text. */
  lemma {:induction false} MarksAroundPair(mk: Markers, a: string, inside: string, b: string)
    requires Proper(mk)
    ensures Marks(mk, a + mk.open + inside + mk.close + b)
         == Marks(mk, a) + [Open] + Marks(mk, inside) + [Close] + Marks(mk, b)
  {
    MarksAround(mk, a, mk.open, inside);
    MarksAround(mk, a + mk.open + inside, mk.close, b);
  }

  lemma {:induction false} CutPair(s: string, m: string, i: nat, m': string, j: nat)
    requires At(s, m, i) && At(s, m', j) && i + |m| <= j
    ensures s == s[..i] + m + s[i + |m|..j] + m' + s[j + |m'|..]
  {
    assert s == s[..i] + s[i..i + |m|] + s[i + |m|..j] + s[j..j + |m'|] + s[j + |m'|..];
  }
}
