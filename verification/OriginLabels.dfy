/** The label a job carries to another machine: which machine it came from and its id there. */
module OriginLabels {
  import opened Wrappers

  const PREFIX := "wq-origin"

  // ---- decimal numerals --------------------------------------------------

  predicate IsDigit(c: char) {
    '0' <= c <= '9'
  }

  /** Python's `isdigit` on ASCII text: at least one character, and nothing but digits. */
  predicate AllDigits(s: string) {
    s != "" && forall i :: 0 <= i < |s| ==> IsDigit(s[i])
  }

  function Digit(n: nat): char
    requires n < 10
  {
    '0' + n as char
  }

  function Numeral(n: nat): string {
    if n < 10 then [Digit(n)] else Numeral(n / 10) + [Digit(n % 10)]
  }

  function Decimal(n: int): string {
    if n < 0 then "-" + Numeral(-n) else Numeral(n)
  }

  function ReadNumeral(s: string): nat
    requires forall i :: 0 <= i < |s| ==> IsDigit(s[i])
  {
    if s == "" then 0
    else
      assert IsDigit(s[|s| - 1]);
      ReadNumeral(s[..|s| - 1]) * 10 + (s[|s| - 1] as int - '0' as int)
  }

  lemma {:induction false} NumeralReadsBack(n: nat)
    ensures AllDigits(Numeral(n)) && ReadNumeral(Numeral(n)) == n
  {
    if n >= 10 {
      NumeralReadsBack(n / 10);
      assert Numeral(n)[..|Numeral(n)| - 1] == Numeral(n / 10);
    } else {
      assert Numeral(n)[..0] == "";
    }
  }

  // ---- splitting on colons -----------------------------------------------

  function Split(s: string): (parts: seq<string>)
    ensures |parts| >= 1
  {
    if s == "" then [""]
    else
      var rest := Split(s[1..]);
      if s[0] == ':' then [""] + rest else [[s[0]] + rest[0]] + rest[1..]
  }

  function Join(parts: seq<string>): string {
    if parts == [] then ""
    else if |parts| == 1 then parts[0]
    else parts[0] + ":" + Join(parts[1..])
  }

  lemma {:induction false} JoinUndoesSplit(s: string)
    ensures Join(Split(s)) == s
  {
    if s != "" {
      JoinUndoesSplit(s[1..]);
      var rest := Split(s[1..]);
      if s[0] == ':' {
        assert ([""] + rest)[1..] == rest;
      } else {
        var parts := [[s[0]] + rest[0]] + rest[1..];
        assert parts[1..] == rest[1..];
        if |rest| > 1 {
          assert [s[0]] + rest[0] + ":" + Join(rest[1..]) == [s[0]] + (rest[0] + ":" + Join(rest[1..]));
        } else {
          assert Join(rest) == rest[0];
        }
      }
    }
  }

  function SplitAfter(c: char, parts: seq<string>): (r: seq<string>)
    requires |parts| >= 1
    ensures |r| >= 1
  {
    if c == ':' then [""] + parts else [[c] + parts[0]] + parts[1..]
  }

  lemma {:induction false} SplitFirst(s: string)
    requires s != ""
    ensures Split(s) == SplitAfter(s[0], Split(s[1..]))
  {
  }

  lemma {:induction false} SplitAfterAppend(c: char, parts: seq<string>, more: seq<string>)
    requires |parts| >= 1
    ensures SplitAfter(c, parts + more) == SplitAfter(c, parts) + more
  {
    assert (parts + more)[1..] == parts[1..] + more;
  }

  lemma {:induction false} SplitAtColon(a: string, b: string)
    ensures Split(a + ":" + b) == Split(a) + Split(b)
  {
    var whole := a + ":" + b;
    SplitFirst(whole);
    if a == "" {
      assert whole[1..] == b;
    } else {
      assert whole[0] == a[0] && whole[1..] == a[1..] + ":" + b;
      SplitAtColon(a[1..], b);
      SplitFirst(a);
      SplitAfterAppend(a[0], Split(a[1..]), Split(b));
    }
  }

  lemma {:induction false} NoColonNoSplit(s: string)
    requires forall i :: 0 <= i < |s| ==> s[i] != ':'
    ensures Split(s) == [s]
  {
    if s != "" {
      NoColonNoSplit(s[1..]);
      assert [s[0]] + s[1..] == s;
    }
  }

  // ---- labels ------------------------------------------------------------

  function OriginLabel(host: string, id: int): string {
    PREFIX + ":" + host + ":" + Decimal(id)
  }

  predicate StartsWith(s: string, prefix: string) {
    |prefix| <= |s| && s[..|prefix|] == prefix
  }

  datatype Origin = Origin(host: string, id: nat)

  function ParseOriginLabel(text: string): Option<Origin> {
    if !StartsWith(text, PREFIX + ":") then None
    else
      var parts := Split(text);
      var n := |parts|;
      if n < 3 || !AllDigits(parts[n - 1]) then None
      else Some(Origin(Join(parts[1..n - 1]), ReadNumeral(parts[n - 1])))
  }

  lemma {:induction false} ThreeParts(first: string, middle: string, last: string)
    requires forall i :: 0 <= i < |first| ==> first[i] != ':'
    requires forall i :: 0 <= i < |last| ==> last[i] != ':'
    ensures Split(first + ":" + middle + ":" + last) == [first] + Split(middle) + [last]
  {
    NoColonNoSplit(first);
    NoColonNoSplit(last);
    assert first + ":" + middle + ":" + last == first + ":" + (middle + ":" + last);
    SplitAtColon(first, middle + ":" + last);
    SplitAtColon(middle, last);
  }

  lemma {:induction false} LabelParts(host: string, id: int)
    ensures Split(OriginLabel(host, id)) == [PREFIX] + Split(host) + [Decimal(id)]
  {
    NumeralReadsBack(if id < 0 then -id else id);
    ThreeParts(PREFIX, host, Decimal(id));
  }

  /** The round trip, for every host name, colons included: a label names the job it was made for,
      exactly when the id is one a job can have. */
  lemma {:induction false} LabelRoundTrip(host: string, id: int)
    ensures id >= 0 ==> ParseOriginLabel(OriginLabel(host, id)) == Some(Origin(host, id))
    ensures id < 0 ==> ParseOriginLabel(OriginLabel(host, id)) == None
  {
    LabelParts(host, id);
    var text, parts := OriginLabel(host, id), Split(OriginLabel(host, id));
    assert text[..|PREFIX + ":"|] == PREFIX + ":";
    assert parts[|parts| - 1] == Decimal(id);
    if id < 0 {
      assert !IsDigit(Decimal(id)[0]);
    } else {
      NumeralReadsBack(id);
      assert parts[1..|parts| - 1] == Split(host);
      JoinUndoesSplit(host);
    }
  }

  /** No two jobs share a label, whichever machines they came from. */
  lemma {:induction false} LabelsAreUnique(host: string, id: nat, host': string, id': nat)
    requires OriginLabel(host, id) == OriginLabel(host', id')
    ensures host == host' && id == id'
  {
    LabelRoundTrip(host, id);
    LabelRoundTrip(host', id');
  }
}
