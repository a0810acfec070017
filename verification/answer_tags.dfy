/** The answer convention of both agent loops: the text between a literal
    `<answer>` and the nearest following `</answer>`.  This is what
    `re.findall(r'<answer>(.*?)<\/answer>', text, re.DOTALL)` returns: a
    left-to-right scan for non-overlapping matches whose content is as short as
    possible and may span lines. */
module AnswerTags {
  import opened Text

  const Open: string := "<answer>"
  const Close: string := "</answer>"

  /** Where the content of one match lies: `text[start..end]`. */
  datatype Span = Span(start: nat, end: nat)

  /** One match: an opening tag right before `start`, a closing tag at `end`,
      and no closing tag in between (the content is the shortest possible). */
  predicate IsMatch(text: string, sp: Span)
  {
    && sp.start >= |Open|
    && sp.start <= sp.end
    && OccursAt(text, Open, sp.start - |Open|)
    && OccursAt(text, Close, sp.end)
    && forall k :: sp.start <= k < sp.end ==> !OccursAt(text, Close, k)
  }

  /** The matches found by scanning from `from` on.  The regular expression
      fails at an opening tag only when no closing tag follows it, and then it
      fails at every later position as well, so the scan can stop there. */
  function SpansFrom(text: string, from: nat): seq<Span>
    requires from <= |text|
    decreases |text| - from, 1
  {
    match FindFrom(text, Open, from)
    case None => []
    case Some(i) =>
      match FindFrom(text, Close, i + |Open|)
      case None => []
      case Some(j) => MatchThenScan(text, i + |Open|, j)
  }

  /** One match, then the scan that resumes after its closing tag. */
  function MatchThenScan(text: string, start: nat, end: nat): seq<Span>
    requires start <= end && end + |Close| <= |text|
    decreases |text| - end, 0
  {
    [Span(start, end)] + SpansFrom(text, end + |Close|)
  }

  /** Where the scan from `from` finds its first match. */
  lemma SpansFromStep(text: string, from: nat, i: nat, j: nat)
    requires from <= |text| && FindFrom(text, Open, from) == Some(i)
    requires i + |Open| <= |text| && FindFrom(text, Close, i + |Open|) == Some(j)
    ensures i + |Open| <= j && j + |Close| <= |text|
    ensures SpansFrom(text, from) == MatchThenScan(text, i + |Open|, j)
  {
    FoundWithin(text, Close, i + |Open|, j);
  }

  /** The spans found from `from` on are exactly the scan the regular
      expression makes from there. */
  lemma {:induction false} SpansFromScanned(text: string, from: nat)
    requires from <= |text|
    ensures Scanned(text, SpansFrom(text, from), from)
    decreases |text| - from
  {
    var sps := SpansFrom(text, from);
    if sps == [] {
      ScanStops(text, from);
    } else {
      ScanFirst(text, from);
      SpansFromScanned(text, sps[0].end + |Close|);
      ScannedFold(text, sps, from);
    }
  }

  /** A leftmost first match followed by a scan from its closing tag on is a
      scan from `from`. */
  lemma ScannedFold(text: string, sps: seq<Span>, from: nat)
    requires sps != [] && IsMatch(text, sps[0]) && from + |Open| <= sps[0].start
    requires forall k :: from <= k < sps[0].start - |Open| ==> !OccursAt(text, Open, k)
    requires Scanned(text, sps[1..], sps[0].end + |Close|)
    ensures Scanned(text, sps, from)
  {
  }

  /** A scan that finds nothing leaves no match after `from`. */
  lemma ScanStops(text: string, from: nat)
    requires from <= |text| && SpansFrom(text, from) == []
    ensures NoMatchFrom(text, from)
  {
    var oi := FindFrom(text, Open, from);
    FindFromFirst(text, Open, from);
    if oi.Some? {
      var oj := FindFrom(text, Close, oi.value + |Open|);
      assert oj.None?;
      NoCloseAfterFirst(text, from, oi.value);
    }
  }

  /** A scan from a place after which the expression still matches finds
      something. */
  lemma ScanFinds(text: string, from: nat)
    requires from <= |text| && !NoMatchFrom(text, from)
    ensures SpansFrom(text, from) != []
  {
    var i', j' :| from <= i' && i' + |Open| <= j' && OccursAt(text, Open, i') && OccursAt(text, Close, j');
    FindFromFirst(text, Open, from);
    var oi := FindFrom(text, Open, from);
    assert oi.Some?;
    var i := oi.value;
    assert i <= i';
    FindFromFirst(text, Close, i + |Open|);
    var oj := FindFrom(text, Close, i + |Open|);
    assert oj.Some?;
    SpansFromStep(text, from, i, oj.value);
    MatchThenScanCons(text, i + |Open|, oj.value);
  }

  /** A scan that finds something starts with the leftmost match after
      `from` and goes on after its closing tag. */
  lemma ScanFirst(text: string, from: nat)
    requires from <= |text| && SpansFrom(text, from) != []
    ensures var sps := SpansFrom(text, from);
      && IsMatch(text, sps[0]) && from + |Open| <= sps[0].start
      && (forall k :: from <= k < sps[0].start - |Open| ==> !OccursAt(text, Open, k))
      && sps[0].end + |Close| <= |text|
      && sps[1..] == SpansFrom(text, sps[0].end + |Close|)
  {
    var oi := FindFrom(text, Open, from);
    assert oi.Some?;
    var i := oi.value;
    var oj := FindFrom(text, Close, i + |Open|);
    assert oj.Some?;
    var j := oj.value;
    ScanFirstAt(text, from, i, j);
  }

  /** The scan from `from`, split at the match its two searches find. */
  lemma ScanFirstAt(text: string, from: nat, i: nat, j: nat)
    requires from <= |text| && FindFrom(text, Open, from) == Some(i)
    requires i + |Open| <= |text| && FindFrom(text, Close, i + |Open|) == Some(j)
    ensures j + |Close| <= |text| && SpansFrom(text, from) != []
    ensures SpansFrom(text, from)[0] == Span(i + |Open|, j)
    ensures SpansFrom(text, from)[1..] == SpansFrom(text, j + |Close|)
    ensures IsMatch(text, Span(i + |Open|, j))
    ensures forall k :: from <= k < i ==> !OccursAt(text, Open, k)
  {
    FoundMatch(text, i, j);
    FindFromFirst(text, Open, from);
    SpansFromStep(text, from, i, j);
    MatchThenScanCons(text, i + |Open|, j);
    SplitFirst(MatchThenScan(text, i + |Open|, j), Span(i + |Open|, j), SpansFrom(text, j + |Close|));
  }

  /** A sequence built as one element and a rest splits back into them. */
  lemma SplitFirst(sps: seq<Span>, sp: Span, rest: seq<Span>)
    requires sps == [sp] + rest
    ensures sps != [] && sps[0] == sp && sps[1..] == rest
  {
  }

  /** One unfolding of `MatchThenScan`. */
  lemma MatchThenScanCons(text: string, start: nat, end: nat)
    requires start <= end && end + |Close| <= |text|
    ensures MatchThenScan(text, start, end) == [Span(start, end)] + SpansFrom(text, end + |Close|)
  {
  }

  /** An opening tag and the nearest closing tag after it make a match. */
  lemma FoundMatch(text: string, i: nat, j: nat)
    requires OccursAt(text, Open, i)
    requires i + |Open| <= |text| && FindFrom(text, Close, i + |Open|) == Some(j)
    ensures IsMatch(text, Span(i + |Open|, j))
  {
    FindFromFirst(text, Close, i + |Open|);
  }

  /** A match, none of whose opening tags has an earlier one after `from`,
      followed by a scan from its closing tag on, is a scan from `from`. */
  lemma ScannedIntro(text: string, sp: Span, rest: seq<Span>, from: nat)
    requires IsMatch(text, sp) && from + |Open| <= sp.start
    requires forall k :: from <= k < sp.start - |Open| ==> !OccursAt(text, Open, k)
    requires Scanned(text, rest, sp.end + |Close|)
    ensures Scanned(text, [sp] + rest, from)
  {
    assert ([sp] + rest)[1..] == rest;
  }

  /** When no closing tag follows the first opening tag, none follows any
      later one either. */
  lemma NoCloseAfterFirst(text: string, from: nat, i: nat)
    requires from <= |text| && FindFrom(text, Open, from) == Some(i)
    requires i + |Open| <= |text| && FindFrom(text, Close, i + |Open|) == None
    ensures NoMatchFrom(text, from)
  {
    FindFromFirst(text, Open, from);
    FindFromFirst(text, Close, i + |Open|);
    forall i', j | from <= i' && i' + |Open| <= j && OccursAt(text, Open, i')
      ensures !OccursAt(text, Close, j)
    {
      assert i <= i';
    }
  }

  /** No opening tag at or after `from` has a closing tag after it: the
      regular expression matches nowhere from there on. */
  ghost predicate NoMatchFrom(text: string, from: nat)
  {
    forall i, j :: from <= i && i + |Open| <= j && OccursAt(text, Open, i) ==> !OccursAt(text, Close, j)
  }

  /** What `re.findall` finds from `from` on: the first match starts at the
      first opening tag at or after `from`, the scan goes on after its closing
      tag, and it ends where the expression matches nowhere any more. */
  ghost predicate Scanned(text: string, sps: seq<Span>, from: nat)
    decreases |sps|
  {
    if sps == [] then NoMatchFrom(text, from)
    else
      && IsMatch(text, sps[0])
      && from + |Open| <= sps[0].start
      && (forall k :: from <= k < sps[0].start - |Open| ==> !OccursAt(text, Open, k))
      && Scanned(text, sps[1..], sps[0].end + |Close|)
  }

  /** There is only one such scan: the spans are fixed by the text. */
  lemma {:induction false} ScanUnique(text: string, a: seq<Span>, b: seq<Span>, from: nat)
    requires Scanned(text, a, from) && Scanned(text, b, from)
    ensures a == b
    decreases |a|
  {
    if a == [] && b != [] {
      MatchBlocksEmpty(text, b[0], from);
    } else if a != [] && b == [] {
      MatchBlocksEmpty(text, a[0], from);
    } else if a != [] {
      SameFirst(text, a[0], b[0], from);
      ScanUnique(text, a[1..], b[1..], a[0].end + |Close|);
      assert a == [a[0]] + a[1..] && b == [b[0]] + b[1..];
    }
  }

  /** A match whose opening tag starts at or after `from` rules out an empty scan. */
  lemma MatchBlocksEmpty(text: string, sp: Span, from: nat)
    requires IsMatch(text, sp) && from + |Open| <= sp.start
    ensures !NoMatchFrom(text, from)
  {
    assert OccursAt(text, Open, sp.start - |Open|) && sp.start - |Open| + |Open| <= sp.end;
  }

  /** Two scans from the same place start with the same match. */
  lemma SameFirst(text: string, x: Span, y: Span, from: nat)
    requires IsMatch(text, x) && from + |Open| <= x.start
    requires forall k :: from <= k < x.start - |Open| ==> !OccursAt(text, Open, k)
    requires IsMatch(text, y) && from + |Open| <= y.start
    requires forall k :: from <= k < y.start - |Open| ==> !OccursAt(text, Open, k)
    ensures x == y
  {
    assert OccursAt(text, Open, x.start - |Open|) && OccursAt(text, Open, y.start - |Open|);
    assert x.start == y.start;
    assert OccursAt(text, Close, x.end) && OccursAt(text, Close, y.end);
  }

  /** The first span is the leftmost match in the text. */
  lemma FirstSpanLeftmost(text: string, sp: Span)
    requires IsMatch(text, sp)
    ensures Spans(text) != [] && Spans(text)[0].start <= sp.start
  {
    SpansFromScanned(text, 0);
    assert OccursAt(text, Open, sp.start - |Open|) && OccursAt(text, Close, sp.end);
  }

  /** After a scan's last closing tag the expression matches nowhere. */
  lemma {:induction false} ScanEnds(text: string, sps: seq<Span>, from: nat)
    requires Scanned(text, sps, from) && sps != []
    ensures NoMatchFrom(text, sps[|sps| - 1].end + |Close|)
    decreases |sps|
  {
    if |sps| > 1 {
      ScanEnds(text, sps[1..], sps[0].end + |Close|);
      assert sps[1..][|sps[1..]| - 1] == sps[|sps| - 1];
    }
  }

  /** No match has its opening tag after the last span's closing tag. */
  lemma NothingAfterLast(text: string, sp: Span)
    requires Spans(text) != [] && IsMatch(text, sp)
    ensures var sps := Spans(text); sp.start - |Open| < sps[|sps| - 1].end + |Close|
  {
    var sps := Spans(text);
    SpansFromScanned(text, 0);
    ScanEnds(text, sps, 0);
    assert OccursAt(text, Open, sp.start - |Open|) && OccursAt(text, Close, sp.end);
  }

  /** Every span of such a scan is a match. */
  lemma {:induction false} ScannedMatch(text: string, sps: seq<Span>, from: nat)
    requires Scanned(text, sps, from)
    ensures forall k :: 0 <= k < |sps| ==> IsMatch(text, sps[k])
    decreases |sps|
  {
    if sps != [] {
      var rest := sps[1..];
      ScannedMatch(text, rest, sps[0].end + |Close|);
      forall k | 0 < k < |sps| ensures IsMatch(text, sps[k]) {
        assert sps[k] == rest[k - 1];
      }
    }
  }

  /** The spans of such a scan come in order and do not overlap: each
      opening tag lies after the previous closing tag. */
  lemma {:induction false} SpansInOrder(text: string, sps: seq<Span>, from: nat)
    requires Scanned(text, sps, from)
    ensures forall k :: 0 <= k < |sps| ==> from + |Open| <= sps[k].start
    ensures forall k :: 0 <= k < |sps| - 1 ==> sps[k].end + |Close| + |Open| <= sps[k + 1].start
    decreases |sps|
  {
    if sps != [] {
      var rest := sps[1..];
      SpansInOrder(text, rest, sps[0].end + |Close|);
      assert sps[0].start <= sps[0].end;
      forall k | 0 < k < |sps| ensures from + |Open| <= sps[k].start {
        assert sps[k] == rest[k - 1];
      }
      forall k | 0 < k < |sps| - 1
        ensures sps[k].end + |Close| + |Open| <= sps[k + 1].start
      {
        assert sps[k] == rest[k - 1] && sps[k + 1] == rest[k];
      }
    }
  }

  function Spans(text: string): seq<Span>
  {
    SpansFrom(text, 0)
  }

  /** The contents of all matches, in order: what `re.findall` returns. */
  function Matches(text: string): (ms: seq<string>)
    ensures |ms| == |Spans(text)|
  {
    var sps := Spans(text);
    SpansFromScanned(text, 0);
    ScannedMatch(text, sps, 0);
    seq(|sps|, k requires 0 <= k < |sps| => text[sps[k].start..sps[k].end])
  }

  /** The `k`-th returned string is the content of the `k`-th match of the scan. */
  lemma MatchesAreSpans(text: string)
    ensures forall k :: 0 <= k < |Matches(text)| ==>
      && Spans(text)[k].start <= Spans(text)[k].end <= |text|
      && Matches(text)[k] == text[Spans(text)[k].start..Spans(text)[k].end]
  {
    SpansFromScanned(text, 0);
    ScannedMatch(text, Spans(text), 0);
  }

  /** Every returned string is the content of a match: it stands between an
      opening and a closing tag and holds no closing tag of its own. */
  lemma MatchesAreTagContents(text: string, k: nat)
    requires k < |Matches(text)|
    ensures exists sp :: IsMatch(text, sp) && Matches(text)[k] == text[sp.start..sp.end]
  {
    SpansFromScanned(text, 0);
    ScannedMatch(text, Spans(text), 0);
    var sp := Spans(text)[k];
    assert IsMatch(text, sp);
  }

  /** The scan finds something exactly when the text holds an opening tag
      followed, somewhere after it, by a closing tag. */
  lemma {:induction false} MatchesExistIff(text: string)
    ensures Matches(text) != [] <==>
      exists i: nat, j: nat :: OccursAt(text, Open, i) && i + |Open| <= j && OccursAt(text, Close, j)
  {
    if Matches(text) != [] {
      SpansFromScanned(text, 0);
      var sp := Spans(text)[0];
      assert IsMatch(text, sp);
      assert OccursAt(text, Open, sp.start - |Open|) && sp.start - |Open| + |Open| <= sp.end;
    }
    if exists i: nat, j: nat :: OccursAt(text, Open, i) && i + |Open| <= j && OccursAt(text, Close, j) {
      var i: nat, j: nat :| OccursAt(text, Open, i) && i + |Open| <= j && OccursAt(text, Close, j);
      assert !NoMatchFrom(text, 0);
      ScanFinds(text, 0);
    }
  }

  /** A character inside an occurrence of `pat` is the matching character of `pat`. */
  lemma CharOfOccurrence(s: string, pat: string, k: nat, p: nat)
    requires k <= p < |s|
    ensures OccursAt(s, pat, k) && p < k + |pat| ==> s[p] == pat[p - k]
  {
    if OccursAt(s, pat, k) && p < k + |pat| {
      assert s[k..k + |pat|][p - k] == s[p];
    }
  }

  /** In one tagged answer without a closing tag of its own, the first
      closing tag after the opening one is the final one. */
  lemma NoEarlyClose(x: string)
    requires forall k :: !OccursAt(x, Close, k)
    ensures forall k :: |Open| <= k < |Open| + |x| ==> !OccursAt(Open + x + Close, Close, k)
  {
    var text := Open + x + Close;
    var e := |Open| + |x|;
    forall k | |Open| <= k < e
      ensures !OccursAt(text, Close, k)
    {
      if k + |Close| <= e {
        assert text[k..k + |Close|] == x[k - |Open|..k - |Open| + |Close|];
        assert !OccursAt(x, Close, k - |Open|);
      } else {
        // a closing tag here would straddle the end of `x`; its only '<' is
        // its first character, yet the tag after `x` puts a '<' inside it
        assert text[e] == '<';
        assert forall t :: 1 <= t < |Close| ==> Close[t] != '<';
        CharOfOccurrence(text, Close, k, e);
      }
    }
  }

  /** A text that is exactly one tagged answer yields that answer and nothing else. */
  lemma SingleAnswer(x: string)
    requires forall k :: !OccursAt(x, Close, k)
    ensures Matches(Open + x + Close) == [x]
  {
    var text := Open + x + Close;
    assert OccursAt(text, Open, 0);
    FoundAt(text, Open, 0, 0);
    var e := |Open| + |x|;
    assert OccursAt(text, Close, e) by {
      assert text[e..e + |Close|] == Close;
    }
    NoEarlyClose(x);
    FoundAt(text, Close, |Open|, e);
    assert e + |Close| == |text|;
    SpansFromStep(text, 0, 0, e);
    MatchThenScanCons(text, |Open|, e);
    assert SpansFrom(text, |text|) == [];
    assert text[|Open|..e] == x;
  }

  /** The first answer-loop acceptance scenario: a turn reading exactly
      `<answer>24</answer>` carries the answer "24". */
  lemma TwentyFourAnswer()
    ensures Matches("<answer>24</answer>") == ["24"]
  {
    forall k ensures !OccursAt("24", Close, k) {}
    SingleAnswer("24");
    assert Open + "24" + Close == "<answer>24</answer>";
  }
}
