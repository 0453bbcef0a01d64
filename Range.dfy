/**
 * Range.java: a byte range and its HTTP Range header value
 * `bytes=<start>-` or `bytes=<start>-<end>` (sections 2.1 and 3.1 of RFC 7233).
 */
module Range {
  import opened Wrappers
  import opened JavaLang

  /** A start position and an end position that may be absent (the boxed Long left null). */
  datatype Range = Range(startPos: int, endPos: Option<int>)

  /** `new Range(startPos)`: open-ended. */
  function Open(startPos: int): (r: Range)
    ensures r.startPos == startPos && r.endPos == None
  {
    Range(startPos, None)
  }

  /** `new Range(startPos, endPos)`. */
  function Bounded(startPos: int, endPos: int): (r: Range)
    ensures r.startPos == startPos && r.endPos == Some(endPos)
  {
    Range(startPos, Some(endPos))
  }

  const UNIT: string := "bytes="

  /** getRangeHeader. */
  function Header(r: Range): string {
    UNIT + IntToDecimal(r.startPos) + "-" + (if r.endPos.Some? then IntToDecimal(r.endPos.value) else "")
  }

  /** Index of the first '-' at or after i, or |s| when there is none. */
  function DashFrom(s: string, i: nat): (k: nat)
    requires i <= |s|
    ensures i <= k <= |s|
    ensures k < |s| ==> s[k] == '-'
    ensures forall j :: i <= j < k ==> s[j] != '-'
    decreases |s| - i
  {
    if i == |s| || s[i] == '-' then i else DashFrom(s, i + 1)
  }

  /** Reads a header value back; the leading '-' of a negative start is part of the number. */
  function ParseHeader(h: string): Option<Range> {
    if !(UNIT <= h) || |h| == |UNIT| then None
    else
      var spec := h[|UNIT|..];
      var k := DashFrom(spec, 1);
      if k == |spec| then None
      else
        match ParseInt(spec[..k])
        case None => None
        case Some(start) =>
          var rest := spec[k + 1..];
          if rest == "" then Some(Range(start, None))
          else match ParseInt(rest)
            case None => None
            case Some(end) => Some(Range(start, Some(end)))
  }

  lemma {:induction false} DashLandsAfterNumber(s: string, n: nat, i: nat)
    requires 1 <= i <= n < |s| && s[n] == '-'
    requires forall j :: 1 <= j < n ==> s[j] != '-'
    ensures DashFrom(s, i) == n
    decreases n - i
  {
    if i < n {
      DashLandsAfterNumber(s, n, i + 1);
    }
  }

  /**
   * A worked example of the two header forms, read off Header: the
   * open-ended one is `bytes=`, the start in decimal and `-`; the bounded
   * one continues it with the end, so the open one is a proper prefix of it.
   * HeaderShape and HeaderRoundTrip are what is proved about Header.
   */
  lemma HeaderForms(startPos: int, endPos: int)
    ensures Header(Open(startPos)) == UNIT + IntToDecimal(startPos) + "-"
    ensures Header(Bounded(startPos, endPos)) == Header(Open(startPos)) + IntToDecimal(endPos)
    ensures Header(Open(startPos)) < Header(Bounded(startPos, endPos))
  {
  }

  /**
   * A header starts with the unit and ends in '-' exactly when the range is
   * open-ended, since a number ends in a digit.
   */
  lemma HeaderShape(r: Range)
    ensures UNIT <= Header(r) && |Header(r)| > |UNIT| + 1
    ensures Header(r)[|Header(r)| - 1] == '-' <==> r.endPos.None?
  {
  }

  /** A number followed by '-' and a tail splits back at that dash. */
  lemma SplitsAtDash(number: string, tail: string)
    requires |number| >= 1 && forall j :: 1 <= j < |number| ==> number[j] != '-'
    ensures var spec := number + "-" + tail;
      DashFrom(spec, 1) == |number| && spec[..|number|] == number && spec[|number| + 1..] == tail
  {
    var spec := number + "-" + tail;
    DashLandsAfterNumber(spec, |number|, 1);
  }

  /** The header determines the range: start and end are recovered from it. */
  lemma {:induction false} HeaderRoundTrip(r: Range)
    ensures ParseHeader(Header(r)) == Some(r)
  {
    var h := Header(r);
    var start := IntToDecimal(r.startPos);
    var tail := if r.endPos.Some? then IntToDecimal(r.endPos.value) else "";
    var spec := start + "-" + tail;
    assert h == UNIT + spec;
    assert UNIT <= h && h[|UNIT|..] == spec && |h| != |UNIT|;
    SplitsAtDash(start, tail);
    ParseIntInverts(r.startPos);
    assert ParseInt(spec[..|start|]) == Some(r.startPos);
    if r.endPos.Some? {
      ParseIntInverts(r.endPos.value);
      assert tail != "" && ParseInt(spec[|start| + 1..]) == Some(r.endPos.value);
    }
  }
}
