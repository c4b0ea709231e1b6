/** Which lines of a log a scan looks at (skills/src/log-guard.ts, `selectLinesForScan`): those whose block
    lies in the time window, a block being a line with a timestamp and the lines without one below it. The
    loop is proved against a description that determines the selection. */
module LogWindow {
  import opened Common
  import opened LogWatch

  /** The limits in milliseconds; `tailLines` is positive when given. */
  datatype Scan = Scan(since: Option<int>, until: Option<int>, tailLines: Option<nat>)

  predicate InWindow(scan: Scan, timestamp: int) {
    (scan.since.Some? ==> timestamp >= scan.since.value) && (scan.until.Some? ==> timestamp <= scan.until.value)
  }

  /** The timestamp of the nearest line at or above line `i` that has one. */
  function Nearest(lines: seq<LogLine>, stamp: string -> Option<int>, i: nat): Option<int>
    requires i < |lines|
  {
    if stamp(lines[i].text).Some? then stamp(lines[i].text)
    else if i == 0 then None
    else Nearest(lines, stamp, i - 1)
  }

  predicate Wanted(lines: seq<LogLine>, stamp: string -> Option<int>, scan: Scan, i: nat)
    requires i < |lines|
  {
    var nearest := Nearest(lines, stamp, i);
    nearest.Some? && InWindow(scan, nearest.value)
  }

  /** Strictly rising indices of `lines`, exactly those of the wanted lines. */
  ghost predicate PicksWanted(picks: seq<nat>, lines: seq<LogLine>, stamp: string -> Option<int>, scan: Scan, n: nat)
    requires n <= |lines|
  {
    (forall a, b :: 0 <= a < b < |picks| ==> picks[a] < picks[b])
    && (forall a :: 0 <= a < |picks| ==> picks[a] < n)
    && forall i :: 0 <= i < n ==> (i in picks <==> Wanted(lines, stamp, scan, i))
  }

  ghost predicate At(selected: seq<LogLine>, lines: seq<LogLine>, picks: seq<nat>) {
    |selected| == |picks| && forall a :: 0 <= a < |picks| ==> picks[a] < |lines| && selected[a] == lines[picks[a]]
  }

  /** The indices of the first `n` lines that have a timestamp. */
  ghost function Stamped(lines: seq<LogLine>, stamp: string -> Option<int>, n: nat): set<nat>
    requires n <= |lines|
  {
    set i: nat | i < n && stamp(lines[i].text).Some?
  }

  lemma OneStampMore(lines: seq<LogLine>, stamp: string -> Option<int>, n: nat)
    requires n < |lines|
    ensures |Stamped(lines, stamp, n + 1)| == |Stamped(lines, stamp, n)| + if stamp(lines[n].text).Some? then 1 else 0
  {
    var s := Stamped(lines, stamp, n);
    assert Stamped(lines, stamp, n + 1) == if stamp(lines[n].text).Some? then s + {n} else s;
  }

  /** The last `n` lines, or all of them if there are no more. */
  function Last(lines: seq<LogLine>, tailLines: Option<nat>): seq<LogLine> {
    if tailLines.Some? && |lines| > tailLines.value then lines[|lines| - tailLines.value..] else lines
  }

  /** The callback of `filter`, run over the lines with its two closure variables. */
  method FilterLines(lines: seq<LogLine>, scan: Scan, stamp: string -> Option<int>)
    returns (filtered: seq<LogLine>, timestampedLineCount: nat, ghost picks: seq<nat>)
    ensures PicksWanted(picks, lines, stamp, scan, |lines|) && At(filtered, lines, picks)
    ensures timestampedLineCount == |Stamped(lines, stamp, |lines|)|
  {
    var includeCurrentBlock := false;
    filtered, timestampedLineCount, picks := [], 0, [];
    for i := 0 to |lines|
      invariant includeCurrentBlock == (i > 0 && Wanted(lines, stamp, scan, i - 1))
      invariant PicksWanted(picks, lines, stamp, scan, i) && At(filtered, lines, picks)
      invariant timestampedLineCount == |Stamped(lines, stamp, i)|
    {
      hide PicksWanted, Stamped, At, Wanted, Nearest;
      OneStampMore(lines, stamp, i);
      ghost var before := picks;
      var timestamp := stamp(lines[i].text);
      if timestamp.Some? {
        timestampedLineCount := timestampedLineCount + 1;
        includeCurrentBlock :=
          (scan.since.None? || timestamp.value >= scan.since.value) && (scan.until.None? || timestamp.value <= scan.until.value);
      }
      if includeCurrentBlock {
        assert At(filtered + [lines[i]], lines, picks + [i]);
        filtered := filtered + [lines[i]];
        picks := picks + [i];
      }
    }
  }

  /** `selectLinesForScan`. With a limit and a timestamped line, exactly the wanted lines in their order;
      otherwise all lines; in both cases cut to the last `tailLines`. */
  method SelectLinesForScan(lines: seq<LogLine>, scan: Scan, stamp: string -> Option<int>)
    returns (selected: seq<LogLine>, timestampedLineCount: nat, ghost chosen: seq<LogLine>, ghost picks: seq<nat>)
    ensures selected == Last(chosen, scan.tailLines)
    ensures if (scan.since.Some? || scan.until.Some?) && Stamped(lines, stamp, |lines|) != {}
            then PicksWanted(picks, lines, stamp, scan, |lines|) && At(chosen, lines, picks)
            else chosen == lines
    ensures timestampedLineCount == |Stamped(lines, stamp, |lines|)|
  {
    hide PicksWanted, At, Stamped;
    selected := lines;
    var filtered;
    filtered, timestampedLineCount, picks := FilterLines(lines, scan, stamp);
    if scan.since.Some? || scan.until.Some? {
      selected := if timestampedLineCount == 0 then lines else filtered;
    }
    chosen := selected;
    if scan.tailLines.Some? && |selected| > scan.tailLines.value {
      selected := selected[|selected| - scan.tailLines.value..];
    }
  }

  /** The selection is determined: two lists of picks for the same window are the same list. */
  lemma {:induction false} PicksAreUnique(p: seq<nat>, q: seq<nat>, lines: seq<LogLine>, stamp: string -> Option<int>, scan: Scan, n: nat)
    requires n <= |lines| && PicksWanted(p, lines, stamp, scan, n) && PicksWanted(q, lines, stamp, scan, n)
    ensures p == q
    decreases n
  {
    if n == 0 {
      NoneBelow(p, n);
      NoneBelow(q, n);
    } else {
      var p' := WithoutLast(p, lines, stamp, scan, n);
      var q' := WithoutLast(q, lines, stamp, scan, n);
      PicksAreUnique(p', q', lines, stamp, scan, n - 1);
    }
  }

  lemma NoneBelow(p: seq<nat>, n: nat)
    requires forall a :: 0 <= a < |p| ==> p[a] < n
    ensures n == 0 ==> p == []
  {
    if p != [] { assert p[0] < n; }
  }

  lemma LastIsGreatest(p: seq<nat>, a: nat)
    requires a < |p| && forall b, c :: 0 <= b < c < |p| ==> p[b] < p[c]
    ensures p[a] <= p[|p| - 1] && (a < |p| - 1 ==> p[a] < p[|p| - 1])
  {
  }

  lemma WithoutLast(p: seq<nat>, lines: seq<LogLine>, stamp: string -> Option<int>, scan: Scan, n: nat) returns (r: seq<nat>)
    requires 0 < n <= |lines| && PicksWanted(p, lines, stamp, scan, n)
    ensures PicksWanted(r, lines, stamp, scan, n - 1) && p == if Wanted(lines, stamp, scan, n - 1) then r + [n - 1] else r
  {
    hide Wanted;
    if Wanted(lines, stamp, scan, n - 1) {
      var a :| 0 <= a < |p| && p[a] == n - 1;
      LastIsGreatest(p, a);
      r := p[..|p| - 1];
      assert p == r + [n - 1];
      forall i | 0 <= i < n - 1
        ensures i in r <==> Wanted(lines, stamp, scan, i)
      {
        assert i in p <==> i in r;
      }
    } else {
      r := p;
    }
  }
}
