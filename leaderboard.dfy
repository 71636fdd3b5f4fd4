/**
 * The browser game's records: one list of scores per board size and tour
 * type, kept sorted by time and then by moves and cut to the best five, and
 * the `mm:ss` rendering of an elapsed time.
 */
module Leaderboard {
  import opened Wrappers
  import opened Text

  const MaxEntries: nat := 5

  datatype TourType = Open | Closed

  /** A finished game as the leaderboard stores it: `{time, moves, date, timeString}`. */
  datatype Entry = Entry(time: int, moves: int, date: string, timeString: string)

  /** The comparator `a.time - b.time || a.moves - b.moves`, as a non-strict order. */
  predicate ScoreLe(a: Entry, b: Entry)
  {
    a.time < b.time || (a.time == b.time && a.moves <= b.moves)
  }

  predicate SortedScores(s: seq<Entry>)
  {
    forall i, j :: 0 <= i < j < |s| ==> ScoreLe(s[i], s[j])
  }

  /** One step of the sort: `x` moves left past the trailing entries that rank behind it. */
  function Insert(sorted: seq<Entry>, x: Entry): (r: seq<Entry>)
    ensures |r| == |sorted| + 1
    ensures multiset(r) == multiset(sorted) + multiset{x}
  {
    if sorted == [] then [x]
    else
      var init, last := sorted[..|sorted| - 1], sorted[|sorted| - 1];
      assert sorted == init + [last];
      if ScoreLe(last, x) then sorted + [x] else Insert(init, x) + [last]
  }

  /** Appending an entry that ranks behind every entry of a sorted list keeps it sorted. */
  lemma SortedSnoc(s: seq<Entry>, y: Entry)
    requires SortedScores(s)
    requires forall i :: 0 <= i < |s| ==> ScoreLe(s[i], y)
    ensures SortedScores(s + [y])
  {
    var t := s + [y];
    forall i, j | 0 <= i < j < |t| ensures ScoreLe(t[i], t[j]) {
      assert t[i] == s[i];
      if j < |s| {
        assert t[j] == s[j];
      }
    }
  }

  /** Every entry of a sorted list ranks no later than an entry its last one does not rank behind. */
  lemma SortedBelow(sorted: seq<Entry>, x: Entry)
    requires SortedScores(sorted) && sorted != [] && ScoreLe(sorted[|sorted| - 1], x)
    ensures forall i :: 0 <= i < |sorted| ==> ScoreLe(sorted[i], x)
  {
    forall i | 0 <= i < |sorted| ensures ScoreLe(sorted[i], x) {
      if i < |sorted| - 1 {
        assert ScoreLe(sorted[i], sorted[|sorted| - 1]);
      }
    }
  }

  lemma SortedInit(sorted: seq<Entry>)
    requires SortedScores(sorted) && sorted != []
    ensures SortedScores(sorted[..|sorted| - 1])
  {
    var init := sorted[..|sorted| - 1];
    forall i, j | 0 <= i < j < |init| ensures ScoreLe(init[i], init[j]) {
      assert init[i] == sorted[i] && init[j] == sorted[j];
    }
  }

  /** Inserting `x` into a list whose entries all rank no later than `y` keeps that bound when `x` also does. */
  lemma InsertBelow(init: seq<Entry>, x: Entry, y: Entry)
    requires forall i :: 0 <= i < |init| ==> ScoreLe(init[i], y)
    requires ScoreLe(x, y)
    ensures forall i :: 0 <= i < |Insert(init, x)| ==> ScoreLe(Insert(init, x)[i], y)
  {
    var rest := Insert(init, x);
    forall i | 0 <= i < |rest| ensures ScoreLe(rest[i], y) {
      assert rest[i] in multiset(rest);
      if rest[i] != x {
        assert rest[i] in multiset(init);
        var k :| 0 <= k < |init| && init[k] == rest[i];
      }
    }
  }

  lemma {:induction false} InsertKeepsSorted(sorted: seq<Entry>, x: Entry)
    requires SortedScores(sorted)
    ensures SortedScores(Insert(sorted, x))
  {
    if sorted != [] {
      var init, last := sorted[..|sorted| - 1], sorted[|sorted| - 1];
      if ScoreLe(last, x) {
        SortedBelow(sorted, x);
        SortedSnoc(sorted, x);
      } else {
        SortedInit(sorted);
        InsertKeepsSorted(init, x);
        forall i | 0 <= i < |init| ensures ScoreLe(init[i], last) {
          assert init[i] == sorted[i];
        }
        InsertBelow(init, x, last);
        SortedSnoc(Insert(init, x), last);
      }
    }
  }

  /** The stable sort `Array.prototype.sort` performs with the score comparator. */
  function SortScores(s: seq<Entry>): (r: seq<Entry>)
    ensures |r| == |s|
    ensures multiset(r) == multiset(s)
  {
    if s == [] then []
    else
      assert s == s[..|s| - 1] + [s[|s| - 1]];
      Insert(SortScores(s[..|s| - 1]), s[|s| - 1])
  }

  /** The sort leaves the records in ascending order of time, then moves. */
  lemma {:induction false} SortScoresSorted(s: seq<Entry>)
    ensures SortedScores(SortScores(s))
  {
    if s != [] {
      SortScoresSorted(s[..|s| - 1]);
      InsertKeepsSorted(SortScores(s[..|s| - 1]), s[|s| - 1]);
    }
  }

  function Min(a: nat, b: nat): nat { if a < b then a else b }

  /** `push` the new entry, `sort`, then `slice(0, 5)`. */
  function AddScore(list: seq<Entry>, e: Entry): (r: seq<Entry>)
    ensures |r| == Min(|list| + 1, MaxEntries)
    ensures SortedScores(r)
    ensures multiset(r) <= multiset(list + [e])
  {
    var sorted := SortScores(list + [e]);
    SortScoresSorted(list + [e]);
    var r := sorted[..Min(|sorted|, MaxEntries)];
    assert sorted == r + sorted[|r|..];
    assert multiset(sorted) == multiset(r) + multiset(sorted[|r|..]);
    r
  }

  /**
   * Only the best five survive: an entry of the old list or the new one is
   * kept whenever fewer than five remain, or when it ranks strictly ahead of
   * the last one kept.
   */
  lemma {:induction false} AddScoreKeepsBest(list: seq<Entry>, e: Entry, x: Entry)
    requires x in list + [e]
    requires |list| < MaxEntries || !ScoreLe(AddScore(list, e)[MaxEntries - 1], x)
    ensures x in AddScore(list, e)
  {
    var sorted := SortScores(list + [e]);
    SortScoresSorted(list + [e]);
    var r := AddScore(list, e);
    assert x in multiset(list + [e]);
    assert x in multiset(sorted);
    var j :| 0 <= j < |sorted| && sorted[j] == x;
    if |sorted| <= MaxEntries {
      assert r == sorted;
    } else {
      assert forall k :: MaxEntries <= k < |sorted| ==> ScoreLe(r[MaxEntries - 1], sorted[k]);
    }
    assert r[j] == x;
  }

  /** The new entry always makes the list while it holds fewer than five. */
  lemma {:induction false} AddScoreToShortList(list: seq<Entry>, e: Entry)
    requires |list| < MaxEntries
    ensures e in AddScore(list, e) && |AddScore(list, e)| == |list| + 1
  {
    AddScoreKeepsBest(list, e, e);
  }

  function TourName(t: TourType): string
  {
    match t
    case Open => "open"
    case Closed => "closed"
  }

  /** `${boardSize}x${boardSize}_${tourType}`. */
  function LeaderboardKey(n: nat, t: TourType): string
  {
    NatToString(n) + "x" + (NatToString(n) + "_" + TourName(t))
  }

  /** The size field of a key, everything before the first `x`, is the board size's numeral. */
  lemma {:induction false} LeaderboardKeySize(n: nat, t: TourType)
    ensures FirstField(LeaderboardKey(n, t), "x") == NatToString(n)
  {
    var rest := NatToString(n) + "_" + TourName(t);
    FirstFieldOfDigits(NatToString(n), "x", rest);
  }

  /** Different board sizes or tour types are stored under different keys. */
  lemma {:induction false} LeaderboardKeyInjective(n: nat, t: TourType, m: nat, u: TourType)
    requires LeaderboardKey(n, t) == LeaderboardKey(m, u)
    ensures n == m && t == u
  {
    LeaderboardKeySize(n, t);
    LeaderboardKeySize(m, u);
    ParseNatToString(n);
    ParseNatToString(m);
    assert n == m;
    var a := NatToString(n);
    var key := LeaderboardKey(n, t);
    assert key[|a| + 1..] == a + "_" + TourName(t) == a + "_" + TourName(u);
    assert (a + "_" + TourName(t))[|a| + 1..] == TourName(t);
    assert (a + "_" + TourName(u))[|a| + 1..] == TourName(u);
  }

  /**
   * `formatTime`: whole minutes and the remaining seconds, each padded with
   * zeros to two digits; reading either side of the colon back gives them.
   */
  function FormatTime(ms: nat): (r: string)
    ensures |r| >= 5 && r[|r| - 3] == ':'
    ensures ParseNat(r[..|r| - 3]) == Some(ms / 1000 / 60)
    ensures ParseNat(r[|r| - 2..]) == Some(ms / 1000 % 60)
  {
    Clock(ms / 1000 / 60, ms / 1000 % 60)
  }

  /** The record `saveToLeaderboard` builds for a game that took `time` milliseconds. */
  function GameEntry(time: nat, moves: int, date: string): Entry
  {
    Entry(time, moves, date, FormatTime(time))
  }

  /** `mm:ss` for a number of minutes and a number of seconds below sixty. */
  function Clock(minutes: nat, seconds: nat): (r: string)
    requires seconds < 60
    ensures |r| >= 5 && r[|r| - 3] == ':'
    ensures ParseNat(r[..|r| - 3]) == Some(minutes)
    ensures ParseNat(r[|r| - 2..]) == Some(seconds)
  {
    var mm := PadStart(NatToString(minutes), 2, '0');
    var ss := PadStart(NatToString(seconds), 2, '0');
    NatToStringShort(seconds);
    PaddedReadsBack(minutes, 2);
    PaddedReadsBack(seconds, 2);
    AroundColon(mm, ss);
    mm + ":" + ss
  }

  lemma NatToStringShort(n: nat)
    requires n < 100
    ensures |NatToString(n)| <= 2
  {
    if n >= 10 {
      assert NatToString(n) == NatToString(n / 10) + [DigitChar(n % 10)];
    }
  }

  /** A numeral padded with zeros reads back as the number. */
  lemma {:induction false} PaddedReadsBack(n: nat, width: nat)
    ensures ParseNat(PadStart(NatToString(n), width, '0')) == Some(n)
  {
    ParseNatToString(n);
    PadZerosValue(NatToString(n), width);
  }

  /** The two sides of the colon of `a:b`, when `b` has two characters. */
  lemma AroundColon(a: string, b: string)
    requires |b| == 2
    ensures var r := a + ":" + b; |r| == |a| + 3 && r[|r| - 3] == ':' && r[..|r| - 3] == a && r[|r| - 2..] == b
  {
  }
}
