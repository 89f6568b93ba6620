/**
 * The client-side leaderboard (src/js/leaderboardData.js): how a bucket of
 * entries is merged, ranked and cut to the best fifty, how a finished quiz is
 * saved into its bucket, and the counters kept in the metadata and reported
 * by the statistics view.
 *
 * Timestamps are integer milliseconds; the clock is a parameter. Loading and
 * saving the data (backend, static file, localStorage) is outside the model.
 */
module Leaderboard {
  import opened QuizData

  /**
   * One leaderboard row. The two timestamps are optional because stored data
   * may carry either; `timeLimit` is the text of the time limit in seconds.
   */
  datatype Entry = Entry(
    name: string,
    correctAnswers: int,
    totalQuestions: int,
    maxStreak: Option<int>,
    completedAt: Option<int>,
    lastPlayed: Option<int>,
    mode: string,
    category: string,
    timeLimit: Option<string>)

  /** `completedAt || lastPlayed`. */
  function Stamp(e: Entry): Option<int> {
    if e.completedAt.Some? then e.completedAt else e.lastPlayed
  }

  /** The timestamp the sort compares; an entry without one ranks as time 0. */
  function StampOrZero(e: Entry): int {
    if Stamp(e).Some? then Stamp(e).value else 0
  }

  function Abs(x: int): nat {
    if x < 0 then -x else x
  }

  /**
   * The duplicate test of mergeLeaderboardData: same player, same score,
   * same number of questions, timestamps less than a second apart. Without a
   * timestamp on either side the difference is NaN and nothing matches.
   */
  predicate IsDuplicate(existing: Entry, candidate: Entry) {
    existing.name == candidate.name &&
    existing.correctAnswers == candidate.correctAnswers &&
    existing.totalQuestions == candidate.totalQuestions &&
    Stamp(existing).Some? && Stamp(candidate).Some? &&
    Abs(Stamp(existing).value - Stamp(candidate).value) < 1000
  }

  /** Some entry of `merged` makes `candidate` a duplicate. */
  predicate HasDuplicate(merged: seq<Entry>, candidate: Entry) {
    exists i :: 0 <= i < |merged| && IsDuplicate(merged[i], candidate)
  }

  /**
   * The normalised copy of an added entry: `maxStreak` defaults to 0 and
   * `completedAt` falls back to `lastPlayed`, then to the clock.
   */
  function Normalize(e: Entry, now: int): (r: Entry)
    ensures r.name == e.name && r.correctAnswers == e.correctAnswers && r.totalQuestions == e.totalQuestions
    ensures r.mode == e.mode && r.category == e.category && r.timeLimit == e.timeLimit
    ensures r.maxStreak.Some? && (e.maxStreak.Some? ==> r.maxStreak == e.maxStreak)
    ensures Stamp(r).Some? && (Stamp(e).Some? ==> Stamp(r) == Stamp(e)) && (Stamp(e).None? ==> Stamp(r) == Some(now))
    ensures r.lastPlayed.None?
  {
    Entry(e.name, e.correctAnswers, e.totalQuestions,
          Some(if e.maxStreak.Some? then e.maxStreak.value else 0),
          Some(if Stamp(e).Some? then Stamp(e).value else now),
          None, e.mode, e.category, e.timeLimit)
  }

  /**
   * The push loop of mergeLeaderboardData: start from the existing entries
   * and append, in order, the normalised form of every new entry that no
   * entry gathered so far duplicates.
   */
  function Absorb(merged: seq<Entry>, news: seq<Entry>, now: int): seq<Entry> {
    if |news| == 0 then merged
    else
      var m := Absorb(merged, news[..|news| - 1], now);
      var e := news[|news| - 1];
      if HasDuplicate(m, e) then m else m + [Normalize(e, now)]
  }

  // ===================================================================
  // Ranking
  // ===================================================================

  /** `correctAnswers / totalQuestions`, or 0 when there are no questions. */
  function Accuracy(e: Entry): real {
    if e.totalQuestions > 0 then (e.correctAnswers as real) / (e.totalQuestions as real) else 0.0
  }

  /**
   * `a` is placed strictly before `b`: more correct answers, then higher
   * accuracy, then (for the merge only) a later timestamp.
   */
  predicate Before(a: Entry, b: Entry, byStamp: bool) {
    a.correctAnswers > b.correctAnswers ||
    (a.correctAnswers == b.correctAnswers &&
      (Accuracy(a) > Accuracy(b) ||
       (Accuracy(a) == Accuracy(b) && byStamp && StampOrZero(a) > StampOrZero(b))))
  }

  /** Accuracy as a numerator over a positive denominator. */
  function AccNum(e: Entry): int {
    if e.totalQuestions > 0 then e.correctAnswers else 0
  }

  function AccDen(e: Entry): (r: int)
    ensures r > 0
  {
    if e.totalQuestions > 0 then e.totalQuestions else 1
  }

  lemma RatioCompare(n1: int, d1: int, n2: int, d2: int)
    requires d1 > 0 && d2 > 0
    ensures n1 * d2 > n2 * d1 <==> (n1 as real) / (d1 as real) > (n2 as real) / (d2 as real)
    ensures n1 * d2 == n2 * d1 <==> (n1 as real) / (d1 as real) == (n2 as real) / (d2 as real)
  {
    var x := (n1 as real) / (d1 as real);
    var y := (n2 as real) / (d2 as real);
    assert n1 as real == x * (d1 as real);
    assert n2 as real == y * (d2 as real);
    assert (n1 * d2) as real == x * (d1 as real) * (d2 as real);
    assert (n2 * d1) as real == y * (d1 as real) * (d2 as real);
  }

  /** Comparing accuracies is comparing the cross products `a.c * b.t` and `b.c * a.t`. */
  lemma AccuracyByCrossMultiplication(a: Entry, b: Entry)
    ensures Accuracy(a) > Accuracy(b) <==> AccNum(a) * AccDen(b) > AccNum(b) * AccDen(a)
    ensures Accuracy(a) == Accuracy(b) <==> AccNum(a) * AccDen(b) == AccNum(b) * AccDen(a)
  {
    assert Accuracy(a) == (AccNum(a) as real) / (AccDen(a) as real);
    assert Accuracy(b) == (AccNum(b) as real) / (AccDen(b) as real);
    RatioCompare(AccNum(a), AccDen(a), AccNum(b), AccDen(b));
  }

  /** The ranking is a strict weak order: irreflexive and transitive, and so is "neither before the other". */
  lemma BeforeIsStrictWeakOrder(a: Entry, b: Entry, c: Entry, byStamp: bool)
    ensures !Before(a, a, byStamp)
    ensures Before(a, b, byStamp) && Before(b, c, byStamp) ==> Before(a, c, byStamp)
    ensures !Before(a, b, byStamp) && !Before(b, c, byStamp) ==> !Before(a, c, byStamp)
  {
  }

  /** No later entry is placed strictly before an earlier one. */
  ghost predicate Sorted(s: seq<Entry>, byStamp: bool) {
    forall i, j :: 0 <= i < j < |s| ==> !Before(s[j], s[i], byStamp)
  }

  /** Insert `x` after every entry it does not strictly beat: the step of a stable sort. */
  function Insert(x: Entry, s: seq<Entry>, byStamp: bool): (r: seq<Entry>)
    ensures multiset(r) == multiset(s) + multiset{x}
    ensures |r| == |s| + 1
  {
    if |s| == 0 then [x]
    else if Before(x, s[0], byStamp) then [x] + s
    else
      assert s == [s[0]] + s[1..];
      [s[0]] + Insert(x, s[1..], byStamp)
  }

  /** Array.prototype.sort with the comparator, which is stable: insertion sort. */
  function SortBy(s: seq<Entry>, byStamp: bool): (r: seq<Entry>)
    ensures multiset(r) == multiset(s)
    ensures |r| == |s|
  {
    if |s| == 0 then []
    else
      assert s == s[..|s| - 1] + [s[|s| - 1]];
      Insert(s[|s| - 1], SortBy(s[..|s| - 1], byStamp), byStamp)
  }

  lemma {:induction false} InsertSorted(x: Entry, s: seq<Entry>, byStamp: bool)
    requires Sorted(s, byStamp)
    ensures Sorted(Insert(x, s, byStamp), byStamp)
  {
    var r := Insert(x, s, byStamp);
    if |s| == 0 {
    } else if Before(x, s[0], byStamp) {
      forall i, j | 0 <= i < j < |r| ensures !Before(r[j], r[i], byStamp) {
        if i == 0 {
          BeforeIsStrictWeakOrder(s[j - 1], x, s[0], byStamp);
        }
      }
    } else {
      var tail := s[1..];
      assert Sorted(tail, byStamp);
      InsertSorted(x, tail, byStamp);
      var t := Insert(x, tail, byStamp);
      assert r == [s[0]] + t;
      InsertStaysBehindHead(x, s, byStamp);
      forall i, j | 0 <= i < j < |r| ensures !Before(r[j], r[i], byStamp) {
        if i > 0 {
          assert r[i] == t[i - 1] && r[j] == t[j - 1];
        }
      }
    }
  }

  /** When `x` does not beat the head, nothing inserted behind the head beats it. */
  lemma InsertStaysBehindHead(x: Entry, s: seq<Entry>, byStamp: bool)
    requires Sorted(s, byStamp) && |s| > 0 && !Before(x, s[0], byStamp)
    ensures forall k :: 0 <= k < |Insert(x, s[1..], byStamp)| ==> !Before(Insert(x, s[1..], byStamp)[k], s[0], byStamp)
  {
    var tail := s[1..];
    var t := Insert(x, tail, byStamp);
    forall k | 0 <= k < |t| ensures !Before(t[k], s[0], byStamp) {
      assert t[k] in multiset(t);
      if t[k] != x {
        assert t[k] in multiset(tail);
        var m :| 0 <= m < |tail| && tail[m] == t[k];
        assert s[m + 1] == t[k];
      }
    }
  }

  /** The sort orders its input. */
  lemma {:induction false} SortBySorted(s: seq<Entry>, byStamp: bool)
    ensures Sorted(SortBy(s, byStamp), byStamp)
  {
    if |s| > 0 {
      SortBySorted(s[..|s| - 1], byStamp);
      InsertSorted(s[|s| - 1], SortBy(s[..|s| - 1], byStamp), byStamp);
    }
  }

  /** `s.slice(0, n)`. */
  function Take(s: seq<Entry>, n: nat): (r: seq<Entry>)
    ensures |r| == if |s| <= n then |s| else n
    ensures r == s[..|r|]
  {
    if |s| <= n then s else s[..n]
  }

  /** What is kept of a ranked list: ordered, drawn from it, and nothing left out beats anything kept. */
  lemma TakeOfSorted(s: seq<Entry>, n: nat, byStamp: bool)
    requires Sorted(s, byStamp)
    ensures Sorted(Take(s, n), byStamp)
    ensures multiset(Take(s, n)) <= multiset(s)
    ensures forall x, i :: x in multiset(s) - multiset(Take(s, n)) && 0 <= i < |Take(s, n)| ==>
              !Before(x, Take(s, n)[i], byStamp)
  {
    var r := Take(s, n);
    var rest := s[|r|..];
    assert s == r + rest;
    assert multiset(s) == multiset(r) + multiset(rest);
    forall x, i | x in multiset(s) - multiset(r) && 0 <= i < |r| ensures !Before(x, r[i], byStamp) {
      assert x in multiset(rest);
      var k :| 0 <= k < |rest| && rest[k] == x;
      assert s[|r| + k] == x && s[i] == r[i];
    }
  }

  // ===================================================================
  // mergeLeaderboardData
  // ===================================================================

  const MaxEntries := 50

  /** The result of mergeLeaderboardData(existing, news) at time `now`. */
  function Merge(existing: seq<Entry>, news: seq<Entry>, now: int): seq<Entry> {
    Take(SortBy(Absorb(existing, news, now), true), MaxEntries)
  }

  /**
   * The merge keeps the fifty best of the gathered entries, best first: it is
   * ranked by correct answers, accuracy and recency, it is drawn from the
   * gathered entries, and no gathered entry it leaves out beats one it keeps.
   */
  lemma MergeRanksAndCuts(existing: seq<Entry>, news: seq<Entry>, now: int)
    ensures var all := Absorb(existing, news, now);
            var r := Merge(existing, news, now);
            |r| == (if |all| <= MaxEntries then |all| else MaxEntries) &&
            Sorted(r, true) &&
            multiset(r) <= multiset(all) &&
            forall x, i :: x in multiset(all) - multiset(r) && 0 <= i < |r| ==> !Before(x, r[i], true)
  {
    var all := Absorb(existing, news, now);
    SortBySorted(all, true);
    TakeOfSorted(SortBy(all, true), MaxEntries, true);
  }

  /** Existing entries are copied as they are, in front; at most one entry is added per new one. */
  lemma {:induction false} AbsorbKeepsExisting(existing: seq<Entry>, news: seq<Entry>, now: int)
    ensures var all := Absorb(existing, news, now);
            |existing| <= |all| <= |existing| + |news| && all[..|existing|] == existing
  {
    if |news| > 0 {
      AbsorbKeepsExisting(existing, news[..|news| - 1], now);
    }
  }

  /** A duplicate found in a prefix is still found in the whole list. */
  lemma HasDuplicateInPrefix(m: seq<Entry>, k: nat, e: Entry)
    requires k <= |m| && HasDuplicate(m[..k], e)
    ensures HasDuplicate(m, e)
  {
    var i :| 0 <= i < k && IsDuplicate(m[..k][i], e);
    assert m[i] == m[..k][i];
  }

  /**
   * Every added entry is the normalised form of a new entry that nothing
   * before it duplicates.
   */
  lemma {:induction false} AbsorbAddsOnlyFresh(existing: seq<Entry>, news: seq<Entry>, now: int)
    ensures var all := Absorb(existing, news, now);
            forall k :: |existing| <= k < |all| ==>
              exists j :: 0 <= j < |news| && all[k] == Normalize(news[j], now) && !HasDuplicate(all[..k], news[j])
  {
    if |news| > 0 {
      var front := news[..|news| - 1];
      var m := Absorb(existing, front, now);
      var all := Absorb(existing, news, now);
      AbsorbAddsOnlyFresh(existing, front, now);
      AbsorbKeepsExisting(existing, front, now);
      forall k | |existing| <= k < |all|
        ensures exists j :: 0 <= j < |news| && all[k] == Normalize(news[j], now) && !HasDuplicate(all[..k], news[j])
      {
        if k < |m| {
          var j :| 0 <= j < |front| && m[k] == Normalize(front[j], now) && !HasDuplicate(m[..k], front[j]);
          assert all[..k] == m[..k];
          assert news[j] == front[j];
        } else {
          assert all[..k] == m;
          assert all[k] == Normalize(news[|news| - 1], now);
        }
      }
    }
  }

  /** Every new entry either was added (normalised) or has a duplicate among the gathered entries. */
  lemma {:induction false} AbsorbAccountsForEveryNew(existing: seq<Entry>, news: seq<Entry>, now: int)
    ensures var all := Absorb(existing, news, now);
            forall j :: 0 <= j < |news| ==> Normalize(news[j], now) in all || HasDuplicate(all, news[j])
  {
    if |news| > 0 {
      var front := news[..|news| - 1];
      var m := Absorb(existing, front, now);
      var all := Absorb(existing, news, now);
      AbsorbAccountsForEveryNew(existing, front, now);
      assert all[..|m|] == m;
      forall j | 0 <= j < |news| ensures Normalize(news[j], now) in all || HasDuplicate(all, news[j]) {
        if j < |front| {
          assert news[j] == front[j];
          if Normalize(news[j], now) in m {
            assert Normalize(news[j], now) in all;
          } else {
            HasDuplicateInPrefix(all, |m|, news[j]);
          }
        } else if HasDuplicate(m, news[j]) {
          HasDuplicateInPrefix(all, |m|, news[j]);
        }
      }
    }
  }

  /**
   * Submitting entries that are already on the list, with their timestamps,
   * changes nothing: each one duplicates itself.
   */
  lemma {:induction false} ResubmissionIsAbsorbed(existing: seq<Entry>, news: seq<Entry>, now: int)
    requires forall j :: 0 <= j < |news| ==> news[j] in existing && Stamp(news[j]).Some?
    ensures Absorb(existing, news, now) == existing
  {
    if |news| > 0 {
      ResubmissionIsAbsorbed(existing, news[..|news| - 1], now);
      var e := news[|news| - 1];
      var i :| 0 <= i < |existing| && existing[i] == e;
      assert IsDuplicate(existing[i], e);
    }
  }

  /** The duplicate search of the push loop. */
  method FindDuplicate(merged: seq<Entry>, candidate: Entry) returns (found: bool)
    ensures found <==> HasDuplicate(merged, candidate)
  {
    found := false;
    var i := 0;
    while i < |merged| && !found
      invariant 0 <= i <= |merged|
      invariant found <==> HasDuplicate(merged[..i], candidate)
    {
      found := IsDuplicate(merged[i], candidate);
      assert merged[..i + 1][i] == merged[i];
      if !found {
        assert merged[..i + 1] == merged[..i] + [merged[i]];
      }
      i := i + 1;
    }
    if found {
      HasDuplicateInPrefix(merged, i, candidate);
    } else {
      assert merged[..i] == merged;
    }
  }

  /**
   * mergeLeaderboardData: copy the existing entries, push every new entry
   * that is not a duplicate, sort by rank and keep the first fifty.
   */
  method MergeLeaderboardData(existing: seq<Entry>, news: seq<Entry>, now: int) returns (r: seq<Entry>)
    ensures r == Merge(existing, news, now)
  {
    var merged := existing;
    var i := 0;
    while i < |news|
      invariant 0 <= i <= |news|
      invariant merged == Absorb(existing, news[..i], now)
    {
      var dup := FindDuplicate(merged, news[i]);
      assert news[..i + 1][..i] == news[..i];
      if !dup {
        merged := merged + [Normalize(news[i], now)];
      }
      i := i + 1;
    }
    assert news[..|news|] == news;
    r := Take(SortBy(merged, true), MaxEntries);
  }

  // ===================================================================
  // The leaderboard document
  // ===================================================================

  /** The buckets of one mode by category. */
  type Table = OrderedMap<string, seq<Entry>>

  /** One mode of the document: buckets by category, or, for the time-limited mode, by category and time limit. */
  datatype ModeTable = Flat(lists: Table) | Timed(byCategory: OrderedMap<string, Table>)

  /** The document without its `_metadata` entry: mode to table. */
  type Boards = OrderedMap<string, ModeTable>

  const TimeLimited := "time-limited"
  const MetadataKey := "_metadata"

  function EmptyMap<V>(): (r: OrderedMap<string, V>)
    ensures r.Valid() && r.keys == [] && r.entries == map[]
  {
    OrderedMap([], map[])
  }

  /** Only the time-limited mode is keyed by time limit; every map has its keys once. */
  ghost predicate ModeShaped(mode: string, t: ModeTable) {
    match t
    case Flat(lists) => mode != TimeLimited && lists.Valid()
    case Timed(byCategory) =>
      mode == TimeLimited && byCategory.Valid() &&
      forall c :: c in byCategory.entries ==> byCategory.entries[c].Valid()
  }

  ghost predicate Shaped(b: Boards) {
    b.Valid() && MetadataKey !in b.entries &&
    forall m :: m in b.entries ==> ModeShaped(m, b.entries[m])
  }

  /** The object key a time limit is stored under: `String(timeLimit)`, so no limit is "null". */
  function TimeKey(timeLimit: Option<string>): string {
    if timeLimit.Some? then timeLimit.value else "null"
  }

  /** `table[key] || []`. */
  function Bucket(t: Table, key: string): seq<Entry> {
    if key in t.entries then t.entries[key] else []
  }

  /** getLeaderboard(mode, category, timeLimit): the bucket, or the empty list when any level is missing. */
  function GetLeaderboard(b: Boards, mode: string, category: string, timeLimit: Option<string>): seq<Entry> {
    if mode !in b.entries then []
    else match b.entries[mode]
      case Flat(lists) => Bucket(lists, category)
      case Timed(byCategory) =>
        if category in byCategory.entries then Bucket(byCategory.entries[category], TimeKey(timeLimit)) else []
  }

  /** Which bucket a (mode, category, time limit) triple names. */
  datatype BucketId = Untimed(mode: string, category: string) | TimedBucket(category: string, timeKey: string)

  function IdOf(mode: string, category: string, timeLimit: Option<string>): BucketId {
    if mode == TimeLimited then TimedBucket(category, TimeKey(timeLimit)) else Untimed(mode, category)
  }

  /** The document with one bucket replaced, creating the levels above it that are missing. */
  function PutBucket(b: Boards, mode: string, category: string, timeLimit: Option<string>, entries: seq<Entry>): Boards {
    if mode == TimeLimited then
      var byCategory := if mode in b.entries && b.entries[mode].Timed? then b.entries[mode].byCategory else EmptyMap();
      var inner := if category in byCategory.entries then byCategory.entries[category] else EmptyMap();
      b.Put(mode, Timed(byCategory.Put(category, inner.Put(TimeKey(timeLimit), entries))))
    else
      var lists := if mode in b.entries && b.entries[mode].Flat? then b.entries[mode].lists else EmptyMap();
      b.Put(mode, Flat(lists.Put(category, entries)))
  }

  lemma ShapedAfterPut(b: Boards, mode: string, category: string, timeLimit: Option<string>, entries: seq<Entry>)
    requires Shaped(b) && mode != MetadataKey
    ensures Shaped(PutBucket(b, mode, category, timeLimit, entries))
  {
  }

  lemma PutTimedBucketReads(b: Boards, category: string, timeLimit: Option<string>, entries: seq<Entry>,
                            c: string, t: Option<string>)
    requires TimeLimited in b.entries ==> b.entries[TimeLimited].Timed?
    ensures GetLeaderboard(PutBucket(b, TimeLimited, category, timeLimit, entries), TimeLimited, c, t) ==
              if c == category && TimeKey(t) == TimeKey(timeLimit) then entries else GetLeaderboard(b, TimeLimited, c, t)
  {
    var byCategory := if TimeLimited in b.entries then b.entries[TimeLimited].byCategory else EmptyMap();
    var inner := if category in byCategory.entries then byCategory.entries[category] else EmptyMap();
    var filled := inner.Put(TimeKey(timeLimit), entries);
    var updated := byCategory.Put(category, filled);
    assert PutBucket(b, TimeLimited, category, timeLimit, entries).entries[TimeLimited] == Timed(updated);
    if c == category {
      assert updated.entries[c] == filled;
    } else {
      assert c in updated.entries <==> c in byCategory.entries;
      assert c in byCategory.entries ==> updated.entries[c] == byCategory.entries[c];
    }
  }

  lemma PutFlatBucketReads(b: Boards, mode: string, category: string, entries: seq<Entry>,
                           c: string, t: Option<string>)
    requires mode != TimeLimited && (mode in b.entries ==> b.entries[mode].Flat?)
    ensures GetLeaderboard(PutBucket(b, mode, category, None, entries), mode, c, t) ==
              if c == category then entries else GetLeaderboard(b, mode, c, t)
  {
  }

  lemma PutBucketOtherMode(b: Boards, mode: string, category: string, timeLimit: Option<string>, entries: seq<Entry>,
                           m: string, c: string, t: Option<string>)
    requires m != mode
    ensures GetLeaderboard(PutBucket(b, mode, category, timeLimit, entries), m, c, t) == GetLeaderboard(b, m, c, t)
  {
    var after := PutBucket(b, mode, category, timeLimit, entries);
    assert m in after.entries <==> m in b.entries;
    assert m in b.entries ==> after.entries[m] == b.entries[m];
  }

  /** Replacing a bucket changes what that bucket reads and nothing else. */
  lemma PutBucketTargetsOne(b: Boards, mode: string, category: string, timeLimit: Option<string>, entries: seq<Entry>)
    requires Shaped(b) && mode != MetadataKey
    ensures forall m, c, t ::
      GetLeaderboard(PutBucket(b, mode, category, timeLimit, entries), m, c, t) ==
        if IdOf(m, c, t) == IdOf(mode, category, timeLimit) then entries else GetLeaderboard(b, m, c, t)
  {
    var after := PutBucket(b, mode, category, timeLimit, entries);
    forall m, c, t
      ensures GetLeaderboard(after, m, c, t) ==
        if IdOf(m, c, t) == IdOf(mode, category, timeLimit) then entries else GetLeaderboard(b, m, c, t)
    {
      if m != mode {
        PutBucketOtherMode(b, mode, category, timeLimit, entries, m, c, t);
      } else if mode == TimeLimited {
        assert TimeLimited in b.entries ==> ModeShaped(TimeLimited, b.entries[TimeLimited]);
        PutTimedBucketReads(b, category, timeLimit, entries, c, t);
      } else {
        assert after == PutBucket(b, mode, category, None, entries);
        assert mode in b.entries ==> ModeShaped(mode, b.entries[mode]);
        PutFlatBucketReads(b, mode, category, entries, c, t);
      }
    }
  }

  /** The entry saveLeaderboardEntry builds, stamped with the clock. */
  function SessionEntry(name: string, correctAnswers: int, mode: string, category: string, totalQuestions: int,
                        maxStreak: Option<int>, timeLimit: Option<string>, now: int): Entry {
    Entry(name, correctAnswers, totalQuestions, maxStreak, Some(now), None, mode, category, timeLimit)
  }

  /**
   * The effect of clearLeaderboardCategory on the buckets: a time-limited
   * clear with a time limit empties that one bucket if it exists; any other
   * clear empties the category if it exists (for the time-limited mode, all
   * its time limits at once).
   */
  function Cleared(b: Boards, mode: string, category: string, timeLimit: Option<string>): Boards {
    if mode !in b.entries then b
    else if mode == TimeLimited && timeLimit.Some? then
      match b.entries[mode]
      case Timed(byCategory) =>
        if category in byCategory.entries && timeLimit.value in byCategory.entries[category].entries then
          b.Put(mode, Timed(byCategory.Put(category, byCategory.entries[category].Put(timeLimit.value, []))))
        else b
      case Flat(_) => b
    else
      match b.entries[mode]
      case Flat(lists) => if category in lists.entries then b.Put(mode, Flat(lists.Put(category, []))) else b
      case Timed(byCategory) =>
        if category in byCategory.entries then b.Put(mode, Timed(byCategory.Put(category, EmptyMap()))) else b
  }

  /** The buckets a clear empties. */
  predicate ClearHits(mode: string, category: string, timeLimit: Option<string>, m: string, c: string, t: Option<string>) {
    m == mode && c == category && (mode == TimeLimited && timeLimit.Some? ==> TimeKey(t) == timeLimit.value)
  }

  lemma ClearedShaped(b: Boards, mode: string, category: string, timeLimit: Option<string>)
    requires Shaped(b)
    ensures Shaped(Cleared(b, mode, category, timeLimit)) && Cleared(b, mode, category, timeLimit).keys == b.keys
  {
  }

  lemma ClearedReads(b: Boards, mode: string, category: string, timeLimit: Option<string>,
                     c: string, t: Option<string>)
    requires mode in b.entries && (b.entries[mode].Timed? <==> mode == TimeLimited)
    ensures GetLeaderboard(Cleared(b, mode, category, timeLimit), mode, c, t) ==
              if ClearHits(mode, category, timeLimit, mode, c, t) then [] else GetLeaderboard(b, mode, c, t)
  {
    var after := Cleared(b, mode, category, timeLimit);
    match b.entries[mode]
    case Timed(byCategory) =>
      if timeLimit.Some? {
        if category in byCategory.entries && timeLimit.value in byCategory.entries[category].entries {
          var updated := byCategory.Put(category, byCategory.entries[category].Put(timeLimit.value, []));
          assert after.entries[mode] == Timed(updated);
          if c != category {
            assert c in updated.entries ==> updated.entries[c] == byCategory.entries[c];
          }
        }
      } else if category in byCategory.entries {
        var updated := byCategory.Put(category, EmptyMap());
        assert after.entries[mode] == Timed(updated);
        if c != category {
          assert c in updated.entries ==> updated.entries[c] == byCategory.entries[c];
        }
      }
    case Flat(lists) =>
  }

  /** Clearing keeps every key and the shape, and empties exactly the targeted buckets. */
  lemma ClearEmptiesOnlyTarget(b: Boards, mode: string, category: string, timeLimit: Option<string>)
    requires Shaped(b)
    ensures Shaped(Cleared(b, mode, category, timeLimit)) && Cleared(b, mode, category, timeLimit).keys == b.keys
    ensures forall m, c, t ::
      GetLeaderboard(Cleared(b, mode, category, timeLimit), m, c, t) ==
        if ClearHits(mode, category, timeLimit, m, c, t) then [] else GetLeaderboard(b, m, c, t)
  {
    ClearedShaped(b, mode, category, timeLimit);
    var after := Cleared(b, mode, category, timeLimit);
    forall m, c, t
      ensures GetLeaderboard(after, m, c, t) ==
        if ClearHits(mode, category, timeLimit, m, c, t) then [] else GetLeaderboard(b, m, c, t)
    {
      if m == mode && mode in b.entries {
        assert ModeShaped(mode, b.entries[mode]);
        ClearedReads(b, mode, category, timeLimit, c, t);
      } else if m != mode {
        assert m in after.entries <==> m in b.entries;
        assert m in b.entries ==> after.entries[m] == b.entries[m];
      }
    }
  }

  // ----- all entries, in the order the counting loops visit them -----

  /** The buckets of the first `n` categories of a table, concatenated. */
  function ListsEntries(t: Table, n: nat): seq<Entry>
    requires n <= |t.keys|
  {
    if n == 0 then [] else ListsEntries(t, n - 1) + Bucket(t, t.keys[n - 1])
  }

  function TableEntries(t: Table): seq<Entry> {
    ListsEntries(t, |t.keys|)
  }

  /** The entries of the first `n` categories of the time-limited table, every time limit of each. */
  function TimedEntries(byCategory: OrderedMap<string, Table>, n: nat): seq<Entry>
    requires n <= |byCategory.keys|
  {
    if n == 0 then []
    else
      var c := byCategory.keys[n - 1];
      TimedEntries(byCategory, n - 1) + (if c in byCategory.entries then TableEntries(byCategory.entries[c]) else [])
  }

  function ModeEntries(t: ModeTable): seq<Entry> {
    match t
    case Flat(lists) => TableEntries(lists)
    case Timed(byCategory) => TimedEntries(byCategory, |byCategory.keys|)
  }

  function BoardEntries(b: Boards, n: nat): seq<Entry>
    requires n <= |b.keys|
  {
    if n == 0 then []
    else
      var m := b.keys[n - 1];
      BoardEntries(b, n - 1) + (if m in b.entries then ModeEntries(b.entries[m]) else [])
  }

  /** Every entry of every bucket, mode by mode, category by category, time limit by time limit. */
  function AllEntries(b: Boards): seq<Entry> {
    BoardEntries(b, |b.keys|)
  }

  lemma {:induction false} ListsEntriesHold(t: Table, n: nat, i: nat, e: Entry)
    requires i < n <= |t.keys| && e in Bucket(t, t.keys[i])
    ensures e in ListsEntries(t, n)
  {
    if i < n - 1 {
      ListsEntriesHold(t, n - 1, i, e);
    }
  }

  lemma {:induction false} TimedEntriesHold(byCategory: OrderedMap<string, Table>, n: nat, i: nat, e: Entry)
    requires i < n <= |byCategory.keys| && byCategory.keys[i] in byCategory.entries
    requires e in TableEntries(byCategory.entries[byCategory.keys[i]])
    ensures e in TimedEntries(byCategory, n)
  {
    if i < n - 1 {
      TimedEntriesHold(byCategory, n - 1, i, e);
    }
  }

  lemma {:induction false} BoardEntriesHold(b: Boards, n: nat, i: nat, e: Entry)
    requires i < n <= |b.keys| && b.keys[i] in b.entries && e in ModeEntries(b.entries[b.keys[i]])
    ensures e in BoardEntries(b, n)
  {
    if i < n - 1 {
      BoardEntriesHold(b, n - 1, i, e);
    }
  }

  /** Every entry that getLeaderboard can return is among the entries the counters count. */
  lemma EveryBucketIsCounted(b: Boards, mode: string, category: string, timeLimit: Option<string>, e: Entry)
    requires Shaped(b) && e in GetLeaderboard(b, mode, category, timeLimit)
    ensures e in AllEntries(b)
  {
    var i :| 0 <= i < |b.keys| && b.keys[i] == mode;
    match b.entries[mode]
    case Flat(lists) =>
      var j :| 0 <= j < |lists.keys| && lists.keys[j] == category;
      ListsEntriesHold(lists, |lists.keys|, j, e);
      BoardEntriesHold(b, |b.keys|, i, e);
    case Timed(byCategory) =>
      var j :| 0 <= j < |byCategory.keys| && byCategory.keys[j] == category;
      var inner := byCategory.entries[category];
      var k :| 0 <= k < |inner.keys| && inner.keys[k] == TimeKey(timeLimit);
      ListsEntriesHold(inner, |inner.keys|, k, e);
      TimedEntriesHold(byCategory, |byCategory.keys|, j, e);
      BoardEntriesHold(b, |b.keys|, i, e);
  }

  // ----- counting loops -----

  /** The per-category loop of updateMetadata for one table. */
  method CountTable(t: Table) returns (n: nat)
    ensures n == |TableEntries(t)|
  {
    n := 0;
    var i := 0;
    while i < |t.keys|
      invariant 0 <= i <= |t.keys|
      invariant n == |ListsEntries(t, i)|
    {
      n := n + |Bucket(t, t.keys[i])|;
      i := i + 1;
    }
  }

  /** The nested category and time-limit loops of updateMetadata for the time-limited mode. */
  method CountTimed(byCategory: OrderedMap<string, Table>) returns (n: nat)
    ensures n == |TimedEntries(byCategory, |byCategory.keys|)|
  {
    n := 0;
    var i := 0;
    while i < |byCategory.keys|
      invariant 0 <= i <= |byCategory.keys|
      invariant n == |TimedEntries(byCategory, i)|
    {
      var c := byCategory.keys[i];
      if c in byCategory.entries {
        var k := CountTable(byCategory.entries[c]);
        n := n + k;
      }
      i := i + 1;
    }
  }

  method CountMode(t: ModeTable) returns (n: nat)
    ensures n == |ModeEntries(t)|
  {
    match t
    case Flat(lists) =>
      n := CountTable(lists);
    case Timed(byCategory) =>
      n := CountTimed(byCategory);
  }

  // ----- getLeaderboardStatistics -----

  /** The distinct player names of a list of entries, gathered in order. */
  function Names(s: seq<Entry>): set<string> {
    if |s| == 0 then {} else Names(s[..|s| - 1]) + {s[|s| - 1].name}
  }

  /** The gathered names are exactly the names that occur. */
  lemma {:induction false} NamesAreThePlayers(s: seq<Entry>)
    ensures forall x :: x in Names(s) <==> exists i :: 0 <= i < |s| && s[i].name == x
  {
    if |s| > 0 {
      var front := s[..|s| - 1];
      NamesAreThePlayers(front);
      forall x | x in Names(s) ensures exists i :: 0 <= i < |s| && s[i].name == x {
        if x in Names(front) {
          var i :| 0 <= i < |front| && front[i].name == x;
          assert s[i] == front[i];
        } else {
          assert s[|s| - 1].name == x;
        }
      }
      forall x | exists i :: 0 <= i < |s| && s[i].name == x ensures x in Names(s) {
        var i :| 0 <= i < |s| && s[i].name == x;
        if i < |s| - 1 {
          assert front[i] == s[i];
        }
      }
    }
  }

  /**
   * A map built by visiting the first `n` keys of `m` in order and storing
   * `f` of each value under the same key: the shape of the category counters.
   */
  function Tabulate<V, W>(m: OrderedMap<string, V>, f: V -> W, n: nat): OrderedMap<string, W>
    requires n <= |m.keys|
  {
    if n == 0 then EmptyMap()
    else
      var k := m.keys[n - 1];
      var r := Tabulate(m, f, n - 1);
      if k in m.entries then r.Put(k, f(m.entries[k])) else r
  }

  /** Tabulating keeps the keys and their order. */
  lemma {:induction false} TabulateKeys<V, W>(m: OrderedMap<string, V>, f: V -> W, n: nat)
    requires m.Valid() && n <= |m.keys|
    ensures Tabulate(m, f, n).Valid() && Tabulate(m, f, n).keys == m.keys[..n]
  {
    if n > 0 {
      TabulateKeys(m, f, n - 1);
      var k := m.keys[n - 1];
      var r := Tabulate(m, f, n - 1);
      assert k in m.entries;
      LaterKeyIsFresh(m, n - 1);
      assert k !in r.entries;
      assert m.keys[..n] == m.keys[..n - 1] + [k];
    }
  }

  /** Tabulating applies `f` to every value it keeps. */
  lemma {:induction false} TabulateValues<V, W>(m: OrderedMap<string, V>, f: V -> W, n: nat)
    requires n <= |m.keys|
    ensures forall k :: k in Tabulate(m, f, n).entries ==> k in m.entries && Tabulate(m, f, n).entries[k] == f(m.entries[k])
  {
    if n > 0 {
      TabulateValues(m, f, n - 1);
    }
  }

  /** Tabulating keeps the keys and their order and applies `f` to every value. */
  lemma TabulateMaps<V, W>(m: OrderedMap<string, V>, f: V -> W, n: nat)
    requires m.Valid() && n <= |m.keys|
    ensures Tabulate(m, f, n).Valid() && Tabulate(m, f, n).keys == m.keys[..n]
    ensures forall k :: k in Tabulate(m, f, n).entries ==> k in m.entries && Tabulate(m, f, n).entries[k] == f(m.entries[k])
  {
    TabulateKeys(m, f, n);
    TabulateValues(m, f, n);
  }

  /** A key of an ordered map does not occur before its own place. */
  lemma LaterKeyIsFresh<V>(m: OrderedMap<string, V>, n: nat)
    requires m.Valid() && n < |m.keys|
    ensures m.keys[n] !in m.keys[..n]
  {
    forall j | 0 <= j < n ensures m.keys[..n][j] != m.keys[n] {
      assert m.keys[..n][j] == m.keys[j];
    }
  }

  function Length(l: seq<Entry>): nat {
    |l|
  }

  function TableSize(t: Table): nat {
    |TableEntries(t)|
  }

  /** `categoryStats[mode]`: entries per category, summed over the time limits for the time-limited mode. */
  function ModeCounts(t: ModeTable): OrderedMap<string, nat> {
    match t
    case Flat(lists) => Tabulate(lists, Length, |lists.keys|)
    case Timed(byCategory) => Tabulate(byCategory, TableSize, |byCategory.keys|)
  }

  datatype Statistics = Statistics(
    totalEntries: nat,
    totalPlayers: nat,
    topPerformers: seq<Entry>,
    categoryStats: OrderedMap<string, OrderedMap<string, nat>>,
    lastUpdated: Option<int>)

  const TopCount := 10

  /** What getLeaderboardStatistics reports for a document. */
  function StatisticsOf(b: Boards, lastUpdated: Option<int>): Statistics {
    var all := AllEntries(b);
    Statistics(|all|, |Names(all)|, Take(SortBy(all, false), TopCount), Tabulate(b, ModeCounts, |b.keys|), lastUpdated)
  }

  /**
   * The top performers are at most ten entries of the document, ranked by
   * correct answers and then accuracy, and no entry left out beats one listed.
   */
  lemma TopPerformersAreTheBest(b: Boards, lastUpdated: Option<int>)
    ensures var all := AllEntries(b);
            var top := StatisticsOf(b, lastUpdated).topPerformers;
            |top| == (if |all| <= TopCount then |all| else TopCount) &&
            Sorted(top, false) && multiset(top) <= multiset(all) &&
            forall x, i :: x in multiset(all) - multiset(top) && 0 <= i < |top| ==> !Before(x, top[i], false)
  {
    SortBySorted(AllEntries(b), false);
    TakeOfSorted(SortBy(AllEntries(b), false), TopCount, false);
  }

  /** The category counters hold one map per mode, in the document's order. */
  lemma CategoryStatsPerMode(b: Boards, lastUpdated: Option<int>, mode: string)
    requires b.Valid() && mode in b.entries
    ensures var stats := StatisticsOf(b, lastUpdated).categoryStats;
            stats.keys == b.keys && mode in stats.entries && stats.entries[mode] == ModeCounts(b.entries[mode])
  {
    TabulateMaps(b, ModeCounts, |b.keys|);
    assert b.keys[..|b.keys|] == b.keys;
  }

  /** For a mode keyed by category, each category's counter is the length of its bucket. */
  lemma FlatCategoryCount(lists: Table, category: string)
    requires lists.Valid()
    ensures ModeCounts(Flat(lists)).keys == lists.keys
    ensures category in lists.entries ==>
              category in ModeCounts(Flat(lists)).entries &&
              ModeCounts(Flat(lists)).entries[category] == |lists.entries[category]|
  {
    TabulateMaps(lists, Length, |lists.keys|);
    assert lists.keys[..|lists.keys|] == lists.keys;
  }

  /** For the time-limited mode, each category's counter is the total over all its time limits. */
  lemma TimedCategoryCount(byCategory: OrderedMap<string, Table>, category: string)
    requires byCategory.Valid()
    ensures ModeCounts(Timed(byCategory)).keys == byCategory.keys
    ensures category in byCategory.entries ==>
              category in ModeCounts(Timed(byCategory)).entries &&
              ModeCounts(Timed(byCategory)).entries[category] == |TableEntries(byCategory.entries[category])|
  {
    TabulateMaps(byCategory, TableSize, |byCategory.keys|);
    assert byCategory.keys[..|byCategory.keys|] == byCategory.keys;
  }

  lemma AppendAssoc(a: seq<Entry>, b: seq<Entry>, c: seq<Entry>)
    ensures (a + b) + c == a + (b + c)
  {
  }

  /** The innermost loop: every entry is counted, listed and its name recorded. */
  method GatherList(acc: seq<Entry>, names: set<string>, total: nat, list: seq<Entry>)
    returns (acc': seq<Entry>, names': set<string>, total': nat)
    requires names == Names(acc) && total == |acc|
    ensures acc' == acc + list && names' == Names(acc') && total' == |acc'|
  {
    acc', names', total' := acc, names, total + |list|;
    var j := 0;
    while j < |list|
      invariant 0 <= j <= |list|
      invariant acc' == acc + list[..j] && names' == Names(acc')
    {
      assert (acc' + [list[j]])[..|acc'|] == acc';
      names' := names' + {list[j].name};
      acc' := acc' + [list[j]];
      assert list[..j + 1] == list[..j] + [list[j]];
      j := j + 1;
    }
    assert list[..j] == list;
  }

  /** The category loop of a mode keyed by category alone. */
  method GatherFlat(acc: seq<Entry>, names: set<string>, total: nat, lists: Table)
    returns (acc': seq<Entry>, names': set<string>, total': nat, counts: OrderedMap<string, nat>)
    requires names == Names(acc) && total == |acc|
    ensures acc' == acc + TableEntries(lists) && names' == Names(acc') && total' == |acc'|
    ensures counts == Tabulate(lists, Length, |lists.keys|)
  {
    acc', names', total', counts := acc, names, total, EmptyMap();
    var i := 0;
    while i < |lists.keys|
      invariant 0 <= i <= |lists.keys|
      invariant acc' == acc + ListsEntries(lists, i) && names' == Names(acc') && total' == |acc'|
      invariant counts == Tabulate(lists, Length, i)
    {
      var c := lists.keys[i];
      var entries := Bucket(lists, c);
      acc', names', total' := GatherList(acc', names', total', entries);
      AppendAssoc(acc, ListsEntries(lists, i), entries);
      if c in lists.entries {
        assert Tabulate(lists, Length, i + 1) == counts.Put(c, Length(entries));
        counts := counts.Put(c, |entries|);
      } else {
        assert Tabulate(lists, Length, i + 1) == counts;
      }
      i := i + 1;
    }
  }

  /** The category and time-limit loops of the time-limited mode. */
  method GatherTimed(acc: seq<Entry>, names: set<string>, total: nat, byCategory: OrderedMap<string, Table>)
    returns (acc': seq<Entry>, names': set<string>, total': nat, counts: OrderedMap<string, nat>)
    requires names == Names(acc) && total == |acc|
    ensures acc' == acc + TimedEntries(byCategory, |byCategory.keys|) && names' == Names(acc') && total' == |acc'|
    ensures counts == Tabulate(byCategory, TableSize, |byCategory.keys|)
  {
    acc', names', total', counts := acc, names, total, EmptyMap();
    var i := 0;
    while i < |byCategory.keys|
      invariant 0 <= i <= |byCategory.keys|
      invariant acc' == acc + TimedEntries(byCategory, i) && names' == Names(acc') && total' == |acc'|
      invariant counts == Tabulate(byCategory, TableSize, i)
    {
      var c := byCategory.keys[i];
      if c in byCategory.entries {
        var before := total';
        var perLimit;
        acc', names', total', perLimit := GatherFlat(acc', names', total', byCategory.entries[c]);
        counts := counts.Put(c, total' - before);
      }
      i := i + 1;
    }
  }

  method GatherMode(acc: seq<Entry>, names: set<string>, total: nat, t: ModeTable)
    returns (acc': seq<Entry>, names': set<string>, total': nat, counts: OrderedMap<string, nat>)
    requires names == Names(acc) && total == |acc|
    ensures acc' == acc + ModeEntries(t) && names' == Names(acc') && total' == |acc'|
    ensures counts == ModeCounts(t)
  {
    match t
    case Flat(lists) =>
      acc', names', total', counts := GatherFlat(acc, names, total, lists);
    case Timed(byCategory) =>
      acc', names', total', counts := GatherTimed(acc, names, total, byCategory);
  }

  /** The mode loop of updateMetadata: the number of entries over all buckets. */
  method CountAll(b: Boards) returns (total: nat)
    ensures total == |AllEntries(b)|
  {
    total := 0;
    var i := 0;
    while i < |b.keys|
      invariant 0 <= i <= |b.keys|
      invariant total == |BoardEntries(b, i)|
    {
      var m := b.keys[i];
      if m in b.entries {
        var n := CountMode(b.entries[m]);
        total := total + n;
      }
      i := i + 1;
    }
  }

  // ===================================================================
  // getLeaderboardStorageKey
  // ===================================================================

  /** `timeLimit` is truthy: present, and neither empty nor the number zero. */
  predicate HasTimeLimit(timeLimit: Option<string>) {
    timeLimit.Some? && timeLimit.value != "" && timeLimit.value != "0"
  }

  /** The localStorage key of a bucket's backup copy. */
  function StorageKey(mode: string, category: string, timeLimit: Option<string>): string {
    var key := "terraTueftlerLeaderboard_" + OrElse(Some(mode), "default") + "_" + OrElse(Some(category), "all");
    if mode == TimeLimited && HasTimeLimit(timeLimit) then key + "_" + timeLimit.value + "s" else key
  }

  /** Within one time-limited category, different time limits have different backup keys. */
  lemma StorageKeySeparatesTimeLimits(category: string, t1: Option<string>, t2: Option<string>)
    requires HasTimeLimit(t1) || HasTimeLimit(t2)
    requires (HasTimeLimit(t1) && HasTimeLimit(t2)) ==> t1.value != t2.value
    ensures StorageKey(TimeLimited, category, t1) != StorageKey(TimeLimited, category, t2)
  {
    var key := "terraTueftlerLeaderboard_" + TimeLimited + "_" + OrElse(Some(category), "all");
    if HasTimeLimit(t1) && HasTimeLimit(t2) {
      var k1 := StorageKey(TimeLimited, category, t1);
      var k2 := StorageKey(TimeLimited, category, t2);
      assert k1 == key + "_" + t1.value + "s";
      assert k1[|key| + 1..|k1| - 1] == t1.value;
      assert k2[|key| + 1..|k2| - 1] == t2.value;
    }
  }

  /** Underscores are not escaped: a timed bucket and an untimed category can share a backup key. */
  lemma StorageKeysCanCollide()
    ensures StorageKey(TimeLimited, "a", Some("1")) == StorageKey(TimeLimited, "a_1s", None)
  {
  }

  // ===================================================================
  // The module-level leaderboard object
  // ===================================================================

  /** `leaderboardData`: the buckets, and the `_metadata` counters. */
  class LeaderboardStore {
    var modes: Boards
    var totalEntries: nat
    var lastUpdated: Option<int>

    ghost predicate Valid()
      reads this
    {
      Shaped(modes)
    }

    /** The module starts with an empty object. */
    constructor()
      ensures Valid() && modes == EmptyMap() && totalEntries == 0 && lastUpdated == None
    {
      modes := EmptyMap();
      totalEntries := 0;
      lastUpdated := None;
    }

    /** updateMetadata: recount every bucket and stamp the clock. */
    method UpdateMetadata(now: int)
      requires Valid()
      modifies this
      ensures Valid() && modes == old(modes)
      ensures totalEntries == |AllEntries(modes)| && lastUpdated == Some(now)
    {
      totalEntries := CountAll(modes);
      lastUpdated := Some(now);
    }

    /**
     * saveLeaderboardEntry: refuse a missing name, mode or category or a
     * negative score; otherwise rebuild the target bucket as the merge of its
     * entries plus the new one, and recount.
     */
    method SaveEntry(name: string, correctAnswers: int, mode: string, category: string, totalQuestions: int,
                     maxStreak: Option<int>, timeLimit: Option<string>, now: int) returns (saved: bool)
      requires Valid()
      requires mode != MetadataKey
      requires mode == TimeLimited ==> mode in modes.entries
      modifies this
      ensures Valid()
      ensures saved <==> name != "" && mode != "" && category != "" && correctAnswers >= 0
      ensures !saved ==> modes == old(modes) && totalEntries == old(totalEntries) && lastUpdated == old(lastUpdated)
      ensures saved ==> modes == PutBucket(old(modes), mode, category, timeLimit,
                          Merge([], old(GetLeaderboard(modes, mode, category, timeLimit)) +
                                    [SessionEntry(name, correctAnswers, mode, category, totalQuestions, maxStreak, timeLimit, now)], now))
      ensures saved ==> totalEntries == |AllEntries(modes)| && lastUpdated == Some(now)
    {
      if name == "" || mode == "" || category == "" || correctAnswers < 0 {
        return false;
      }
      var entry := SessionEntry(name, correctAnswers, mode, category, totalQuestions, maxStreak, timeLimit, now);
      var current := GetLeaderboard(modes, mode, category, timeLimit);
      current := current + [entry];
      var sorted := MergeLeaderboardData([], current, now);
      ghost var target := PutBucket(modes, mode, category, timeLimit, sorted);
      ShapedAfterPut(modes, mode, category, timeLimit, sorted);
      if mode == TimeLimited {
        assert ModeShaped(mode, modes.entries[mode]);
        var byCategory := modes.entries[mode].byCategory;
        if category !in byCategory.entries {
          byCategory := byCategory.Put(category, EmptyMap());
        }
        var inner := byCategory.entries[category].Put(TimeKey(timeLimit), sorted);
        PutTwice(modes.entries[mode].byCategory, category, EmptyMap(), inner);
        byCategory := byCategory.Put(category, inner);
        modes := modes.Put(mode, Timed(byCategory));
      } else {
        if mode !in modes.entries {
          modes := modes.Put(mode, Flat(EmptyMap()));
        } else {
          assert ModeShaped(mode, modes.entries[mode]);
        }
        var lists := modes.entries[mode].lists.Put(category, sorted);
        PutTwice(old(modes), mode, Flat(EmptyMap()), Flat(lists));
        modes := modes.Put(mode, Flat(lists));
      }
      assert modes == target;
      UpdateMetadata(now);
      return true;
    }

    /**
     * clearLeaderboardCategory: nothing happens for an unknown mode; otherwise
     * the targeted bucket or category is emptied where it exists, and the
     * counters are recomputed.
     */
    method ClearCategory(mode: string, category: string, timeLimit: Option<string>, now: int)
      requires Valid()
      modifies this
      ensures Valid()
      ensures mode !in old(modes.entries) ==>
                modes == old(modes) && totalEntries == old(totalEntries) && lastUpdated == old(lastUpdated)
      ensures mode in old(modes.entries) ==>
                modes == Cleared(old(modes), mode, category, timeLimit) &&
                totalEntries == |AllEntries(modes)| && lastUpdated == Some(now)
    {
      if mode !in modes.entries {
        return;
      }
      ClearedShaped(modes, mode, category, timeLimit);
      if mode == TimeLimited && timeLimit.Some? {
        var timeKey := timeLimit.value;
        match modes.entries[mode]
        case Timed(byCategory) =>
          if category in byCategory.entries && timeKey in byCategory.entries[category].entries {
            modes := modes.Put(mode, Timed(byCategory.Put(category, byCategory.entries[category].Put(timeKey, []))));
          }
        case Flat(_) =>
      } else {
        match modes.entries[mode]
        case Flat(lists) =>
          if category in lists.entries {
            modes := modes.Put(mode, Flat(lists.Put(category, [])));
          }
        case Timed(byCategory) =>
          if category in byCategory.entries {
            modes := modes.Put(mode, Timed(byCategory.Put(category, EmptyMap())));
          }
      }
      UpdateMetadata(now);
    }

    /** getLeaderboardStatistics. */
    method GetLeaderboardStatistics() returns (st: Statistics)
      requires Valid()
      ensures st == StatisticsOf(modes, lastUpdated)
    {
      var b := modes;
      var all: seq<Entry> := [];
      var players: set<string> := {};
      var total: nat := 0;
      var stats: OrderedMap<string, OrderedMap<string, nat>> := EmptyMap();
      var i := 0;
      while i < |b.keys|
        invariant 0 <= i <= |b.keys|
        invariant all == BoardEntries(b, i) && players == Names(all) && total == |all|
        invariant stats == Tabulate(b, ModeCounts, i)
      {
        var m := b.keys[i];
        assert m in b.entries;
        var counts;
        all, players, total, counts := GatherMode(all, players, total, b.entries[m]);
        assert BoardEntries(b, i + 1) == BoardEntries(b, i) + ModeEntries(b.entries[m]);
        stats := stats.Put(m, counts);
        i := i + 1;
      }
      var ranked := SortBy(all, false);
      st := Statistics(total, |players|, Take(ranked, TopCount), stats, lastUpdated);
    }
  }
}
