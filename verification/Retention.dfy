/** Which local snapshots are kept (internal/backup/manager.go:488-529): everything of the last day,
    the newest success of each of 14 days and of 8 weeks, and partial snapshots for a week. */
module Retention {

  const DAY: int := 24 * 60 * 60 * 1_000_000_000
  const DAILY: nat := 14
  const WEEKLY: nat := 8

  /** created is in nanoseconds since the Unix epoch. */
  datatype Manifest = Manifest(id: string, partial: bool, created: int)

  /** The UTC calendar date, as a day number. */
  function DayOf(m: Manifest): int
  {
    m.created / DAY
  }

  /** The ISO week, as a week number; weeks start on Monday and day 0 was a Thursday. */
  function WeekOf(m: Manifest): int
  {
    (DayOf(m) + 3) / 7
  }

  /** The two cutoffs, computed from two readings of the clock. */
  datatype Instant = Instant(cutoff: int, partialCutoff: int)

  function At(now: int, later: int): Instant
  {
    Instant(now - DAY, later - 7 * DAY)
  }

  predicate NotAfter(a: Instant, b: Instant)
  {
    a.cutoff <= b.cutoff && a.partialCutoff <= b.partialCutoff
  }

  /** Whether a snapshot stays, given the days and weeks of the newer successes. */
  predicate Keeps(days: set<int>, weeks: set<int>, m: Manifest, at: Instant)
  {
    if m.partial then m.created > at.partialCutoff
    else
      || m.created > at.cutoff
      || (DayOf(m) !in days && |days| < DAILY)
      || (WeekOf(m) !in weeks && |weeks| < WEEKLY)
  }

  function DaysWith(days: set<int>, m: Manifest): set<int>
  {
    if m.partial then days else days + {DayOf(m)}
  }

  function WeeksWith(weeks: set<int>, m: Manifest): set<int>
  {
    if m.partial then weeks else weeks + {WeekOf(m)}
  }

  /** What is left of a newest-first list. */
  function Left(days: set<int>, weeks: set<int>, list: seq<Manifest>, at: Instant): seq<Manifest>
    decreases list
  {
    if list == [] then []
    else
      var m := list[0];
      (if Keeps(days, weeks, m, at) then [m] else []) + Left(DaysWith(days, m), WeeksWith(weeks, m), list[1..], at)
  }

  function Pruned(list: seq<Manifest>, at: Instant): seq<Manifest>
  {
    Left({}, {}, list, at)
  }

  function DaysIn(list: seq<Manifest>): set<int>
    decreases |list|
  {
    if list == [] then {} else DaysWith(DaysIn(list[..|list| - 1]), list[|list| - 1])
  }

  function WeeksIn(list: seq<Manifest>): set<int>
    decreases |list|
  {
    if list == [] then {} else WeeksWith(WeeksIn(list[..|list| - 1]), list[|list| - 1])
  }

  // ---------------------------------------------------------------- pruning, as written

  ghost predicate DistinctIds(list: seq<Manifest>)
  {
    forall i, j | 0 <= i < j < |list| :: list[i].id != list[j].id
  }

  /** A capped set of keys is all of them until it is full. */
  ghost predicate Capped(keys: set<int>, all: set<int>, limit: nat)
  {
    keys <= all && |keys| <= limit && (keys == all || |keys| == limit)
  }

  lemma CappedDecides(keys: set<int>, all: set<int>, limit: nat, k: int)
    requires Capped(keys, all, limit)
    ensures k !in keys && |keys| < limit <==> k !in all && |all| < limit
    ensures Capped(if k !in keys && |keys| < limit then keys + {k} else keys, all + {k}, limit)
  {
    SubsetSize(keys, all);
    if k in all {
      assert all + {k} == all;
    }
  }

  lemma SubsetSize(a: set<int>, b: set<int>)
    requires a <= b
    ensures |a| <= |b|
  {
    assert b == a + (b - a);
    assert |b| == |a| + |b - a|;
  }

  /** The ids under which some snapshot of the first n stays. */
  function KeptIds(list: seq<Manifest>, at: Instant, n: nat): set<string>
    requires n <= |list|
  {
    set i | 0 <= i < n && Keeps(DaysIn(list[..i]), WeeksIn(list[..i]), list[i], at) :: list[i].id
  }

  function OnlyIds(list: seq<Manifest>, ids: set<string>): seq<Manifest>
    decreases |list|
  {
    if list == [] then []
    else OnlyIds(list[..|list| - 1], ids) + if list[|list| - 1].id in ids then [list[|list| - 1]] else []
  }

  lemma KeepOneMore(list: seq<Manifest>, at: Instant, n: nat)
    requires n < |list|
    ensures KeptIds(list, at, n + 1)
      == KeptIds(list, at, n) + if Keeps(DaysIn(list[..n]), WeeksIn(list[..n]), list[n], at) then {list[n].id} else {}
  {
    hide Keeps, DaysIn, WeeksIn;
  }

  lemma InOneMore(list: seq<Manifest>, n: nat)
    requires n < |list|
    ensures DaysIn(list[..n + 1]) == DaysWith(DaysIn(list[..n]), list[n])
    ensures WeeksIn(list[..n + 1]) == WeeksWith(WeeksIn(list[..n]), list[n])
  {
    assert list[..n + 1][..n] == list[..n];
  }

  method PruneLocalSnapshots(list: seq<Manifest>, now: int, later: int) returns (left: seq<Manifest>)
    ensures left == OnlyIds(list, KeptIds(list, At(now, later), |list|))
    ensures DistinctIds(list) ==> left == Pruned(list, At(now, later))
  {
    hide DaysIn, WeeksIn, KeptIds, Capped, DayOf, WeekOf, Pruned, DistinctIds;
    ghost var at := At(now, later);
    var keep: set<string> := {};
    var days: set<int>, weeks: set<int> := {}, {};
    var dailyCount, weeklyCount := 0, 0;
    var cutoff := now - DAY;
    var partialCutoff := later - 7 * DAY;
    NothingSeen(list, at);
    for n := 0 to |list|
      invariant keep == KeptIds(list, at, n)
      invariant Capped(days, DaysIn(list[..n]), DAILY) && dailyCount == |days|
      invariant Capped(weeks, WeeksIn(list[..n]), WEEKLY) && weeklyCount == |weeks|
    {
      var m := list[n];
      KeepOneMore(list, at, n);
      InOneMore(list, n);
      if m.partial {
        if m.created > partialCutoff {
          keep := keep + {m.id};
        }
        continue;
      }
      ghost var before := keep;
      CappedDecides(days, DaysIn(list[..n]), DAILY, DayOf(m));
      CappedDecides(weeks, WeeksIn(list[..n]), WEEKLY, WeekOf(m));
      if m.created > cutoff {
        keep := keep + {m.id};
      }
      var day := DayOf(m);
      if day !in days && dailyCount < 14 {
        days, keep := days + {day}, keep + {m.id};
        dailyCount := dailyCount + 1;
      }
      var week := WeekOf(m);
      if week !in weeks && weeklyCount < 8 {
        weeks, keep := weeks + {week}, keep + {m.id};
        weeklyCount := weeklyCount + 1;
      }
      assert keep == if Keeps(DaysIn(list[..n]), WeeksIn(list[..n]), m, at) then before + {m.id} else before;
    }
    left := RemoveOthers(list, keep);
    if DistinctIds(list) {
      DistinctIdsArePruned(list, at);
    }
  }

  method RemoveOthers(list: seq<Manifest>, keep: set<string>) returns (left: seq<Manifest>)
    ensures left == OnlyIds(list, keep)
  {
    left := [];
    for n := 0 to |list|
      invariant left == OnlyIds(list[..n], keep)
    {
      assert list[..n + 1][..n] == list[..n];
      if list[n].id in keep {
        left := left + [list[n]];
      }
    }
    assert list[..|list|] == list;
  }

  lemma {:induction false} OnlyIdsUpto(list: seq<Manifest>, at: Instant, n: nat)
    requires DistinctIds(list) && n <= |list|
    ensures
      OnlyIds(list[..n], KeptIds(list, at, |list|)) + Left(DaysIn(list[..n]), WeeksIn(list[..n]), list[n..], at)
        == Pruned(list, at)
  {
    var ids := KeptIds(list, at, |list|);
    hide KeptIds, Keeps, DistinctIds, Left, DaysIn, WeeksIn, DaysWith, WeeksWith, OnlyIds, Pruned;
    if n == 0 {
      FromTheStart(list, at, ids);
    } else {
      OnlyIdsUpto(list, at, n - 1);
      LeftOneMore(list, at, n - 1);
      KeepDecides(list, at, n - 1);
      InOneMore(list, n - 1);
      OneIdMore(list, ids, n - 1, Left(DaysIn(list[..n]), WeeksIn(list[..n]), list[n..], at));
    }
  }

  lemma OneIdMore(list: seq<Manifest>, ids: set<string>, n: nat, rest: seq<Manifest>)
    requires n < |list|
    ensures OnlyIds(list[..n + 1], ids) + rest == OnlyIds(list[..n], ids)
      + ((if list[n].id in ids then [list[n]] else []) + rest)
  {
    assert list[..n + 1][..n] == list[..n];
  }

  lemma FromTheStart(list: seq<Manifest>, at: Instant, ids: set<string>)
    ensures OnlyIds(list[..0], ids) + Left(DaysIn(list[..0]), WeeksIn(list[..0]), list[0..], at) == Pruned(list, at)
  {
    hide Left;
    assert list[0..] == list;
  }

  /** With distinct ids keeping by id is keeping by snapshot. */
  lemma DistinctIdsArePruned(list: seq<Manifest>, at: Instant)
    requires DistinctIds(list)
    ensures OnlyIds(list, KeptIds(list, at, |list|)) == Pruned(list, at)
  {
    OnlyIdsUpto(list, at, |list|);
    NothingLeft(list, at);
    hide Left, DaysIn, WeeksIn, OnlyIds, Pruned, KeptIds;
    assert list[..|list|] == list;
  }

  lemma NothingSeen(list: seq<Manifest>, at: Instant)
    ensures KeptIds(list, at, 0) == {} && DaysIn(list[..0]) == {} && WeeksIn(list[..0]) == {}
    ensures Capped({}, {}, DAILY) && Capped({}, {}, WEEKLY)
  {
  }

  lemma NothingLeft(list: seq<Manifest>, at: Instant)
    ensures Left(DaysIn(list[..|list|]), WeeksIn(list[..|list|]), list[|list|..], at) == []
  {
  }

  lemma LeftOneMore(list: seq<Manifest>, at: Instant, n: nat)
    requires n < |list|
    ensures
      var days, weeks := DaysIn(list[..n]), WeeksIn(list[..n]);
      Left(days, weeks, list[n..], at)
        == (if Keeps(days, weeks, list[n], at) then [list[n]] else [])
          + Left(DaysWith(days, list[n]), WeeksWith(weeks, list[n]), list[n + 1..], at)
  {
    assert list[n..][0] == list[n] && list[n..][1..] == list[n + 1..];
    hide Keeps, DaysIn, WeeksIn, DaysWith, WeeksWith;
  }

  lemma KeepDecides(list: seq<Manifest>, at: Instant, n: nat)
    requires n < |list| && DistinctIds(list)
    ensures list[n].id in KeptIds(list, at, |list|) <==> Keeps(DaysIn(list[..n]), WeeksIn(list[..n]), list[n], at)
  {
    hide Keeps, DaysIn, WeeksIn;
  }

  // ---------------------------------------------------------------- pruning again and again

  /** Of the keys of the whole list, those of the snapshots left by an earlier pruning: all of them,
      or as many as are ever counted. */
  ghost predicate Enough(some: set<int>, all: set<int>, limit: nat)
  {
    some <= all && (some == all || |some| >= limit)
  }

  lemma EnoughDecides(newer: set<int>, some: set<int>, all: set<int>, limit: nat, k: int)
    requires Enough(some, all, limit)
    ensures k !in newer + some && |newer + some| < limit <==> k !in newer + all && |newer + all| < limit
  {
    SubsetSize(newer + some, newer + all);
    SubsetSize(some, newer + some);
  }

  lemma EnoughOneMore(some: set<int>, all: set<int>, limit: nat, k: int, kept: bool)
    requires Enough(some, all, limit) && (k !in all && |all| < limit ==> kept)
    ensures Enough(if kept then some + {k} else some, all + {k}, limit)
  {
    SubsetSize(some, all);
    SubsetSize(some, some + {k});
    if k in all {
      assert all + {k} == all;
    }
  }

  /** What the first pruning dropped, the second would drop from the whole list too. */
  lemma DroppedStaysDropped(newerDays: set<int>, newerWeeks: set<int>, days: set<int>, weeks: set<int>, m: Manifest,
      first: Instant, second: Instant)
    requires NotAfter(first, second) && !Keeps(days, weeks, m, first)
    ensures !Keeps(newerDays + days, newerWeeks + weeks, m, second)
  {
    SubsetSize(days, newerDays + days);
    SubsetSize(weeks, newerWeeks + weeks);
    hide DayOf, WeekOf;
  }

  lemma KeptDecidesAlike(newerDays: set<int>, newerWeeks: set<int>, someDays: set<int>, someWeeks: set<int>,
      days: set<int>, weeks: set<int>, m: Manifest, at: Instant)
    requires Enough(someDays, days, DAILY) && Enough(someWeeks, weeks, WEEKLY)
    ensures Keeps(newerDays + someDays, newerWeeks + someWeeks, m, at) <==>
      Keeps(newerDays + days, newerWeeks + weeks, m, at)
  {
    EnoughDecides(newerDays, someDays, days, DAILY, DayOf(m));
    EnoughDecides(newerWeeks, someWeeks, weeks, WEEKLY, WeekOf(m));
    hide DayOf, WeekOf, Enough;
  }

  lemma {:induction false} PrunedTwice(newerDays: set<int>, newerWeeks: set<int>, someDays: set<int>,
      someWeeks: set<int>,
      days: set<int>, weeks: set<int>, list: seq<Manifest>, first: Instant, second: Instant)
    requires NotAfter(first, second) && Enough(someDays, days, DAILY) && Enough(someWeeks, weeks, WEEKLY)
    ensures Left(newerDays + someDays, newerWeeks + someWeeks, Left(days, weeks, list, first), second)
      == Left(newerDays + days, newerWeeks + weeks, list, second)
    decreases list
  {
    if list != [] {
      var m, rest := list[0], list[1..];
      var kept := Keeps(days, weeks, m, first);
      var tail := Left(DaysWith(days, m), WeeksWith(weeks, m), rest, first);
      var moreDays, moreWeeks := if kept then DaysWith(someDays, m) else someDays, if kept then WeeksWith(someWeeks, m)
        else someWeeks;
      EnoughNext(someDays, someWeeks, days, weeks, m, first);
      PrunedTwice(newerDays, newerWeeks, moreDays, moreWeeks, DaysWith(days, m), WeeksWith(weeks, m), rest, first,
        second);
      Regroup(newerDays, newerWeeks, someDays, someWeeks, m);
      Regroup(newerDays, newerWeeks, days, weeks, m);
      hide Keeps, DaysWith, WeeksWith, Enough;
      if kept {
        KeptDecidesAlike(newerDays, newerWeeks, someDays, someWeeks, days, weeks, m, second);
        LeftCons(newerDays + someDays, newerWeeks + someWeeks, m, tail, second);
      } else {
        DroppedStaysDropped(newerDays, newerWeeks, days, weeks, m, first, second);
        assert [] + tail == tail;
      }
    }
  }

  lemma LeftCons(days: set<int>, weeks: set<int>, m: Manifest, tail: seq<Manifest>, at: Instant)
    ensures Left(days, weeks, [m] + tail, at) == (if Keeps(days, weeks, m, at) then [m] else [])
      + Left(DaysWith(days, m), WeeksWith(weeks, m), tail, at)
  {
    hide Keeps, DaysWith, WeeksWith;
    assert ([m] + tail)[1..] == tail;
  }

  lemma EnoughNext(someDays: set<int>, someWeeks: set<int>, days: set<int>, weeks: set<int>, m: Manifest, at: Instant)
    requires Enough(someDays, days, DAILY) && Enough(someWeeks, weeks, WEEKLY)
    ensures
      var kept := Keeps(days, weeks, m, at);
      && Enough(if kept then DaysWith(someDays, m) else someDays, DaysWith(days, m), DAILY)
      && Enough(if kept then WeeksWith(someWeeks, m) else someWeeks, WeeksWith(weeks, m), WEEKLY)
  {
    if !m.partial {
      var kept := Keeps(days, weeks, m, at);
      EnoughOneMore(someDays, days, DAILY, DayOf(m), kept);
      EnoughOneMore(someWeeks, weeks, WEEKLY, WeekOf(m), kept);
    }
    hide Enough, DayOf, WeekOf;
  }

  lemma Regroup(newerDays: set<int>, newerWeeks: set<int>, days: set<int>, weeks: set<int>, m: Manifest)
    ensures DaysWith(newerDays + days, m) == newerDays + DaysWith(days, m)
    ensures WeeksWith(newerWeeks + weeks, m) == newerWeeks + WeeksWith(weeks, m)
  {
    hide DayOf, WeekOf;
    assert newerDays + days + {DayOf(m)} == newerDays + (days + {DayOf(m)});
    assert newerWeeks + weeks + {WeekOf(m)} == newerWeeks + (weeks + {WeekOf(m)});
  }

  lemma {:induction false} LeftSplits(days: set<int>, weeks: set<int>, newer: seq<Manifest>, older: seq<Manifest>,
      at: Instant)
    ensures Left(days, weeks, newer + older, at)
      == Left(days, weeks, newer, at) + Left(days + DaysIn(newer), weeks + WeeksIn(newer), older, at)
    decreases newer
  {
    hide Keeps, DaysWith, WeeksWith, Left;
    if newer == [] {
      assert newer + older == older && days + {} == days && weeks + {} == weeks;
      LeftOfNothing(days, weeks, older, at);
    } else {
      hide DaysIn, WeeksIn;
      var m, rest := newer[0], newer[1..];
      LeftSplits(DaysWith(days, m), WeeksWith(weeks, m), rest, older, at);
      assert newer == [m] + rest;
      LeftSplitsNext(days, weeks, m, rest, older, at);
    }
  }

  lemma LeftOfNothing(days: set<int>, weeks: set<int>, older: seq<Manifest>, at: Instant)
    ensures Left(days, weeks, [], at) + Left(days, weeks, older, at) == Left(days, weeks, older, at)
  {
  }

  lemma LeftSplitsNext(days: set<int>, weeks: set<int>, m: Manifest, rest: seq<Manifest>, older: seq<Manifest>,
      at: Instant)
    requires
      var moreDays, moreWeeks := DaysWith(days, m), WeeksWith(weeks, m);
      Left(moreDays, moreWeeks, rest + older, at) == Left(moreDays, moreWeeks, rest, at)
        + Left(moreDays + DaysIn(rest), moreWeeks + WeeksIn(rest), older, at)
    ensures Left(days, weeks, [m] + rest + older, at) == Left(days, weeks, [m] + rest, at)
      + Left(days + DaysIn([m] + rest), weeks + WeeksIn([m] + rest), older, at)
  {
    hide Keeps, DaysWith, WeeksWith, DaysIn, WeeksIn, Left;
    assert [m] + rest + older == [m] + (rest + older);
    LeftCons(days, weeks, m, rest + older, at);
    LeftCons(days, weeks, m, rest, at);
    InCons(days, weeks, m, rest);
    var here := if Keeps(days, weeks, m, at) then [m] else [];
    var inner := Left(DaysWith(days, m) + DaysIn(rest), WeeksWith(weeks, m) + WeeksIn(rest), older, at);
    Associate(here, Left(DaysWith(days, m), WeeksWith(weeks, m), rest, at), inner);
  }

  lemma Associate(a: seq<Manifest>, b: seq<Manifest>, c: seq<Manifest>)
    ensures (a + b) + c == a + (b + c)
  {
  }

  lemma {:induction false} InCons(days: set<int>, weeks: set<int>, m: Manifest, rest: seq<Manifest>)
    ensures days + DaysIn([m] + rest) == DaysWith(days, m) + DaysIn(rest)
    ensures weeks + WeeksIn([m] + rest) == WeeksWith(weeks, m) + WeeksIn(rest)
    decreases |rest|
  {
    hide DayOf, WeekOf;
    var list := [m] + rest;
    if rest == [] {
      assert list[..0] == [] && list[0] == m;
    } else {
      assert list[..|list| - 1] == [m] + rest[..|rest| - 1] && list[|list| - 1] == rest[|rest| - 1];
      InCons(days, weeks, m, rest[..|rest| - 1]);
    }
  }

  /** Pruning what an earlier pruning left, together with newer snapshots, leaves what pruning the
      whole history at once would leave. */
  lemma PruningForgetsNothing(newer: seq<Manifest>, older: seq<Manifest>, first: Instant, second: Instant)
    requires NotAfter(first, second)
    ensures Pruned(newer + Pruned(older, first), second) == Pruned(newer + older, second)
  {
    LeftSplits({}, {}, newer, Pruned(older, first), second);
    LeftSplits({}, {}, newer, older, second);
    var days, weeks := {} + DaysIn(newer), {} + WeeksIn(newer);
    PrunedTwice(days, weeks, {}, {}, {}, {}, older, first, second);
    assert days + {} == days && weeks + {} == weeks;
  }

  /** A round adds newer snapshots and prunes. */
  datatype Round = Round(newer: seq<Manifest>, at: Instant)

  function Kept(rounds: seq<Round>): seq<Manifest>
    decreases |rounds|
  {
    if rounds == [] then []
    else
      var last := rounds[|rounds| - 1];
      Pruned(last.newer + Kept(rounds[..|rounds| - 1]), last.at)
  }

  function History(rounds: seq<Round>): seq<Manifest>
    decreases |rounds|
  {
    if rounds == [] then [] else rounds[|rounds| - 1].newer + History(rounds[..|rounds| - 1])
  }

  ghost predicate ClockRuns(rounds: seq<Round>)
  {
    forall i | 0 <= i < |rounds| - 1 :: NotAfter(rounds[i].at, rounds[i + 1].at)
  }

  /** After any number of rounds the snapshots left are those of one pruning of everything ever taken. */
  lemma {:induction false} EveryRunIsOnePruning(rounds: seq<Round>)
    requires rounds != [] && ClockRuns(rounds)
    ensures Kept(rounds) == Pruned(History(rounds), rounds[|rounds| - 1].at)
    decreases |rounds|
  {
    var before, last := rounds[..|rounds| - 1], rounds[|rounds| - 1];
    hide Pruned;
    if before == [] {
      assert Kept(before) == [] && History(before) == [];
    } else {
      EveryRunIsOnePruning(before);
      PruningForgetsNothing(last.newer, History(before), before[|before| - 1].at, last.at);
    }
  }

  // ---------------------------------------------------------------- what one pruning keeps

  lemma {:induction false} LeftIsExact(days: set<int>, weeks: set<int>, list: seq<Manifest>, at: Instant, i: nat)
    requires DistinctIds(list) && i < |list|
    ensures list[i] in Left(days, weeks, list, at)
      <==> Keeps(days + DaysIn(list[..i]), weeks + WeeksIn(list[..i]), list[i], at)
  {
    var newer, older := list[..i], list[i..];
    assert list == newer + older && older == [list[i]] + list[i + 1..];
    LeftSplits(days, weeks, newer, older, at);
    LeftCons(days + DaysIn(newer), weeks + WeeksIn(newer), list[i], list[i + 1..], at);
    LeftIsFrom(days, weeks, newer, at);
    LeftIsFrom(DaysWith(days + DaysIn(newer), list[i]), WeeksWith(weeks + WeeksIn(newer), list[i]), list[i + 1..], at);
    hide Keeps, Left, DaysIn, WeeksIn, DaysWith, WeeksWith;
    assert list[i] !in newer && list[i] !in list[i + 1..];
  }

  lemma {:induction false} LeftIsFrom(days: set<int>, weeks: set<int>, list: seq<Manifest>, at: Instant)
    ensures forall m | m in Left(days, weeks, list, at) :: m in list
    decreases list
  {
    if list != [] {
      LeftIsFrom(DaysWith(days, list[0]), WeeksWith(weeks, list[0]), list[1..], at);
      hide Keeps, DaysWith, WeeksWith;
    }
  }

  /** A snapshot stays exactly when it is recent, or the newest success of its day among the first 14
      days with one, or the newest of its week among the first 8; a partial one only while recent. */
  lemma KeptExactly(list: seq<Manifest>, at: Instant, i: nat)
    requires DistinctIds(list) && i < |list|
    ensures list[i] in Pruned(list, at) <==> Keeps(DaysIn(list[..i]), WeeksIn(list[..i]), list[i], at)
  {
    LeftIsExact({}, {}, list, at, i);
    assert {} + DaysIn(list[..i]) == DaysIn(list[..i]) && {} + WeeksIn(list[..i]) == WeeksIn(list[..i]);
  }

  /** The newest success is never pruned. */
  lemma NewestSuccessStays(list: seq<Manifest>, at: Instant, i: nat)
    requires DistinctIds(list) && i < |list| && !list[i].partial && forall j | 0 <= j < i :: list[j].partial
    ensures list[i] in Pruned(list, at)
  {
    KeptExactly(list, at, i);
    NoSuccessNoDays(list[..i]);
  }

  lemma {:induction false} NoSuccessNoDays(list: seq<Manifest>)
    requires forall j | 0 <= j < |list| :: list[j].partial
    ensures DaysIn(list) == {} && WeeksIn(list) == {}
    decreases |list|
  {
    if list != [] {
      NoSuccessNoDays(list[..|list| - 1]);
    }
  }

  function OldSuccesses(list: seq<Manifest>, at: Instant): nat
  {
    if list == [] then 0
    else
      (if !list[0].partial && list[0].created <= at.cutoff then 1 else 0) + OldSuccesses(list[1..], at)
  }

  function Room(keys: set<int>, limit: nat): nat
  {
    if |keys| < limit then limit - |keys| else 0
  }

  lemma {:induction false} OldLeftAreFew(days: set<int>, weeks: set<int>, list: seq<Manifest>, at: Instant)
    ensures OldSuccesses(Left(days, weeks, list, at), at) <= Room(days, DAILY) + Room(weeks, WEEKLY)
    decreases list
  {
    if list != [] {
      var m := list[0];
      var tail := Left(DaysWith(days, m), WeeksWith(weeks, m), list[1..], at);
      OldLeftAreFew(DaysWith(days, m), WeeksWith(weeks, m), list[1..], at);
      assert [] + tail == tail && ([m] + tail)[1..] == tail;
      RoomShrinks(days, DayOf(m), DAILY);
      RoomShrinks(weeks, WeekOf(m), WEEKLY);
      hide Room, DayOf, WeekOf;
    }
  }

  lemma RoomShrinks(keys: set<int>, k: int, limit: nat)
    ensures Room(keys + {k}, limit) <= Room(keys, limit)
    ensures k !in keys && |keys| < limit ==> Room(keys + {k}, limit) < Room(keys, limit)
  {
    if k in keys {
      assert keys + {k} == keys;
    }
  }

  /** However long the history, at most 22 successes older than a day are left. */
  lemma OldSuccessesAreBounded(list: seq<Manifest>, at: Instant)
    ensures OldSuccesses(Pruned(list, at), at) <= 22
  {
    OldLeftAreFew({}, {}, list, at);
  }
}
