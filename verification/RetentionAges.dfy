/** Which snapshots stay, in hours, dates and Mondays (internal/backup/manager.go:488-529). */
module RetentionAges {
  import opened Retention

  /** The UTC date as a number of days; day 0 was a Thursday, so Mondays are the days 4, 11, ... */
  function Date(m: Manifest): int
  {
    m.created / 86_400_000_000_000
  }

  /** The Monday that begins its ISO week. */
  function Monday(m: Manifest): (monday: int)
    ensures monday % 7 == 4 && monday <= Date(m) < monday + 7
  {
    Date(m) - (Date(m) - 4) % 7
  }

  /** The dates and Mondays of the successes that are newer than number i. */
  function NewerDates(list: seq<Manifest>, i: nat): set<int>
    requires i <= |list|
  {
    set j | 0 <= j < i && !list[j].partial :: Date(list[j])
  }

  function NewerMondays(list: seq<Manifest>, i: nat): set<int>
    requires i <= |list|
  {
    set j | 0 <= j < i && !list[j].partial :: Monday(list[j])
  }

  lemma {:induction false} DatesAre(list: seq<Manifest>, i: nat)
    requires i <= |list|
    ensures DaysIn(list[..i]) == NewerDates(list, i)
  {
    if i == 0 {
      assert list[..0] == [];
    } else {
      DatesAre(list, i - 1);
      assert list[..i][..i - 1] == list[..i - 1];
    }
  }

  function MondayOf(week: int): int
  {
    7 * week - 3
  }

  function MondaysOf(weeks: set<int>): set<int>
  {
    set w | w in weeks :: MondayOf(w)
  }

  lemma WeekIsMonday(m: Manifest)
    ensures Monday(m) == MondayOf(WeekOf(m))
  {
  }

  lemma {:induction false} MondaysAre(list: seq<Manifest>, i: nat)
    requires i <= |list|
    ensures MondaysOf(WeeksIn(list[..i])) == NewerMondays(list, i)
  {
    if i == 0 {
      assert list[..0] == [];
    } else {
      MondaysAre(list, i - 1);
      assert list[..i][..i - 1] == list[..i - 1];
      WeekIsMonday(list[i - 1]);
      hide Monday, MondayOf, WeekOf;
      var before := WeeksIn(list[..i - 1]);
      if !list[i - 1].partial {
        assert WeeksIn(list[..i]) == before + {WeekOf(list[i - 1])};
        OneMoreMonday(before, WeekOf(list[i - 1]));
      }
      assert NewerMondays(list, i) == NewerMondays(list, i - 1)
        + if list[i - 1].partial then {} else {Monday(list[i - 1])};
    }
  }

  lemma {:induction false} AsManyMondays(weeks: set<int>)
    ensures |MondaysOf(weeks)| == |weeks|
    decreases weeks
  {
    if |weeks| == 0 {
      NoMondays(weeks);
    } else {
      var w := OneOf(weeks);
      AsManyMondays(weeks - {w});
      OneMoreMonday(weeks - {w}, w);
      MondayBelongs(weeks - {w}, w);
      assert weeks - {w} + {w} == weeks;
    }
  }

  lemma OneOf<T>(s: set<T>) returns (x: T)
    requires |s| != 0
    ensures x in s
  {
    x :| x in s;
  }

  lemma NoMondays(weeks: set<int>)
    requires |weeks| == 0
    ensures |MondaysOf(weeks)| == 0
  {
    assert weeks == {};
  }

  lemma OneMoreMonday(weeks: set<int>, w: int)
    ensures MondaysOf(weeks + {w}) == MondaysOf(weeks) + {MondayOf(w)}
  {
    hide MondayOf;
  }

  lemma MondayBelongs(weeks: set<int>, w: int)
    ensures MondayOf(w) in MondaysOf(weeks) <==> w in weeks
  {
    if MondayOf(w) in MondaysOf(weeks) {
      var v :| v in weeks && MondayOf(v) == MondayOf(w);
      assert v == w;
    }
  }

  /** In a list with distinct ids, newest first: a partial snapshot stays for seven days; a success stays
      for 24 hours, and beyond that as the newest of its date while fewer than 14 newer dates have one,
      or as the newest of its week while fewer than 8 newer weeks have one. */
  lemma StaysExactly(list: seq<Manifest>, now: int, later: int, i: nat)
    requires DistinctIds(list) && i < |list|
    ensures list[i] in Pruned(list, At(now, later)) <==>
      if list[i].partial then list[i].created > later - 7 * 24 * 3_600_000_000_000
      else
        || list[i].created > now - 24 * 3_600_000_000_000
        || (Date(list[i]) !in NewerDates(list, i) && |NewerDates(list, i)| < 14)
        || (Monday(list[i]) !in NewerMondays(list, i) && |NewerMondays(list, i)| < 8)
  {
    KeptExactly(list, At(now, later), i);
    DatesAre(list, i);
    MondaysAre(list, i);
    AsManyMondays(WeeksIn(list[..i]));
    MondayBelongs(WeeksIn(list[..i]), WeekOf(list[i]));
    WeekIsMonday(list[i]);
    hide Monday, MondayOf, WeekOf, DaysIn, WeeksIn, NewerDates, NewerMondays, Pruned, MondaysOf;
  }

  /** For any list, a manifest stays exactly when some manifest with its id would. */
  lemma PrunedById(list: seq<Manifest>, at: Instant, m: Manifest)
    ensures m in OnlyIds(list, KeptIds(list, at, |list|)) <==>
      m in list && exists j ::
        0 <= j < |list| && list[j].id == m.id
        && Keeps(DaysIn(list[..j]), WeeksIn(list[..j]), list[j], at)
  {
    OnlyIdsAre(list, KeptIds(list, at, |list|), m);
    hide Keeps, DaysIn, WeeksIn, OnlyIds;
  }

  lemma {:induction false} OnlyIdsAre(list: seq<Manifest>, ids: set<string>, m: Manifest)
    ensures m in OnlyIds(list, ids) <==> m in list && m.id in ids
    decreases |list|
  {
    if list != [] {
      OnlyIdsAre(list[..|list| - 1], ids, m);
      assert list == list[..|list| - 1] + [list[|list| - 1]];
    }
  }
}
