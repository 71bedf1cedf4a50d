/**
 * The statistics view: the per-site aggregation it recomputes whenever the
 * record list changes, the share of each site in the grand total, and the
 * weekly progress bar against a 40-hour goal.
 */
module SiteStatsView {
  import opened Types
  import opened Service

  /**
   * One step of the `forEach` in calculerStats: the record's duration is
   * added to its site's total and, when it is stamped at or after the week
   * start, to its site's weekly hours. No other entry changes.
   */
  function AddRecord(stats: SiteStats, e: Emargement, debutSemaine: int): (r: SiteStats)
    requires Covers(stats.hebdomadaires) && Covers(stats.totaux)
    ensures Covers(r.hebdomadaires) && Covers(r.totaux)
    ensures forall s: Site :: r.totaux[s] == stats.totaux[s] + (if e.site == s then e.duree else 0.0)
    ensures forall s: Site ::
              r.hebdomadaires[s] == stats.hebdomadaires[s]
                                    + (if e.site == s && e.timestamp >= debutSemaine then e.duree else 0.0)
  {
    var statsTotaux := stats.totaux[e.site := stats.totaux[e.site] + e.duree];
    var statsHebdo := if e.timestamp >= debutSemaine
                      then stats.hebdomadaires[e.site := stats.hebdomadaires[e.site] + e.duree]
                      else stats.hebdomadaires;
    SiteStats(statsHebdo, statsTotaux)
  }

  /**
   * Both maps seeded at zero for the three sites, then every record added
   * in list order. The result agrees with the independent per-site sums.
   */
  function AccumulateStats(emargements: seq<Emargement>, debutSemaine: int): (stats: SiteStats)
    ensures Covers(stats.hebdomadaires) && Covers(stats.totaux)
    ensures forall s: Site :: stats.totaux[s] == Total(emargements, s)
    ensures forall s: Site :: stats.hebdomadaires[s] == Weekly(emargements, s, debutSemaine)
    decreases |emargements|
  {
    if emargements == [] then SiteStats(ZeroPerSite(), ZeroPerSite())
    else
      var previous := AccumulateStats(emargements[..|emargements| - 1], debutSemaine);
      AddRecord(previous, emargements[|emargements| - 1], debutSemaine)
  }

  /**
   * calculerStats: the accumulation with the week starting seven days
   * before `now`. Both maps have exactly the three sites as keys, each
   * site's total is the hours of all its records, and its weekly value
   * the hours of its records since the week start.
   */
  function CalculerStats(emargements: seq<Emargement>, now: int): (stats: SiteStats)
    ensures Covers(stats.hebdomadaires) && Covers(stats.totaux)
    ensures stats.totaux.Keys == stats.hebdomadaires.Keys
    ensures forall s: Site :: stats.totaux[s] == Total(emargements, s)
    ensures forall s: Site :: stats.hebdomadaires[s] == Weekly(emargements, s, WeekStart(now))
  {
    AccumulateStats(emargements, WeekStart(now))
  }

  /** With no records every site is present in both maps, at zero. */
  lemma EmptyStatsAreSeededZero(now: int)
    ensures CalculerStats([], now) == SiteStats(ZeroPerSite(), ZeroPerSite())
  {
  }

  /** A site's weekly hours never exceed its total hours. */
  lemma WeeklyAtMostTotal(emargements: seq<Emargement>, now: int, s: Site)
    requires NonNegative(emargements)
    ensures CalculerStats(emargements, now).hebdomadaires[s] <= CalculerStats(emargements, now).totaux[s]
  {
    SumWhereMonotone(emargements, AtSiteSince(s, WeekStart(now)), AtSite(s));
  }

  /** Aggregating later, with the same records, never raises a site's weekly hours. */
  lemma WeeklyDecays(emargements: seq<Emargement>, now1: int, now2: int, s: Site)
    requires NonNegative(emargements)
    requires now1 <= now2
    ensures CalculerStats(emargements, now2).hebdomadaires[s] <= CalculerStats(emargements, now1).hebdomadaires[s]
    ensures CalculerStats(emargements, now2).totaux[s] == CalculerStats(emargements, now1).totaux[s]
  {
    SumWhereMonotone(emargements, AtSiteSince(s, WeekStart(now2)), AtSiteSince(s, WeekStart(now1)));
  }

  /**
   * Appending one record adds its duration to its own site's total, and to
   * that site's weekly hours when it is inside the week; other sites keep
   * their values.
   */
  lemma StatsAfterAppend(emargements: seq<Emargement>, e: Emargement, now: int, s: Site)
    ensures CalculerStats(emargements + [e], now).totaux[s]
         == CalculerStats(emargements, now).totaux[s] + (if e.site == s then e.duree else 0.0)
    ensures CalculerStats(emargements + [e], now).hebdomadaires[s]
         == CalculerStats(emargements, now).hebdomadaires[s]
            + (if e.site == s && e.timestamp >= WeekStart(now) then e.duree else 0.0)
  {
  }

  /** Aggregating two histories joined end to end adds their per-site hours. */
  lemma StatsOfJoinedHistories(a: seq<Emargement>, b: seq<Emargement>, now: int, s: Site)
    ensures CalculerStats(a + b, now).totaux[s] == CalculerStats(a, now).totaux[s] + CalculerStats(b, now).totaux[s]
    ensures CalculerStats(a + b, now).hebdomadaires[s]
         == CalculerStats(a, now).hebdomadaires[s] + CalculerStats(b, now).hebdomadaires[s]
  {
    SumWhereConcat(a, b, AtSite(s));
    SumWhereConcat(a, b, AtSiteSince(s, WeekStart(now)));
  }

  /**
   * The worked scenario: a 2-hour session at Avédji today and a 3-hour one
   * ten days ago give Avédji 5 hours in total but only 2 this week.
   */
  lemma TenDayOldRecordLeavesWeek(today: Emargement, earlier: Emargement, now: int)
    requires today.site == Avedji && today.duree == 2.0 && today.timestamp == now
    requires earlier.site == Avedji && earlier.duree == 3.0 && earlier.timestamp == now - 10 * 24 * 60 * 60 * 1000
    ensures CalculerStats([today, earlier], now).totaux[Avedji] == 5.0
    ensures CalculerStats([today, earlier], now).hebdomadaires[Avedji] == 2.0
  {
    assert [today, earlier] == [today] + [earlier];
    assert [today] == [] + [today];
    StatsAfterAppend([], today, now, Avedji);
    StatsAfterAppend([today], earlier, now, Avedji);
    EmptyStatsAreSeededZero(now);
  }

  // ---------------------------------------------------------------------
  // Shares of the grand total

  /** The sum of a per-site map's values, as `reduce((a, b) => a + b, 0)` over them. */
  function GrandTotal(m: map<Site, real>): (t: real)
    requires Covers(m)
    ensures AllNonNegative(m) ==> 0.0 <= m[Avedji] <= t && 0.0 <= m[Adidogome] <= t && 0.0 <= m[Kodjovikope] <= t
  {
    m[Avedji] + m[Adidogome] + m[Kodjovikope]
  }

  /** A site's percentage of the grand total, or 0 when the grand total is not positive. */
  function Percentage(m: map<Site, real>, s: Site): (p: real)
    requires Covers(m)
    ensures GrandTotal(m) <= 0.0 ==> p == 0.0
    ensures GrandTotal(m) > 0.0 ==> p * GrandTotal(m) == m[s] * 100.0
  {
    var total := GrandTotal(m);
    if total > 0.0 then (m[s] / total) * 100.0 else 0.0
  }

  ghost predicate AllNonNegative(m: map<Site, real>)
    requires Covers(m)
  {
    forall s: Site :: m[s] >= 0.0
  }

  /** With non-negative hours and a positive total, shares lie in [0, 100] and sum to 100. */
  lemma PercentagesPartitionHundred(m: map<Site, real>)
    requires Covers(m) && AllNonNegative(m)
    requires GrandTotal(m) > 0.0
    ensures forall s: Site :: 0.0 <= Percentage(m, s) <= 100.0
    ensures Percentage(m, Avedji) + Percentage(m, Adidogome) + Percentage(m, Kodjovikope) == 100.0
  {
    var t := GrandTotal(m);
    forall s: Site
      ensures 0.0 <= Percentage(m, s) <= 100.0
    {
      assert 0.0 <= m[s] <= t by {
        match s
        case Avedji =>
        case Adidogome =>
        case Kodjovikope =>
      }
      ShareBounded(m[s], t);
    }
    SharesAddUp(m[Avedji], m[Adidogome], m[Kodjovikope]);
  }

  /** A part of a positive whole is between 0 and 100 percent of it. */
  lemma ShareBounded(x: real, t: real)
    requires 0.0 <= x <= t && t > 0.0
    ensures 0.0 <= (x / t) * 100.0 <= 100.0
  {
    var q := x / t;
    assert q * t == x;
    assert 0.0 <= q <= 1.0;
  }

  /** Three parts' percentages of their positive sum add up to 100. */
  lemma SharesAddUp(a: real, b: real, c: real)
    requires a + b + c > 0.0
    ensures var t := a + b + c; (a / t) * 100.0 + (b / t) * 100.0 + (c / t) * 100.0 == 100.0
  {
    var t := a + b + c;
    assert a / t + b / t + c / t == (a + b + c) / t;
    assert (a + b + c) / t == 1.0;
  }

  // ---------------------------------------------------------------------
  // Weekly progress bar

  /** The weekly goal the progress bar measures against, in hours. */
  const WeeklyGoalHours: real := 40.0

  /** The percentage of the weekly goal reached (the label, not capped). */
  function GoalPercentage(heures: real): (p: real)
    ensures p * WeeklyGoalHours == heures * 100.0
  {
    (heures / WeeklyGoalHours) * 100.0
  }

  /** The bar width: the goal percentage capped at 100. */
  function BarWidth(heures: real): (w: real)
    ensures w <= 100.0
    ensures heures >= 0.0 ==> w >= 0.0
    ensures w == 100.0 <==> heures >= WeeklyGoalHours
    ensures heures <= WeeklyGoalHours ==> w == GoalPercentage(heures)
  {
    var p := GoalPercentage(heures);
    if 100.0 <= p then 100.0 else p
  }
}
