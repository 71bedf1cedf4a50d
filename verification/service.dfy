/**
 * The service helpers: client-storage read/write with a default, record
 * assembly from form data, and the per-site weekly/total aggregation.
 *
 * Storage is a map from key to stored text. The JSON encoder and decoder
 * are parameters (a `Codec`): the model states what the code does with
 * their results, not how JSON text looks. The clock is a parameter too.
 */
module Service {
  import opened Types
  import opened Duration

  /** Client-local storage: key to stored text. */
  type Storage = map<string, string>

  /** The serializer and the (possibly failing) parser used for one value type. */
  datatype Codec<!T> = Codec(stringify: T -> string, parse: string -> Option<T>)

  /** The codec round-trips every value through non-empty text. */
  /** The codec writes `x` as non-empty text that reads back as `x`. */
  ghost predicate RoundTrips<T>(c: Codec<T>, x: T)
  {
    c.stringify(x) != "" && c.parse(c.stringify(x)) == Some(x)
  }

  ghost predicate Faithful<T(!new)>(c: Codec<T>)
  {
    forall x: T {:trigger c.stringify(x)} :: c.stringify(x) != "" && c.parse(c.stringify(x)) == Some(x)
  }

  /**
   * getFromLocalStorage: the default when there is no window, when the key
   * is missing or holds empty text, or when parsing fails; otherwise the
   * parsed value.
   */
  function GetFromLocalStorage<T>(hasWindow: bool, store: Storage, key: string, defaultValue: T,
                                  parse: string -> Option<T>): (r: T)
    ensures !hasWindow || key !in store || store[key] == "" ==> r == defaultValue
    ensures hasWindow && key in store && store[key] != "" && parse(store[key]).None? ==> r == defaultValue
    ensures hasWindow && key in store && store[key] != "" && parse(store[key]).Some?
            ==> r == parse(store[key]).value
  {
    if !hasWindow then defaultValue
    else if key !in store || store[key] == "" then defaultValue
    else match parse(store[key])
      case Some(v) => v
      case None => defaultValue
  }

  /**
   * saveToLocalStorage: with a window, the key now holds the serialized data
   * (a full replace) and every other key is untouched; without a window,
   * nothing changes.
   */
  function SaveToLocalStorage<T>(hasWindow: bool, store: Storage, key: string, data: T,
                                 stringify: T -> string): (r: Storage)
    ensures hasWindow ==> key in r && r[key] == stringify(data)
    ensures !hasWindow ==> r == store
    ensures forall k :: k != key ==> (k in r <==> k in store)
    ensures forall k :: k != key && k in store ==> r[k] == store[k]
  {
    if hasWindow then store[key := stringify(data)] else store
  }

  /** Reading back what was just saved under a key gives the saved value. */
  lemma SaveThenGet<T(!new)>(store: Storage, key: string, data: T, defaultValue: T, c: Codec<T>)
    requires Faithful(c)
    ensures GetFromLocalStorage(true, SaveToLocalStorage(true, store, key, data, c.stringify),
                                key, defaultValue, c.parse) == data
  {
  }

  /** Saving under one key does not change what is read under another. */
  lemma SaveLeavesOtherKeys<T>(hasWindow: bool, store: Storage, key: string, other: string,
                               data: T, defaultValue: T, c: Codec<T>)
    requires other != key
    ensures GetFromLocalStorage(hasWindow, SaveToLocalStorage(hasWindow, store, key, data, c.stringify),
                                other, defaultValue, c.parse)
         == GetFromLocalStorage(hasWindow, store, other, defaultValue, c.parse)
  {
  }

  /**
   * createEmargement: the form fields spread unchanged, the id and timestamp
   * from the clock readings passed in, and the computed duration.
   */
  function CreateEmargement(formData: FormData, id: int, timestamp: int): (e: Emargement)
    requires TimeField(formData.heureDebut) && TimeField(formData.heureFin)
    ensures FormOf(e) == formData
    ensures e.id == id && e.timestamp == timestamp
    ensures e.duree == CalculateDuration(formData.heureDebut, formData.heureFin)
    ensures e.duree >= 0.0
  {
    WithExtras(formData, id, timestamp, CalculateDuration(formData.heureDebut, formData.heureFin))
  }

  // ---------------------------------------------------------------------
  // Aggregation

  /** One week in milliseconds: the trailing window of the weekly totals. */
  const WeekMillis: int := 7 * 24 * 60 * 60 * 1000

  /** The start of the trailing week ending at `now`. */
  function WeekStart(now: int): (cutoff: int)
    ensures cutoff < now
    ensures now - cutoff == 604_800_000
  {
    now - WeekMillis
  }

  /** Sum of `duree` over the records `keep` selects, added in list order. */
  function SumWhere(rs: seq<Emargement>, keep: Emargement -> bool): real
    decreases |rs|
  {
    if rs == [] then 0.0
    else SumWhere(rs[..|rs| - 1], keep) + (if keep(rs[|rs| - 1]) then rs[|rs| - 1].duree else 0.0)
  }

  /** Selects the records of site `s`. */
  function AtSite(s: Site): Emargement -> bool
  {
    (e: Emargement) => e.site == s
  }

  /** Selects the records of site `s` stamped at or after `cutoff`. */
  function AtSiteSince(s: Site, cutoff: int): Emargement -> bool
  {
    (e: Emargement) => e.site == s && e.timestamp >= cutoff
  }

  /** Hours logged at site `s` over the whole history. */
  function Total(rs: seq<Emargement>, s: Site): real
  {
    SumWhere(rs, AtSite(s))
  }

  /** Hours logged at site `s` by records stamped at or after `cutoff`. */
  function Weekly(rs: seq<Emargement>, s: Site, cutoff: int): real
  {
    SumWhere(rs, AtSiteSince(s, cutoff))
  }

  /** Every record's duration is non-negative, as every created record's is. */
  ghost predicate NonNegative(rs: seq<Emargement>)
  {
    forall i :: 0 <= i < |rs| ==> rs[i].duree >= 0.0
  }

  /** Appending a record adds its duration to the sum exactly when it is selected. */
  lemma SumWhereAppend(rs: seq<Emargement>, e: Emargement, keep: Emargement -> bool)
    ensures SumWhere(rs + [e], keep) == SumWhere(rs, keep) + (if keep(e) then e.duree else 0.0)
  {
  }

  /** The sum over a concatenation is the sum of the sums. */
  lemma {:induction false} SumWhereConcat(a: seq<Emargement>, b: seq<Emargement>, keep: Emargement -> bool)
    ensures SumWhere(a + b, keep) == SumWhere(a, keep) + SumWhere(b, keep)
    decreases |b|
  {
    if b == [] {
      assert a + b == a;
    } else {
      var b' := b[..|b| - 1];
      var e := b[|b| - 1];
      assert a + b == (a + b') + [e];
      assert b == b' + [e];
      SumWhereAppend(a + b', e, keep);
      SumWhereAppend(b', e, keep);
      SumWhereConcat(a, b', keep);
    }
  }

  /** Selecting fewer records of non-negative duration never gives a larger sum. */
  lemma {:induction false} SumWhereMonotone(rs: seq<Emargement>, k1: Emargement -> bool, k2: Emargement -> bool)
    requires NonNegative(rs)
    requires forall i :: 0 <= i < |rs| && k1(rs[i]) ==> k2(rs[i])
    ensures SumWhere(rs, k1) <= SumWhere(rs, k2)
    decreases |rs|
  {
    if rs != [] {
      SumWhereMonotone(rs[..|rs| - 1], k1, k2);
    }
  }

  /**
   * calculateSiteStats: seeds all three sites at 0 in both maps, then walks
   * the records once, adding each duration to its site's total and, when
   * its timestamp is within the trailing week, to its weekly sum.
   */
  method CalculateSiteStats(emargements: seq<Emargement>, now: int) returns (stats: SiteStats)
    ensures Covers(stats.hebdomadaires) && Covers(stats.totaux)
    ensures forall s: Site :: stats.totaux[s] == Total(emargements, s)
    ensures forall s: Site :: stats.hebdomadaires[s] == Weekly(emargements, s, WeekStart(now))
  {
    var statsHebdo := ZeroPerSite();
    var statsTotaux := ZeroPerSite();
    var debutSemaine := WeekStart(now);
    for i := 0 to |emargements|
      invariant Covers(statsHebdo) && Covers(statsTotaux)
      invariant forall s: Site :: statsTotaux[s] == Total(emargements[..i], s)
      invariant forall s: Site :: statsHebdo[s] == Weekly(emargements[..i], s, debutSemaine)
    {
      var e := emargements[i];
      assert emargements[..i + 1] == emargements[..i] + [e];
      forall s: Site
        ensures Total(emargements[..i + 1], s)
             == Total(emargements[..i], s) + (if e.site == s then e.duree else 0.0)
        ensures Weekly(emargements[..i + 1], s, debutSemaine)
             == Weekly(emargements[..i], s, debutSemaine)
                + (if e.site == s && e.timestamp >= debutSemaine then e.duree else 0.0)
      {
        SumWhereAppend(emargements[..i], e, AtSite(s));
        SumWhereAppend(emargements[..i], e, AtSiteSince(s, debutSemaine));
      }
      statsTotaux := statsTotaux[e.site := statsTotaux[e.site] + e.duree];
      if e.timestamp >= debutSemaine {
        statsHebdo := statsHebdo[e.site := statsHebdo[e.site] + e.duree];
      }
    }
    assert emargements[..|emargements|] == emargements;
    stats := SiteStats(statsHebdo, statsTotaux);
  }
}
