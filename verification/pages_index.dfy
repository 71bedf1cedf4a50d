/**
 * The home page of the pages router. It holds the same state as the
 * app-router page and repeats its mount effect and save handler; the
 * state shape and storage key are the ones `AppPage` declares.
 */
module PagesIndex {
  import opened Types
  import opened Duration
  import opened Service
  import opened AppPage

  /**
   * The mount effect: a non-empty stored text under the key replaces the
   * initial empty list by its parse (a failed parse throws); otherwise the
   * list stays empty.
   */
  function LoadStored(st: PageState, parse: string -> Option<seq<Emargement>>): (r: LoadResult)
    ensures StorageKey !in st.storage || st.storage[StorageKey] == "" ==> r == Loaded(st)
    ensures StorageKey in st.storage && st.storage[StorageKey] != "" ==>
              (r.Loaded? <==> parse(st.storage[StorageKey]).Some?)
    ensures r.Loaded? ==> r.state.storage == st.storage
    ensures r.Loaded? && StorageKey in st.storage && st.storage[StorageKey] != "" ==>
              r.state.emargements == parse(st.storage[StorageKey]).value
  {
    var storedEmargements := if StorageKey in st.storage then st.storage[StorageKey] else "";
    if storedEmargements != "" then
      match parse(storedEmargements)
      case Some(list) => Loaded(PageState(list, st.storage))
      case None => ParseThrew
    else Loaded(st)
  }

  /**
   * saveEmargement: appends exactly one record, built from the form data
   * with its duration, keeps the earlier records, and overwrites storage
   * under the key with the complete new list.
   */
  function Save(st: PageState, newEmargement: FormData, id: int, timestamp: int,
                stringify: seq<Emargement> -> string): (r: PageState)
    requires TimeField(newEmargement.heureDebut) && TimeField(newEmargement.heureFin)
    ensures |r.emargements| == |st.emargements| + 1
    ensures r.emargements[..|st.emargements|] == st.emargements
    ensures var e := r.emargements[|st.emargements|];
      && FormOf(e) == newEmargement
      && e.id == id && e.timestamp == timestamp
      && e.duree == CalculateDuration(newEmargement.heureDebut, newEmargement.heureFin)
    ensures StorageKey in r.storage && r.storage[StorageKey] == stringify(r.emargements)
    ensures forall k :: k != StorageKey ==> (k in r.storage <==> k in st.storage)
    ensures forall k :: k != StorageKey && k in st.storage ==> r.storage[k] == st.storage[k]
  {
    var emargementComplet := WithExtras(newEmargement, id, timestamp,
                                        CalculateDuration(newEmargement.heureDebut, newEmargement.heureFin));
    var updatedEmargements := st.emargements + [emargementComplet];
    PageState(updatedEmargements, st.storage[StorageKey := stringify(updatedEmargements)])
  }

  /** The two pages behave identically: same loaded state, same state after a save. */
  lemma AgreesWithAppPage(st: PageState, newEmargement: FormData, id: int, timestamp: int,
                          c: Codec<seq<Emargement>>)
    requires TimeField(newEmargement.heureDebut) && TimeField(newEmargement.heureFin)
    ensures LoadStored(st, c.parse) == AppPage.LoadOnMount(st, c.parse)
    ensures Save(st, newEmargement, id, timestamp, c.stringify)
         == AppPage.SaveEmargement(st, newEmargement, id, timestamp, c.stringify)
  {
  }

  /** Saves made in a row append their records in submission order. */
  lemma TwoSavesAppendInOrder(st: PageState, f1: FormData, f2: FormData,
                              id1: int, ts1: int, id2: int, ts2: int,
                              stringify: seq<Emargement> -> string)
    requires TimeField(f1.heureDebut) && TimeField(f1.heureFin)
    requires TimeField(f2.heureDebut) && TimeField(f2.heureFin)
    ensures var r := Save(Save(st, f1, id1, ts1, stringify), f2, id2, ts2, stringify);
      && |r.emargements| == |st.emargements| + 2
      && r.emargements[..|st.emargements|] == st.emargements
      && FormOf(r.emargements[|st.emargements|]) == f1
      && FormOf(r.emargements[|st.emargements| + 1]) == f2
      && r.storage[StorageKey] == stringify(r.emargements)
  {
  }
}
