/**
 * The main page of the app router: it owns the in-memory record list,
 * loads it from storage once on mount, and on every save appends one new
 * record and rewrites the whole list to storage.
 *
 * The clock readings used for `id` and `timestamp` and the JSON encoder and
 * decoder are parameters.
 */
module AppPage {
  import opened Types
  import opened Duration
  import opened Service
  import Form

  /** The storage key the record list lives under. */
  const StorageKey: string := "emargements"

  /** The page's state that matters here: the record list and the storage it mirrors. */
  datatype PageState = PageState(emargements: seq<Emargement>, storage: Storage)

  /** Loading on mount either leaves a state or throws, since `JSON.parse` is not guarded. */
  datatype LoadResult = Loaded(state: PageState) | ParseThrew

  /** The state before the mount effect runs: an empty list, storage as found. */
  function Mounted(storage: Storage): (st: PageState)
    ensures st.emargements == [] && st.storage == storage
  {
    PageState([], storage)
  }

  /** Mounting on storage with nothing under the key leaves the list empty. */
  lemma MountWithoutStoredList(storage: Storage, parse: string -> Option<seq<Emargement>>)
    requires StorageKey !in storage || storage[StorageKey] == ""
    ensures LoadOnMount(Mounted(storage), parse) == Loaded(PageState([], storage))
  {
  }

  /**
   * The mount effect: when storage holds non-empty text under the key, the
   * list becomes its parse (a failed parse throws); otherwise the list
   * stays as it was.
   */
  function LoadOnMount(st: PageState, parse: string -> Option<seq<Emargement>>): (r: LoadResult)
    ensures StorageKey !in st.storage || st.storage[StorageKey] == "" ==> r == Loaded(st)
    ensures StorageKey in st.storage && st.storage[StorageKey] != "" ==>
              (r.Loaded? <==> parse(st.storage[StorageKey]).Some?)
    ensures r.Loaded? ==> r.state.storage == st.storage
    ensures r.Loaded? && StorageKey in st.storage && st.storage[StorageKey] != "" ==>
              r.state.emargements == parse(st.storage[StorageKey]).value
  {
    if StorageKey in st.storage && st.storage[StorageKey] != "" then
      match parse(st.storage[StorageKey])
      case Some(list) => Loaded(st.(emargements := list))
      case None => ParseThrew
    else Loaded(st)
  }

  /**
   * saveEmargement: the list grows by exactly one record at the end, built
   * from the form data with its duration; earlier records are unchanged;
   * storage under the key is replaced by the whole new list.
   */
  function SaveEmargement(st: PageState, newEmargement: FormData, id: int, timestamp: int,
                          stringify: seq<Emargement> -> string): (r: PageState)
    requires TimeField(newEmargement.heureDebut) && TimeField(newEmargement.heureFin)
    ensures |r.emargements| == |st.emargements| + 1
    ensures r.emargements[..|st.emargements|] == st.emargements
    ensures var e := r.emargements[|st.emargements|];
      && FormOf(e) == newEmargement
      && e.id == id && e.timestamp == timestamp
      && e.duree == CalculateDuration(newEmargement.heureDebut, newEmargement.heureFin)
    ensures r.storage == st.storage[StorageKey := stringify(r.emargements)]
    ensures NonNegative(st.emargements) ==> NonNegative(r.emargements)
  {
    var emargementComplet := CreateEmargement(newEmargement, id, timestamp);
    var updatedEmargements := st.emargements + [emargementComplet];
    PageState(updatedEmargements, SaveToLocalStorage(true, st.storage, StorageKey, updatedEmargements, stringify))
  }

  /** After a save, reloading the page restores exactly the saved list. */
  lemma SaveThenReload(st: PageState, newEmargement: FormData, id: int, timestamp: int,
                       c: Codec<seq<Emargement>>)
    requires TimeField(newEmargement.heureDebut) && TimeField(newEmargement.heureFin)
    requires RoundTrips(c, SaveEmargement(st, newEmargement, id, timestamp, c.stringify).emargements)
    ensures var saved := SaveEmargement(st, newEmargement, id, timestamp, c.stringify);
      LoadOnMount(Mounted(saved.storage), c.parse) == Loaded(saved)
  {
  }

  /** Every record the form lets through is stored with a positive duration. */
  lemma SubmittedRecordHasPositiveDuration(st: PageState, f: FormData, id: int, timestamp: int,
                                           stringify: seq<Emargement> -> string)
    requires Form.WellFormed(f)
    requires Form.HandleSubmit(f).saved.Some?
    ensures var g := Form.HandleSubmit(f).saved.value;
      SaveEmargement(st, g, id, timestamp, stringify).emargements[|st.emargements|].duree > 0.0
  {
  }
}
