/**
 * Record shapes of the attendance-logging app: the form data a professor
 * submits, the stored attendance record (an "émargement"), and the per-site
 * statistics. Strings are `seq<char>`; clock readings (ids, timestamps) are
 * integer milliseconds; durations are exact rational hours.
 */
module Types {

  /** Conventional optional value, used for parse results and lookups. */
  datatype Option<+T> = None | Some(value: T)

  /** The three campus sites; the only values the site selector offers. */
  datatype Site = Avedji | Adidogome | Kodjovikope

  /** The text the source uses for a site. */
  function Label(s: Site): string
  {
    match s
    case Avedji => "Avédji"
    case Adidogome => "Adidogomé"
    case Kodjovikope => "Kodjovikopé"
  }

  /** Reads a site back from its text, as the selector's `value` gives it. */
  function SiteOfLabel(t: string): (r: Option<Site>)
    ensures r.Some? ==> Label(r.value) == t
  {
    if t == Label(Avedji) then Some(Avedji)
    else if t == Label(Adidogome) then Some(Adidogome)
    else if t == Label(Kodjovikope) then Some(Kodjovikope)
    else None
  }

  /** Labels are pairwise distinct, so a label names exactly one site. */
  lemma LabelRoundTrip(s: Site)
    ensures SiteOfLabel(Label(s)) == Some(s)
  {
  }

  /** What the attendance form collects: five free-text fields and a site. */
  datatype FormData = FormData(
    nomProfesseur: string,
    matiere: string,
    filiere: string,
    heureDebut: string,
    heureFin: string,
    site: Site)

  /**
   * A stored attendance record: the six form fields, spread unchanged, plus
   * an id, a creation timestamp and the duration in hours.
   */
  datatype Emargement = Emargement(
    nomProfesseur: string,
    matiere: string,
    filiere: string,
    heureDebut: string,
    heureFin: string,
    site: Site,
    id: int,
    timestamp: int,
    duree: real)

  /** The form part of a record: the inverse of spreading form data into it. */
  function FormOf(e: Emargement): FormData
  {
    FormData(e.nomProfesseur, e.matiere, e.filiere, e.heureDebut, e.heureFin, e.site)
  }

  /** Spreads form data into a record and adds the three derived fields. */
  function WithExtras(f: FormData, id: int, timestamp: int, duree: real): (e: Emargement)
    ensures FormOf(e) == f
    ensures e.id == id && e.timestamp == timestamp && e.duree == duree
  {
    Emargement(f.nomProfesseur, f.matiere, f.filiere, f.heureDebut, f.heureFin, f.site,
               id, timestamp, duree)
  }

  /** A record is determined by its form part and its three extra fields. */
  lemma RecordIsFormPlusExtras(e: Emargement)
    ensures WithExtras(FormOf(e), e.id, e.timestamp, e.duree) == e
  {
  }

  /** Per-site weekly and all-time hour totals. */
  datatype SiteStats = SiteStats(hebdomadaires: map<Site, real>, totaux: map<Site, real>)

  /** A user-facing message and its kind ("success", "error" or empty). */
  datatype MessageState = MessageState(text: string, kind: string)

  /** True when a per-site map has an entry for every site. */
  ghost predicate Covers(m: map<Site, real>)
  {
    forall s: Site :: s in m
  }

  /** A map with the three sites as keys covers every site. */
  lemma ThreeKeysCover(m: map<Site, real>)
    requires Avedji in m && Adidogome in m && Kodjovikope in m
    ensures Covers(m)
  {
    forall s: Site ensures s in m {
      match s
      case Avedji =>
      case Adidogome =>
      case Kodjovikope =>
    }
  }

  /** The all-zero map over the three sites that aggregation starts from. */
  function ZeroPerSite(): (m: map<Site, real>)
    ensures Covers(m)
    ensures forall s: Site :: m[s] == 0.0
  {
    var m := map[Avedji := 0.0, Adidogome := 0.0, Kodjovikope := 0.0];
    ThreeKeysCover(m);
    m
  }
}
