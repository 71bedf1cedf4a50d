/**
 * The attendance form: its initial state, the change handler that writes
 * one named field, and the submit handler that validates, hands the data
 * to the save callback and resets the form. The callback is modelled by
 * returning the data it would receive (`saved`), so "called at most once"
 * holds by construction and "called" means `saved.Some?`.
 */
module Form {
  import opened Types
  import opened Duration

  /** The form when the page opens: empty text fields, site Avédji. */
  function InitialForm(): (f: FormData)
    ensures forall n: FieldName :: n != SiteField ==> FieldValue(f, n) == ""
    ensures FieldValue(f, SiteField) == "Avédji"
    ensures WellFormed(f) && !RequiredFilled(f)
  {
    FormData("", "", "", "", "", Avedji)
  }

  /** The `name` attribute of each input of the form. */
  datatype FieldName = NomProfesseur | Matiere | Filiere | HeureDebut | HeureFin | SiteField

  /** The text an input shows for a field; the site selector shows the site's label. */
  function FieldValue(f: FormData, name: FieldName): string
  {
    match name
    case NomProfesseur => f.nomProfesseur
    case Matiere => f.matiere
    case Filiere => f.filiere
    case HeureDebut => f.heureDebut
    case HeureFin => f.heureFin
    case SiteField => Label(f.site)
  }

  /** Both time fields are empty or in the time input's "HH:MM" format. */
  predicate WellFormed(f: FormData)
  {
    TimeField(f.heureDebut) && TimeField(f.heureFin)
  }

  /** A form is determined by what its six inputs show. */
  lemma FieldsDetermineForm(a: FormData, b: FormData)
    requires forall n: FieldName :: FieldValue(a, n) == FieldValue(b, n)
    ensures a == b
  {
    assert Label(a.site) == Label(b.site) by {
      assert FieldValue(a, SiteField) == FieldValue(b, SiteField);
    }
    LabelRoundTrip(a.site);
    LabelRoundTrip(b.site);
    assert a.nomProfesseur == b.nomProfesseur by { assert FieldValue(a, NomProfesseur) == FieldValue(b, NomProfesseur); }
    assert a.matiere == b.matiere by { assert FieldValue(a, Matiere) == FieldValue(b, Matiere); }
    assert a.filiere == b.filiere by { assert FieldValue(a, Filiere) == FieldValue(b, Filiere); }
    assert a.heureDebut == b.heureDebut by { assert FieldValue(a, HeureDebut) == FieldValue(b, HeureDebut); }
    assert a.heureFin == b.heureFin by { assert FieldValue(a, HeureFin) == FieldValue(b, HeureFin); }
  }

  /**
   * handleChange: the named field takes the new value and every other field
   * keeps its value. The site selector only offers the three site labels.
   */
  function HandleChange(f: FormData, name: FieldName, value: string): (r: FormData)
    requires name == SiteField ==> SiteOfLabel(value).Some?
    ensures FieldValue(r, name) == value
    ensures forall other: FieldName :: other != name ==> FieldValue(r, other) == FieldValue(f, other)
    ensures WellFormed(f) && (name == HeureDebut || name == HeureFin ==> TimeField(value)) ==> WellFormed(r)
  {
    match name
    case NomProfesseur => f.(nomProfesseur := value)
    case Matiere => f.(matiere := value)
    case Filiere => f.(filiere := value)
    case HeureDebut => f.(heureDebut := value)
    case HeureFin => f.(heureFin := value)
    case SiteField => f.(site := SiteOfLabel(value).value)
  }

  /** Writing a field the value it already shows leaves the form unchanged. */
  lemma HandleChangeSameValue(f: FormData, name: FieldName)
    ensures HandleChange(f, name, FieldValue(f, name)) == f
  {
  }

  const MissingFieldsMessage: MessageState :=
    MessageState("Veuillez remplir tous les champs obligatoires.", "error")
  const BadRangeMessage: MessageState :=
    MessageState("L'heure de fin doit être postérieure à l'heure de début.", "error")
  const SavedMessage: MessageState :=
    MessageState("Émargement enregistré avec succès.", "success")

  /** The outcome of one submit: the data handed to `onSave`, if any, the form and the message after it. */
  datatype Submission = Submission(saved: Option<FormData>, form: FormData, message: MessageState)

  /** The five text fields the submit handler requires. */
  predicate RequiredFilled(f: FormData)
  {
    f.nomProfesseur != "" && f.matiere != "" && f.filiere != "" && f.heureDebut != "" && f.heureFin != ""
  }

  /**
   * handleSubmit: rejects missing fields, then a non-positive duration;
   * otherwise hands the form data to `onSave`, resets the form to its
   * initial state and reports success.
   */
  function HandleSubmit(f: FormData): (r: Submission)
    requires WellFormed(f)
    ensures r.saved.Some? <==> RequiredFilled(f) && MinutesOf(f.heureDebut) < MinutesOf(f.heureFin)
    ensures r.saved.Some? ==> r.saved.value == f && r.form == InitialForm() && r.message == SavedMessage
    ensures r.saved.Some? ==> CalculateDuration(f.heureDebut, f.heureFin) > 0.0
    ensures r.saved.None? ==> r.form == f && r.message.kind == "error"
    ensures !RequiredFilled(f) ==> r.message == MissingFieldsMessage
    ensures RequiredFilled(f) && r.saved.None? ==> r.message == BadRangeMessage
  {
    if !RequiredFilled(f) then
      Submission(None, f, MissingFieldsMessage)
    else
      var duree := CalculateDuration(f.heureDebut, f.heureFin);
      if duree <= 0.0 then
        Submission(None, f, BadRangeMessage)
      else
        Submission(Some(f), InitialForm(), SavedMessage)
  }

  /** After a successful submit the form can be submitted again only once refilled. */
  lemma ResetFormIsRejected(f: FormData)
    requires WellFormed(f)
    requires HandleSubmit(f).saved.Some?
    ensures WellFormed(HandleSubmit(f).form)
    ensures HandleSubmit(HandleSubmit(f).form) == Submission(None, InitialForm(), MissingFieldsMessage)
  {
  }
}
