/**
 * The history view: a case-insensitive search over professor, subject and
 * track, an exact site filter, and a stable sort that puts the newest
 * records first. Lower-casing covers the ASCII letters only.
 */
module History {
  import opened Types

  // ---------------------------------------------------------------------
  // Text helpers

  function LowerChar(c: char): (d: char)
    ensures 'A' <= c <= 'Z' ==> d as int == c as int + 32
    ensures !('A' <= c <= 'Z') ==> d == c
  {
    if 'A' <= c <= 'Z' then (c as int + 32) as char else c
  }

  /** toLowerCase on ASCII letters; every other character is kept. */
  function ToLower(s: string): (t: string)
    ensures |t| == |s|
    ensures forall i :: 0 <= i < |s| ==> t[i] == LowerChar(s[i])
  {
    if s == [] then [] else [LowerChar(s[0])] + ToLower(s[1..])
  }

  /** Lower-casing twice is lower-casing once. */
  lemma ToLowerIdempotent(s: string)
    ensures ToLower(ToLower(s)) == ToLower(s)
  {
  }

  /** `needle` occurs in `hay` starting at position `i`. */
  ghost predicate OccursAt(hay: string, needle: string, i: int)
  {
    0 <= i && i + |needle| <= |hay| && hay[i..i + |needle|] == needle
  }

  /** String.prototype.includes: does `needle` occur somewhere in `hay`? */
  function Includes(hay: string, needle: string): (b: bool)
    ensures b <==> exists i :: OccursAt(hay, needle, i)
    decreases |hay|
  {
    if |needle| > |hay| then false
    else if hay[..|needle|] == needle then
      assert OccursAt(hay, needle, 0);
      true
    else
      var rest := Includes(hay[1..], needle);
      IncludesStep(hay, needle);
      rest
  }

  /** When `needle` is not a prefix of `hay`, it occurs in `hay` iff it occurs in `hay[1..]`. */
  lemma IncludesStep(hay: string, needle: string)
    requires |needle| <= |hay| && hay[..|needle|] != needle
    ensures (exists i :: OccursAt(hay, needle, i)) <==> (exists i :: OccursAt(hay[1..], needle, i))
  {
    if exists i :: OccursAt(hay, needle, i) {
      var i :| OccursAt(hay, needle, i);
      assert i != 0;
      assert hay[1..][i - 1..i - 1 + |needle|] == hay[i..i + |needle|];
      assert OccursAt(hay[1..], needle, i - 1);
    }
    if exists i :: OccursAt(hay[1..], needle, i) {
      var i :| OccursAt(hay[1..], needle, i);
      assert hay[i + 1..i + 1 + |needle|] == hay[1..][i..i + |needle|];
      assert OccursAt(hay, needle, i + 1);
    }
  }

  // ---------------------------------------------------------------------
  // Filter

  /**
   * The search criterion: an empty search keeps everything; otherwise the
   * lower-cased search must occur in the lower-cased professor, subject or track.
   */
  predicate MatchesSearch(e: Emargement, search: string)
    ensures MatchesSearch(e, search) <==>
      || search == ""
      || OccursIgnoringCase(e.nomProfesseur, search)
      || OccursIgnoringCase(e.matiere, search)
      || OccursIgnoringCase(e.filiere, search)
  {
    || search == ""
    || Includes(ToLower(e.nomProfesseur), ToLower(search))
    || Includes(ToLower(e.matiere), ToLower(search))
    || Includes(ToLower(e.filiere), ToLower(search))
  }

  /** The site criterion: an empty filter keeps everything, otherwise the site's text must equal it. */
  predicate MatchesSite(e: Emargement, filterSite: string)
    ensures MatchesSite(e, filterSite) <==> filterSite == "" || SiteOfLabel(filterSite) == Some(e.site)
  {
    LabelRoundTrip(e.site);
    filterSite == "" || Label(e.site) == filterSite
  }

  predicate Keep(e: Emargement, search: string, filterSite: string)
  {
    MatchesSearch(e, search) && MatchesSite(e, filterSite)
  }

  /** The search occurs in `text` when both are lower-cased. */
  ghost predicate OccursIgnoringCase(text: string, search: string)
  {
    exists i :: OccursAt(ToLower(text), ToLower(search), i)
  }

  /** `a` is `b` with some elements removed, the rest kept in order. */
  ghost predicate IsSubsequence<T>(a: seq<T>, b: seq<T>)
    decreases |b|
  {
    if a == [] then true
    else if b == [] then false
    else if a[0] == b[0] then IsSubsequence(a[1..], b[1..])
    else IsSubsequence(a, b[1..])
  }

  /** The records that pass both criteria, in their original order. */
  function FilterEmargements(emargements: seq<Emargement>, search: string, filterSite: string): (r: seq<Emargement>)
    ensures forall e :: e in r <==> e in emargements && Keep(e, search, filterSite)
    ensures forall e :: multiset(r)[e] == if Keep(e, search, filterSite) then multiset(emargements)[e] else 0
    ensures |r| <= |emargements|
    decreases |emargements|
  {
    if emargements == [] then []
    else
      var x := emargements[0];
      var rest := FilterEmargements(emargements[1..], search, filterSite);
      assert emargements == [x] + emargements[1..];
      assert multiset(emargements) == multiset{x} + multiset(emargements[1..]);
      if Keep(x, search, filterSite) then
        assert multiset([x] + rest) == multiset{x} + multiset(rest);
        [x] + rest
      else rest
  }

  /** The filtered list keeps the input's relative order: it is a subsequence of it. */
  lemma {:induction false} FilterIsSubsequence(emargements: seq<Emargement>, search: string, filterSite: string)
    ensures IsSubsequence(FilterEmargements(emargements, search, filterSite), emargements)
    decreases |emargements|
  {
    if emargements != [] {
      var rest := FilterEmargements(emargements[1..], search, filterSite);
      FilterIsSubsequence(emargements[1..], search, filterSite);
      if Keep(emargements[0], search, filterSite) {
        assert ([emargements[0]] + rest)[1..] == rest;
      } else {
        SubsequenceOfTail(rest, emargements);
      }
    }
  }

  /** A subsequence of a list's tail is a subsequence of the list. */
  lemma {:induction false} SubsequenceOfTail<T>(a: seq<T>, b: seq<T>)
    requires b != [] && IsSubsequence(a, b[1..])
    ensures IsSubsequence(a, b)
    decreases |b|, 0
  {
    if a != [] && a[0] == b[0] {
      SubsequenceDropHead(a, b[1..]);
    }
  }

  /** Dropping the first element of a subsequence keeps it a subsequence. */
  lemma {:induction false} SubsequenceDropHead<T>(a: seq<T>, b: seq<T>)
    requires a != [] && IsSubsequence(a, b)
    ensures IsSubsequence(a[1..], b)
    decreases |b|, 1
  {
    if a[0] != b[0] {
      SubsequenceDropHead(a, b[1..]);
    }
    SubsequenceOfTail(a[1..], b);
  }

  /** With an empty search and no site filter, every record is kept, in order. */
  lemma {:induction false} NoCriteriaKeepsAll(emargements: seq<Emargement>)
    ensures FilterEmargements(emargements, "", "") == emargements
    decreases |emargements|
  {
    if emargements != [] {
      NoCriteriaKeepsAll(emargements[1..]);
      assert [emargements[0]] + emargements[1..] == emargements;
    }
  }

  /** With a site filter set, every kept record belongs to the site it names. */
  lemma SiteFilterIsExact(emargements: seq<Emargement>, search: string, filterSite: string)
    requires filterSite != ""
    ensures forall e :: e in FilterEmargements(emargements, search, filterSite) ==> Label(e.site) == filterSite
  {
  }

  // ---------------------------------------------------------------------
  // Sort

  /** Newest first: timestamps never increase along the list. */
  ghost predicate NewestFirst(rs: seq<Emargement>)
  {
    forall i, j :: 0 <= i < j < |rs| ==> rs[i].timestamp >= rs[j].timestamp
  }

  /**
   * Puts `e` into a newest-first list before the first record that is not
   * newer than it, so that among equal timestamps `e` comes first.
   */
  function Insert(e: Emargement, sorted: seq<Emargement>): (r: seq<Emargement>)
    requires NewestFirst(sorted)
    ensures NewestFirst(r)
    ensures multiset(r) == multiset(sorted) + multiset{e}
    ensures r[0] == e || (sorted != [] && r[0] == sorted[0])
    decreases |sorted|
  {
    if sorted == [] || sorted[0].timestamp <= e.timestamp then
      ConsNewestFirst(e, sorted);
      [e] + sorted
    else
      var rest := Insert(e, sorted[1..]);
      assert sorted == [sorted[0]] + sorted[1..];
      ConsNewestFirst(sorted[0], rest);
      [sorted[0]] + rest
  }

  /** A record no older than the head of a newest-first list can be put in front of it. */
  lemma ConsNewestFirst(x: Emargement, rs: seq<Emargement>)
    requires NewestFirst(rs)
    requires rs == [] || x.timestamp >= rs[0].timestamp
    ensures NewestFirst([x] + rs)
  {
  }

  /**
   * The history order: a stable sort by timestamp in milliseconds, newest
   * first.
   */
  function SortNewestFirst(rs: seq<Emargement>): (r: seq<Emargement>)
    ensures NewestFirst(r)
    ensures multiset(r) == multiset(rs)
    decreases |rs|
  {
    if rs == [] then []
    else
      assert rs == [rs[0]] + rs[1..];
      Insert(rs[0], SortNewestFirst(rs[1..]))
  }

  /** A list already newest first is left unchanged by the sort. */
  lemma {:induction false} SortKeepsSorted(rs: seq<Emargement>)
    requires NewestFirst(rs)
    ensures SortNewestFirst(rs) == rs
    decreases |rs|
  {
    if rs != [] {
      SortKeepsSorted(rs[1..]);
      assert [rs[0]] + rs[1..] == rs;
    }
  }

  /** Sorting twice gives the same list as sorting once. */
  lemma SortIdempotent(rs: seq<Emargement>)
    ensures SortNewestFirst(SortNewestFirst(rs)) == SortNewestFirst(rs)
  {
    SortKeepsSorted(SortNewestFirst(rs));
  }

  /**
   * The table the history shows: exactly the records passing the search and
   * the site filter, each as often as in the input, newest first.
   */
  function Displayed(emargements: seq<Emargement>, search: string, filterSite: string): (r: seq<Emargement>)
    ensures NewestFirst(r)
    ensures multiset(r) == multiset(FilterEmargements(emargements, search, filterSite))
    ensures forall e :: multiset(r)[e] == if Keep(e, search, filterSite) then multiset(emargements)[e] else 0
    ensures forall e :: e in r <==> e in emargements && Keep(e, search, filterSite)
  {
    var r := SortNewestFirst(FilterEmargements(emargements, search, filterSite));
    assert forall e :: e in r <==> e in multiset(r);
    r
  }
}
