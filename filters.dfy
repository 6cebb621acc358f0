/** The movie list query: the filter set (category, minimum and maximum
    duration), the free-text search over title and description, and the
    ordering restricted to an allow-list with title ascending as default. */
module Filters {
  import opened Catalog

  // ---------------------------------------------------------------------
  // Filtering
  // ---------------------------------------------------------------------

  /** The list parameters; an absent one applies no filter. */
  datatype MovieQuery = MovieQuery(
    category: Option<Id>,
    durationMin: Option<int>,
    durationMax: Option<int>,
    search: Option<string>)

  const NoFilters: MovieQuery := MovieQuery(None, None, None, None)

  /** `term` occurs in `text` as a contiguous piece. */
  predicate Contains(text: string, term: string)
    decreases |text|
  {
    term <= text || (text != [] && Contains(text[1..], term))
  }

  /** `term` sits in `text` starting at position `i`. */
  predicate OccursAt(text: string, term: string, i: int) {
    0 <= i && i + |term| <= |text| && text[i..i + |term|] == term
  }

  /** The search predicate holds exactly when the term occurs at some position. */
  lemma {:induction false} ContainsIffOccurs(text: string, term: string)
    ensures Contains(text, term) <==> exists i :: OccursAt(text, term, i)
    decreases |text|
  {
    if term <= text {
      assert OccursAt(text, term, 0);
    }
    if text != [] {
      ContainsIffOccurs(text[1..], term);
      if Contains(text[1..], term) {
        var j :| OccursAt(text[1..], term, j);
        assert text[j + 1..j + 1 + |term|] == text[1..][j..j + |term|];
        assert OccursAt(text, term, j + 1);
      }
      if exists i :: OccursAt(text, term, i) {
        var i :| OccursAt(text, term, i);
        if i > 0 {
          assert text[1..][i - 1..i - 1 + |term|] == text[i..i + |term|];
          assert OccursAt(text[1..], term, i - 1);
        } else {
          assert term <= text;
        }
      }
    } else if exists i :: OccursAt(text, term, i) {
      var i :| OccursAt(text, term, i);
      assert term == [];
    }
  }

  /** A movie passes every supplied filter: exact category, duration at least
      the minimum, at most the maximum, and the search term in its title or
      its description. */
  predicate Matches(q: MovieQuery, mv: Movie) {
    && (q.category.Some? ==> mv.category == Some(q.category.value))
    && (q.durationMin.Some? ==> mv.duration >= q.durationMin.value)
    && (q.durationMax.Some? ==> mv.duration <= q.durationMax.value)
    && (q.search.Some? ==> Contains(mv.title, q.search.value) || Contains(mv.description, q.search.value))
  }

  /** The ids of the movies that pass the filters: a subset of the table that
      holds every matching movie and no other. */
  function FilterMovies(movies: map<Id, Movie>, q: MovieQuery): (r: set<Id>)
    ensures r <= movies.Keys
    ensures forall m :: m in r ==> Matches(q, movies[m])
    ensures forall m :: m in movies && Matches(q, movies[m]) ==> m in r
  {
    set m | m in movies && Matches(q, movies[m])
  }

  /** Each filter, read field by field. */
  lemma FilterFieldByField(movies: map<Id, Movie>, q: MovieQuery)
    ensures forall m :: m in FilterMovies(movies, q) && q.durationMin.Some? ==> movies[m].duration >= q.durationMin.value
    ensures forall m :: m in FilterMovies(movies, q) && q.durationMax.Some? ==> movies[m].duration <= q.durationMax.value
    ensures forall m :: m in FilterMovies(movies, q) && q.category.Some? ==> movies[m].category == q.category
  {
  }

  lemma NoFiltersKeepsAll(movies: map<Id, Movie>)
    ensures FilterMovies(movies, NoFilters) == movies.Keys
  {
  }

  /** The filters combine by AND: a minimum above the maximum matches nothing. */
  lemma MinAboveMaxMatchesNothing(movies: map<Id, Movie>, q: MovieQuery)
    requires q.durationMin.Some? && q.durationMax.Some? && q.durationMin.value > q.durationMax.value
    ensures FilterMovies(movies, q) == {}
  {
  }

  /** Adding a filter can only shrink the result. */
  lemma FilterMonotone(movies: map<Id, Movie>, q: MovieQuery, q': MovieQuery)
    requires forall mv :: Matches(q', mv) ==> Matches(q, mv)
    ensures FilterMovies(movies, q') <= FilterMovies(movies, q)
  {
  }

  // ---------------------------------------------------------------------
  // Ordering parameter
  // ---------------------------------------------------------------------

  datatype OrderField = Title | ReleaseDate | Duration
  datatype OrderTerm = OrderTerm(field: OrderField, descending: bool)

  /** The fields the list may be ordered on, by their API names. */
  const OrderingFields: seq<string> := ["titulo", "fecha_estreno", "duracion"]
  /** Title ascending. */
  const DefaultOrdering: seq<OrderTerm> := [OrderTerm(Title, false)]

  /** The API name of a field. */
  function NameOf(f: OrderField): (name: string)
    ensures name in OrderingFields
  {
    match f
    case Title => "titulo"
    case ReleaseDate => "fecha_estreno"
    case Duration => "duracion"
  }

  /** The field an API name selects, if it is one of the allowed names. */
  function FieldNamed(name: string): (r: Option<OrderField>)
    ensures r.Some? <==> name in OrderingFields
    ensures r.Some? ==> NameOf(r.value) == name
  {
    if name == "titulo" then Some(Title)
    else if name == "fecha_estreno" then Some(ReleaseDate)
    else if name == "duracion" then Some(Duration)
    else None
  }

  /** Every field is selected by its own name. */
  lemma FieldNamedRoundTrip(f: OrderField)
    ensures FieldNamed(NameOf(f)) == Some(f)
  {
  }

  /** A term is a field name, or a field name after one '-' for descending;
      anything else is not a valid term. */
  function ParseTerm(s: string): (r: Option<OrderTerm>)
    ensures r.Some? <==> s in OrderingFields || (|s| > 0 && s[0] == '-' && s[1..] in OrderingFields)
    ensures r.Some? ==> r.value.descending == (|s| > 0 && s[0] == '-')
    ensures r.Some? ==> NameOf(r.value.field) == (if |s| > 0 && s[0] == '-' then s[1..] else s)
  {
    if |s| > 0 && s[0] == '-' then
      match FieldNamed(s[1..])
      case Some(f) => Some(OrderTerm(f, true))
      case None => None
    else
      match FieldNamed(s)
      case Some(f) => Some(OrderTerm(f, false))
      case None => None
  }

  /** A field's name selects it ascending, and the name after '-' selects it
      descending. */
  lemma ParseTermRoundTrip(f: OrderField)
    ensures ParseTerm(NameOf(f)) == Some(OrderTerm(f, false))
    ensures ParseTerm("-" + NameOf(f)) == Some(OrderTerm(f, true))
  {
  }

  /** The valid terms, in the order given; invalid ones are dropped. */
  function ParseTerms(ss: seq<string>): (r: seq<OrderTerm>)
    ensures forall t :: t in r ==> exists s :: s in ss && ParseTerm(s) == Some(t)
    ensures forall s :: s in ss && ParseTerm(s).Some? ==> ParseTerm(s).value in r
    ensures r == [] <==> forall s :: s in ss ==> ParseTerm(s).None?
  {
    if ss == [] then []
    else
      var rest := ParseTerms(ss[1..]);
      assert forall s :: s in ss[1..] ==> s in ss;
      assert forall s :: s in ss ==> s == ss[0] || s in ss[1..];
      match ParseTerm(ss[0])
      case Some(t) => [t] + rest
      case None => rest
  }

  /** One requested term gives itself when valid and nothing otherwise. */
  lemma ParseTermsSingle(s: string)
    ensures ParseTerms([s]) == if ParseTerm(s).Some? then [ParseTerm(s).value] else []
  {
  }

  /** The terms of a longer request are those of its parts, in order. */
  lemma {:induction false} ParseTermsAppend(a: seq<string>, b: seq<string>)
    ensures ParseTerms(a + b) == ParseTerms(a) + ParseTerms(b)
    decreases |a|
  {
    if a == [] {
      assert a + b == b;
    } else {
      assert (a + b)[0] == a[0];
      assert (a + b)[1..] == a[1..] + b;
      ParseTermsAppend(a[1..], b);
    }
  }

  /** The ordering in force: the valid requested terms, or the default when
      the parameter is absent or names no valid term. */
  function Ordering(param: Option<seq<string>>): (r: seq<OrderTerm>)
    ensures r != []
    ensures param.None? ==> r == DefaultOrdering
    ensures param.Some? && (forall s :: s in param.value ==> ParseTerm(s).None?) ==> r == DefaultOrdering
    ensures param.Some? && ParseTerms(param.value) != [] ==> r == ParseTerms(param.value)
    ensures forall t :: t in r ==> t in DefaultOrdering || exists s :: s in param.value && ParseTerm(s) == Some(t)
  {
    match param
    case None => DefaultOrdering
    case Some(ss) => var ts := ParseTerms(ss); if ts == [] then DefaultOrdering else ts
  }

  /** `ordering=duracion,-titulo` orders by duration, then by title descending. */
  lemma TwoTermOrdering()
    ensures Ordering(Some(["duracion", "-titulo"])) == [OrderTerm(Duration, false), OrderTerm(Title, true)]
  {
  }

  // ---------------------------------------------------------------------
  // Comparing movies
  // ---------------------------------------------------------------------

  /** Lexicographic comparison of strings by code point: -1, 0 or 1. */
  function StrCmp(a: string, b: string): (c: int)
    ensures -1 <= c <= 1
  {
    if a == [] then (if b == [] then 0 else -1)
    else if b == [] then 1
    else if a[0] < b[0] then -1
    else if a[0] > b[0] then 1
    else StrCmp(a[1..], b[1..])
  }

  function IntCmp(a: int, b: int): int {
    if a < b then -1 else if a > b then 1 else 0
  }

  datatype SortKey = Text(s: string) | Number(n: int)

  function KeyCmp(a: SortKey, b: SortKey): int {
    match (a, b)
    case (Text(x), Text(y)) => StrCmp(x, y)
    case (Number(x), Number(y)) => IntCmp(x, y)
    case (Text(_), Number(_)) => -1
    case (Number(_), Text(_)) => 1
  }

  function KeyOf(f: OrderField, mv: Movie): SortKey {
    match f
    case Title => Text(mv.title)
    case ReleaseDate => Number(mv.releaseDate)
    case Duration => Number(mv.duration)
  }

  function TermCmp(t: OrderTerm, x: Movie, y: Movie): int {
    if t.descending then KeyCmp(KeyOf(t.field, y), KeyOf(t.field, x))
    else KeyCmp(KeyOf(t.field, x), KeyOf(t.field, y))
  }

  /** Compare by the first term; on a tie, by the rest. */
  function Cmp(terms: seq<OrderTerm>, x: Movie, y: Movie): int
    decreases |terms|
  {
    if terms == [] then 0
    else
      var c := TermCmp(terms[0], x, y);
      if c != 0 then c else Cmp(terms[1..], x, y)
  }

  predicate Le(terms: seq<OrderTerm>, x: Movie, y: Movie) {
    Cmp(terms, x, y) <= 0
  }

  lemma {:induction false} StrCmpAntisymmetric(a: string, b: string)
    ensures StrCmp(a, b) == -StrCmp(b, a)
    decreases |a|
  {
    if a != [] && b != [] && a[0] == b[0] {
      StrCmpAntisymmetric(a[1..], b[1..]);
    }
  }

  lemma {:induction false} StrCmpZero(a: string, b: string)
    ensures StrCmp(a, b) == 0 <==> a == b
    decreases |a|
  {
    if a != [] && b != [] && a[0] == b[0] {
      StrCmpZero(a[1..], b[1..]);
      if a[1..] == b[1..] {
        assert a == [a[0]] + a[1..] && b == [b[0]] + b[1..];
      }
    }
  }

  lemma {:induction false} StrCmpTransitive(a: string, b: string, c: string)
    requires StrCmp(a, b) < 0 && StrCmp(b, c) < 0
    ensures StrCmp(a, c) < 0
    decreases |a|
  {
    if a != [] && b != [] && c != [] && a[0] == b[0] && b[0] == c[0] {
      StrCmpTransitive(a[1..], b[1..], c[1..]);
    }
  }

  lemma KeyCmpFacts(a: SortKey, b: SortKey)
    ensures KeyCmp(a, b) == -KeyCmp(b, a)
    ensures KeyCmp(a, b) == 0 <==> a == b
  {
    if a.Text? && b.Text? {
      StrCmpAntisymmetric(a.s, b.s);
      StrCmpZero(a.s, b.s);
    }
  }

  lemma KeyCmpTransitive(a: SortKey, b: SortKey, c: SortKey)
    requires KeyCmp(a, b) < 0 && KeyCmp(b, c) < 0
    ensures KeyCmp(a, c) < 0
  {
    if a.Text? && b.Text? && c.Text? {
      StrCmpTransitive(a.s, b.s, c.s);
    }
  }

  lemma {:induction false} CmpAntisymmetric(terms: seq<OrderTerm>, x: Movie, y: Movie)
    ensures Cmp(terms, x, y) == -Cmp(terms, y, x)
    decreases |terms|
  {
    if terms != [] {
      var t := terms[0];
      KeyCmpFacts(KeyOf(t.field, x), KeyOf(t.field, y));
      CmpAntisymmetric(terms[1..], x, y);
    }
  }

  lemma {:induction false} CmpTransitive(terms: seq<OrderTerm>, x: Movie, y: Movie, z: Movie)
    requires Le(terms, x, y) && Le(terms, y, z)
    ensures Le(terms, x, z)
    decreases |terms|
  {
    if terms != [] {
      var t := terms[0];
      var kx, ky, kz := KeyOf(t.field, x), KeyOf(t.field, y), KeyOf(t.field, z);
      KeyCmpFacts(kx, ky);
      KeyCmpFacts(ky, kz);
      KeyCmpFacts(kx, kz);
      var a, b := TermCmp(t, x, y), TermCmp(t, y, z);
      if a == 0 && b == 0 {
        CmpTransitive(terms[1..], x, y, z);
      } else if a < 0 && b < 0 {
        if t.descending { KeyCmpTransitive(kz, ky, kx); } else { KeyCmpTransitive(kx, ky, kz); }
      }
    }
  }

  lemma CmpTotal(terms: seq<OrderTerm>, x: Movie, y: Movie)
    ensures Le(terms, x, y) || Le(terms, y, x)
  {
    CmpAntisymmetric(terms, x, y);
  }

  // ---------------------------------------------------------------------
  // Sorting
  // ---------------------------------------------------------------------

  predicate InTable(movies: map<Id, Movie>, s: seq<Id>) {
    forall i :: 0 <= i < |s| ==> s[i] in movies
  }

  predicate SortedBy(terms: seq<OrderTerm>, movies: map<Id, Movie>, s: seq<Id>) {
    && InTable(movies, s)
    && forall i, j :: 0 <= i < j < |s| ==> Le(terms, movies[s[i]], movies[s[j]])
  }

  predicate Distinct(s: seq<Id>) {
    forall i, j :: 0 <= i < j < |s| ==> s[i] != s[j]
  }

  /** `k` put into the sorted list before the first id that sorts strictly after it. */
  function Insert(terms: seq<OrderTerm>, movies: map<Id, Movie>, k: Id, s: seq<Id>): (r: seq<Id>)
    requires k in movies && SortedBy(terms, movies, s)
    ensures |r| == |s| + 1
    ensures forall x :: x in r <==> x == k || x in s
    ensures SortedBy(terms, movies, r)
    ensures Distinct(s) && k !in s ==> Distinct(r)
    decreases |s|
  {
    if s == [] then [k]
    else if Le(terms, movies[k], movies[s[0]]) then
      assert forall j :: 0 < j < |s| ==> Le(terms, movies[k], movies[s[j]]) by {
        forall j | 0 < j < |s| ensures Le(terms, movies[k], movies[s[j]]) {
          CmpTransitive(terms, movies[k], movies[s[0]], movies[s[j]]);
        }
      }
      [k] + s
    else
      CmpTotal(terms, movies[k], movies[s[0]]);
      assert forall x :: x in s[1..] ==> x in s;
      var rest := Insert(terms, movies, k, s[1..]);
      HeadBeforeRest(terms, movies, s, k, rest);
      [s[0]] + rest
  }

  /** The head of a sorted list sorts before every id of the rest and before
      `k`, hence before every id of a list made of those; and when `s` has no
      repeats and lacks `k`, its head is not among them. */
  lemma HeadBeforeRest(terms: seq<OrderTerm>, movies: map<Id, Movie>, s: seq<Id>, k: Id, rest: seq<Id>)
    requires SortedBy(terms, movies, s) && s != [] && k in movies
    requires Le(terms, movies[s[0]], movies[k])
    requires InTable(movies, rest) && forall x :: x in rest ==> x == k || x in s[1..]
    ensures forall j :: 0 <= j < |rest| ==> Le(terms, movies[s[0]], movies[rest[j]])
    ensures Distinct(s) && k !in s ==> s[0] !in rest
  {
    if Distinct(s) && k !in s && s[0] in rest {
      var i := IndexOf(s[1..], s[0]);
    }
    forall j | 0 <= j < |rest| ensures Le(terms, movies[s[0]], movies[rest[j]]) {
      if rest[j] != k {
        var i := IndexOf(s[1..], rest[j]);
        assert s[i + 1] == rest[j];
      }
    }
  }

  lemma {:induction false} HasLeast(s: set<Id>)
    requires s != {}
    ensures exists k :: k in s && forall j :: j in s ==> k <= j
    decreases |s|
  {
    var x := Pick(s);
    if s != {x} {
      HasLeast(s - {x});
      var k :| k in s - {x} && forall j :: j in s - {x} ==> k <= j;
      var least := if x < k then x else k;
      forall j | j in s ensures least <= j {
        if j != x { assert j in s - {x}; }
      }
    } else {
      assert forall j :: j in s ==> x <= j;
    }
  }

  function Least(s: set<Id>): (k: Id)
    requires s != {}
    ensures k in s && forall j :: j in s ==> k <= j
  {
    HasLeast(s);
    var k :| k in s && forall j :: j in s ==> k <= j; k
  }

  /** The ids listed once each, in the order of the terms. */
  function SortIds(terms: seq<OrderTerm>, movies: map<Id, Movie>, ids: set<Id>): (r: seq<Id>)
    requires ids <= movies.Keys
    ensures forall x :: x in r <==> x in ids
    ensures Distinct(r)
    ensures SortedBy(terms, movies, r)
    decreases |ids|
  {
    if ids == {} then []
    else
      var k := Least(ids);
      Insert(terms, movies, k, SortIds(terms, movies, ids - {k}))
  }

  // ---------------------------------------------------------------------
  // The list endpoint
  // ---------------------------------------------------------------------

  /** The answer of a list call: the ids in order, or a 400 because the
      category filter names no category. */
  datatype ListResult = Listed(ids: seq<Id>) | UnknownCategory(category: Id)

  /** Filter, search and order the movie table. */
  function ListMovies(db: Db, q: MovieQuery, ordering: Option<seq<string>>): (r: ListResult)
    ensures r.UnknownCategory? <==> q.category.Some? && q.category.value !in db.categories
    ensures r.Listed? ==>
      && (forall m :: m in r.ids <==> m in db.movies && Matches(q, db.movies[m]))
      && Distinct(r.ids)
      && SortedBy(Ordering(ordering), db.movies, r.ids)
  {
    if q.category.Some? && q.category.value !in db.categories then UnknownCategory(q.category.value)
    else Listed(SortIds(Ordering(ordering), db.movies, FilterMovies(db.movies, q)))
  }

  /** Without an ordering parameter the list is by title, ascending. */
  lemma DefaultListByTitle(db: Db, q: MovieQuery)
    requires ListMovies(db, q, None).Listed?
    ensures var ids := ListMovies(db, q, None).ids;
      forall i, j :: 0 <= i < j < |ids| ==> StrCmp(db.movies[ids[i]].title, db.movies[ids[j]].title) <= 0
  {
  }

  /** `ordering=-duracion` lists the longest movies first. */
  lemma DescendingDurationList(db: Db, q: MovieQuery)
    requires ListMovies(db, q, Some(["-duracion"])).Listed?
    ensures var ids := ListMovies(db, q, Some(["-duracion"])).ids;
      forall i, j :: 0 <= i < j < |ids| ==> db.movies[ids[i]].duration >= db.movies[ids[j]].duration
  {
    ParseTermsSingle("-duracion");
    ParseTermRoundTrip(Duration);
    var ids := ListMovies(db, q, Some(["-duracion"])).ids;
    forall i, j | 0 <= i < j < |ids|
      ensures db.movies[ids[i]].duration >= db.movies[ids[j]].duration
    {
      assert Le([OrderTerm(Duration, true)], db.movies[ids[i]], db.movies[ids[j]]);
    }
  }
}
