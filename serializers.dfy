/** The write side of the API's serializers: which fields a request may set,
    which it may leave out, which it can never set (read-only), and the
    checks each field goes through before anything is stored. */
module Serializers {
  import opened Catalog

  /** One field of a request payload: left out, or given with a value. */
  datatype Field<+T> = Omitted | Given(value: T) {
    function Or(default: T): T {
      match this
      case Given(v) => v
      case Omitted => default
    }
  }

  /** A field-level validation error (a 400 response names the field). */
  datatype FieldError =
    | Required(field: string)
    | NegativePrice
    | NegativeDuration
    | UnknownCategory(category: Id)
    | UnknownTag(tag: Id)
    | UnknownMovie(movie: Id)
    | UnknownUser(user: Id)
    | NameTaken(name: string)
    | ScoreOutOfRange(score: int)

  /** The outcome of validating a payload: the data to store, or every field
      error found (each field reports at most one). */
  datatype Checked<+T> = Ok(value: T) | Rejected(errors: set<FieldError>)

  // ---------------------------------------------------------------------
  // Single-field checks
  // ---------------------------------------------------------------------

  /** The price check: a negative price is refused; any other passes unchanged. */
  function ValidatePrice(price: int): (r: Checked<int>)
    ensures r.Ok? <==> price >= 0
    ensures r.Ok? ==> r.value == price
    ensures r.Rejected? ==> r.errors == {NegativePrice}
  {
    if price < 0 then Rejected({NegativePrice}) else Ok(price)
  }

  /** The nullable, optional category reference: omitted and null pass, a
      given id must name an existing category. */
  function CategoryRefErrors(db: Db, category: Field<Option<Id>>): (e: set<FieldError>)
    ensures e == {} <==> (category.Omitted? || category.value.None? || category.value.value in db.categories)
    ensures e != {} ==> e == {UnknownCategory(category.value.value)}
  {
    match category
    case Given(Some(c)) => if c in db.categories then {} else {UnknownCategory(c)}
    case _ => {}
  }

  /** The first id of the list that names no tag, if there is one. */
  function FirstUnknownTag(db: Db, ids: seq<Id>): (r: Option<Id>)
    ensures r.None? <==> forall i :: 0 <= i < |ids| ==> ids[i] in db.tags
    ensures r.Some? ==> exists i :: 0 <= i < |ids| && ids[i] == r.value && ids[i] !in db.tags &&
                          forall j :: 0 <= j < i ==> ids[j] in db.tags
  {
    if ids == [] then None
    else if ids[0] !in db.tags then Some(ids[0])
    else
      var r := FirstUnknownTag(db, ids[1..]);
      if r.Some? then
        ghost var i :| 0 <= i < |ids[1..]| && ids[1..][i] == r.value && ids[1..][i] !in db.tags &&
                       forall j :: 0 <= j < i ==> ids[1..][j] in db.tags;
        assert ids[i + 1] == r.value && forall j :: 0 <= j < i + 1 ==> ids[j] in db.tags;
        r
      else r
  }

  /** The optional tag list: omitted passes, a given list must name existing
      tags only; the error names the first id that does not. */
  function TagRefErrors(db: Db, tags: Field<seq<Id>>): (e: set<FieldError>)
    ensures e == {} <==> (tags.Omitted? || forall i :: 0 <= i < |tags.value| ==> tags.value[i] in db.tags)
    ensures e != {} ==> exists t :: e == {UnknownTag(t)} && t in tags.value && t !in db.tags
  {
    match tags
    case Omitted => {}
    case Given(ids) =>
      match FirstUnknownTag(db, ids)
      case None => {}
      case Some(t) => {UnknownTag(t)}
  }

  function RequireGiven<T>(f: Field<T>, name: string): (e: set<FieldError>)
    ensures e == {} <==> f.Given?
    ensures e != {} ==> e == {Required(name)}
  {
    if f.Given? then {} else {Required(name)}
  }

  // ---------------------------------------------------------------------
  // Movies
  // ---------------------------------------------------------------------

  /** A movie write payload as a client may send it, read-only fields included. */
  datatype MovieInput = MovieInput(
    id: Field<Id>,
    title: Field<string>,
    description: Field<string>,
    category: Field<Option<Id>>,
    tags: Field<seq<Id>>,
    users: Field<seq<Id>>,
    price: Field<int>,
    releaseDate: Field<Date>,
    duration: Field<int>,
    active: Field<bool>,
    createdAt: Field<Timestamp>,
    updatedAt: Field<Timestamp>)

  /** The validated data of a movie write: only the writable fields. */
  datatype MovieData = MovieData(
    title: Field<string>,
    description: Field<string>,
    category: Field<Option<Id>>,
    tags: Field<set<Id>>,
    price: Field<int>,
    releaseDate: Field<Date>,
    duration: Field<int>,
    active: Field<bool>)

  /** Title, description, release date and duration have no default; a full
      write (create or replace) must give them, a partial one need not. */
  function MissingMovieFields(input: MovieInput, partial: bool): (e: set<FieldError>)
    ensures e == {} <==> partial || (input.title.Given? && input.description.Given? &&
                                     input.releaseDate.Given? && input.duration.Given?)
  {
    if partial then {}
    else RequireGiven(input.title, "titulo") + RequireGiven(input.description, "descripcion") +
         RequireGiven(input.releaseDate, "fecha_estreno") + RequireGiven(input.duration, "duracion")
  }

  function PriceErrors(price: Field<int>): (e: set<FieldError>)
    ensures e == {} <==> (price.Omitted? || price.value >= 0)
  {
    match price
    case Omitted => {}
    case Given(p) => match ValidatePrice(p) case Ok(_) => {} case Rejected(es) => es
  }

  /** The duration column is a positive-integer column: it admits 0 and up. */
  function DurationErrors(duration: Field<int>): (e: set<FieldError>)
    ensures e == {} <==> (duration.Omitted? || duration.value >= 0)
  {
    if duration.Given? && duration.value < 0 then {NegativeDuration} else {}
  }

  function ElementsOf(ids: seq<Id>): (s: set<Id>)
    ensures forall t :: t in s <==> t in ids
  {
    set t | t in ids
  }

  /** The movie write validator. Every field error is collected; when there
      is none the writable fields are passed on as given, and the read-only
      ones (id, created_at, updated_at, usuarios) are dropped. */
  function ValidateMovieWrite(db: Db, input: MovieInput, partial: bool): (r: Checked<MovieData>)
    ensures r.Ok? <==>
      && (partial || (input.title.Given? && input.description.Given? &&
                      input.releaseDate.Given? && input.duration.Given?))
      && (input.price.Given? ==> input.price.value >= 0)
      && (input.duration.Given? ==> input.duration.value >= 0)
      && (input.category.Given? && input.category.value.Some? ==> input.category.value.value in db.categories)
      && (input.tags.Given? ==> forall i :: 0 <= i < |input.tags.value| ==> input.tags.value[i] in db.tags)
    ensures r.Rejected? && input.price.Given? && input.price.value < 0 ==> NegativePrice in r.errors
    ensures r.Ok? ==>
      && r.value.title == input.title && r.value.description == input.description
      && r.value.category == input.category
      && (r.value.tags.Given? <==> input.tags.Given?)
      && (input.tags.Given? ==> forall t :: t in r.value.tags.value <==> t in input.tags.value)
      && r.value.price == input.price && r.value.releaseDate == input.releaseDate
      && r.value.duration == input.duration && r.value.active == input.active
  {
    var errors := MissingMovieFields(input, partial) + PriceErrors(input.price) +
                  DurationErrors(input.duration) + CategoryRefErrors(db, input.category) +
                  TagRefErrors(db, input.tags);
    if errors == {} then
      Ok(MovieData(input.title, input.description, input.category,
                   match input.tags case Omitted => Omitted case Given(ids) => Given(ElementsOf(ids)),
                   input.price, input.releaseDate, input.duration, input.active))
    else Rejected(errors)
  }

  /** Two payloads that differ only in read-only fields validate alike. */
  lemma MovieReadOnlyFieldsIgnored(db: Db, a: MovieInput, b: MovieInput, partial: bool)
    requires a.(id := b.id, users := b.users, createdAt := b.createdAt, updatedAt := b.updatedAt) == b
    ensures ValidateMovieWrite(db, a, partial) == ValidateMovieWrite(db, b, partial)
  {
  }

  /** A newly created movie: omitted optional fields take their defaults
      (price 0, active, no category, no tags), both timestamps are `now`. */
  function NewMovie(d: MovieData, now: Timestamp): (mv: Movie)
    requires d.title.Given? && d.description.Given? && d.releaseDate.Given? && d.duration.Given?
    ensures mv.title == d.title.value && mv.description == d.description.value
    ensures mv.releaseDate == d.releaseDate.value && mv.duration == d.duration.value
    ensures mv.price == (if d.price.Given? then d.price.value else 0)
    ensures mv.active == (if d.active.Given? then d.active.value else true)
    ensures mv.category == (if d.category.Given? then d.category.value else None)
    ensures mv.tags == (if d.tags.Given? then d.tags.value else {})
    ensures mv.createdAt == now && mv.updatedAt == now
  {
    Movie(d.title.value, d.description.value, d.category.Or(None), d.tags.Or({}),
          d.price.Or(0), d.releaseDate.value, d.duration.value, d.active.Or(true), now, now)
  }

  /** An updated movie: every given field replaces the stored one, every
      omitted field keeps its stored value, the creation time is kept and the
      modification time becomes `now`. */
  function UpdatedMovie(mv: Movie, d: MovieData, now: Timestamp): (r: Movie)
    ensures r.title == (if d.title.Given? then d.title.value else mv.title)
    ensures r.description == (if d.description.Given? then d.description.value else mv.description)
    ensures r.category == (if d.category.Given? then d.category.value else mv.category)
    ensures r.tags == (if d.tags.Given? then d.tags.value else mv.tags)
    ensures r.price == (if d.price.Given? then d.price.value else mv.price)
    ensures r.releaseDate == (if d.releaseDate.Given? then d.releaseDate.value else mv.releaseDate)
    ensures r.duration == (if d.duration.Given? then d.duration.value else mv.duration)
    ensures r.active == (if d.active.Given? then d.active.value else mv.active)
    ensures r.createdAt == mv.createdAt && r.updatedAt == now
  {
    Movie(d.title.Or(mv.title), d.description.Or(mv.description), d.category.Or(mv.category),
          d.tags.Or(mv.tags), d.price.Or(mv.price), d.releaseDate.Or(mv.releaseDate),
          d.duration.Or(mv.duration), d.active.Or(mv.active), mv.createdAt, now)
  }

  // ---------------------------------------------------------------------
  // Categories and tags
  // ---------------------------------------------------------------------

  datatype CategoryInput = CategoryInput(id: Field<Id>, name: Field<string>, description: Field<string>)
  datatype TagInput = TagInput(id: Field<Id>, name: Field<string>)

  predicate CategoryNameTaken(db: Db, name: string) {
    exists c :: c in db.categories && db.categories[c].name == name
  }

  predicate TagNameTaken(db: Db, name: string) {
    exists t :: t in db.tags && db.tags[t].name == name
  }

  /** A category create: the name is required and must not be in use; the
      description defaults to empty; the id cannot be set. */
  function ValidateCategoryWrite(db: Db, input: CategoryInput): (r: Checked<Category>)
    ensures r.Ok? <==> input.name.Given? && !CategoryNameTaken(db, input.name.value)
    ensures r.Ok? ==> r.value == Category(input.name.value, input.description.Or(""))
    ensures r.Rejected? ==> r.errors == (if input.name.Omitted? then {Required("nombre")}
                                         else {NameTaken(input.name.value)})
  {
    match input.name
    case Omitted => Rejected({Required("nombre")})
    case Given(n) =>
      if CategoryNameTaken(db, n) then Rejected({NameTaken(n)})
      else Ok(Category(n, input.description.Or("")))
  }

  /** A tag create: the name is required and must not be in use; the id
      cannot be set. */
  function ValidateTagWrite(db: Db, input: TagInput): (r: Checked<Tag>)
    ensures r.Ok? <==> input.name.Given? && !TagNameTaken(db, input.name.value)
    ensures r.Ok? ==> r.value == Tag(input.name.value)
    ensures r.Rejected? ==> r.errors == (if input.name.Omitted? then {Required("nombre")}
                                         else {NameTaken(input.name.value)})
  {
    match input.name
    case Omitted => Rejected({Required("nombre")})
    case Given(n) =>
      if TagNameTaken(db, n) then Rejected({NameTaken(n)}) else Ok(Tag(n))
  }

  lemma CategoryIdIgnored(db: Db, input: CategoryInput, id: Field<Id>)
    ensures ValidateCategoryWrite(db, input.(id := id)) == ValidateCategoryWrite(db, input)
  {
  }

  lemma TagIdIgnored(db: Db, input: TagInput, id: Field<Id>)
    ensures ValidateTagWrite(db, input.(id := id)) == ValidateTagWrite(db, input)
  {
  }

  // ---------------------------------------------------------------------
  // Reviews
  // ---------------------------------------------------------------------

  /** A review write payload; `id`, `movieTitle` and `createdAt` are read-only. */
  datatype ReviewInput = ReviewInput(
    id: Field<Id>,
    movie: Field<Id>,
    movieTitle: Field<string>,
    user: Field<Id>,
    score: Field<int>,
    comment: Field<string>,
    createdAt: Field<Timestamp>)

  datatype ReviewData = ReviewData(movie: Id, user: Id, score: int, comment: string)

  function MovieRefErrors(db: Db, movie: Field<Id>): (e: set<FieldError>)
    ensures e == {} <==> movie.Given? && movie.value in db.movies
  {
    match movie
    case Omitted => {Required("pelicula")}
    case Given(m) => if m in db.movies then {} else {UnknownMovie(m)}
  }

  function UserRefErrors(db: Db, user: Field<Id>): (e: set<FieldError>)
    ensures e == {} <==> user.Given? && user.value in db.users
  {
    match user
    case Omitted => {Required("usuario")}
    case Given(u) => if u in db.users then {} else {UnknownUser(u)}
  }

  function ScoreErrors(score: Field<int>): (e: set<FieldError>)
    ensures e == {} <==> score.Given? && MinScore <= score.value <= MaxScore
  {
    match score
    case Omitted => {Required("puntuacion")}
    case Given(s) => if MinScore <= s <= MaxScore then {} else {ScoreOutOfRange(s)}
  }

  /** The review write validator: movie and user must exist, the score must be
      in range, the comment defaults to empty; read-only fields are dropped. */
  function ValidateReviewWrite(db: Db, input: ReviewInput): (r: Checked<ReviewData>)
    ensures r.Ok? <==> && input.movie.Given? && input.movie.value in db.movies
                       && input.user.Given? && input.user.value in db.users
                       && input.score.Given? && MinScore <= input.score.value <= MaxScore
    ensures r.Ok? ==> r.value == ReviewData(input.movie.value, input.user.value,
                                            input.score.value, input.comment.Or(""))
  {
    var errors := MovieRefErrors(db, input.movie) + UserRefErrors(db, input.user) + ScoreErrors(input.score);
    if errors == {} then
      Ok(ReviewData(input.movie.value, input.user.value, input.score.value, input.comment.Or("")))
    else Rejected(errors)
  }

  lemma ReviewReadOnlyFieldsIgnored(db: Db, a: ReviewInput, b: ReviewInput)
    requires a.(id := b.id, movieTitle := b.movieTitle, createdAt := b.createdAt) == b
    ensures ValidateReviewWrite(db, a) == ValidateReviewWrite(db, b)
  {
  }
}
