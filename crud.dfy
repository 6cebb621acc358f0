/** The plain create and update operations of the generic endpoints, each a
    validated write followed by an insert or an in-place update, plus the
    inserts into the user, profile and technical-sheet tables. */
module Crud {
  import opened Catalog
  import opened Serializers

  /** The answer of a write: 201/200 with the row's id, 400 with the field
      errors, NotFound for a missing row, or Conflict. On the endpoints
      NotFound is the 404 of a missing row; on the profile and sheet inserts,
      which have no endpoint, it stands for the IntegrityError of a foreign
      key naming an absent user or movie, and it stores nothing. Conflict is a write refused
      by a unique key outside the field validators, and it stores nothing.
      For a review it stands for the (movie, user) key: the framework answers
      either a 400 from the unique-together validator or an uncaught
      IntegrityError, depending on its version. For a profile or a sheet it
      stands for the IntegrityError of the one-to-one key. It is never a 409. */
  datatype WriteOutcome =
    | Written(id: Id)
    | Invalid(errors: set<FieldError>)
    | NotFound
    | Conflict

  function CreateCategory(db: Db, input: CategoryInput): (r: (Db, WriteOutcome))
    ensures r.1.Written? <==> ValidateCategoryWrite(db, input).Ok?
    ensures r.1.Written? ==> (
      r.1.id == db.nextId &&
      r.0 == db.(categories := db.categories[db.nextId := ValidateCategoryWrite(db, input).value],
                 nextId := db.nextId + 1))
    ensures !r.1.Written? ==> r.0 == db && r.1 == Invalid(ValidateCategoryWrite(db, input).errors)
  {
    match ValidateCategoryWrite(db, input)
    case Rejected(es) => (db, Invalid(es))
    case Ok(c) => (db.(categories := db.categories[db.nextId := c], nextId := db.nextId + 1), Written(db.nextId))
  }

  function CreateTag(db: Db, input: TagInput): (r: (Db, WriteOutcome))
    ensures r.1.Written? <==> ValidateTagWrite(db, input).Ok?
    ensures r.1.Written? ==> (
      r.1.id == db.nextId &&
      r.0 == db.(tags := db.tags[db.nextId := ValidateTagWrite(db, input).value], nextId := db.nextId + 1))
    ensures !r.1.Written? ==> r.0 == db && r.1 == Invalid(ValidateTagWrite(db, input).errors)
  {
    match ValidateTagWrite(db, input)
    case Rejected(es) => (db, Invalid(es))
    case Ok(t) => (db.(tags := db.tags[db.nextId := t], nextId := db.nextId + 1), Written(db.nextId))
  }

  /** A movie create: a full write; on success one movie row is added. */
  function CreateMovie(db: Db, input: MovieInput, now: Timestamp): (r: (Db, WriteOutcome))
    ensures r.1.Written? <==> ValidateMovieWrite(db, input, false).Ok?
    ensures r.1.Written? ==> (
      r.1.id == db.nextId &&
      r.0 == db.(movies := db.movies[db.nextId := NewMovie(ValidateMovieWrite(db, input, false).value, now)],
                 nextId := db.nextId + 1))
    ensures !r.1.Written? ==> r.0 == db && r.1 == Invalid(ValidateMovieWrite(db, input, false).errors)
  {
    match ValidateMovieWrite(db, input, false)
    case Rejected(es) => (db, Invalid(es))
    case Ok(d) =>
      (db.(movies := db.movies[db.nextId := NewMovie(d, now)], nextId := db.nextId + 1), Written(db.nextId))
  }

  /** A movie update (full or partial): 404 if the movie is absent, 400 if the
      payload is invalid; otherwise only that movie's row changes, and its
      reviews (the users who reviewed it) are untouched. */
  function UpdateMovie(db: Db, m: Id, input: MovieInput, partial: bool, now: Timestamp): (r: (Db, WriteOutcome))
    ensures m !in db.movies ==> r == (db, NotFound)
    ensures m in db.movies ==> (r.1.Written? <==> ValidateMovieWrite(db, input, partial).Ok?)
    ensures m in db.movies && ValidateMovieWrite(db, input, partial).Rejected? ==>
      r.1 == Invalid(ValidateMovieWrite(db, input, partial).errors)
    ensures r.1.Written? ==> (
      m in db.movies && r.1.id == m &&
      r.0 == db.(movies := db.movies[m := UpdatedMovie(db.movies[m], ValidateMovieWrite(db, input, partial).value, now)]))
    ensures !r.1.Written? ==> r.0 == db
  {
    if m !in db.movies then (db, NotFound)
    else
      match ValidateMovieWrite(db, input, partial)
      case Rejected(es) => (db, Invalid(es))
      case Ok(d) => (db.(movies := db.movies[m := UpdatedMovie(db.movies[m], d, now)]), Written(m))
  }

  /** A review create through the generic review endpoint: the validated
      write, then the unique_resena constraint on (movie, user). */
  function CreateReview(db: Db, input: ReviewInput, now: Timestamp): (r: (Db, WriteOutcome))
    ensures ValidateReviewWrite(db, input).Rejected? ==> r == (db, Invalid(ValidateReviewWrite(db, input).errors))
    ensures r.1 == Conflict <==>
      ValidateReviewWrite(db, input).Ok? &&
      ReviewsFor(db, ValidateReviewWrite(db, input).value.movie, ValidateReviewWrite(db, input).value.user) != {}
    ensures r.1.Written? <==>
      ValidateReviewWrite(db, input).Ok? &&
      ReviewsFor(db, ValidateReviewWrite(db, input).value.movie, ValidateReviewWrite(db, input).value.user) == {}
    ensures r.1.Written? ==> (
      var d := ValidateReviewWrite(db, input).value;
      r.1.id == db.nextId &&
      r.0 == db.(reviews := db.reviews[db.nextId := Review(d.movie, d.user, d.score, d.comment, now)],
                 nextId := db.nextId + 1))
    ensures !r.1.Written? ==> r.0 == db
  {
    match ValidateReviewWrite(db, input)
    case Rejected(es) => (db, Invalid(es))
    case Ok(d) =>
      if ReviewsFor(db, d.movie, d.user) != {} then (db, Conflict)
      else (db.(reviews := db.reviews[db.nextId := Review(d.movie, d.user, d.score, d.comment, now)],
                nextId := db.nextId + 1),
            Written(db.nextId))
  }

  /** A new user row, with an id drawn from the sequence. */
  function AddUser(db: Db): (r: (Db, Id))
    ensures r.1 == db.nextId
    ensures r.0 == db.(users := db.users + {db.nextId}, nextId := db.nextId + 1)
  {
    (db.(users := db.users + {db.nextId}, nextId := db.nextId + 1), db.nextId)
  }

  /** A profile insert: the user must exist (the foreign key, NotFound) and
      have no profile yet (the one-to-one link is a unique key, Conflict). */
  function AddProfile(db: Db, u: Id, avatar: string, birthDate: Option<Date>): (r: (Db, WriteOutcome))
    ensures u !in db.users ==> r == (db, NotFound)
    ensures u in db.users && (exists p :: p in db.profiles && db.profiles[p].user == u) ==> r == (db, Conflict)
    ensures r.1.Written? <==> u in db.users && forall p :: p in db.profiles ==> db.profiles[p].user != u
    ensures r.1.Written? ==> (
      r.1.id == db.nextId &&
      r.0 == db.(profiles := db.profiles[db.nextId := Profile(u, avatar, birthDate)], nextId := db.nextId + 1))
    ensures !r.1.Written? ==> r.0 == db
  {
    if u !in db.users then (db, NotFound)
    else if exists p :: p in db.profiles && db.profiles[p].user == u then (db, Conflict)
    else (db.(profiles := db.profiles[db.nextId := Profile(u, avatar, birthDate)], nextId := db.nextId + 1),
          Written(db.nextId))
  }

  /** A technical-sheet insert: the movie must exist (the foreign key,
      NotFound) and have no sheet yet (the one-to-one link is a unique key,
      Conflict). */
  function AddSheet(db: Db, m: Id, language: string, country: string, trailerUrl: string): (r: (Db, WriteOutcome))
    ensures m !in db.movies ==> r == (db, NotFound)
    ensures m in db.movies && (exists s :: s in db.sheets && db.sheets[s].movie == m) ==> r == (db, Conflict)
    ensures r.1.Written? <==> m in db.movies && forall s :: s in db.sheets ==> db.sheets[s].movie != m
    ensures r.1.Written? ==> (
      r.1.id == db.nextId &&
      r.0 == db.(sheets := db.sheets[db.nextId := TechSheet(m, language, country, trailerUrl)], nextId := db.nextId + 1))
    ensures !r.1.Written? ==> r.0 == db
  {
    if m !in db.movies then (db, NotFound)
    else if exists s :: s in db.sheets && db.sheets[s].movie == m then (db, Conflict)
    else (db.(sheets := db.sheets[db.nextId := TechSheet(m, language, country, trailerUrl)], nextId := db.nextId + 1),
          Written(db.nextId))
  }

  // ---------------------------------------------------------------------
  // Every write keeps the schema's integrity rules
  // ---------------------------------------------------------------------

  lemma CreateCategoryPreservesConsistent(db: Db, input: CategoryInput)
    requires Consistent(db)
    ensures Consistent(CreateCategory(db, input).0)
  {
  }

  lemma CreateTagPreservesConsistent(db: Db, input: TagInput)
    requires Consistent(db)
    ensures Consistent(CreateTag(db, input).0)
  {
  }

  lemma CreateMoviePreservesConsistent(db: Db, input: MovieInput, now: Timestamp)
    requires Consistent(db)
    ensures Consistent(CreateMovie(db, input, now).0)
  {
  }

  lemma UpdateMoviePreservesConsistent(db: Db, m: Id, input: MovieInput, partial: bool, now: Timestamp)
    requires Consistent(db)
    ensures Consistent(UpdateMovie(db, m, input, partial, now).0)
  {
  }

  lemma CreateReviewPreservesConsistent(db: Db, input: ReviewInput, now: Timestamp)
    requires Consistent(db)
    ensures Consistent(CreateReview(db, input, now).0)
  {
  }

  /** A review delete through the generic endpoint: 404 if absent; no other
      table refers to reviews, so nothing else changes. */
  function DeleteReview(db: Db, k: Id): (r: (Db, bool))
    ensures r.1 <==> k in db.reviews
    ensures r.0 == db.(reviews := db.reviews - {k})
  {
    (db.(reviews := db.reviews - {k}), k in db.reviews)
  }

  lemma DeleteReviewPreservesConsistent(db: Db, k: Id)
    requires Consistent(db)
    ensures Consistent(DeleteReview(db, k).0)
  {
  }

  lemma AddUserPreservesConsistent(db: Db)
    requires Consistent(db)
    ensures Consistent(AddUser(db).0)
  {
  }

  lemma AddProfilePreservesConsistent(db: Db, u: Id, avatar: string, birthDate: Option<Date>)
    requires Consistent(db)
    ensures Consistent(AddProfile(db, u, avatar, birthDate).0)
  {
  }

  lemma AddSheetPreservesConsistent(db: Db, m: Id, language: string, country: string, trailerUrl: string)
    requires Consistent(db)
    ensures Consistent(AddSheet(db, m, language, country, trailerUrl).0)
  {
  }
}
