/** The catalogue store as the API sees it: one object whose tables the
    endpoints update in place. Each modelled endpoint is a method proved against the
    matching transition on values, and every method keeps the integrity rules
    of the current schema. */
module Streaming {
  import opened Catalog
  import opened Serializers
  import opened Crud
  import opened Rating

  // ---------------------------------------------------------------------
  // Every call, on values
  // ---------------------------------------------------------------------

  /** A modelled call: the rate action, the creates, the movie update and the
      deletes of the generic endpoints, the cascading user delete, and the
      user, profile and sheet inserts. */
  datatype Op =
    | RateOp(movie: Id, req: RateRequest)
    | CategoryCreate(category: CategoryInput)
    | CategoryDelete(categoryId: Id)
    | TagCreate(tag: TagInput)
    | TagDelete(tagId: Id)
    | MovieCreate(movieInput: MovieInput)
    | MovieUpdate(movieId: Id, update: MovieInput, partial: bool)
    | MovieDelete(deletedMovie: Id)
    | ReviewCreate(review: ReviewInput)
    | ReviewDelete(reviewId: Id)
    | UserCreate
    | UserDelete(userId: Id)
    | ProfileCreate(owner: Id, avatar: string, birthDate: Option<Date>)
    | SheetCreate(sheetMovie: Id, language: string, country: string, trailerUrl: string)

  /** The store after one call at clock reading `now`. A delete of a row that
      is absent answers 404 and changes nothing. */
  function Step(db: Db, op: Op, now: Timestamp): Db {
    match op
    case RateOp(m, req) => Rating.Rate(db, m, req, now).0
    case CategoryCreate(input) => Crud.CreateCategory(db, input).0
    case CategoryDelete(c) => if c in db.categories then Catalog.DeleteCategory(db, c) else db
    case TagCreate(input) => Crud.CreateTag(db, input).0
    case TagDelete(t) => if t in db.tags then Catalog.DeleteTag(db, t) else db
    case MovieCreate(input) => Crud.CreateMovie(db, input, now).0
    case MovieUpdate(m, input, partial) => Crud.UpdateMovie(db, m, input, partial, now).0
    case MovieDelete(m) => if m in db.movies then Catalog.DeleteMovie(db, m) else db
    case ReviewCreate(input) => Crud.CreateReview(db, input, now).0
    case ReviewDelete(k) => Crud.DeleteReview(db, k).0
    case UserCreate => Crud.AddUser(db).0
    case UserDelete(u) => if u in db.users then Catalog.DeleteUser(db, u) else db
    case ProfileCreate(u, avatar, birth) => Crud.AddProfile(db, u, avatar, birth).0
    case SheetCreate(m, lang, country, url) => Crud.AddSheet(db, m, lang, country, url).0
  }

  lemma StepPreservesConsistent(db: Db, op: Op, now: Timestamp)
    requires Consistent(db)
    ensures Consistent(Step(db, op, now))
  {
    match op
    case RateOp(m, req) => RatePreservesConsistent(db, m, req, now);
    case CategoryCreate(input) => CreateCategoryPreservesConsistent(db, input);
    case CategoryDelete(c) => DeleteCategoryPreservesConsistent(db, c);
    case TagCreate(input) => CreateTagPreservesConsistent(db, input);
    case TagDelete(t) => DeleteTagPreservesConsistent(db, t);
    case MovieCreate(input) => CreateMoviePreservesConsistent(db, input, now);
    case MovieUpdate(m, input, partial) => UpdateMoviePreservesConsistent(db, m, input, partial, now);
    case MovieDelete(m) => DeleteMoviePreservesConsistent(db, m);
    case ReviewCreate(input) => CreateReviewPreservesConsistent(db, input, now);
    case ReviewDelete(k) => DeleteReviewPreservesConsistent(db, k);
    case UserCreate => AddUserPreservesConsistent(db);
    case UserDelete(u) => DeleteUserPreservesConsistent(db, u);
    case ProfileCreate(u, avatar, birth) => AddProfilePreservesConsistent(db, u, avatar, birth);
    case SheetCreate(m, lang, country, url) => AddSheetPreservesConsistent(db, m, lang, country, url);
  }

  datatype Call = Call(op: Op, now: Timestamp)

  /** The store after the calls have run one after the other. */
  function Run(db: Db, calls: seq<Call>): Db
    decreases |calls|
  {
    if calls == [] then db else Run(Step(db, calls[0].op, calls[0].now), calls[1..])
  }

  /** Any sequence of modelled calls, rate calls mixed with the other
      modelled writes, leaves a consistent store consistent; in particular
      each (movie, user) pair has at most one review. */
  lemma {:induction false} RunKeepsConsistent(db: Db, calls: seq<Call>)
    requires Consistent(db)
    ensures Consistent(Run(db, calls))
    ensures forall m, u :: |ReviewsFor(Run(db, calls), m, u)| <= 1
    decreases |calls|
  {
    if calls == [] {
      UniqueReviewsIffAtMostOne(db);
    } else {
      StepPreservesConsistent(db, calls[0].op, calls[0].now);
      RunKeepsConsistent(Step(db, calls[0].op, calls[0].now), calls[1..]);
    }
  }

  lemma RunFromEmpty(calls: seq<Call>)
    ensures Consistent(Run(Empty, calls))
    ensures forall m, u :: |ReviewsFor(Run(Empty, calls), m, u)| <= 1
  {
    EmptyIsConsistent();
    RunKeepsConsistent(Empty, calls);
  }

  // ---------------------------------------------------------------------
  // The store object
  // ---------------------------------------------------------------------

  class Store {
    var categories: map<Id, Category>
    var tags: map<Id, Tag>
    var movies: map<Id, Movie>
    var sheets: map<Id, TechSheet>
    var reviews: map<Id, Review>
    var profiles: map<Id, Profile>
    var users: set<Id>
    var nextId: Id

    /** The tables as one value. */
    function State(): Db
      reads this
    {
      Db(categories, tags, movies, sheets, reviews, profiles, users, nextId)
    }

    predicate Valid()
      reads this
    {
      Consistent(State())
    }

    constructor ()
      ensures State() == Empty
      ensures Valid()
    {
      categories, tags, movies, sheets := map[], map[], map[], map[];
      reviews, profiles, users, nextId := map[], map[], {}, 1;
      EmptyIsConsistent();
    }

    /** The rate action: look the movie up, check the payload, then
        get-or-create the review of the (movie, user) pair. */
    method Rate(movie: Id, req: RateRequest, now: Timestamp) returns (out: RateOutcome)
      requires Valid()
      modifies this
      ensures Valid()
      ensures (State(), out) == Rating.Rate(old(State()), movie, req, now)
    {
      ghost var before := State();
      RatePreservesConsistent(before, movie, req, now);
      if movie !in movies {
        return RateOutcome.NotFound;
      }
      if !ValidScore(req.score) {
        return RateOutcome.Invalid;
      }
      var found := exists r :: r in reviews && reviews[r].movie == movie && reviews[r].user == req.userId;
      if found {
        assert ReviewsFor(before, movie, req.userId) != {} by {
          var r :| r in reviews && reviews[r].movie == movie && reviews[r].user == req.userId;
          assert r in ReviewsFor(before, movie, req.userId);
        }
        return RateOutcome.Conflict;
      }
      assert forall r :: r !in ReviewsFor(before, movie, req.userId);
      if req.userId !in users {
        return IntegrityError;
      }
      var id := nextId;
      reviews := reviews[id := NewReview(movie, req, now)];
      nextId := nextId + 1;
      out := Created(id);
    }

    method CreateCategory(input: CategoryInput) returns (out: WriteOutcome)
      requires Valid()
      modifies this
      ensures Valid()
      ensures (State(), out) == Crud.CreateCategory(old(State()), input)
    {
      CreateCategoryPreservesConsistent(State(), input);
      var checked := ValidateCategoryWrite(State(), input);
      match checked
      case Rejected(es) =>
        out := WriteOutcome.Invalid(es);
      case Ok(c) =>
        categories := categories[nextId := c];
        out := Written(nextId);
        nextId := nextId + 1;
    }

    method CreateTag(input: TagInput) returns (out: WriteOutcome)
      requires Valid()
      modifies this
      ensures Valid()
      ensures (State(), out) == Crud.CreateTag(old(State()), input)
    {
      CreateTagPreservesConsistent(State(), input);
      var checked := ValidateTagWrite(State(), input);
      match checked
      case Rejected(es) =>
        out := WriteOutcome.Invalid(es);
      case Ok(t) =>
        tags := tags[nextId := t];
        out := Written(nextId);
        nextId := nextId + 1;
    }

    method CreateMovie(input: MovieInput, now: Timestamp) returns (out: WriteOutcome)
      requires Valid()
      modifies this
      ensures Valid()
      ensures (State(), out) == Crud.CreateMovie(old(State()), input, now)
    {
      CreateMoviePreservesConsistent(State(), input, now);
      var checked := ValidateMovieWrite(State(), input, false);
      match checked
      case Rejected(es) =>
        out := WriteOutcome.Invalid(es);
      case Ok(d) =>
        movies := movies[nextId := NewMovie(d, now)];
        out := Written(nextId);
        nextId := nextId + 1;
    }

    method UpdateMovie(m: Id, input: MovieInput, partial: bool, now: Timestamp) returns (out: WriteOutcome)
      requires Valid()
      modifies this
      ensures Valid()
      ensures (State(), out) == Crud.UpdateMovie(old(State()), m, input, partial, now)
    {
      UpdateMoviePreservesConsistent(State(), m, input, partial, now);
      if m !in movies {
        return WriteOutcome.NotFound;
      }
      var checked := ValidateMovieWrite(State(), input, partial);
      match checked
      case Rejected(es) =>
        out := WriteOutcome.Invalid(es);
      case Ok(d) =>
        movies := movies[m := UpdatedMovie(movies[m], d, now)];
        out := Written(m);
    }

    method CreateReview(input: ReviewInput, now: Timestamp) returns (out: WriteOutcome)
      requires Valid()
      modifies this
      ensures Valid()
      ensures (State(), out) == Crud.CreateReview(old(State()), input, now)
    {
      CreateReviewPreservesConsistent(State(), input, now);
      var checked := ValidateReviewWrite(State(), input);
      match checked
      case Rejected(es) =>
        out := WriteOutcome.Invalid(es);
      case Ok(d) =>
        if ReviewsFor(State(), d.movie, d.user) != {} {
          out := WriteOutcome.Conflict;
        } else {
          reviews := reviews[nextId := Review(d.movie, d.user, d.score, d.comment, now)];
          out := Written(nextId);
          nextId := nextId + 1;
        }
    }

    method DeleteReview(k: Id) returns (found: bool)
      requires Valid()
      modifies this
      ensures Valid()
      ensures (State(), found) == Crud.DeleteReview(old(State()), k)
    {
      DeleteReviewPreservesConsistent(State(), k);
      found := k in reviews;
      reviews := reviews - {k};
    }

    /** Deleting a category: 404 if absent, otherwise the SET_NULL update of
        its movies and the removal of the row. */
    method DeleteCategory(c: Id) returns (found: bool)
      requires Valid()
      modifies this
      ensures Valid()
      ensures found <==> c in old(categories)
      ensures State() == if found then Catalog.DeleteCategory(old(State()), c) else old(State())
    {
      DeleteCategoryPreservesConsistent(State(), c);
      found := c in categories;
      if found {
        movies := map m | m in movies :: ClearCategory(movies[m], c);
        categories := categories - {c};
      }
    }

    method DeleteTag(t: Id) returns (found: bool)
      requires Valid()
      modifies this
      ensures Valid()
      ensures found <==> t in old(tags)
      ensures State() == if found then Catalog.DeleteTag(old(State()), t) else old(State())
    {
      DeleteTagPreservesConsistent(State(), t);
      found := t in tags;
      if found {
        movies := map m | m in movies :: movies[m].(tags := movies[m].tags - {t});
        tags := tags - {t};
      }
    }

    /** Deleting a movie: 404 if absent, otherwise the cascade to its reviews
        and its technical sheet, then the removal of the row. */
    method DeleteMovie(m: Id) returns (found: bool)
      requires Valid()
      modifies this
      ensures Valid()
      ensures found <==> m in old(movies)
      ensures State() == if found then Catalog.DeleteMovie(old(State()), m) else old(State())
    {
      DeleteMoviePreservesConsistent(State(), m);
      found := m in movies;
      if found {
        reviews := map k | k in reviews && reviews[k].movie != m :: reviews[k];
        sheets := map k | k in sheets && sheets[k].movie != m :: sheets[k];
        movies := movies - {m};
      }
    }

    /** Deleting a user: 404 if absent, otherwise the cascade to their
        reviews and their profile, then the removal of the row. */
    method DeleteUser(u: Id) returns (found: bool)
      requires Valid()
      modifies this
      ensures Valid()
      ensures found <==> u in old(users)
      ensures State() == if found then Catalog.DeleteUser(old(State()), u) else old(State())
    {
      DeleteUserPreservesConsistent(State(), u);
      found := u in users;
      if found {
        reviews := map k | k in reviews && reviews[k].user != u :: reviews[k];
        profiles := map k | k in profiles && profiles[k].user != u :: profiles[k];
        users := users - {u};
      }
    }

    method AddUser() returns (id: Id)
      requires Valid()
      modifies this
      ensures Valid()
      ensures (State(), id) == Crud.AddUser(old(State()))
    {
      AddUserPreservesConsistent(State());
      id := nextId;
      users := users + {id};
      nextId := nextId + 1;
    }

    method AddProfile(u: Id, avatar: string, birthDate: Option<Date>) returns (out: WriteOutcome)
      requires Valid()
      modifies this
      ensures Valid()
      ensures (State(), out) == Crud.AddProfile(old(State()), u, avatar, birthDate)
    {
      AddProfilePreservesConsistent(State(), u, avatar, birthDate);
      if u !in users {
        return WriteOutcome.NotFound;
      }
      if exists p :: p in profiles && profiles[p].user == u {
        return WriteOutcome.Conflict;
      }
      profiles := profiles[nextId := Profile(u, avatar, birthDate)];
      out := Written(nextId);
      nextId := nextId + 1;
    }

    method AddSheet(m: Id, language: string, country: string, trailerUrl: string) returns (out: WriteOutcome)
      requires Valid()
      modifies this
      ensures Valid()
      ensures (State(), out) == Crud.AddSheet(old(State()), m, language, country, trailerUrl)
    {
      AddSheetPreservesConsistent(State(), m, language, country, trailerUrl);
      if m !in movies {
        return WriteOutcome.NotFound;
      }
      if exists s :: s in sheets && sheets[s].movie == m {
        return WriteOutcome.Conflict;
      }
      sheets := sheets[nextId := TechSheet(m, language, country, trailerUrl)];
      out := Written(nextId);
      nextId := nextId + 1;
    }
  }
}
