/** The catalogue's tables and the integrity rules the current schema declares
    (movies, categories, tags, technical sheets, reviews, user profiles and the
    user table they hang off), with the deletes and their on-delete rules. */
module Catalog {

  /** Primary keys. Every table draws its keys from one increasing sequence. */
  type Id = int
  /** An opaque clock reading (the auto_now and auto_now_add columns). */
  type Timestamp = int
  /** A calendar date, as a day number. */
  type Date = int

  datatype Option<+T> = None | Some(value: T) {
    function GetOr(default: T): T {
      match this
      case Some(v) => v
      case None => default
    }
  }

  /** The score range of the review validators. */
  const MinScore: int := 0
  const MaxScore: int := 10

  datatype Category = Category(name: string, description: string)
  datatype Tag = Tag(name: string)
  /** A movie. The price is in cents (two decimal places); `category` is the
      nullable foreign key and `tags` the many-to-many link rows. The users
      who reviewed a movie are not stored here: they are the review table. */
  datatype Movie = Movie(
    title: string,
    description: string,
    category: Option<Id>,
    tags: set<Id>,
    price: int,
    releaseDate: Date,
    duration: int,
    active: bool,
    createdAt: Timestamp,
    updatedAt: Timestamp)
  datatype TechSheet = TechSheet(movie: Id, originalLanguage: string, country: string, trailerUrl: string)
  datatype Review = Review(movie: Id, user: Id, score: int, comment: string, createdAt: Timestamp)
  datatype Profile = Profile(user: Id, avatar: string, birthDate: Option<Date>)

  /** The whole store: one map per table, the set of existing user ids, and
      the next value of the id sequence. */
  datatype Db = Db(
    categories: map<Id, Category>,
    tags: map<Id, Tag>,
    movies: map<Id, Movie>,
    sheets: map<Id, TechSheet>,
    reviews: map<Id, Review>,
    profiles: map<Id, Profile>,
    users: set<Id>,
    nextId: Id)

  /** A store with no rows; database sequences start at 1. */
  const Empty: Db := Db(map[], map[], map[], map[], map[], map[], {}, 1)

  // ---------------------------------------------------------------------
  // Integrity rules
  // ---------------------------------------------------------------------

  /** Every key in every table, the user table included, was drawn from the
      sequence before `nextId`. */
  predicate KeysDrawn(db: Db) {
    && (forall k :: k in db.categories ==> k < db.nextId)
    && (forall k :: k in db.tags ==> k < db.nextId)
    && (forall k :: k in db.movies ==> k < db.nextId)
    && (forall k :: k in db.sheets ==> k < db.nextId)
    && (forall k :: k in db.reviews ==> k < db.nextId)
    && (forall k :: k in db.profiles ==> k < db.nextId)
    && (forall u :: u in db.users ==> u < db.nextId)
  }

  /** The category of a movie is null or an existing category, and every tag
      link points at an existing tag. */
  predicate MovieRefsExist(db: Db) {
    forall m :: m in db.movies ==>
      && (db.movies[m].category.Some? ==> db.movies[m].category.value in db.categories)
      && db.movies[m].tags <= db.tags.Keys
  }

  /** A review points at an existing movie and an existing user. */
  predicate ReviewRefsExist(db: Db) {
    forall r :: r in db.reviews ==> db.reviews[r].movie in db.movies && db.reviews[r].user in db.users
  }

  predicate ProfileRefsExist(db: Db) {
    forall p :: p in db.profiles ==> db.profiles[p].user in db.users
  }

  predicate SheetRefsExist(db: Db) {
    forall s :: s in db.sheets ==> db.sheets[s].movie in db.movies
  }

  /** The unique_resena constraint: no two reviews share (movie, user). */
  predicate UniqueReviews(db: Db) {
    forall r1, r2 :: r1 in db.reviews && r2 in db.reviews && r1 != r2 ==>
      db.reviews[r1].movie != db.reviews[r2].movie || db.reviews[r1].user != db.reviews[r2].user
  }

  /** The one-to-one link from profile to user. */
  predicate OneProfilePerUser(db: Db) {
    forall p1, p2 :: p1 in db.profiles && p2 in db.profiles && p1 != p2 ==>
      db.profiles[p1].user != db.profiles[p2].user
  }

  /** The one-to-one link from technical sheet to movie. */
  predicate OneSheetPerMovie(db: Db) {
    forall s1, s2 :: s1 in db.sheets && s2 in db.sheets && s1 != s2 ==>
      db.sheets[s1].movie != db.sheets[s2].movie
  }

  predicate UniqueCategoryNames(db: Db) {
    forall c1, c2 :: c1 in db.categories && c2 in db.categories && c1 != c2 ==>
      db.categories[c1].name != db.categories[c2].name
  }

  predicate UniqueTagNames(db: Db) {
    forall t1, t2 :: t1 in db.tags && t2 in db.tags && t1 != t2 ==>
      db.tags[t1].name != db.tags[t2].name
  }

  /** The minimum and maximum value validators on the review score. */
  predicate ScoresInRange(db: Db) {
    forall r :: r in db.reviews ==> MinScore <= db.reviews[r].score <= MaxScore
  }

  /** The minimum value validator on the price and the non-negative duration. */
  predicate MovieValuesInRange(db: Db) {
    forall m :: m in db.movies ==> db.movies[m].price >= 0 && db.movies[m].duration >= 0
  }

  /** The referential rules every schema version shares. */
  predicate RefsExist(db: Db) {
    MovieRefsExist(db) && ReviewRefsExist(db) && ProfileRefsExist(db)
  }

  /** Everything the current schema declares. */
  predicate Consistent(db: Db) {
    && KeysDrawn(db)
    && RefsExist(db)
    && SheetRefsExist(db)
    && UniqueReviews(db)
    && OneProfilePerUser(db)
    && OneSheetPerMovie(db)
    && UniqueCategoryNames(db)
    && UniqueTagNames(db)
    && ScoresInRange(db)
    && MovieValuesInRange(db)
  }

  lemma EmptyIsConsistent()
    ensures Consistent(Empty)
  {
  }

  // ---------------------------------------------------------------------
  // Reviews of one (movie, user) pair
  // ---------------------------------------------------------------------

  /** The ids of the reviews that `user` wrote about `movie`. */
  function ReviewsFor(db: Db, movie: Id, user: Id): (s: set<Id>)
    ensures s <= db.reviews.Keys
    ensures forall r :: r in s <==> r in db.reviews && db.reviews[r].movie == movie && db.reviews[r].user == user
  {
    set r | r in db.reviews && db.reviews[r].movie == movie && db.reviews[r].user == user
  }

  /** The uniqueness constraint holds exactly when every (movie, user) pair has
      at most one review. */
  lemma UniqueReviewsIffAtMostOne(db: Db)
    ensures UniqueReviews(db) <==> forall m, u :: |ReviewsFor(db, m, u)| <= 1
  {
    if UniqueReviews(db) {
      forall m, u ensures |ReviewsFor(db, m, u)| <= 1 {
        AtMostOneReview(db, m, u);
      }
    }
    if !UniqueReviews(db) {
      var r1, r2 :| r1 in db.reviews && r2 in db.reviews && r1 != r2 &&
        db.reviews[r1].movie == db.reviews[r2].movie && db.reviews[r1].user == db.reviews[r2].user;
      var s := ReviewsFor(db, db.reviews[r1].movie, db.reviews[r1].user);
      assert {r1, r2} <= s;
      assert |{r1, r2}| == 2;
      SubsetCard({r1, r2}, s);
    }
  }

  lemma AtMostOneReview(db: Db, m: Id, u: Id)
    requires UniqueReviews(db)
    ensures |ReviewsFor(db, m, u)| <= 1
  {
    var s := ReviewsFor(db, m, u);
    assert forall a, b :: a in s && b in s ==> a == b;
    SingletonCard(s);
  }

  lemma SingletonCard<T>(s: set<T>)
    requires forall a, b :: a in s && b in s ==> a == b
    ensures |s| <= 1
  {
    if s != {} {
      var a :| a in s;
      assert s == {a};
    }
  }

  /** Some element of a non-empty set. */
  lemma Pick<T>(s: set<T>) returns (x: T)
    requires s != {}
    ensures x in s
  {
    x :| x in s;
  }

  /** A position at which an element of a sequence occurs. */
  lemma IndexOf<T>(s: seq<T>, x: T) returns (i: int)
    requires x in s
    ensures 0 <= i < |s| && s[i] == x
  {
    i :| 0 <= i < |s| && s[i] == x;
  }

  lemma SubsetCard<T>(a: set<T>, b: set<T>)
    requires a <= b
    ensures |a| <= |b|
  {
    assert b == a + (b - a);
  }

  // ---------------------------------------------------------------------
  // Deletes and their on-delete rules
  // ---------------------------------------------------------------------

  /** The movie with its category reference cleared if it pointed at `c`. */
  function ClearCategory(mv: Movie, c: Id): (r: Movie)
    ensures r.category == if mv.category == Some(c) then None else mv.category
    ensures r == mv.(category := r.category)
  {
    if mv.category == Some(c) then mv.(category := None) else mv
  }

  /** Deleting a category (SET_NULL): every movie stays, those in the category
      lose their category and nothing else about any movie changes. The bulk
      update does not touch `updatedAt`. */
  function DeleteCategory(db: Db, c: Id): (r: Db)
    ensures r.categories == db.categories - {c}
    ensures r.movies.Keys == db.movies.Keys
    ensures forall m :: m in db.movies && db.movies[m].category == Some(c) ==>
      r.movies[m] == db.movies[m].(category := None)
    ensures forall m :: m in db.movies && db.movies[m].category != Some(c) ==>
      r.movies[m] == db.movies[m]
    ensures r == db.(categories := r.categories, movies := r.movies)
  {
    db.(categories := db.categories - {c},
        movies := map m | m in db.movies :: ClearCategory(db.movies[m], c))
  }

  /** Deleting a tag removes its link rows; movies otherwise stay as they were. */
  function DeleteTag(db: Db, t: Id): (r: Db)
    ensures r.tags == db.tags - {t}
    ensures r.movies.Keys == db.movies.Keys
    ensures forall m :: m in db.movies ==> r.movies[m] == db.movies[m].(tags := db.movies[m].tags - {t})
    ensures r == db.(tags := r.tags, movies := r.movies)
  {
    db.(tags := db.tags - {t},
        movies := map m | m in db.movies :: db.movies[m].(tags := db.movies[m].tags - {t}))
  }

  /** Deleting a movie (CASCADE): its reviews and its technical sheet go with
      it; every other row stays unchanged. */
  function DeleteMovie(db: Db, m: Id): (r: Db)
    ensures r.movies == db.movies - {m}
    ensures forall k :: k in r.reviews <==> k in db.reviews && db.reviews[k].movie != m
    ensures forall k :: k in r.reviews ==> r.reviews[k] == db.reviews[k]
    ensures forall k :: k in r.sheets <==> k in db.sheets && db.sheets[k].movie != m
    ensures forall k :: k in r.sheets ==> r.sheets[k] == db.sheets[k]
    ensures r == db.(movies := r.movies, reviews := r.reviews, sheets := r.sheets)
  {
    db.(movies := db.movies - {m},
        reviews := map k | k in db.reviews && db.reviews[k].movie != m :: db.reviews[k],
        sheets := map k | k in db.sheets && db.sheets[k].movie != m :: db.sheets[k])
  }

  /** Deleting a user (CASCADE): their reviews and their profile go with them;
      every other row stays unchanged. */
  function DeleteUser(db: Db, u: Id): (r: Db)
    ensures r.users == db.users - {u}
    ensures forall k :: k in r.reviews <==> k in db.reviews && db.reviews[k].user != u
    ensures forall k :: k in r.reviews ==> r.reviews[k] == db.reviews[k]
    ensures forall k :: k in r.profiles <==> k in db.profiles && db.profiles[k].user != u
    ensures forall k :: k in r.profiles ==> r.profiles[k] == db.profiles[k]
    ensures r == db.(users := r.users, reviews := r.reviews, profiles := r.profiles)
  {
    db.(users := db.users - {u},
        reviews := map k | k in db.reviews && db.reviews[k].user != u :: db.reviews[k],
        profiles := map k | k in db.profiles && db.profiles[k].user != u :: db.profiles[k])
  }

  lemma DeleteCategoryPreservesConsistent(db: Db, c: Id)
    requires Consistent(db)
    ensures Consistent(DeleteCategory(db, c))
  {
  }

  lemma DeleteTagPreservesConsistent(db: Db, t: Id)
    requires Consistent(db)
    ensures Consistent(DeleteTag(db, t))
  {
  }

  lemma DeleteMoviePreservesConsistent(db: Db, m: Id)
    requires Consistent(db)
    ensures Consistent(DeleteMovie(db, m))
  {
  }

  lemma DeleteUserPreservesConsistent(db: Db, u: Id)
    requires Consistent(db)
    ensures Consistent(DeleteUser(db, u))
  {
  }

  /** After a movie is deleted no review and no sheet mentions it. */
  lemma DeleteMovieLeavesNoOrphans(db: Db, m: Id)
    ensures forall k :: k in DeleteMovie(db, m).reviews ==> DeleteMovie(db, m).reviews[k].movie != m
    ensures forall k :: k in DeleteMovie(db, m).sheets ==> DeleteMovie(db, m).sheets[k].movie != m
    ensures forall u :: ReviewsFor(DeleteMovie(db, m), m, u) == {}
  {
  }

  /** After a user is deleted no review and no profile mentions them. */
  lemma DeleteUserLeavesNoOrphans(db: Db, u: Id)
    ensures forall k :: k in DeleteUser(db, u).reviews ==> DeleteUser(db, u).reviews[k].user != u
    ensures forall k :: k in DeleteUser(db, u).profiles ==> DeleteUser(db, u).profiles[k].user != u
    ensures forall m :: ReviewsFor(DeleteUser(db, u), m, u) == {}
  {
  }
}
