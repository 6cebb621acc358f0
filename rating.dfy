/** The rate action on a movie: a create-once insert into the review table,
    keyed by (movie, user). It answers Created with the new review's id (201)
    or Conflict (409) and never updates an existing review. */
module Rating {
  import opened Catalog

  /** The validated payload of a rate call; the comment may be left out. */
  datatype RateRequest = RateRequest(userId: Id, score: int, comment: Option<string>)

  /** The answers of a rate call: 201, 409, 404 for an unknown movie, 400 for
      a bad payload, and the foreign-key failure of an insert for a user id
      with no user row, which the action does not catch. */
  datatype RateOutcome =
    | Created(reviewId: Id)
    | Conflict
    | NotFound
    | Invalid
    | IntegrityError

  predicate ValidScore(score: int) {
    MinScore <= score <= MaxScore
  }

  /** The review a successful call stores. */
  function NewReview(movie: Id, req: RateRequest, now: Timestamp): (r: Review)
    ensures r.movie == movie && r.user == req.userId && r.score == req.score && r.createdAt == now
    ensures r.comment == (if req.comment.Some? then req.comment.value else "")
  {
    Review(movie, req.userId, req.score, req.comment.GetOr(""), now)
  }

  /** One rate call on `movie`, in the action's order: look the movie up,
      validate the payload, then get-or-create the review of the pair. */
  function Rate(db: Db, movie: Id, req: RateRequest, now: Timestamp): (r: (Db, RateOutcome))
    ensures r.1.Created? ==>
      movie in db.movies && ValidScore(req.score) && req.userId in db.users &&
      ReviewsFor(db, movie, req.userId) == {}
    ensures r.1.Created? ==> (
      r.1.reviewId == db.nextId &&
      r.0 == db.(reviews := db.reviews[db.nextId := NewReview(movie, req, now)], nextId := db.nextId + 1))
    ensures !r.1.Created? ==> r.0 == db
  {
    if movie !in db.movies then (db, NotFound)
    else if !ValidScore(req.score) then (db, Invalid)
    else if ReviewsFor(db, movie, req.userId) != {} then (db, Conflict)
    else if req.userId !in db.users then (db, IntegrityError)
    else
      (db.(reviews := db.reviews[db.nextId := NewReview(movie, req, now)], nextId := db.nextId + 1),
       Created(db.nextId))
  }

  // ---------------------------------------------------------------------
  // What one call does
  // ---------------------------------------------------------------------

  /** The outcome is exactly determined by the movie, the payload, the pair's
      existing review and the user table, in that order of precedence. */
  lemma RateOutcomeCases(db: Db, movie: Id, req: RateRequest, now: Timestamp)
    ensures Rate(db, movie, req, now).1 == NotFound <==> movie !in db.movies
    ensures Rate(db, movie, req, now).1 == Invalid <==> movie in db.movies && !ValidScore(req.score)
    ensures Rate(db, movie, req, now).1 == Conflict <==>
      movie in db.movies && ValidScore(req.score) && ReviewsFor(db, movie, req.userId) != {}
    ensures Rate(db, movie, req, now).1 == IntegrityError <==>
      movie in db.movies && ValidScore(req.score) && ReviewsFor(db, movie, req.userId) == {} &&
      req.userId !in db.users
    ensures Rate(db, movie, req, now).1.Created? <==>
      movie in db.movies && ValidScore(req.score) && ReviewsFor(db, movie, req.userId) == {} &&
      req.userId in db.users
  {
  }

  /** A first rating adds exactly one review, with the given score and comment
      (an omitted comment stored as empty), and reports that review's id. */
  lemma RateCreatesOneReview(db: Db, movie: Id, req: RateRequest, now: Timestamp)
    requires Consistent(db)
    requires movie in db.movies && ValidScore(req.score) && req.userId in db.users
    requires ReviewsFor(db, movie, req.userId) == {}
    ensures var (db', out) := Rate(db, movie, req, now);
      && out.Created?
      && out.reviewId !in db.reviews
      && db'.reviews == db.reviews[out.reviewId := NewReview(movie, req, now)]
      && |db'.reviews| == |db.reviews| + 1
      && ReviewsFor(db', movie, req.userId) == {out.reviewId}
      && db'.reviews[out.reviewId].score == req.score
      && db'.reviews[out.reviewId].comment == req.comment.GetOr("")
  {
  }

  /** A second rating of the pair is a conflict that changes nothing, so the
      stored score and comment stay those of the first. */
  lemma RateTwiceConflicts(db: Db, movie: Id, req: RateRequest, now: Timestamp)
    requires movie in db.movies && ValidScore(req.score)
    requires ReviewsFor(db, movie, req.userId) != {}
    ensures Rate(db, movie, req, now) == (db, Conflict)
  {
  }

  /** Whatever the outcome, every review that existed stays and keeps its
      contents, and no table but the review table changes. */
  lemma RateFrame(db: Db, movie: Id, req: RateRequest, now: Timestamp)
    requires Consistent(db)
    ensures var db' := Rate(db, movie, req, now).0;
      && (forall r :: r in db.reviews ==> r in db'.reviews && db'.reviews[r] == db.reviews[r])
      && db'.categories == db.categories && db'.tags == db.tags && db'.movies == db.movies
      && db'.sheets == db.sheets && db'.profiles == db.profiles && db'.users == db.users
  {
  }

  /** Every outcome other than Created leaves the whole store as it was. */
  lemma RateFailureStoresNothing(db: Db, movie: Id, req: RateRequest, now: Timestamp)
    ensures !Rate(db, movie, req, now).1.Created? ==> Rate(db, movie, req, now).0 == db
  {
  }

  lemma RatePreservesConsistent(db: Db, movie: Id, req: RateRequest, now: Timestamp)
    requires Consistent(db)
    ensures Consistent(Rate(db, movie, req, now).0)
  {
  }

  // ---------------------------------------------------------------------
  // Any sequence of calls
  // ---------------------------------------------------------------------

  datatype RateCall = RateCall(movie: Id, req: RateRequest, now: Timestamp)

  /** The store after the calls have run one after the other. */
  function RateAll(db: Db, calls: seq<RateCall>): Db
    decreases |calls|
  {
    if calls == [] then db
    else RateAll(Rate(db, calls[0].movie, calls[0].req, calls[0].now).0, calls[1..])
  }

  /** After any sequence of rate calls on a consistent store, the store is
      still consistent, so every (movie, user) pair has at most one review. */
  lemma {:induction false} RateAllKeepsOneReviewPerPair(db: Db, calls: seq<RateCall>)
    requires Consistent(db)
    ensures Consistent(RateAll(db, calls))
    ensures forall m, u :: |ReviewsFor(RateAll(db, calls), m, u)| <= 1
    decreases |calls|
  {
    if calls != [] {
      RatePreservesConsistent(db, calls[0].movie, calls[0].req, calls[0].now);
      RateAllKeepsOneReviewPerPair(Rate(db, calls[0].movie, calls[0].req, calls[0].now).0, calls[1..]);
    } else {
      UniqueReviewsIffAtMostOne(db);
    }
  }

  /** A rating's review survives every later rate call unchanged. */
  lemma {:induction false} RateAllKeepsExistingReviews(db: Db, calls: seq<RateCall>)
    requires Consistent(db)
    ensures forall r :: r in db.reviews ==> r in RateAll(db, calls).reviews && RateAll(db, calls).reviews[r] == db.reviews[r]
    decreases |calls|
  {
    if calls != [] {
      var next := Rate(db, calls[0].movie, calls[0].req, calls[0].now).0;
      RateFrame(db, calls[0].movie, calls[0].req, calls[0].now);
      RatePreservesConsistent(db, calls[0].movie, calls[0].req, calls[0].now);
      RateAllKeepsExistingReviews(next, calls[1..]);
    }
  }

  /** The two-call scenario: a user rates a movie 8 with "great", then again
      3 with "eh"; the first is created, the second conflicts, and the stored
      review still has score 8 and comment "great". */
  lemma RateScenario(db: Db, movie: Id, user: Id, t1: Timestamp, t2: Timestamp)
    requires Consistent(db) && movie in db.movies && user in db.users
    requires ReviewsFor(db, movie, user) == {}
    ensures var (db1, out1) := Rate(db, movie, RateRequest(user, 8, Some("great")), t1);
            var (db2, out2) := Rate(db1, movie, RateRequest(user, 3, Some("eh")), t2);
      && out1.Created? && out2 == Conflict && db2 == db1
      && ReviewsFor(db2, movie, user) == {out1.reviewId}
      && db2.reviews[out1.reviewId].score == 8 && db2.reviews[out1.reviewId].comment == "great"
  {
    var req1 := RateRequest(user, 8, Some("great"));
    RateCreatesOneReview(db, movie, req1, t1);
    var (db1, out1) := Rate(db, movie, req1, t1);
    assert out1.reviewId in ReviewsFor(db1, movie, user);
  }
}
