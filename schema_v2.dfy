/** The earlier schema version: the same on-delete rules, but only
    the review uniqueness constraint, unique category names and the one-to-one
    profile link. It has no range validators, no unique tag names and no
    technical-sheet table (the sheet table is not constrained here). */
module SchemaV2 {
  import opened Catalog

  predicate ConsistentV2(db: Db) {
    && KeysDrawn(db)
    && RefsExist(db)
    && UniqueReviews(db)
    && OneProfilePerUser(db)
    && UniqueCategoryNames(db)
  }

  /** Every store the current schema accepts, the earlier one accepts too. */
  lemma ConsistentIsConsistentV2(db: Db)
    requires Consistent(db)
    ensures ConsistentV2(db)
  {
  }

  /** A store with one movie and one review on it, holding the given values. */
  function OneReviewStore(price: int, duration: int, score: int): (db: Db)
    ensures |db.movies| == 1 && |db.reviews| == 1
    ensures forall m :: m in db.movies ==> db.movies[m].price == price && db.movies[m].duration == duration
    ensures forall r :: r in db.reviews ==> db.reviews[r].score == score
  {
    Db(map[], map[],
       map[1 := Movie("", "", None, {}, price, 0, duration, true, 0, 0)],
       map[],
       map[2 := Review(1, 3, score, "", 0)],
       map[], {3}, 4)
  }

  /** The earlier schema stores any score, price and duration as given; the
      current one refuses exactly the out-of-range ones. */
  lemma V2StoresAnyValue(price: int, duration: int, score: int)
    ensures ConsistentV2(OneReviewStore(price, duration, score))
    ensures Consistent(OneReviewStore(price, duration, score)) <==>
      price >= 0 && duration >= 0 && MinScore <= score <= MaxScore
  {
  }

  /** Two tags with one name: allowed by the earlier schema, not by the current one. */
  lemma V2AllowsDuplicateTagNames(name: string)
    ensures ConsistentV2(Empty.(tags := map[1 := Tag(name), 2 := Tag(name)], nextId := 3))
    ensures !Consistent(Empty.(tags := map[1 := Tag(name), 2 := Tag(name)], nextId := 3))
  {
    var db := Empty.(tags := map[1 := Tag(name), 2 := Tag(name)], nextId := 3);
    assert db.tags[1].name == db.tags[2].name;
  }

  // The on-delete rules are the same in both versions, so the deletes keep
  // the earlier invariant as well.

  lemma DeleteCategoryPreservesConsistentV2(db: Db, c: Id)
    requires ConsistentV2(db)
    ensures ConsistentV2(DeleteCategory(db, c))
  {
  }

  lemma DeleteTagPreservesConsistentV2(db: Db, t: Id)
    requires ConsistentV2(db)
    ensures ConsistentV2(DeleteTag(db, t))
  {
  }

  lemma DeleteMoviePreservesConsistentV2(db: Db, m: Id)
    requires ConsistentV2(db)
    ensures ConsistentV2(DeleteMovie(db, m))
  {
  }

  lemma DeleteUserPreservesConsistentV2(db: Db, u: Id)
    requires ConsistentV2(db)
    ensures ConsistentV2(DeleteUser(db, u))
  {
  }
}
