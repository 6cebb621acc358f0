# Movie catalogue store with a create-once rating action

This project is a Dafny model of the core of a Django REST Framework movie catalogue. The catalogue has these tables:

- movies (`Pelicula`), categories (`Categoria`) and tags (`Etiqueta`);
- technical sheets (`FichaTecnica`);
- reviews (`Resena`), the through table between movies and users;
- user profiles (`Perfil`), and the user table they hang off.

The model is a sequential, in-memory store. It covers:

- **Integrity rules** of the current schema (`Catalog.Consistent`):
  - at most one review per (movie, user);
  - scores in 0..10;
  - non-negative price and duration;
  - unique category names and unique tag names;
  - one profile per user and one sheet per movie;
  - every foreign key points at an existing row.
- **On-delete rules:**
  - deleting a category sets its movies' category to null (SET_NULL);
  - deleting a movie cascades to its reviews and its sheet;
  - deleting a user cascades to their reviews and their profile.
- **The earlier schema** (`SchemaV2`): the same on-delete rules with fewer constraints. The earlier schema has no technical-sheet table, so its rules say nothing about sheets.
- **The movie, category, tag and review write validators**: read-only fields, optional and nullable relations, and the price check.
- **The movie list query**: the duration/category filter set, the title/description search and the ordering allow-list with its default.
- **The `valorar` rate action**: an insert-if-absent on the review table keyed by (movie, user). It answers 201 with the new review's id or 409 on a duplicate, and it never updates an existing review.

The operations come in two layers:

- **Value layer.** Each operation is a function on a `Catalog.Db` value, in the modules `Catalog`, `Crud`, `Rating` and `Filters`. The `Crud` and `Rating` writes return the new value and an outcome. The `Catalog` deletes return only the new value; whether the row existed is checked by the caller. `Filters.ListMovies` only reads the store and returns the list answer.
- **Object layer.** The class `Streaming.Store` holds the tables as fields and updates them in place. Each of its methods keeps `Valid()` (the integrity rules). Each method's new state and answer are exactly those of the matching value-layer operation.
- **The link between layers.** `Streaming.RunKeepsConsistent` shows that any sequence of modelled calls keeps every integrity rule. Those calls can be rate calls mixed with every other modelled write (the `Streaming.Op` cases). After such a sequence, each (movie, user) pair still has at most one review.

Conventions:

- Ids come from one increasing sequence shared by all tables (`nextId`).
- Prices are whole cents.
- Dates and clock readings are plain integers, passed in as parameters.

### Order of checks and unknown users

- **Order of checks in `valorar`.** The action looks the movie up first (`get_object`, 404) and validates the payload after that (400). So an unknown movie with a bad payload answers 404.
- **Unknown user.** The action does not check that the user id exists. `get_or_create` then inserts a row whose foreign key fails, and the action does not catch that error. The model gives this case its own outcome, `IntegrityError`, which stores nothing.

## Model

| member | source | states |
|---|---|---|
| Catalog.Consistent | SEMANA4/streaming/models.py:6-146 | the current schema's integrity rules: unique category and tag names, references to existing rows (the category may be null), one sheet per movie, one profile per user, unique (movie, user) reviews, scores in 0..10, non-negative price and duration, all keys drawn from the id sequence |
| Catalog.UniqueReviewsIffAtMostOne | SEMANA4/streaming/models.py:130-133 | the unique_resena constraint holds exactly when every (movie, user) pair has at most one review, in both directions |
| Catalog.DeleteCategory | SEMANA4/streaming/models.py:44-51 | deleting a category removes only that category; every movie stays; movies in it get a null category and otherwise keep every field; movies outside it are unchanged; no other table changes |
| Catalog.DeleteTag | SEMANA4/streaming/models.py:54-59 | deleting a tag removes the tag and its link rows; every movie stays with only that tag dropped; no other table changes |
| Catalog.DeleteMovie | SEMANA4/streaming/models.py:94-116 | deleting a movie removes that movie, exactly its reviews and exactly its sheet; every other review and sheet stays unchanged; no other table changes |
| Catalog.DeleteUser | SEMANA4/streaming/models.py:117-146 | deleting a user removes that user, exactly their reviews and exactly their profile; every other row stays unchanged |
| Catalog.DeleteCategoryPreservesConsistent | SEMANA4/streaming/models.py:44-51 | the SET_NULL delete keeps every integrity rule of the schema |
| Catalog.DeleteTagPreservesConsistent | SEMANA4/streaming/models.py:54-59 | the tag delete keeps every integrity rule |
| Catalog.DeleteMoviePreservesConsistent | SEMANA4/streaming/models.py:94-116 | the cascading movie delete keeps every integrity rule (no dangling review or sheet) |
| Catalog.DeleteUserPreservesConsistent | SEMANA4/streaming/models.py:117-146 | the cascading user delete keeps every integrity rule (no dangling review or profile) |
| Catalog.DeleteMovieLeavesNoOrphans | SEMANA4/streaming/models.py:94-116 | after a movie delete no review and no sheet names the movie |
| Catalog.DeleteUserLeavesNoOrphans | SEMANA4/streaming/models.py:117-146 | after a user delete no review and no profile names the user |
| SchemaV2.ConsistentV2 | SEMANA2/streaming/models.py:6-91 | the earlier schema's rules: unique category names, the one-to-one profile link, unique (movie, user) reviews and references to existing rows; no value ranges and no unique tag names |
| SchemaV2.ConsistentIsConsistentV2 | SEMANA2/streaming/models.py:6-91 | every store the current schema accepts, the earlier schema accepts too |
| SchemaV2.V2StoresAnyValue | SEMANA2/streaming/models.py:55-81 | the earlier schema accepts any price, duration and score; the current schema accepts exactly the in-range ones |
| SchemaV2.V2AllowsDuplicateTagNames | SEMANA2/streaming/models.py:19-21 | two tags with the same name satisfy the earlier schema but not the current one |
| SchemaV2.DeleteCategoryPreservesConsistentV2 | SEMANA2/streaming/models.py:43-49 | the SET_NULL category delete keeps the earlier schema's rules |
| SchemaV2.DeleteTagPreservesConsistentV2 | SEMANA2/streaming/models.py:51 | the tag delete keeps the earlier schema's rules |
| SchemaV2.DeleteMoviePreservesConsistentV2 | SEMANA2/streaming/models.py:77 | the cascading movie delete keeps the earlier schema's rules |
| SchemaV2.DeleteUserPreservesConsistentV2 | SEMANA2/streaming/models.py:26-79 | the cascading user delete keeps the earlier schema's rules |
| Serializers.ValidatePrice | SEMANA3/streaming/serializers.py:137-140 | the price is accepted exactly when it is non-negative; it then passes through unchanged; otherwise the one error is the negative-price error |
| Serializers.CategoryRefErrors | SEMANA3/streaming/serializers.py:80-84 | the category may be omitted or null; a given id is accepted exactly when it names an existing category |
| Serializers.FirstUnknownTag | SEMANA3/streaming/serializers.py:92-96 | reports no id exactly when every id names an existing tag; otherwise reports the first id in the list that does not |
| Serializers.TagRefErrors | SEMANA3/streaming/serializers.py:92-96 | the tags may be omitted; a given list is accepted exactly when every id names an existing tag |
| Serializers.MissingMovieFields | SEMANA3/streaming/serializers.py:110-135 | a full write must give title, description, release date and duration; a partial write need give none |
| Serializers.PriceErrors | SEMANA3/streaming/serializers.py:137-140 | an omitted price is accepted; a given one exactly when non-negative |
| Serializers.DurationErrors | SEMANA4/streaming/models.py:78 | an omitted duration is accepted; a given one exactly when non-negative |
| Serializers.ValidateMovieWrite | SEMANA3/streaming/serializers.py:74-140 | a movie write is accepted exactly when no required field is missing, the price and duration are non-negative, and the category and tags exist; a negative price is among the reported errors; the accepted data carries the writable fields as given |
| Serializers.MovieReadOnlyFieldsIgnored | SEMANA3/streaming/serializers.py:135 | id, created_at, updated_at and usuarios in the input do not affect the outcome of a movie write |
| Serializers.NewMovie | SEMANA4/streaming/models.py:70-82 | a created movie has the given fields; omitted optional fields get their defaults (price 0, active, no category, no tags); both timestamps are the creation time |
| Serializers.UpdatedMovie | SEMANA4/streaming/models.py:81-82 | an update replaces the given fields and keeps the others; created_at is kept and updated_at becomes the update time |
| Serializers.ValidateCategoryWrite | SEMANA3/streaming/serializers.py:16-20 | a category write is accepted exactly when a name is given and no category has it; an omitted description is empty |
| Serializers.ValidateTagWrite | SEMANA3/streaming/serializers.py:23-27 | a tag write is accepted exactly when a name is given and no tag has it |
| Serializers.CategoryIdIgnored | SEMANA3/streaming/serializers.py:20 | an id in a category write does not affect its outcome |
| Serializers.TagIdIgnored | SEMANA3/streaming/serializers.py:27 | an id in a tag write does not affect its outcome |
| Serializers.MovieRefErrors | SEMANA3/streaming/serializers.py:46-63 | a review write's movie must be given and must exist |
| Serializers.UserRefErrors | SEMANA3/streaming/serializers.py:46-63 | a review write's user must be given and must exist |
| Serializers.ScoreErrors | SEMANA4/streaming/models.py:123-126 | a review score must be given and must lie in 0..10 |
| Serializers.ValidateReviewWrite | SEMANA3/streaming/serializers.py:46-63 | a review write is accepted exactly when its movie and user exist and its score is in range; an omitted comment is empty |
| Serializers.ReviewReadOnlyFieldsIgnored | SEMANA3/streaming/serializers.py:63 | id, fecha_resena and pelicula_titulo in the input do not affect the outcome of a review write |
| Crud.CreateCategory | SEMANA4/streaming/views.py:61-63 | a category create stores exactly the validated row under a fresh id when the write is valid; otherwise it answers the field errors and changes nothing |
| Crud.CreateTag | SEMANA4/streaming/views.py:65-67 | a tag create stores exactly the validated row under a fresh id when valid; otherwise it answers the errors and changes nothing |
| Crud.CreateMovie | SEMANA4/streaming/views.py:15-17 | a movie create (a full write) stores exactly the new movie under a fresh id when valid; otherwise it answers the errors and changes nothing |
| Crud.UpdateMovie | SEMANA4/streaming/views.py:15-17 | a movie update answers 404 for an absent movie; on an existing movie it succeeds exactly when the write is valid, and then changes only that movie's row; an invalid write answers the field errors and changes nothing |
| Crud.CreateReview | SEMANA4/streaming/views.py:69-71 | a review create answers the field errors when invalid, and Conflict (the unique-together 400 or the unique key's IntegrityError) exactly when the write is valid and the pair already has a review; it succeeds exactly when the write is valid and the pair has no review, and then stores exactly the new review under a fresh id |
| Crud.DeleteReview | SEMANA4/streaming/views.py:69-71 | a review delete reports whether the review existed and removes only it |
| Crud.AddUser | SEMANA4/streaming/models.py:117-122 | a new user gets the next fresh id; no other table changes |
| Crud.AddProfile | SEMANA4/streaming/models.py:140-148 | a profile insert answers NotFound for an absent user and Conflict when the user already has a profile, storing nothing; otherwise it stores the profile under a fresh id; NotFound stands for the foreign key's IntegrityError and Conflict for the one-to-one key's IntegrityError |
| Crud.AddSheet | SEMANA4/streaming/models.py:94-103 | a sheet insert answers NotFound for an absent movie and Conflict when the movie already has a sheet, storing nothing; otherwise it stores the sheet under a fresh id; NotFound stands for the foreign key's IntegrityError and Conflict for the one-to-one key's IntegrityError |
| Crud.CreateCategoryPreservesConsistent | SEMANA4/streaming/models.py:6-11 | a category create keeps every integrity rule (in particular unique category names) |
| Crud.CreateTagPreservesConsistent | SEMANA4/streaming/models.py:25-30 | a tag create keeps every integrity rule (in particular unique tag names) |
| Crud.CreateMoviePreservesConsistent | SEMANA4/streaming/models.py:39-82 | a movie create keeps every integrity rule (non-negative price and duration, existing category and tags) |
| Crud.UpdateMoviePreservesConsistent | SEMANA4/streaming/models.py:39-82 | a movie update keeps every integrity rule |
| Crud.CreateReviewPreservesConsistent | SEMANA4/streaming/models.py:109-133 | a review create keeps every integrity rule (in particular one review per pair) |
| Crud.DeleteReviewPreservesConsistent | SEMANA4/streaming/models.py:109-133 | a review delete keeps every integrity rule |
| Crud.AddUserPreservesConsistent | SEMANA4/streaming/models.py:117-122 | a user insert keeps every integrity rule |
| Crud.AddProfilePreservesConsistent | SEMANA4/streaming/models.py:140-146 | a profile insert keeps every integrity rule (in particular one profile per user) |
| Crud.AddSheetPreservesConsistent | SEMANA4/streaming/models.py:94-100 | a sheet insert keeps every integrity rule (in particular one sheet per movie) |
| Rating.Rate | SEMANA4/streaming/views.py:31-58 | the rate action: Created only for an existing movie, an in-range score, an existing user and a pair with no review; then the new review goes under the fresh id and only the review table and the sequence change; every other answer leaves the store as it was |
| Rating.NewReview | SEMANA4/streaming/views.py:38-47 | the stored review has the given movie, user and score; a missing comment is stored as the empty string |
| Rating.RateOutcomeCases | SEMANA4/streaming/views.py:31-58 | each outcome holds exactly under its condition, in the action's order: NotFound for an absent movie, Invalid for an out-of-range score, Conflict for an existing review of the pair, IntegrityError for an unknown user, Created otherwise |
| Rating.RateCreatesOneReview | SEMANA4/streaming/views.py:43-58 | a first rating answers Created with a fresh id and adds exactly that one review, with the given score and comment; the pair then has exactly that review |
| Rating.RateTwiceConflicts | SEMANA4/streaming/views.py:43-53 | rating a pair that already has a review answers Conflict and leaves the whole store unchanged, so the stored score and comment are kept |
| Rating.RateFrame | SEMANA4/streaming/views.py:43-47 | a rate call keeps every existing review unchanged and never changes a movie, category, tag, sheet, profile or user |
| Rating.RateFailureStoresNothing | SEMANA4/streaming/views.py:33-53 | every outcome other than Created leaves the store unchanged (404, 400 and 409 store nothing) |
| Rating.RatePreservesConsistent | SEMANA4/streaming/views.py:43-47 | a rate call keeps every integrity rule, in particular one review per pair |
| Rating.RateAllKeepsOneReviewPerPair | SEMANA4/streaming/models.py:130-133 | after any sequence of rate calls on a consistent store, every (movie, user) pair has at most one review |
| Rating.RateAllKeepsExistingReviews | SEMANA4/streaming/views.py:43-53 | a review, once stored, survives every later sequence of rate calls with its contents unchanged (never an upsert) |
| Rating.RateScenario | SEMANA4/streaming/views.py:31-58 | rating 8 "great" and then 3 "eh" answers Created then Conflict; the second call changes nothing, and the review keeps score 8 and comment "great" |
| Filters.Contains | SEMANA4/streaming/views.py:25 | the search predicate: the term occurs in the text |
| Filters.ContainsIffOccurs | SEMANA4/streaming/views.py:25 | the search predicate holds exactly when the term occurs as a contiguous piece at some position of the text, in both directions |
| Filters.Matches | SEMANA3/streaming/filters.py:4-10 | a movie passes the query exactly when it has the requested category, a duration at least duracion_min and at most duracion_max, and the search term in its title or description; an absent parameter does not filter |
| Filters.FilterMovies | SEMANA3/streaming/filters.py:4-10 | the result is a subset of the table holding every movie that passes all supplied filters and no other |
| Filters.FilterFieldByField | SEMANA3/streaming/filters.py:5-10 | every returned movie has duration at least duracion_min, at most duracion_max, and the requested category |
| Filters.NoFiltersKeepsAll | SEMANA3/streaming/filters.py:4-10 | with no parameters the result is the whole table |
| Filters.MinAboveMaxMatchesNothing | SEMANA3/streaming/filters.py:5-6 | the filters combine by AND, so a minimum above the maximum returns nothing |
| Filters.FilterMonotone | SEMANA3/streaming/filters.py:4-10 | a stricter query returns a subset of a looser one |
| Filters.NameOf | SEMANA4/streaming/views.py:28 | each orderable field has one of the allowed names |
| Filters.FieldNamed | SEMANA4/streaming/views.py:28 | a field name is recognised exactly when it is one of titulo, fecha_estreno, duracion, and then it selects the field of that name |
| Filters.FieldNamedRoundTrip | SEMANA4/streaming/views.py:28 | every field is selected by its own name |
| Filters.ParseTerm | SEMANA4/streaming/views.py:28 | an ordering term is valid exactly when it is an allowed field name, optionally after one '-'; it selects the named field, and the '-' makes it descending |
| Filters.ParseTermRoundTrip | SEMANA4/streaming/views.py:28 | a field's name parses to that field ascending, and '-' before it parses to that field descending |
| Filters.ParseTerms | SEMANA4/streaming/views.py:28 | every kept term comes from a valid requested term and every valid requested term is kept; nothing is kept exactly when no requested term is valid |
| Filters.ParseTermsSingle | SEMANA4/streaming/views.py:28 | one requested term gives itself when valid and nothing otherwise |
| Filters.ParseTermsAppend | SEMANA4/streaming/views.py:28 | the terms of a request are those of its parts, in the requested order, so valid terms keep their order and invalid ones are dropped |
| Filters.Ordering | SEMANA4/streaming/views.py:28-29 | the ordering is never empty; with no parameter, or with no valid term, it is title ascending; otherwise it is exactly the valid requested terms in order |
| Filters.TwoTermOrdering | SEMANA4/streaming/views.py:28 | ordering=duracion,-titulo orders by duration, then by title descending |
| Filters.Insert | SEMANA4/streaming/views.py:27-29 | inserting into a sorted list gives a sorted list with exactly one more element, the old ones plus the new one, with no repeats |
| Filters.SortIds | SEMANA4/streaming/views.py:27-29 | the ids are listed once each, exactly the given ones, sorted by the ordering terms |
| Filters.ListMovies | SEMANA4/streaming/views.py:15-29 | a filter on a category that does not exist answers 400; otherwise the list holds exactly the matching movies, once each, sorted by the ordering in force |
| Filters.DefaultListByTitle | SEMANA4/streaming/views.py:29 | without an ordering parameter the list is sorted by title, ascending |
| Filters.DescendingDurationList | SEMANA4/streaming/views.py:28 | ordering=-duracion lists the longest movies first |
| Streaming.Step | SEMANA4/streaming/views.py:15-75 | one modelled call on the store value: the rate action, the creates, the movie update and the category, tag, movie and review deletes of the viewsets, the user delete with its cascade (not a viewset call), and the user, profile and sheet inserts; an absent row's delete changes nothing |
| Streaming.StepPreservesConsistent | SEMANA4/streaming/views.py:15-75 | every modelled call keeps every integrity rule |
| Streaming.RunKeepsConsistent | SEMANA4/streaming/models.py:130-133 | after any sequence of modelled calls (rate calls mixed with every other modelled write) on a consistent store, every integrity rule holds and each (movie, user) pair has at most one review |
| Streaming.RunFromEmpty | SEMANA4/streaming/models.py:130-133 | the same holds for every sequence of calls from the empty store |
| Streaming.Store.constructor | SEMANA4/streaming/models.py:6-146 | a new store is empty and valid |
| Streaming.Store.Rate | SEMANA4/streaming/views.py:31-58 | the rate action on the object keeps the integrity rules; its answer and its new tables are exactly those of Rating.Rate |
| Streaming.Store.CreateCategory | SEMANA4/streaming/views.py:61-63 | in place, keeps the integrity rules; answer and new tables as Crud.CreateCategory |
| Streaming.Store.CreateTag | SEMANA4/streaming/views.py:65-67 | in place, keeps the integrity rules; answer and new tables as Crud.CreateTag |
| Streaming.Store.CreateMovie | SEMANA4/streaming/views.py:15-17 | in place, keeps the integrity rules; answer and new tables as Crud.CreateMovie |
| Streaming.Store.UpdateMovie | SEMANA4/streaming/views.py:15-17 | in place, keeps the integrity rules; answer and new tables as Crud.UpdateMovie |
| Streaming.Store.CreateReview | SEMANA4/streaming/views.py:69-71 | in place, keeps the integrity rules; answer and new tables as Crud.CreateReview |
| Streaming.Store.DeleteReview | SEMANA4/streaming/views.py:69-71 | in place, keeps the integrity rules; answer and new tables as Crud.DeleteReview |
| Streaming.Store.DeleteCategory | SEMANA4/streaming/models.py:44-51 | answers whether the category existed; if so the tables become Catalog.DeleteCategory of the old ones, otherwise nothing changes; keeps the integrity rules |
| Streaming.Store.DeleteTag | SEMANA4/streaming/models.py:54-59 | answers whether the tag existed; if so the tables become Catalog.DeleteTag of the old ones, otherwise nothing changes |
| Streaming.Store.DeleteMovie | SEMANA4/streaming/models.py:94-116 | answers whether the movie existed; if so the tables become Catalog.DeleteMovie of the old ones (cascade), otherwise nothing changes |
| Streaming.Store.DeleteUser | SEMANA4/streaming/models.py:117-146 | answers whether the user existed; if so the tables become Catalog.DeleteUser of the old ones (cascade), otherwise nothing changes |
| Streaming.Store.AddUser | SEMANA4/streaming/models.py:117-122 | in place, keeps the integrity rules; new id and tables as Crud.AddUser |
| Streaming.Store.AddProfile | SEMANA4/streaming/models.py:140-148 | in place, keeps the integrity rules; answer and new tables as Crud.AddProfile |
| Streaming.Store.AddSheet | SEMANA4/streaming/models.py:94-103 | in place, keeps the integrity rules; answer and new tables as Crud.AddSheet |

## Left out

- Routing, HTTP, authentication, pagination and the admin interface are not modelled. The URL modules only register routes.
- The concurrent-duplicate race inside `get_or_create` is not modelled. In that race Django catches the constraint violation and fetches the row again. The model runs calls one at a time, and each rate call is one atomic insert-if-absent.
- Clock readings (`auto_now`, `auto_now_add`) are parameters (`now`). The model does not read a clock.
- The decimal precision of the price (`max_digits=6`, `decimal_places=2`) is not modelled. Prices are whole cents with no upper bound. Integer columns have no upper bound either.
- Length limits, blank checks, whitespace trimming and URL format checks on text fields are not modelled.
- Search: case folding, splitting the parameter into several terms, and the database's collation are not modelled. The model matches one term as a case-sensitive substring of the title or the description, and orders text by code point.
- Ordering: the comma-separated `ordering` parameter arrives already split into terms. The secondary order among equal keys (the database's choice) is not fixed by the model. The model only promises a sorted list.
- The duration filters take integers; `NumberFilter`'s decimal values are not modelled.
- Query parameters on detail and action calls are not modelled. The framework's `get_object` also runs the list filters, so `?duracion_max=10` on the rate call for a 90-minute movie answers 404 in the source, and `?categoria=<absent id>` answers 400. The same holds for movie update and delete. In the model, `Rating.Rate`, `Crud.UpdateMovie` and the deletes answer 404 only for an absent id.
- Review, category, tag and profile updates are not among the modelled calls, and neither are profile and sheet deletes, although the generic viewsets expose them. `Streaming.RunKeepsConsistent` therefore covers the modelled calls only.
- Conflict outside the rate action is not an HTTP answer of its own. For a second review of a pair it stands for the unique-together 400 or an uncaught IntegrityError, depending on the framework version. For a second profile or sheet it stands for the one-to-one key's IntegrityError.
- NotFound on the profile and sheet inserts is not an HTTP answer either, since neither insert has an endpoint. It stands for the IntegrityError of a foreign key that names an absent user or movie, and it stores nothing.
- The `filterset_fields` line of the movie viewset is not modelled, because `filterset_class` takes precedence over it.
- `ValorarPeliculaSerializer` is not part of this model. The rate payload is checked only against the score range of the review validators. Whether that serializer also rejects an unknown user before the insert is not modelled. The model lets such a call reach the insert, where it fails with `IntegrityError`.
- The serializers of the current version are not part of this model. The movie, category, tag and review write rules come from the previous version's serializers, together with the current models' validators.
- Profile creation: the profile serializer has no user field. Profiles are modelled as a store-level insert for a given user.
- Retrieve endpoints, and list endpoints other than the movie list, only read the store and are not modelled.
- No endpoint exposes technical sheets (their serializer is commented out). Sheets are modelled as a store-level insert for a given movie.
- A single id sequence serves every table, where the database keeps one sequence per table. Only the freshness of new ids matters to the model.
- Nested read-only rendering (`*_detalle`, `resenas`, `pelicula_titulo`, `usuario_detalle`), `__str__`, `help_text`, `verbose_name` and the model-level default orderings are presentation only.
