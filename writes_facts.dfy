/** What the insert paths promise: constraint refusals, field defaults, and that a delete undoes an insert. */
module WritesFacts {
  import opened Basics
  import opened Catalog
  import opened Circulation
  import opened Accounts
  import opened Analytics
  import opened Database
  import opened Writes
  import opened Cascade

  // ----- library/models.py -----

  /** The stored slug is the given one, or the slugified name when none was given. */
  lemma NewCategorySlug(db: Db, c: Category, slugify: string -> string)
    requires AddCategory(db, c, slugify).outcome.Ok?
    ensures var w := AddCategory(db, c, slugify);
      && w.outcome.value in w.db.categories
      && w.db.categories[w.outcome.value].slug == (if c.slug == "" then slugify(c.name) else c.slug)
      && w.db.categories[w.outcome.value].name == c.name
  {
  }

  /** A category whose slug, after the slug rule, is already stored is refused. */
  lemma DuplicateSlugRefused(db: Db, c: Category, slugify: string -> string, other: Id)
    requires other in db.categories && db.categories[other].slug == WithSlug(c, slugify).slug
    ensures AddCategory(db, c, slugify) == Refused(db, ConstraintViolation)
  {
  }

  /** Renaming a category that has a slug keeps the slug and is never refused. */
  lemma RenameKeepsSlug(db: Db, id: Id, newName: string, slugify: string -> string)
    requires Integrity(db) && id in db.categories && db.categories[id].slug != ""
    ensures var w := UpdateCategory(db, id, db.categories[id].(name := newName), slugify);
      && w.outcome == Ok(id)
      && w.db.categories == db.categories[id := db.categories[id].(name := newName)]
  {
  }

  /** Saving a category under a key no category holds inserts it there, and the key
      counter moves past that key, so no later insert reuses it. */
  lemma SaveUnderAbsentKeyInserts(db: Db, id: Id, c: Category, slugify: string -> string)
    requires id !in db.categories && !SlugTaken(db, WithSlug(c, slugify).slug, None)
    ensures var w := UpdateCategory(db, id, c, slugify);
      && w.outcome == Ok(id)
      && w.db.categories == db.categories[id := WithSlug(c, slugify)]
      && id < w.db.nextId && db.nextId <= w.db.nextId
  {
  }

  lemma DuplicateIsbnRefused(db: Db, b: Book, other: Id)
    requires b.author in db.authors
    requires other in db.books && db.books[other].isbn == b.isbn
    ensures AddBook(db, b) == Refused(db, ConstraintViolation)
  {
  }

  /** Saving a profile leaves exactly one profile for its author. */
  lemma ProfilePerAuthor(db: Db, author: Id, p: AuthorProfile)
    requires author in db.authors
    ensures var w := SaveProfile(db, author, p);
      && w.outcome == Ok(author)
      && w.db.profiles.Keys == db.profiles.Keys + {author}
      && w.db.profiles[author] == p
  {
  }

  lemma DuplicateTripleRefused(db: Db, p: Publication, other: Id)
    requires p.book in db.books && p.publisher in db.publishers
    requires other in db.publications && db.publications[other].book == p.book
    requires db.publications[other].publisher == p.publisher && db.publications[other].country == p.country
    ensures AddPublication(db, p) == Refused(db, ConstraintViolation)
  {
  }

  /** The same book and publisher in a country not yet recorded is accepted. */
  lemma OtherCountryAccepted(db: Db, p: Publication)
    requires p.book in db.books && p.publisher in db.publishers
    requires forall q ::
      q in db.publications && db.publications[q].book == p.book && db.publications[q].publisher == p.publisher
      ==> db.publications[q].country != p.country
    ensures AddPublication(db, p).outcome == Ok(db.nextId)
  {
  }

  // ----- management/models.py -----

  lemma DuplicateInventoryNumberRefused(db: Db, c: BookCopy, other: Id)
    requires c.book in db.books && c.branch in db.branches
    requires other in db.copies && db.copies[other].inventoryNumber == c.inventoryNumber
    ensures AddCopy(db, c) == Refused(db, ConstraintViolation)
  {
  }

  /** A copy saved without condition or availability is in good condition and available. */
  lemma NewCopyDefaults(db: Db, book: Id, branch: Id, acquired: Date, number: string)
    requires AddCopy(db, BookCopy(book, branch, acquired, number)).outcome.Ok?
    ensures var w := AddCopy(db, BookCopy(book, branch, acquired, number));
      && w.outcome.value in w.db.copies
      && w.db.copies[w.outcome.value].condition == Good
      && w.db.copies[w.outcome.value].isAvailable
  {
  }

  /** A loan saved without status is active and not yet returned. */
  lemma NewLoanDefaults(db: Db, copy: Id, borrower: Id, checkout: Date, due: Date)
    requires AddLoan(db, BookLoan(copy, borrower, checkout, due)).outcome.Ok?
    ensures var w := AddLoan(db, BookLoan(copy, borrower, checkout, due));
      && w.outcome.value in w.db.loans
      && w.db.loans[w.outcome.value].status == Active
      && w.db.loans[w.outcome.value].returnDate == None
  {
  }

  /** A reservation saved without status is pending and stamped with the current time. */
  lemma NewReservationDefaults(db: Db, book: Id, user: Id, branch: Id, given: Timestamp, now: Timestamp)
    requires AddReservation(db, Reservation(book, user, branch, given), now).outcome.Ok?
    ensures var w := AddReservation(db, Reservation(book, user, branch, given), now);
      && w.outcome.value in w.db.reservations
      && w.db.reservations[w.outcome.value].status == Pending
      && w.db.reservations[w.outcome.value].requestDate == now
  {
  }

  // ----- users/models.py -----

  lemma RatingOutOfRangeRefused(db: Db, rv: BookReview, now: Timestamp)
    requires rv.user in db.users && rv.book in db.books
    requires rv.rating < 1 || rv.rating > 5
    ensures AddReview(db, rv, now) == Refused(db, ValidationError)
  {
  }

  lemma SecondReviewRefused(db: Db, rv: BookReview, now: Timestamp, other: Id)
    requires rv.user in db.users && rv.book in db.books && RatingChoice(rv.rating)
    requires other in db.reviews && db.reviews[other].user == rv.user && db.reviews[other].book == rv.book
    ensures AddReview(db, rv, now) == Refused(db, ConstraintViolation)
  {
  }

  /** A reading list saved without is_public is private. */
  lemma NewReadingListPrivate(db: Db, user: Id, name: string, given: Timestamp, now: Timestamp)
    requires AddReadingList(db, ReadingList(user, name, given), now).outcome.Ok?
    ensures var w := AddReadingList(db, ReadingList(user, name, given), now);
      && w.outcome.value in w.db.readingLists && !w.db.readingLists[w.outcome.value].isPublic
  {
  }

  // ----- analytics/models.py -----

  /** A new analytics row starts with every counter at 0; a second one for the same parent is refused. */
  lemma NewCategoryStatsZero(db: Db, category: Id, now: Timestamp)
    requires category in db.categories
    ensures var w := AddCategoryStats(db, category, now);
      && (HasCategoryStats(db, category) <==> w == Refused(db, ConstraintViolation))
      && (w.outcome.Ok? ==>
            && w.outcome.value in w.db.categoryStats
            && w.db.categoryStats[w.outcome.value].totalViews == 0
            && w.db.categoryStats[w.outcome.value].totalBooks == 0)
  {
  }

  lemma NewAuthorStatsZero(db: Db, author: Id, now: Timestamp)
    requires author in db.authors
    ensures var w := AddAuthorStats(db, author, now);
      && (HasAuthorStats(db, author) <==> w == Refused(db, ConstraintViolation))
      && (w.outcome.Ok? ==>
            && w.outcome.value in w.db.authorStats
            && w.db.authorStats[w.outcome.value].totalViews == 0
            && w.db.authorStats[w.outcome.value].totalReviews == 0)
  {
  }

  /** Saving category analytics under key id is accepted exactly when the category
      exists, no counter is negative and no other row holds the category; a refusal
      changes nothing. An accepted save stores the given counters under id (an
      UPDATE, or an INSERT when no row had the key), refreshes last_updated, leaves
      every other row and table alone, and moves the key counter past id only when
      it was not past it already. */
  lemma StatsUpdateChecks(db: Db, id: Id, category: Id, totalViews: int, totalBooks: int, score: real, now: Timestamp)
    ensures var w := UpdateCategoryStats(db, id, category, totalViews, totalBooks, score, now);
      && (w.outcome.Ok? <==>
            category in db.categories && totalViews >= 0 && totalBooks >= 0 && !CategoryStatsElsewhere(db, category, id))
      && (category !in db.categories ==> w == Refused(db, NotFound))
      && (category in db.categories && !w.outcome.Ok? ==> w == Refused(db, ConstraintViolation))
      && (w.outcome.Ok? ==>
            && w.outcome.value == id
            && w.db.categoryStats.Keys == db.categoryStats.Keys + {id}
            && w.db.categoryStats[id].category == category && w.db.categoryStats[id].lastUpdated == now
            && w.db.categoryStats[id].totalViews == totalViews && w.db.categoryStats[id].totalBooks == totalBooks
            && w.db.categoryStats[id].popularityScore == score
            && (forall s :: s in db.categoryStats && s != id ==> w.db.categoryStats[s] == db.categoryStats[s])
            && id < w.db.nextId && (id < db.nextId ==> w.db.nextId == db.nextId)
            && w.db == db.(categoryStats := w.db.categoryStats, nextId := w.db.nextId))
  {
  }

  /** The same rule for author analytics. */
  lemma AuthorStatsUpdateChecks(db: Db, id: Id, author: Id, totalViews: int, rating: real, totalReviews: int,
                                now: Timestamp)
    ensures var w := UpdateAuthorStats(db, id, author, totalViews, rating, totalReviews, now);
      && (w.outcome.Ok? <==>
            author in db.authors && totalViews >= 0 && totalReviews >= 0 && !AuthorStatsElsewhere(db, author, id))
      && (author !in db.authors ==> w == Refused(db, NotFound))
      && (author in db.authors && !w.outcome.Ok? ==> w == Refused(db, ConstraintViolation))
      && (w.outcome.Ok? ==>
            && w.outcome.value == id
            && w.db.authorStats.Keys == db.authorStats.Keys + {id}
            && w.db.authorStats[id].author == author && w.db.authorStats[id].lastUpdated == now
            && w.db.authorStats[id].totalViews == totalViews && w.db.authorStats[id].totalReviews == totalReviews
            && w.db.authorStats[id].avgRating == rating
            && (forall s :: s in db.authorStats && s != id ==> w.db.authorStats[s] == db.authorStats[s])
            && id < w.db.nextId && (id < db.nextId ==> w.db.nextId == db.nextId)
            && w.db == db.(authorStats := w.db.authorStats, nextId := w.db.nextId))
  {
  }

  /** With the one-to-one constraint in force, a save that keeps a row's own
      category is refused only for a negative counter, and a save naming a
      category whose analytics row sits under another key is always refused. */
  lemma StatsOneToOne(db: Db, id: Id, other: Id, totalViews: nat, totalBooks: nat, score: real, now: Timestamp)
    requires CategoryStatsOwned(db.categoryStats, db.categories)
    requires id in db.categoryStats && other in db.categoryStats && other != id
    ensures UpdateCategoryStats(db, id, db.categoryStats[id].category, totalViews, totalBooks, score, now).outcome == Ok(id)
    ensures UpdateCategoryStats(db, id, db.categoryStats[other].category, totalViews, totalBooks, score, now)
              == Refused(db, ConstraintViolation)
  {
  }

  lemma NewRecommendationUnclicked(db: Db, user: Id, book: Id, reason: string, given: Timestamp, now: Timestamp)
    requires AddRecommendation(db, RecommendationLog(user, book, reason, given), now).outcome.Ok?
    ensures var w := AddRecommendation(db, RecommendationLog(user, book, reason, given), now);
      && w.outcome.value in w.db.recommendations && !w.db.recommendations[w.outcome.value].clicked
  {
  }

  // ----- a delete undoes an insert: nothing pointed at the new key -----

  /** No stored row names the next key to be handed out. */
  lemma NothingNamesNextId(db: Db)
    requires Integrity(db)
    ensures Unnamed(db, db.nextId)
  {
  }

  /** No row of any table is stored under n or points at n. */
  ghost predicate Unnamed(db: Db, n: Id)
  {
    && n !in db.authors && n !in db.categories && n !in db.publishers && n !in db.books
    && n !in db.branches && n !in db.copies && n !in db.users && n !in db.readingLists
    && n !in db.profiles && n !in db.publications && n !in db.loans && n !in db.reservations
    && n !in db.reviews && n !in db.bookViews && n !in db.categoryStats && n !in db.authorStats
    && n !in db.recommendations
    && (forall b :: b in db.books ==> db.books[b].author != n)
    && (forall l :: l in db.bookCategories ==> l.0 != n && l.1 != n)
    && (forall p :: p in db.publications ==> db.publications[p].book != n && db.publications[p].publisher != n)
    && (forall c :: c in db.copies ==> db.copies[c].book != n && db.copies[c].branch != n)
    && (forall l :: l in db.loans ==> db.loans[l].copy != n && db.loans[l].borrower != n)
    && (forall r :: r in db.reservations ==>
          db.reservations[r].book != n && db.reservations[r].user != n && db.reservations[r].branch != n)
    && (forall f :: f in db.favorites ==> f.0 != n && f.1 != n)
    && (forall r :: r in db.readingLists ==> db.readingLists[r].user != n)
    && (forall l :: l in db.listBooks ==> l.0 != n && l.1 != n)
    && (forall r :: r in db.reviews ==> db.reviews[r].user != n && db.reviews[r].book != n)
    && (forall v :: v in db.bookViews ==> db.bookViews[v].book != n && db.bookViews[v].user != Some(n))
    && (forall s :: s in db.categoryStats ==> db.categoryStats[s].category != n)
    && (forall s :: s in db.authorStats ==> db.authorStats[s].author != n)
    && (forall r :: r in db.recommendations ==> db.recommendations[r].user != n && db.recommendations[r].book != n)
  }

  /** No row of a table that points at a book names n. */
  ghost predicate BookUnnamed(d: Db, n: Id)
  {
    && (forall l :: l in d.bookCategories ==> l.0 != n)
    && (forall p :: p in d.publications ==> d.publications[p].book != n)
    && (forall c :: c in d.copies ==> d.copies[c].book != n)
    && (forall r :: r in d.reservations ==> d.reservations[r].book != n)
    && (forall l :: l in d.listBooks ==> l.1 != n)
    && (forall r :: r in d.reviews ==> d.reviews[r].book != n)
    && (forall v :: v in d.bookViews ==> d.bookViews[v].book != n)
    && (forall r :: r in d.recommendations ==> d.recommendations[r].book != n)
  }

  /** Deleting a book nothing points at removes that book and nothing else. */
  lemma DropUnnamedBook(d: Db, n: Id)
    requires BookUnnamed(d, n)
    ensures DropBooks(d, {n}) == d.(books := d.books - {n})
  {
    assert CopiesOf(d.copies, {n}) == {};
    assert LoansOn(d.loans, {}) == {};
    assert DropCopies(d, {}) == d;
    DropUnnamedBookRows(d, n);
  }

  lemma DropUnnamedBookRows(d: Db, n: Id)
    requires BookUnnamed(d, n)
    ensures DropBookRows(d, {n}) == d.(books := d.books - {n})
  {
    var r := DropBookRows(d, {n});
    assert r.bookCategories == d.bookCategories;
    assert r.publications == d.publications;
    assert r.reservations == d.reservations;
    assert r.reviews == d.reviews;
    assert r.listBooks == d.listBooks;
    assert r.bookViews == d.bookViews;
    assert r.recommendations == d.recommendations;
  }

  lemma {:induction false} DropUndoesAddBook(db: Db, b: Book)
    requires Integrity(db) && AddBook(db, b).outcome.Ok?
    ensures DropBooks(AddBook(db, b).db, {db.nextId}) == db.(nextId := db.nextId + 1)
  {
    NothingNamesNextId(db);
    AddedBookUnnamed(db, b);
    DropUnnamedBook(AddBook(db, b).db, db.nextId);
  }

  lemma AddedBookUnnamed(db: Db, b: Book)
    requires Unnamed(db, db.nextId) && AddBook(db, b).outcome.Ok?
    ensures var d := AddBook(db, b).db;
      && BookUnnamed(d, db.nextId)
      && d.(books := d.books - {db.nextId}) == db.(nextId := db.nextId + 1)
  {
    var d := AddBook(db, b).db;
    assert d.books - {db.nextId} == db.books;
  }

  lemma {:induction false} DropUndoesAddAuthor(db: Db, a: Author)
    requires Integrity(db)
    ensures DropAuthors(AddAuthor(db, a).db, {db.nextId}) == db.(nextId := db.nextId + 1)
  {
    NothingNamesNextId(db);
    DropUnnamedAuthor(db, a);
  }

  lemma DropUnnamedAuthor(db: Db, a: Author)
    requires db.nextId !in db.authors && db.nextId !in db.profiles
    requires forall b :: b in db.books ==> db.books[b].author != db.nextId
    requires forall s :: s in db.authorStats ==> db.authorStats[s].author != db.nextId
    ensures DropAuthors(AddAuthor(db, a).db, {db.nextId}) == db.(nextId := db.nextId + 1)
  {
    var d, n := AddAuthor(db, a).db, db.nextId;
    assert BooksBy(d.books, {n}) == {};
    DropNoBooks(d);
    assert AuthorStatsOf(d.authorStats, {n}) == {};
    assert d.authors - {n} == db.authors;
    assert d.profiles - {n} == db.profiles;
  }

  /** Deleting no books changes nothing. */
  lemma DropNoBooks(d: Db)
    ensures DropBooks(d, {}) == d
  {
    DropNoCopies(d);
    DropNoBookRows(d);
  }

  lemma DropNoCopies(d: Db)
    ensures CopiesOf(d.copies, {}) == {} && DropCopies(d, {}) == d
  {
    assert LoansOn(d.loans, {}) == {};
  }

  lemma DropNoBookRows(d: Db)
    ensures DropBookRows(d, {}) == d
  {
    var r := DropBookRows(d, {});
    assert r.bookCategories == d.bookCategories;
    assert r.listBooks == d.listBooks;
  }

  lemma {:induction false} DropUndoesAddCategory(db: Db, c: Category, slugify: string -> string)
    requires Integrity(db) && AddCategory(db, c, slugify).outcome.Ok?
    ensures DropCategories(AddCategory(db, c, slugify).db, {db.nextId}) == db.(nextId := db.nextId + 1)
  {
    NothingNamesNextId(db);
    DropUnnamedCategory(db, c, slugify);
  }

  lemma DropUnnamedCategory(db: Db, c: Category, slugify: string -> string)
    requires db.nextId !in db.categories && AddCategory(db, c, slugify).outcome.Ok?
    requires forall l :: l in db.bookCategories ==> l.1 != db.nextId
    requires forall f :: f in db.favorites ==> f.1 != db.nextId
    requires forall s :: s in db.categoryStats ==> db.categoryStats[s].category != db.nextId
    ensures DropCategories(AddCategory(db, c, slugify).db, {db.nextId}) == db.(nextId := db.nextId + 1)
  {
    var d, n := AddCategory(db, c, slugify).db, db.nextId;
    assert WithoutRight(d.bookCategories, {n}) == db.bookCategories;
    assert WithoutRight(d.favorites, {n}) == db.favorites;
    assert CategoryStatsOf(d.categoryStats, {n}) == {};
    assert d.categories - {n} == db.categories;
  }

  lemma DropUndoesAddPublisher(db: Db, p: Publisher)
    requires Integrity(db)
    ensures DropPublishers(AddPublisher(db, p).db, {db.nextId}) == db.(nextId := db.nextId + 1)
  {
  }

  lemma {:induction false} DropUndoesAddPublication(db: Db, p: Publication)
    requires Integrity(db) && AddPublication(db, p).outcome.Ok?
    ensures DropPublications(AddPublication(db, p).db, {db.nextId}) == db.(nextId := db.nextId + 1)
  {
    NothingNamesNextId(db);
    DropUnnamedPublication(db, p);
  }

  lemma DropUnnamedPublication(db: Db, p: Publication)
    requires db.nextId !in db.publications && AddPublication(db, p).outcome.Ok?
    ensures DropPublications(AddPublication(db, p).db, {db.nextId}) == db.(nextId := db.nextId + 1)
  {
    assert AddPublication(db, p).db.publications - {db.nextId} == db.publications;
  }

  lemma {:induction false} DropUndoesAddBranch(db: Db, br: LibraryBranch)
    requires Integrity(db)
    ensures DropBranches(AddBranch(db, br).db, {db.nextId}) == db.(nextId := db.nextId + 1)
  {
    NothingNamesNextId(db);
    DropUnnamedBranch(db, br);
  }

  lemma DropUnnamedBranch(db: Db, br: LibraryBranch)
    requires db.nextId !in db.branches
    requires forall c :: c in db.copies ==> db.copies[c].branch != db.nextId
    requires forall r :: r in db.reservations ==> db.reservations[r].branch != db.nextId
    ensures DropBranches(AddBranch(db, br).db, {db.nextId}) == db.(nextId := db.nextId + 1)
  {
    var d, n := AddBranch(db, br).db, db.nextId;
    assert CopiesAt(d.copies, {n}) == {};
    DropNoCopies(d);
    assert ReservationsAt(d.reservations, {n}) == {};
    assert d.branches - {n} == db.branches;
  }

  lemma DropUndoesAddCopy(db: Db, c: BookCopy)
    requires Integrity(db) && AddCopy(db, c).outcome.Ok?
    ensures DropCopies(AddCopy(db, c).db, {db.nextId}) == db.(nextId := db.nextId + 1)
  {
    NothingNamesNextId(db);
    DropUndoesAddCopyCore(db, c);
  }

  lemma DropUndoesAddCopyCore(db: Db, c: BookCopy)
    requires db.nextId !in db.copies
    requires forall l :: l in db.loans ==> db.loans[l].copy != db.nextId
    requires AddCopy(db, c).outcome.Ok?
    ensures DropCopies(AddCopy(db, c).db, {db.nextId}) == db.(nextId := db.nextId + 1)
  {
    var d, n := AddCopy(db, c).db, db.nextId;
    assert LoansOn(d.loans, {n}) == {};
    assert d.copies - {n} == db.copies;
  }

  /** No row of a table that points at a user names n. */
  ghost predicate UserUnnamed(d: Db, n: Id)
  {
    && (forall l :: l in d.loans ==> d.loans[l].borrower != n)
    && (forall r :: r in d.reservations ==> d.reservations[r].user != n)
    && (forall r :: r in d.readingLists ==> d.readingLists[r].user != n)
    && (forall r :: r in d.reviews ==> d.reviews[r].user != n)
    && (forall r :: r in d.recommendations ==> d.recommendations[r].user != n)
    && (forall f :: f in d.favorites ==> f.0 != n)
    && (forall v :: v in d.bookViews ==> d.bookViews[v].user != Some(n))
  }

  /** Deleting a user nothing points at removes that user and nothing else. */
  lemma DropUnnamedUser(d: Db, n: Id)
    requires UserUnnamed(d, n)
    ensures DropUsers(d, {n}) == d.(users := d.users - {n})
  {
    assert ListsOf(d.readingLists, {n}) == {};
    var r := DropUsers(d, {n});
    assert r.loans == d.loans;
    assert r.reservations == d.reservations;
    assert r.readingLists == d.readingLists;
    assert r.listBooks == d.listBooks;
    assert r.reviews == d.reviews;
    assert r.recommendations == d.recommendations;
    assert r.favorites == d.favorites;
    assert r.bookViews == d.bookViews;
  }

  lemma {:induction false} DropUndoesAddUser(db: Db, u: LibraryUser)
    requires Integrity(db)
    ensures DropUsers(AddUser(db, u).db, {db.nextId}) == db.(nextId := db.nextId + 1)
  {
    NothingNamesNextId(db);
    DropAddedUnnamedUser(db, u);
  }

  lemma DropAddedUnnamedUser(db: Db, u: LibraryUser)
    requires db.nextId !in db.users && UserUnnamed(db, db.nextId)
    ensures DropUsers(AddUser(db, u).db, {db.nextId}) == db.(nextId := db.nextId + 1)
  {
    var d := AddUser(db, u).db;
    assert UserUnnamed(d, db.nextId);
    DropUnnamedUser(d, db.nextId);
    assert d.users - {db.nextId} == db.users;
  }
}
