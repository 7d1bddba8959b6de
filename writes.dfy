/**
 * What saving a new row (or a link, or an update of an analytics row) does to
 * the database: the foreign keys it names must exist (NotFound otherwise), the
 * declared unique indexes and CHECK constraints must hold afterwards
 * (ConstraintViolation otherwise), and choice fields must hold a declared
 * choice (ValidationError otherwise). A refused write leaves the database as it was.
 */
module Writes {
  import opened Basics
  import opened Catalog
  import opened Circulation
  import opened Accounts
  import opened Analytics
  import opened Database

  /** The database after a write, and the primary key written (or why nothing was). */
  datatype Write = Write(db: Db, outcome: Result<Id>)

  function Refused(db: Db, e: Error): Write
  {
    Write(db, Err(e))
  }

  // ----- unique-index lookups -----

  predicate SlugTaken(db: Db, slug: string, except: Option<Id>)
  {
    exists c :: c in db.categories && db.categories[c].slug == slug && Some(c) != except
  }

  predicate IsbnTaken(db: Db, isbn: string)
  {
    exists b :: b in db.books && db.books[b].isbn == isbn
  }

  predicate TripleTaken(db: Db, p: Publication)
  {
    exists q :: q in db.publications && db.publications[q].book == p.book &&
      db.publications[q].publisher == p.publisher && db.publications[q].country == p.country
  }

  predicate InventoryNumberTaken(db: Db, number: string)
  {
    exists c :: c in db.copies && db.copies[c].inventoryNumber == number
  }

  predicate Reviewed(db: Db, user: Id, book: Id)
  {
    exists r :: r in db.reviews && db.reviews[r].user == user && db.reviews[r].book == book
  }

  predicate HasCategoryStats(db: Db, category: Id)
  {
    exists s :: s in db.categoryStats && db.categoryStats[s].category == category
  }

  predicate HasAuthorStats(db: Db, author: Id)
  {
    exists s :: s in db.authorStats && db.authorStats[s].author == author
  }

  /** Some analytics row other than the one under id already belongs to the category. */
  predicate CategoryStatsElsewhere(db: Db, category: Id, id: Id)
  {
    exists s :: s in db.categoryStats && db.categoryStats[s].category == category && s != id
  }

  predicate AuthorStatsElsewhere(db: Db, author: Id, id: Id)
  {
    exists s :: s in db.authorStats && db.authorStats[s].author == author && s != id
  }

  // ----- library/models.py -----

  function AddAuthor(db: Db, a: Author): Write
  {
    Write(db.(authors := db.authors[db.nextId := a], nextId := db.nextId + 1), Ok(db.nextId))
  }

  /** AuthorProfile.save(): its primary key is the author, so saving updates the
      author's profile when there is one and inserts it otherwise. */
  function SaveProfile(db: Db, author: Id, p: AuthorProfile): Write
  {
    if author !in db.authors then Refused(db, NotFound)
    else Write(db.(profiles := db.profiles[author := p]), Ok(author))
  }

  /** Category.save() of a new category. */
  function AddCategory(db: Db, c: Category, slugify: string -> string): Write
  {
    var row := WithSlug(c, slugify);
    if SlugTaken(db, row.slug, None) then Refused(db, ConstraintViolation)
    else Write(db.(categories := db.categories[db.nextId := row], nextId := db.nextId + 1), Ok(db.nextId))
  }

  /** Category.save() of a category whose primary key is set: an UPDATE of the row
      under id, or, when no row has that key, an INSERT under it. The key counter
      then moves past id, so no later insert hands it out again. */
  function UpdateCategory(db: Db, id: Id, c: Category, slugify: string -> string): Write
  {
    var row := WithSlug(c, slugify);
    if SlugTaken(db, row.slug, Some(id)) then Refused(db, ConstraintViolation)
    else Write(db.(categories := db.categories[id := row], nextId := PastKey(db.nextId, id)), Ok(id))
  }

  /** The key counter after a row is stored under an explicit key. */
  function PastKey(next: Id, id: Id): (r: Id)
    ensures id < r && next <= r
    ensures next > id ==> r == next
  {
    if id < next then next else id + 1
  }

  function AddPublisher(db: Db, p: Publisher): Write
  {
    Write(db.(publishers := db.publishers[db.nextId := p], nextId := db.nextId + 1), Ok(db.nextId))
  }

  function AddBook(db: Db, b: Book): Write
  {
    if b.author !in db.authors then Refused(db, NotFound)
    else if IsbnTaken(db, b.isbn) then Refused(db, ConstraintViolation)
    else Write(db.(books := db.books[db.nextId := b], nextId := db.nextId + 1), Ok(db.nextId))
  }

  /** book.categories.add(category): adding a present link changes nothing. */
  function LinkCategory(db: Db, book: Id, category: Id): Write
  {
    if book !in db.books || category !in db.categories then Refused(db, NotFound)
    else Write(db.(bookCategories := db.bookCategories + {(book, category)}), Ok(book))
  }

  function AddPublication(db: Db, p: Publication): Write
  {
    if p.book !in db.books || p.publisher !in db.publishers then Refused(db, NotFound)
    else if TripleTaken(db, p) then Refused(db, ConstraintViolation)
    else Write(db.(publications := db.publications[db.nextId := p], nextId := db.nextId + 1), Ok(db.nextId))
  }

  // ----- management/models.py -----

  function AddBranch(db: Db, br: LibraryBranch): Write
  {
    Write(db.(branches := db.branches[db.nextId := br], nextId := db.nextId + 1), Ok(db.nextId))
  }

  function AddCopy(db: Db, c: BookCopy): Write
  {
    if c.book !in db.books || c.branch !in db.branches then Refused(db, NotFound)
    else if InventoryNumberTaken(db, c.inventoryNumber) then Refused(db, ConstraintViolation)
    else Write(db.(copies := db.copies[db.nextId := c], nextId := db.nextId + 1), Ok(db.nextId))
  }

  function AddLoan(db: Db, l: BookLoan): Write
  {
    if l.copy !in db.copies || l.borrower !in db.users then Refused(db, NotFound)
    else Write(db.(loans := db.loans[db.nextId := l], nextId := db.nextId + 1), Ok(db.nextId))
  }

  /** request_date is auto_now_add: the store stamps it. */
  function AddReservation(db: Db, r: Reservation, now: Timestamp): Write
  {
    if r.book !in db.books || r.user !in db.users || r.branch !in db.branches then Refused(db, NotFound)
    else Write(db.(reservations := db.reservations[db.nextId := r.(requestDate := now)],
                   nextId := db.nextId + 1), Ok(db.nextId))
  }

  // ----- users/models.py -----

  function AddUser(db: Db, u: LibraryUser): Write
  {
    Write(db.(users := db.users[db.nextId := u], nextId := db.nextId + 1), Ok(db.nextId))
  }

  /** user.favorite_categories.add(category) */
  function LinkFavorite(db: Db, user: Id, category: Id): Write
  {
    if user !in db.users || category !in db.categories then Refused(db, NotFound)
    else Write(db.(favorites := db.favorites + {(user, category)}), Ok(user))
  }

  function AddReadingList(db: Db, rl: ReadingList, now: Timestamp): Write
  {
    if rl.user !in db.users then Refused(db, NotFound)
    else Write(db.(readingLists := db.readingLists[db.nextId := rl.(createdAt := now)],
                   nextId := db.nextId + 1), Ok(db.nextId))
  }

  /** reading_list.books.add(book) */
  function LinkListBook(db: Db, list: Id, book: Id): Write
  {
    if list !in db.readingLists || book !in db.books then Refused(db, NotFound)
    else Write(db.(listBooks := db.listBooks + {(list, book)}), Ok(list))
  }

  function AddReview(db: Db, rv: BookReview, now: Timestamp): Write
  {
    if rv.user !in db.users || rv.book !in db.books then Refused(db, NotFound)
    else if !RatingChoice(rv.rating) then Refused(db, ValidationError)
    else if Reviewed(db, rv.user, rv.book) then Refused(db, ConstraintViolation)
    else Write(db.(reviews := db.reviews[db.nextId := rv.(createdAt := now)], nextId := db.nextId + 1),
               Ok(db.nextId))
  }

  // ----- analytics/models.py -----

  function AddView(db: Db, book: Id, user: Option<Id>, now: Timestamp): Write
  {
    if book !in db.books || (user.Some? && user.value !in db.users) then Refused(db, NotFound)
    else Write(db.(bookViews := db.bookViews[db.nextId := BookView(book, user, now)], nextId := db.nextId + 1),
               Ok(db.nextId))
  }

  /** A fresh analytics row: every counter starts at 0. */
  function AddCategoryStats(db: Db, category: Id, now: Timestamp): Write
  {
    if category !in db.categories then Refused(db, NotFound)
    else if HasCategoryStats(db, category) then Refused(db, ConstraintViolation)
    else Write(db.(categoryStats := db.categoryStats[db.nextId := CategoryAnalytics(category, now)],
                   nextId := db.nextId + 1), Ok(db.nextId))
  }

  /** CategoryAnalytics.save() of a row whose primary key is set: an UPDATE of
      the row under id, or, when no row has that key, an INSERT under it (the key
      counter then moves past id). The one-to-one field refuses a category that
      another row already holds; the CHECK constraint of a positive integer field
      refuses a negative counter; last_updated is auto_now. */
  function UpdateCategoryStats(db: Db, id: Id, category: Id, totalViews: int, totalBooks: int, score: real,
                               now: Timestamp): Write
  {
    if category !in db.categories then Refused(db, NotFound)
    else if totalViews < 0 || totalBooks < 0 then Refused(db, ConstraintViolation)
    else if CategoryStatsElsewhere(db, category, id) then Refused(db, ConstraintViolation)
    else Write(db.(categoryStats := db.categoryStats[id := CategoryAnalytics(category, now, totalViews, totalBooks, score)],
                   nextId := PastKey(db.nextId, id)), Ok(id))
  }

  function AddAuthorStats(db: Db, author: Id, now: Timestamp): Write
  {
    if author !in db.authors then Refused(db, NotFound)
    else if HasAuthorStats(db, author) then Refused(db, ConstraintViolation)
    else Write(db.(authorStats := db.authorStats[db.nextId := AuthorAnalytics(author, now)],
                   nextId := db.nextId + 1), Ok(db.nextId))
  }

  /** AuthorAnalytics.save() under a set primary key: the same UPDATE-then-INSERT
      and the same checks as for category analytics. */
  function UpdateAuthorStats(db: Db, id: Id, author: Id, totalViews: int, rating: real, totalReviews: int,
                             now: Timestamp): Write
  {
    if author !in db.authors then Refused(db, NotFound)
    else if totalViews < 0 || totalReviews < 0 then Refused(db, ConstraintViolation)
    else if AuthorStatsElsewhere(db, author, id) then Refused(db, ConstraintViolation)
    else Write(db.(authorStats := db.authorStats[id := AuthorAnalytics(author, now, totalViews, rating, totalReviews)],
                   nextId := PastKey(db.nextId, id)), Ok(id))
  }

  function AddRecommendation(db: Db, r: RecommendationLog, now: Timestamp): Write
  {
    if r.user !in db.users || r.book !in db.books then Refused(db, NotFound)
    else Write(db.(recommendations := db.recommendations[db.nextId := r.(timestamp := now)],
                   nextId := db.nextId + 1), Ok(db.nextId))
  }
}
