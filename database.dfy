/**
 * The whole schema as one value: a map from primary key to row per table,
 * plus the many-to-many link tables as sets of id pairs, and the declared
 * foreign-key, uniqueness and CHECK constraints as predicates over it.
 */
module Database {
  import opened Basics
  import opened Catalog
  import opened Circulation
  import opened Accounts
  import opened Analytics

  datatype Db = Db(
    authors: map<Id, Author>,
    profiles: map<Id, AuthorProfile>,         // keyed by the author's id
    categories: map<Id, Category>,
    publishers: map<Id, Publisher>,
    books: map<Id, Book>,
    bookCategories: set<(Id, Id)>,            // (book, category)
    publications: map<Id, Publication>,
    branches: map<Id, LibraryBranch>,
    copies: map<Id, BookCopy>,
    loans: map<Id, BookLoan>,
    reservations: map<Id, Reservation>,
    users: map<Id, LibraryUser>,
    favorites: set<(Id, Id)>,                 // (user, category)
    readingLists: map<Id, ReadingList>,
    listBooks: set<(Id, Id)>,                 // (reading list, book)
    reviews: map<Id, BookReview>,
    bookViews: map<Id, BookView>,
    categoryStats: map<Id, CategoryAnalytics>,
    authorStats: map<Id, AuthorAnalytics>,
    recommendations: map<Id, RecommendationLog>,
    nextId: Id)                               // the next primary key to hand out

  /** The empty database. */
  function EmptyDb(): Db
  {
    Db(map[], map[], map[], map[], map[], {}, map[], map[], map[], map[], map[],
       map[], {}, map[], {}, map[], map[], map[], map[], map[], 0)
  }

  // Each constraint is a predicate over exactly the tables it mentions, so that
  // a write to one table leaves the others' constraints syntactically untouched.

  // ----- library/models.py -----

  /** The profile's primary key is its author. */
  ghost predicate ProfilesOwned(profiles: map<Id, AuthorProfile>, authors: map<Id, Author>)
  {
    forall a :: a in profiles ==> a in authors
  }

  ghost predicate BooksAuthored(books: map<Id, Book>, authors: map<Id, Author>)
  {
    forall b :: b in books ==> books[b].author in authors
  }

  ghost predicate IsbnsUnique(books: map<Id, Book>)
  {
    forall b, e :: b in books && e in books && books[b].isbn == books[e].isbn ==> b == e
  }

  ghost predicate SlugsUnique(categories: map<Id, Category>)
  {
    forall c, d :: c in categories && d in categories && categories[c].slug == categories[d].slug ==> c == d
  }

  ghost predicate BookCategoryLinks(links: set<(Id, Id)>, books: map<Id, Book>, categories: map<Id, Category>)
  {
    forall l :: l in links ==> l.0 in books && l.1 in categories
  }

  ghost predicate PublicationRefs(pubs: map<Id, Publication>, books: map<Id, Book>, publishers: map<Id, Publisher>)
  {
    forall p :: p in pubs ==> pubs[p].book in books && pubs[p].publisher in publishers
  }

  /** unique_together = (book, publisher, country) */
  ghost predicate PublicationTriplesUnique(pubs: map<Id, Publication>)
  {
    forall p, q ::
      && p in pubs && q in pubs
      && pubs[p].book == pubs[q].book && pubs[p].publisher == pubs[q].publisher
      && pubs[p].country == pubs[q].country
      ==> p == q
  }

  // ----- management/models.py -----

  ghost predicate CopyRefs(copies: map<Id, BookCopy>, books: map<Id, Book>, branches: map<Id, LibraryBranch>)
  {
    forall c :: c in copies ==> copies[c].book in books && copies[c].branch in branches
  }

  ghost predicate InventoryNumbersUnique(copies: map<Id, BookCopy>)
  {
    forall c, d :: c in copies && d in copies && copies[c].inventoryNumber == copies[d].inventoryNumber ==> c == d
  }

  ghost predicate LoanRefs(loans: map<Id, BookLoan>, copies: map<Id, BookCopy>, users: map<Id, LibraryUser>)
  {
    forall l :: l in loans ==> loans[l].copy in copies && loans[l].borrower in users
  }

  ghost predicate ReservationRefs(res: map<Id, Reservation>, books: map<Id, Book>,
                                  users: map<Id, LibraryUser>, branches: map<Id, LibraryBranch>)
  {
    forall r :: r in res ==> res[r].book in books && res[r].user in users && res[r].branch in branches
  }

  // ----- users/models.py -----

  ghost predicate FavoriteLinks(favorites: set<(Id, Id)>, users: map<Id, LibraryUser>, categories: map<Id, Category>)
  {
    forall f :: f in favorites ==> f.0 in users && f.1 in categories
  }

  ghost predicate ListRefs(lists: map<Id, ReadingList>, users: map<Id, LibraryUser>)
  {
    forall r :: r in lists ==> lists[r].user in users
  }

  ghost predicate ListBookLinks(links: set<(Id, Id)>, lists: map<Id, ReadingList>, books: map<Id, Book>)
  {
    forall l :: l in links ==> l.0 in lists && l.1 in books
  }

  /** Every stored review names a live user and book and holds a rating choice. */
  ghost predicate ReviewRefs(reviews: map<Id, BookReview>, users: map<Id, LibraryUser>, books: map<Id, Book>)
  {
    forall r :: r in reviews ==>
      reviews[r].user in users && reviews[r].book in books && RatingChoice(reviews[r].rating)
  }

  /** unique_together = (user, book) */
  ghost predicate ReviewPairsUnique(reviews: map<Id, BookReview>)
  {
    forall r, s ::
      r in reviews && s in reviews && reviews[r].user == reviews[s].user && reviews[r].book == reviews[s].book
      ==> r == s
  }

  // ----- analytics/models.py -----

  /** A view's user may be null; when it is not, it names a live user. */
  ghost predicate ViewRefs(views: map<Id, BookView>, books: map<Id, Book>, users: map<Id, LibraryUser>)
  {
    forall v :: v in views ==> views[v].book in books && (views[v].user.Some? ==> views[v].user.value in users)
  }

  /** A one-to-one field: a live category, and at most one row per category. */
  ghost predicate CategoryStatsOwned(stats: map<Id, CategoryAnalytics>, categories: map<Id, Category>)
  {
    && (forall s :: s in stats ==> stats[s].category in categories)
    && (forall s, t :: s in stats && t in stats && stats[s].category == stats[t].category ==> s == t)
  }

  ghost predicate AuthorStatsOwned(stats: map<Id, AuthorAnalytics>, authors: map<Id, Author>)
  {
    && (forall s :: s in stats ==> stats[s].author in authors)
    && (forall s, t :: s in stats && t in stats && stats[s].author == stats[t].author ==> s == t)
  }

  ghost predicate RecommendationRefs(recs: map<Id, RecommendationLog>, users: map<Id, LibraryUser>,
                                     books: map<Id, Book>)
  {
    forall r :: r in recs ==> recs[r].user in users && recs[r].book in books
  }

  // ----- primary keys -----

  ghost predicate KeysBelow<T>(m: map<Id, T>, bound: Id)
  {
    forall k :: k in m ==> k < bound
  }

  /** Every auto-incremented key was handed out before nextId. */
  ghost predicate FreshKeys(db: Db)
  {
    && KeysBelow(db.authors, db.nextId) && KeysBelow(db.categories, db.nextId)
    && KeysBelow(db.publishers, db.nextId) && KeysBelow(db.books, db.nextId)
    && KeysBelow(db.publications, db.nextId) && KeysBelow(db.branches, db.nextId)
    && KeysBelow(db.copies, db.nextId) && KeysBelow(db.loans, db.nextId)
    && KeysBelow(db.reservations, db.nextId) && KeysBelow(db.users, db.nextId)
    && KeysBelow(db.readingLists, db.nextId) && KeysBelow(db.reviews, db.nextId)
    && KeysBelow(db.bookViews, db.nextId) && KeysBelow(db.categoryStats, db.nextId)
    && KeysBelow(db.authorStats, db.nextId) && KeysBelow(db.recommendations, db.nextId)
  }

  ghost predicate CatalogSound(db: Db)
  {
    && ProfilesOwned(db.profiles, db.authors) && BooksAuthored(db.books, db.authors)
    && IsbnsUnique(db.books) && SlugsUnique(db.categories)
    && BookCategoryLinks(db.bookCategories, db.books, db.categories)
    && PublicationRefs(db.publications, db.books, db.publishers) && PublicationTriplesUnique(db.publications)
  }

  ghost predicate CirculationSound(db: Db)
  {
    && CopyRefs(db.copies, db.books, db.branches) && InventoryNumbersUnique(db.copies)
    && LoanRefs(db.loans, db.copies, db.users)
    && ReservationRefs(db.reservations, db.books, db.users, db.branches)
  }

  ghost predicate AccountsSound(db: Db)
  {
    && FavoriteLinks(db.favorites, db.users, db.categories) && ListRefs(db.readingLists, db.users)
    && ListBookLinks(db.listBooks, db.readingLists, db.books)
    && ReviewRefs(db.reviews, db.users, db.books) && ReviewPairsUnique(db.reviews)
  }

  ghost predicate AnalyticsSound(db: Db)
  {
    && ViewRefs(db.bookViews, db.books, db.users)
    && CategoryStatsOwned(db.categoryStats, db.categories) && AuthorStatsOwned(db.authorStats, db.authors)
    && RecommendationRefs(db.recommendations, db.users, db.books)
  }

  /** Everything the schema declares: referential integrity, uniqueness, value domains. */
  ghost predicate Integrity(db: Db)
  {
    CatalogSound(db) && CirculationSound(db) && AccountsSound(db) && AnalyticsSound(db) && FreshKeys(db)
  }

  lemma EmptyDbSound()
    ensures Integrity(EmptyDb())
  {
  }
}
