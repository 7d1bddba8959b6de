/** Every write keeps the schema's constraints. */
module WritesSound {
  import opened Basics
  import opened Catalog
  import opened Circulation
  import opened Accounts
  import opened Analytics
  import opened Database
  import opened Writes

  lemma AddAuthorSound(db: Db, a: Author)
    requires Integrity(db)
    ensures Integrity(AddAuthor(db, a).db)
  {
  }

  lemma SaveProfileSound(db: Db, author: Id, p: AuthorProfile)
    requires Integrity(db)
    ensures Integrity(SaveProfile(db, author, p).db)
  {
  }

  lemma AddCategorySound(db: Db, c: Category, slugify: string -> string)
    requires Integrity(db)
    ensures Integrity(AddCategory(db, c, slugify).db)
  {
    var w := AddCategory(db, c, slugify);
    if w.outcome.Ok? {
      CategoryAddedCatalog(db, WithSlug(c, slugify), w.db);
      CategoryAddedElsewhere(db, WithSlug(c, slugify), w.db);
    }
  }

  /** A new category whose slug is unused keeps the catalog's constraints. */
  lemma CategoryAddedCatalog(db: Db, row: Category, r: Db)
    requires CatalogSound(db) && db.nextId !in db.categories && !SlugTaken(db, row.slug, None)
    requires r == db.(categories := db.categories[db.nextId := row], nextId := db.nextId + 1)
    ensures CatalogSound(r)
  {
  }

  /** Favourites and category analytics only point at categories, so a new one keeps them. */
  lemma CategoryAddedElsewhere(db: Db, row: Category, r: Db)
    requires CirculationSound(db) && AccountsSound(db) && AnalyticsSound(db) && FreshKeys(db)
    requires r == db.(categories := db.categories[db.nextId := row], nextId := db.nextId + 1)
    ensures CirculationSound(r) && AccountsSound(r) && AnalyticsSound(r) && FreshKeys(r)
  {
  }

  lemma UpdateCategorySound(db: Db, id: Id, c: Category, slugify: string -> string)
    requires Integrity(db)
    ensures Integrity(UpdateCategory(db, id, c, slugify).db)
  {
    var w := UpdateCategory(db, id, c, slugify);
    if w.outcome.Ok? {
      if id in db.categories {
        CategoryEditedCatalog(db, id, WithSlug(c, slugify), w.db);
        CategoryEditedElsewhere(db, id, WithSlug(c, slugify), w.db);
      } else {
        CategoryPutCatalog(db, id, WithSlug(c, slugify), w.db);
        CategoryPutElsewhere(db, id, WithSlug(c, slugify), w.db);
      }
    }
  }

  /** Editing a category to a slug no other category holds keeps the catalog's constraints. */
  lemma CategoryEditedCatalog(db: Db, id: Id, row: Category, r: Db)
    requires CatalogSound(db) && id in db.categories && !SlugTaken(db, row.slug, Some(id))
    requires r == db.(categories := db.categories[id := row])
    ensures CatalogSound(r)
  {
  }

  /** Editing a category keeps its key, so whatever points at it still does. */
  lemma CategoryEditedElsewhere(db: Db, id: Id, row: Category, r: Db)
    requires CirculationSound(db) && AccountsSound(db) && AnalyticsSound(db) && FreshKeys(db)
    requires id in db.categories && r == db.(categories := db.categories[id := row])
    ensures CirculationSound(r) && AccountsSound(r) && AnalyticsSound(r) && FreshKeys(r)
  {
  }

  /** Inserting a category under a key no category holds, with a slug no category holds, keeps the catalog's constraints. */
  lemma CategoryPutCatalog(db: Db, id: Id, row: Category, r: Db)
    requires CatalogSound(db) && id !in db.categories && !SlugTaken(db, row.slug, Some(id))
    requires r == db.(categories := db.categories[id := row], nextId := PastKey(db.nextId, id))
    ensures CatalogSound(r)
  {
  }

  /** A category inserted under an explicit key is named by nothing yet, and the counter moves past the key. */
  lemma CategoryPutElsewhere(db: Db, id: Id, row: Category, r: Db)
    requires CirculationSound(db) && AccountsSound(db) && AnalyticsSound(db) && FreshKeys(db)
    requires id !in db.categories && r == db.(categories := db.categories[id := row], nextId := PastKey(db.nextId, id))
    ensures CirculationSound(r) && AccountsSound(r) && AnalyticsSound(r) && FreshKeys(r)
  {
  }

  lemma AddPublisherSound(db: Db, p: Publisher)
    requires Integrity(db)
    ensures Integrity(AddPublisher(db, p).db)
  {
  }

  lemma AddBookSound(db: Db, b: Book)
    requires Integrity(db)
    ensures Integrity(AddBook(db, b).db)
  {
    if AddBook(db, b).outcome.Ok? {
      BookAddedCatalog(db, b, AddBook(db, b).db);
      BookAddedElsewhere(db, b, AddBook(db, b).db);
    }
  }

  /** A new book whose author exists and whose ISBN is unused keeps the catalog's constraints. */
  lemma BookAddedCatalog(db: Db, b: Book, r: Db)
    requires CatalogSound(db) && db.nextId !in db.books
    requires b.author in db.authors && !IsbnTaken(db, b.isbn)
    requires r == db.(books := db.books[db.nextId := b], nextId := db.nextId + 1)
    ensures CatalogSound(r)
  {
  }

  /** The other apps only point at books, so a new book keeps their constraints. */
  lemma BookAddedElsewhere(db: Db, b: Book, r: Db)
    requires CirculationSound(db) && AccountsSound(db) && AnalyticsSound(db) && FreshKeys(db)
    requires r == db.(books := db.books[db.nextId := b], nextId := db.nextId + 1)
    ensures CirculationSound(r) && AccountsSound(r) && AnalyticsSound(r) && FreshKeys(r)
  {
  }

  lemma LinkCategorySound(db: Db, book: Id, category: Id)
    requires Integrity(db)
    ensures Integrity(LinkCategory(db, book, category).db)
  {
  }

  lemma AddPublicationSound(db: Db, p: Publication)
    requires Integrity(db)
    ensures Integrity(AddPublication(db, p).db)
  {
  }

  lemma AddBranchSound(db: Db, br: LibraryBranch)
    requires Integrity(db)
    ensures Integrity(AddBranch(db, br).db)
  {
  }

  lemma AddCopySound(db: Db, c: BookCopy)
    requires Integrity(db)
    ensures Integrity(AddCopy(db, c).db)
  {
    if AddCopy(db, c).outcome.Ok? {
      CopyAddedCirculation(db, c, AddCopy(db, c).db);
      CopyAddedElsewhere(db, c, AddCopy(db, c).db);
    }
  }

  /** A new copy of an existing book at an existing branch, with an unused inventory
      number, keeps the circulation constraints. */
  lemma CopyAddedCirculation(db: Db, c: BookCopy, r: Db)
    requires CirculationSound(db) && db.nextId !in db.copies
    requires c.book in db.books && c.branch in db.branches && !InventoryNumberTaken(db, c.inventoryNumber)
    requires r == db.(copies := db.copies[db.nextId := c], nextId := db.nextId + 1)
    ensures CirculationSound(r)
  {
  }

  /** No other app points at copies, so a new copy keeps their constraints. */
  lemma CopyAddedElsewhere(db: Db, c: BookCopy, r: Db)
    requires CatalogSound(db) && AccountsSound(db) && AnalyticsSound(db) && FreshKeys(db)
    requires r == db.(copies := db.copies[db.nextId := c], nextId := db.nextId + 1)
    ensures CatalogSound(r) && AccountsSound(r) && AnalyticsSound(r) && FreshKeys(r)
  {
  }

  lemma AddLoanSound(db: Db, l: BookLoan)
    requires Integrity(db)
    ensures Integrity(AddLoan(db, l).db)
  {
  }

  lemma AddReservationSound(db: Db, r: Reservation, now: Timestamp)
    requires Integrity(db)
    ensures Integrity(AddReservation(db, r, now).db)
  {
  }

  lemma AddUserSound(db: Db, u: LibraryUser)
    requires Integrity(db)
    ensures Integrity(AddUser(db, u).db)
  {
  }

  lemma LinkFavoriteSound(db: Db, user: Id, category: Id)
    requires Integrity(db)
    ensures Integrity(LinkFavorite(db, user, category).db)
  {
  }

  lemma AddReadingListSound(db: Db, rl: ReadingList, now: Timestamp)
    requires Integrity(db)
    ensures Integrity(AddReadingList(db, rl, now).db)
  {
  }

  lemma LinkListBookSound(db: Db, list: Id, book: Id)
    requires Integrity(db)
    ensures Integrity(LinkListBook(db, list, book).db)
  {
  }

  lemma AddReviewSound(db: Db, rv: BookReview, now: Timestamp)
    requires Integrity(db)
    ensures Integrity(AddReview(db, rv, now).db)
  {
    var w := AddReview(db, rv, now);
    if w.outcome.Ok? {
      ReviewAddedAccounts(db, rv.(createdAt := now), w.db);
      ReviewAddedElsewhere(db, rv.(createdAt := now), w.db);
    }
  }

  /** A first review by a live user of a live book, holding a rating choice, keeps the
      accounts' constraints. */
  lemma ReviewAddedAccounts(db: Db, rv: BookReview, r: Db)
    requires AccountsSound(db) && db.nextId !in db.reviews
    requires rv.user in db.users && rv.book in db.books && RatingChoice(rv.rating)
    requires !Reviewed(db, rv.user, rv.book)
    requires r == db.(reviews := db.reviews[db.nextId := rv], nextId := db.nextId + 1)
    ensures AccountsSound(r)
  {
  }

  /** Nothing points at reviews, so a new one keeps the other apps' constraints. */
  lemma ReviewAddedElsewhere(db: Db, rv: BookReview, r: Db)
    requires CatalogSound(db) && CirculationSound(db) && AnalyticsSound(db) && FreshKeys(db)
    requires r == db.(reviews := db.reviews[db.nextId := rv], nextId := db.nextId + 1)
    ensures CatalogSound(r) && CirculationSound(r) && AnalyticsSound(r) && FreshKeys(r)
  {
  }

  lemma AddViewSound(db: Db, book: Id, user: Option<Id>, now: Timestamp)
    requires Integrity(db)
    ensures Integrity(AddView(db, book, user, now).db)
  {
  }

  lemma AddCategoryStatsSound(db: Db, category: Id, now: Timestamp)
    requires Integrity(db)
    ensures Integrity(AddCategoryStats(db, category, now).db)
  {
    var w := AddCategoryStats(db, category, now);
    if w.outcome.Ok? {
      CategoryStatsAddedAnalytics(db, CategoryAnalytics(category, now), w.db);
      CategoryStatsAddedElsewhere(db, CategoryAnalytics(category, now), w.db);
    }
  }

  /** A first analytics row of a live category keeps the analytics constraints. */
  lemma CategoryStatsAddedAnalytics(db: Db, s: CategoryAnalytics, r: Db)
    requires AnalyticsSound(db) && db.nextId !in db.categoryStats && s.category in db.categories && !HasCategoryStats(db, s.category)
    requires r == db.(categoryStats := db.categoryStats[db.nextId := s], nextId := db.nextId + 1)
    ensures AnalyticsSound(r)
  {
  }

  /** Nothing points at analytics rows, so a new one keeps the other apps' constraints. */
  lemma CategoryStatsAddedElsewhere(db: Db, s: CategoryAnalytics, r: Db)
    requires CatalogSound(db) && CirculationSound(db) && AccountsSound(db) && FreshKeys(db)
    requires r == db.(categoryStats := db.categoryStats[db.nextId := s], nextId := db.nextId + 1)
    ensures CatalogSound(r) && CirculationSound(r) && AccountsSound(r) && FreshKeys(r)
  {
  }

  lemma UpdateCategoryStatsSound(db: Db, id: Id, category: Id, totalViews: int, totalBooks: int, score: real,
                                  now: Timestamp)
    requires Integrity(db)
    ensures Integrity(UpdateCategoryStats(db, id, category, totalViews, totalBooks, score, now).db)
  {
    var w := UpdateCategoryStats(db, id, category, totalViews, totalBooks, score, now);
    if w.outcome.Ok? {
      var s := CategoryAnalytics(category, now, totalViews, totalBooks, score);
      CategoryStatsPutAnalytics(db, id, s, w.db);
      CategoryStatsPutElsewhere(db, id, s, w.db);
    }
  }

  /** Storing a row of a live category under id, when no other row holds that
      category, keeps the analytics constraints. */
  lemma CategoryStatsPutAnalytics(db: Db, id: Id, s: CategoryAnalytics, r: Db)
    requires AnalyticsSound(db) && s.category in db.categories && !CategoryStatsElsewhere(db, s.category, id)
    requires r == db.(categoryStats := db.categoryStats[id := s], nextId := PastKey(db.nextId, id))
    ensures AnalyticsSound(r)
  {
  }

  /** Nothing points at analytics rows, and the counter moves past id, so the other apps' constraints hold. */
  lemma CategoryStatsPutElsewhere(db: Db, id: Id, s: CategoryAnalytics, r: Db)
    requires CatalogSound(db) && CirculationSound(db) && AccountsSound(db) && FreshKeys(db)
    requires r == db.(categoryStats := db.categoryStats[id := s], nextId := PastKey(db.nextId, id))
    ensures CatalogSound(r) && CirculationSound(r) && AccountsSound(r) && FreshKeys(r)
  {
  }

  lemma AddAuthorStatsSound(db: Db, author: Id, now: Timestamp)
    requires Integrity(db)
    ensures Integrity(AddAuthorStats(db, author, now).db)
  {
    var w := AddAuthorStats(db, author, now);
    if w.outcome.Ok? {
      AuthorStatsAddedAnalytics(db, AuthorAnalytics(author, now), w.db);
      AuthorStatsAddedElsewhere(db, AuthorAnalytics(author, now), w.db);
    }
  }

  /** A first analytics row of a live author keeps the analytics constraints. */
  lemma AuthorStatsAddedAnalytics(db: Db, s: AuthorAnalytics, r: Db)
    requires AnalyticsSound(db) && db.nextId !in db.authorStats && s.author in db.authors && !HasAuthorStats(db, s.author)
    requires r == db.(authorStats := db.authorStats[db.nextId := s], nextId := db.nextId + 1)
    ensures AnalyticsSound(r)
  {
  }

  /** Nothing points at analytics rows, so a new one keeps the other apps' constraints. */
  lemma AuthorStatsAddedElsewhere(db: Db, s: AuthorAnalytics, r: Db)
    requires CatalogSound(db) && CirculationSound(db) && AccountsSound(db) && FreshKeys(db)
    requires r == db.(authorStats := db.authorStats[db.nextId := s], nextId := db.nextId + 1)
    ensures CatalogSound(r) && CirculationSound(r) && AccountsSound(r) && FreshKeys(r)
  {
  }

  lemma UpdateAuthorStatsSound(db: Db, id: Id, author: Id, totalViews: int, rating: real, totalReviews: int,
                                now: Timestamp)
    requires Integrity(db)
    ensures Integrity(UpdateAuthorStats(db, id, author, totalViews, rating, totalReviews, now).db)
  {
    var w := UpdateAuthorStats(db, id, author, totalViews, rating, totalReviews, now);
    if w.outcome.Ok? {
      var s := AuthorAnalytics(author, now, totalViews, rating, totalReviews);
      AuthorStatsPutAnalytics(db, id, s, w.db);
      AuthorStatsPutElsewhere(db, id, s, w.db);
    }
  }

  /** Storing a row of a live author under id, when no other row holds that
      author, keeps the analytics constraints. */
  lemma AuthorStatsPutAnalytics(db: Db, id: Id, s: AuthorAnalytics, r: Db)
    requires AnalyticsSound(db) && s.author in db.authors && !AuthorStatsElsewhere(db, s.author, id)
    requires r == db.(authorStats := db.authorStats[id := s], nextId := PastKey(db.nextId, id))
    ensures AnalyticsSound(r)
  {
  }

  /** Nothing points at analytics rows, and the counter moves past id, so the other apps' constraints hold. */
  lemma AuthorStatsPutElsewhere(db: Db, id: Id, s: AuthorAnalytics, r: Db)
    requires CatalogSound(db) && CirculationSound(db) && AccountsSound(db) && FreshKeys(db)
    requires r == db.(authorStats := db.authorStats[id := s], nextId := PastKey(db.nextId, id))
    ensures CatalogSound(r) && CirculationSound(r) && AccountsSound(r) && FreshKeys(r)
  {
  }

  lemma AddRecommendationSound(db: Db, r: RecommendationLog, now: Timestamp)
    requires Integrity(db)
    ensures Integrity(AddRecommendation(db, r, now).db)
  {
    var w := AddRecommendation(db, r, now);
    if w.outcome.Ok? {
      RecommendationAddedAnalytics(db, r.(timestamp := now), w.db);
      RecommendationAddedElsewhere(db, r.(timestamp := now), w.db);
    }
  }

  /** A recommendation of a live book to a live user keeps the analytics constraints. */
  lemma RecommendationAddedAnalytics(db: Db, rec: RecommendationLog, r: Db)
    requires AnalyticsSound(db) && db.nextId !in db.recommendations && rec.user in db.users && rec.book in db.books
    requires r == db.(recommendations := db.recommendations[db.nextId := rec], nextId := db.nextId + 1)
    ensures AnalyticsSound(r)
  {
  }

  /** Nothing points at recommendations, so a new one keeps the other apps' constraints. */
  lemma RecommendationAddedElsewhere(db: Db, rec: RecommendationLog, r: Db)
    requires CatalogSound(db) && CirculationSound(db) && AccountsSound(db) && FreshKeys(db)
    requires r == db.(recommendations := db.recommendations[db.nextId := rec], nextId := db.nextId + 1)
    ensures CatalogSound(r) && CirculationSound(r) && AccountsSound(r) && FreshKeys(r)
  {
  }

}
