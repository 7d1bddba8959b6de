/**
 * The tables as the mutable state of one object, one field per Django app
 * (library, management, users, analytics), each holding that app's tables.
 * Every save, link or delete reassigns the tables in place and is specified by
 * the value-level write it performs, so the class invariant is the schema's
 * integrity.
 */
module Store {
  import opened Basics
  import opened Catalog
  import opened Circulation
  import opened Accounts
  import opened Analytics
  import opened Database
  import opened Writes
  import opened WritesSound
  import opened Cascade
  import opened CascadeFacts

  /** The tables of library/models.py. */
  datatype CatalogTables = CatalogTables(
    authors: map<Id, Author>,
    profiles: map<Id, AuthorProfile>,
    categories: map<Id, Category>,
    publishers: map<Id, Publisher>,
    books: map<Id, Book>,
    bookCategories: set<(Id, Id)>,
    publications: map<Id, Publication>)

  /** The tables of management/models.py. */
  datatype CirculationTables = CirculationTables(
    branches: map<Id, LibraryBranch>,
    copies: map<Id, BookCopy>,
    loans: map<Id, BookLoan>,
    reservations: map<Id, Reservation>)

  /** The tables of users/models.py. */
  datatype AccountTables = AccountTables(
    users: map<Id, LibraryUser>,
    favorites: set<(Id, Id)>,
    readingLists: map<Id, ReadingList>,
    listBooks: set<(Id, Id)>,
    reviews: map<Id, BookReview>)

  /** The tables of analytics/models.py. */
  datatype AnalyticsTables = AnalyticsTables(
    bookViews: map<Id, BookView>,
    categoryStats: map<Id, CategoryAnalytics>,
    authorStats: map<Id, AuthorAnalytics>,
    recommendations: map<Id, RecommendationLog>)

  class LibraryStore {
    var catalog: CatalogTables
    var circulation: CirculationTables
    var accounts: AccountTables
    var analytics: AnalyticsTables
    var nextId: Id

    /** All the tables as one value. */
    function Snapshot(): Db
      reads this
    {
      Db(catalog.authors, catalog.profiles, catalog.categories, catalog.publishers, catalog.books,
         catalog.bookCategories, catalog.publications,
         circulation.branches, circulation.copies, circulation.loans, circulation.reservations,
         accounts.users, accounts.favorites, accounts.readingLists, accounts.listBooks, accounts.reviews,
         analytics.bookViews, analytics.categoryStats, analytics.authorStats, analytics.recommendations,
         nextId)
    }

    /** Every foreign key resolves and every unique and CHECK constraint holds. */
    ghost predicate Valid()
      reads this
    {
      Integrity(Snapshot())
    }

    /** A freshly migrated, empty database. */
    constructor ()
      ensures Valid() && Snapshot() == EmptyDb()
    {
      catalog := CatalogTables(map[], map[], map[], map[], map[], {}, map[]);
      circulation := CirculationTables(map[], map[], map[], map[]);
      accounts := AccountTables(map[], {}, map[], {}, map[]);
      analytics := AnalyticsTables(map[], map[], map[], map[]);
      nextId := 0;
      EmptyDbSound();
    }

    // ----- library/models.py -----

    method InsertAuthor(a: Author) returns (r: Result<Id>)
      requires Valid()
      modifies this
      ensures Write(Snapshot(), r) == AddAuthor(old(Snapshot()), a)
      ensures Valid()
    {
      ghost var db0 := Snapshot();
      r := Ok(nextId);
      catalog, nextId := catalog.(authors := catalog.authors[nextId := a]), nextId + 1;
      assert Snapshot() == AddAuthor(db0, a).db;
      AddAuthorSound(db0, a);
    }

    /** AuthorProfile.save(): the author is the primary key, so an existing profile is overwritten. */
    method SaveProfile(author: Id, p: AuthorProfile) returns (r: Result<Id>)
      requires Valid()
      modifies this
      ensures Write(Snapshot(), r) == Writes.SaveProfile(old(Snapshot()), author, p)
      ensures Valid()
    {
      ghost var db0 := Snapshot();
      if author !in catalog.authors {
        return Err(NotFound);
      }
      catalog := catalog.(profiles := catalog.profiles[author := p]);
      r := Ok(author);
      assert Snapshot() == Writes.SaveProfile(db0, author, p).db;
      WritesSound.SaveProfileSound(db0, author, p);
    }

    /** Category.save() of a new row: an empty slug is first filled from the name. */
    method InsertCategory(c: Category, slugify: string -> string) returns (r: Result<Id>)
      requires Valid()
      modifies this
      ensures Write(Snapshot(), r) == AddCategory(old(Snapshot()), c, slugify)
      ensures Valid()
    {
      ghost var db0 := Snapshot();
      var row := c;
      if row.slug == "" {
        row := row.(slug := slugify(row.name));
      }
      if SlugTaken(Snapshot(), row.slug, None) {
        return Err(ConstraintViolation);
      }
      r := Ok(nextId);
      catalog, nextId := catalog.(categories := catalog.categories[nextId := row]), nextId + 1;
      assert Snapshot() == AddCategory(db0, c, slugify).db;
      AddCategorySound(db0, c, slugify);
    }

    /** Category.save() with the primary key set: the row under id is overwritten, or inserted when there is none. */
    method SaveCategory(id: Id, c: Category, slugify: string -> string) returns (r: Result<Id>)
      requires Valid()
      modifies this
      ensures Write(Snapshot(), r) == UpdateCategory(old(Snapshot()), id, c, slugify)
      ensures Valid()
    {
      ghost var db0 := Snapshot();
      var row := c;
      if row.slug == "" {
        row := row.(slug := slugify(row.name));
      }
      if SlugTaken(Snapshot(), row.slug, Some(id)) {
        return Err(ConstraintViolation);
      }
      r := Ok(id);
      catalog, nextId := catalog.(categories := catalog.categories[id := row]), PastKey(nextId, id);
      assert Snapshot() == UpdateCategory(db0, id, c, slugify).db;
      UpdateCategorySound(db0, id, c, slugify);
    }

    method InsertPublisher(p: Publisher) returns (r: Result<Id>)
      requires Valid()
      modifies this
      ensures Write(Snapshot(), r) == AddPublisher(old(Snapshot()), p)
      ensures Valid()
    {
      ghost var db0 := Snapshot();
      r := Ok(nextId);
      catalog, nextId := catalog.(publishers := catalog.publishers[nextId := p]), nextId + 1;
      assert Snapshot() == AddPublisher(db0, p).db;
      AddPublisherSound(db0, p);
    }

    method InsertBook(b: Book) returns (r: Result<Id>)
      requires Valid()
      modifies this
      ensures Write(Snapshot(), r) == AddBook(old(Snapshot()), b)
      ensures Valid()
    {
      ghost var db0 := Snapshot();
      if b.author !in catalog.authors {
        return Err(NotFound);
      }
      if IsbnTaken(Snapshot(), b.isbn) {
        return Err(ConstraintViolation);
      }
      r := Ok(nextId);
      catalog, nextId := catalog.(books := catalog.books[nextId := b]), nextId + 1;
      assert Snapshot() == AddBook(db0, b).db;
      AddBookSound(db0, b);
    }

    /** book.categories.add(category) */
    method AddBookCategory(book: Id, category: Id) returns (r: Result<Id>)
      requires Valid()
      modifies this
      ensures Write(Snapshot(), r) == LinkCategory(old(Snapshot()), book, category)
      ensures Valid()
    {
      ghost var db0 := Snapshot();
      if book !in catalog.books || category !in catalog.categories {
        return Err(NotFound);
      }
      catalog := catalog.(bookCategories := catalog.bookCategories + {(book, category)});
      r := Ok(book);
      assert Snapshot() == LinkCategory(db0, book, category).db;
      LinkCategorySound(db0, book, category);
    }

    method InsertPublication(p: Publication) returns (r: Result<Id>)
      requires Valid()
      modifies this
      ensures Write(Snapshot(), r) == AddPublication(old(Snapshot()), p)
      ensures Valid()
    {
      ghost var db0 := Snapshot();
      if p.book !in catalog.books || p.publisher !in catalog.publishers {
        return Err(NotFound);
      }
      if TripleTaken(Snapshot(), p) {
        return Err(ConstraintViolation);
      }
      r := Ok(nextId);
      catalog, nextId := catalog.(publications := catalog.publications[nextId := p]), nextId + 1;
      assert Snapshot() == AddPublication(db0, p).db;
      AddPublicationSound(db0, p);
    }

    // ----- management/models.py -----

    method InsertBranch(br: LibraryBranch) returns (r: Result<Id>)
      requires Valid()
      modifies this
      ensures Write(Snapshot(), r) == AddBranch(old(Snapshot()), br)
      ensures Valid()
    {
      ghost var db0 := Snapshot();
      r := Ok(nextId);
      circulation, nextId := circulation.(branches := circulation.branches[nextId := br]), nextId + 1;
      assert Snapshot() == AddBranch(db0, br).db;
      AddBranchSound(db0, br);
    }

    method InsertCopy(c: BookCopy) returns (r: Result<Id>)
      requires Valid()
      modifies this
      ensures Write(Snapshot(), r) == AddCopy(old(Snapshot()), c)
      ensures Valid()
    {
      ghost var db0 := Snapshot();
      if c.book !in catalog.books || c.branch !in circulation.branches {
        return Err(NotFound);
      }
      if InventoryNumberTaken(Snapshot(), c.inventoryNumber) {
        return Err(ConstraintViolation);
      }
      r := Ok(nextId);
      circulation, nextId := circulation.(copies := circulation.copies[nextId := c]), nextId + 1;
      assert Snapshot() == AddCopy(db0, c).db;
      AddCopySound(db0, c);
    }

    method InsertLoan(l: BookLoan) returns (r: Result<Id>)
      requires Valid()
      modifies this
      ensures Write(Snapshot(), r) == AddLoan(old(Snapshot()), l)
      ensures Valid()
    {
      ghost var db0 := Snapshot();
      if l.copy !in circulation.copies || l.borrower !in accounts.users {
        return Err(NotFound);
      }
      r := Ok(nextId);
      circulation, nextId := circulation.(loans := circulation.loans[nextId := l]), nextId + 1;
      assert Snapshot() == AddLoan(db0, l).db;
      AddLoanSound(db0, l);
    }

    /** request_date is auto_now_add: the store stamps it with now. */
    method InsertReservation(res: Reservation, now: Timestamp) returns (r: Result<Id>)
      requires Valid()
      modifies this
      ensures Write(Snapshot(), r) == AddReservation(old(Snapshot()), res, now)
      ensures Valid()
    {
      ghost var db0 := Snapshot();
      if res.book !in catalog.books || res.user !in accounts.users || res.branch !in circulation.branches {
        return Err(NotFound);
      }
      r := Ok(nextId);
      circulation, nextId := circulation.(reservations := circulation.reservations[nextId := res.(requestDate := now)]), nextId + 1;
      assert Snapshot() == AddReservation(db0, res, now).db;
      AddReservationSound(db0, res, now);
    }

    // ----- users/models.py -----

    method InsertUser(u: LibraryUser) returns (r: Result<Id>)
      requires Valid()
      modifies this
      ensures Write(Snapshot(), r) == AddUser(old(Snapshot()), u)
      ensures Valid()
    {
      ghost var db0 := Snapshot();
      r := Ok(nextId);
      accounts, nextId := accounts.(users := accounts.users[nextId := u]), nextId + 1;
      assert Snapshot() == AddUser(db0, u).db;
      AddUserSound(db0, u);
    }

    /** user.favorite_categories.add(category) */
    method AddFavorite(user: Id, category: Id) returns (r: Result<Id>)
      requires Valid()
      modifies this
      ensures Write(Snapshot(), r) == LinkFavorite(old(Snapshot()), user, category)
      ensures Valid()
    {
      ghost var db0 := Snapshot();
      if user !in accounts.users || category !in catalog.categories {
        return Err(NotFound);
      }
      accounts := accounts.(favorites := accounts.favorites + {(user, category)});
      r := Ok(user);
      assert Snapshot() == LinkFavorite(db0, user, category).db;
      LinkFavoriteSound(db0, user, category);
    }

    /** created_at is auto_now_add. */
    method InsertReadingList(rl: ReadingList, now: Timestamp) returns (r: Result<Id>)
      requires Valid()
      modifies this
      ensures Write(Snapshot(), r) == AddReadingList(old(Snapshot()), rl, now)
      ensures Valid()
    {
      ghost var db0 := Snapshot();
      if rl.user !in accounts.users {
        return Err(NotFound);
      }
      r := Ok(nextId);
      accounts, nextId := accounts.(readingLists := accounts.readingLists[nextId := rl.(createdAt := now)]), nextId + 1;
      assert Snapshot() == AddReadingList(db0, rl, now).db;
      AddReadingListSound(db0, rl, now);
    }

    /** reading_list.books.add(book) */
    method AddToReadingList(list: Id, book: Id) returns (r: Result<Id>)
      requires Valid()
      modifies this
      ensures Write(Snapshot(), r) == LinkListBook(old(Snapshot()), list, book)
      ensures Valid()
    {
      ghost var db0 := Snapshot();
      if list !in accounts.readingLists || book !in catalog.books {
        return Err(NotFound);
      }
      accounts := accounts.(listBooks := accounts.listBooks + {(list, book)});
      r := Ok(list);
      assert Snapshot() == LinkListBook(db0, list, book).db;
      LinkListBookSound(db0, list, book);
    }

    /** A review is validated (rating choice) before the unique (user, book) index is consulted. */
    method InsertReview(rv: BookReview, now: Timestamp) returns (r: Result<Id>)
      requires Valid()
      modifies this
      ensures Write(Snapshot(), r) == AddReview(old(Snapshot()), rv, now)
      ensures Valid()
    {
      ghost var db0 := Snapshot();
      if rv.user !in accounts.users || rv.book !in catalog.books {
        return Err(NotFound);
      }
      if !RatingChoice(rv.rating) {
        return Err(ValidationError);
      }
      if Reviewed(Snapshot(), rv.user, rv.book) {
        return Err(ConstraintViolation);
      }
      r := Ok(nextId);
      accounts, nextId := accounts.(reviews := accounts.reviews[nextId := rv.(createdAt := now)]), nextId + 1;
      assert Snapshot() == AddReview(db0, rv, now).db;
      AddReviewSound(db0, rv, now);
    }

    // ----- analytics/models.py -----

    method RecordView(book: Id, user: Option<Id>, now: Timestamp) returns (r: Result<Id>)
      requires Valid()
      modifies this
      ensures Write(Snapshot(), r) == AddView(old(Snapshot()), book, user, now)
      ensures Valid()
    {
      ghost var db0 := Snapshot();
      if book !in catalog.books || (user.Some? && user.value !in accounts.users) {
        return Err(NotFound);
      }
      r := Ok(nextId);
      analytics, nextId := analytics.(bookViews := analytics.bookViews[nextId := BookView(book, user, now)]), nextId + 1;
      assert Snapshot() == AddView(db0, book, user, now).db;
      AddViewSound(db0, book, user, now);
    }

    method InsertCategoryStats(category: Id, now: Timestamp) returns (r: Result<Id>)
      requires Valid()
      modifies this
      ensures Write(Snapshot(), r) == AddCategoryStats(old(Snapshot()), category, now)
      ensures Valid()
    {
      ghost var db0 := Snapshot();
      if category !in catalog.categories {
        return Err(NotFound);
      }
      if HasCategoryStats(Snapshot(), category) {
        return Err(ConstraintViolation);
      }
      r := Ok(nextId);
      analytics, nextId := analytics.(categoryStats := analytics.categoryStats[nextId := CategoryAnalytics(category, now)]), nextId + 1;
      assert Snapshot() == AddCategoryStats(db0, category, now).db;
      AddCategoryStatsSound(db0, category, now);
    }

    /** CategoryAnalytics.save() under a set key: UPDATE, or INSERT when no row has the key. */
    method SaveCategoryStats(id: Id, category: Id, totalViews: int, totalBooks: int, score: real, now: Timestamp)
      returns (r: Result<Id>)
      requires Valid()
      modifies this
      ensures Write(Snapshot(), r) == UpdateCategoryStats(old(Snapshot()), id, category, totalViews, totalBooks, score, now)
      ensures Valid()
    {
      ghost var db0 := Snapshot();
      if category !in catalog.categories {
        return Err(NotFound);
      }
      if totalViews < 0 || totalBooks < 0 || CategoryStatsElsewhere(Snapshot(), category, id) {
        return Err(ConstraintViolation);
      }
      var row := CategoryAnalytics(category, now, totalViews, totalBooks, score);
      analytics, nextId := analytics.(categoryStats := analytics.categoryStats[id := row]), PastKey(nextId, id);
      r := Ok(id);
      assert Snapshot() == UpdateCategoryStats(db0, id, category, totalViews, totalBooks, score, now).db;
      UpdateCategoryStatsSound(db0, id, category, totalViews, totalBooks, score, now);
    }

    method InsertAuthorStats(author: Id, now: Timestamp) returns (r: Result<Id>)
      requires Valid()
      modifies this
      ensures Write(Snapshot(), r) == AddAuthorStats(old(Snapshot()), author, now)
      ensures Valid()
    {
      ghost var db0 := Snapshot();
      if author !in catalog.authors {
        return Err(NotFound);
      }
      if HasAuthorStats(Snapshot(), author) {
        return Err(ConstraintViolation);
      }
      r := Ok(nextId);
      analytics, nextId := analytics.(authorStats := analytics.authorStats[nextId := AuthorAnalytics(author, now)]), nextId + 1;
      assert Snapshot() == AddAuthorStats(db0, author, now).db;
      AddAuthorStatsSound(db0, author, now);
    }

    /** AuthorAnalytics.save() under a set key: UPDATE, or INSERT when no row has the key. */
    method SaveAuthorStats(id: Id, author: Id, totalViews: int, rating: real, totalReviews: int, now: Timestamp)
      returns (r: Result<Id>)
      requires Valid()
      modifies this
      ensures Write(Snapshot(), r) == UpdateAuthorStats(old(Snapshot()), id, author, totalViews, rating, totalReviews, now)
      ensures Valid()
    {
      ghost var db0 := Snapshot();
      if author !in catalog.authors {
        return Err(NotFound);
      }
      if totalViews < 0 || totalReviews < 0 || AuthorStatsElsewhere(Snapshot(), author, id) {
        return Err(ConstraintViolation);
      }
      var row := AuthorAnalytics(author, now, totalViews, rating, totalReviews);
      analytics, nextId := analytics.(authorStats := analytics.authorStats[id := row]), PastKey(nextId, id);
      r := Ok(id);
      assert Snapshot() == UpdateAuthorStats(db0, id, author, totalViews, rating, totalReviews, now).db;
      UpdateAuthorStatsSound(db0, id, author, totalViews, rating, totalReviews, now);
    }

    /** timestamp is auto_now_add. */
    method InsertRecommendation(rec: RecommendationLog, now: Timestamp) returns (r: Result<Id>)
      requires Valid()
      modifies this
      ensures Write(Snapshot(), r) == AddRecommendation(old(Snapshot()), rec, now)
      ensures Valid()
    {
      ghost var db0 := Snapshot();
      if rec.user !in accounts.users || rec.book !in catalog.books {
        return Err(NotFound);
      }
      r := Ok(nextId);
      analytics, nextId := analytics.(recommendations := analytics.recommendations[nextId := rec.(timestamp := now)]), nextId + 1;
      assert Snapshot() == AddRecommendation(db0, rec, now).db;
      AddRecommendationSound(db0, rec, now);
    }

    // ----- deletes: the on_delete edges, cascading or nulling -----

    /** The loan and copy tables as they stand once the copies K are deleted one at a
        time, each taking its loans with it. */
    method CopiesRemoved(K: set<Id>) returns (loans: map<Id, BookLoan>, copies: map<Id, BookCopy>)
      ensures loans == circulation.loans - LoansOn(circulation.loans, K)
      ensures copies == circulation.copies - K
    {
      loans, copies := circulation.loans, circulation.copies;
      var todo := K;
      while todo != {}
        invariant todo <= K
        invariant loans == circulation.loans - LoansOn(circulation.loans, K - todo)
        invariant copies == circulation.copies - (K - todo)
        decreases todo
      {
        var c :| c in todo;
        DropLoansCompose(circulation.loans, K - todo, c);
        loans := loans - LoansOn(loans, {c});
        copies := copies - {c};
        todo := todo - {c};
        assert K - todo == (K - (todo + {c})) + {c};
      }
      assert K - todo == K;
    }

    /** BookCopy delete: each copy takes its loans with it. */
    method DeleteCopies(K: set<Id>)
      requires Valid()
      modifies this
      ensures Snapshot() == DropCopies(old(Snapshot()), K)
      ensures Valid()
    {
      ghost var db0 := Snapshot();
      var loans, copies := CopiesRemoved(K);
      circulation := circulation.(loans := loans, copies := copies);
      DropCopiesSound(db0, K);
    }

    /** Book delete: the copies are collected and deleted first, then every other row
        naming the books, then the books with their links. */
    method DeleteBooks(B: set<Id>)
      requires Valid()
      modifies this
      ensures Snapshot() == DropBooks(old(Snapshot()), B)
      ensures Valid()
    {
      ghost var db0 := Snapshot();
      var doomed := CopiesOf(circulation.copies, B);
      DeleteCopies(doomed);
      catalog := catalog.(publications := catalog.publications - PublicationsOf(catalog.publications, B));
      circulation := circulation.(reservations := circulation.reservations - ReservationsOf(circulation.reservations, B));
      accounts := accounts.(reviews := accounts.reviews - ReviewsOf(accounts.reviews, B));
      analytics := analytics.(bookViews := analytics.bookViews - ViewsOf(analytics.bookViews, B),
                              recommendations := analytics.recommendations - RecommendationsOf(analytics.recommendations, B));
      catalog := catalog.(bookCategories := WithoutLeft(catalog.bookCategories, B), books := catalog.books - B);
      accounts := accounts.(listBooks := WithoutRight(accounts.listBooks, B));
      DropBooksSound(db0, B);
    }

    /** Author delete: the authors' books go first (with all that cascades from them),
        then their profiles, analytics rows and the authors. */
    method DeleteAuthors(A: set<Id>)
      requires Valid()
      modifies this
      ensures Snapshot() == DropAuthors(old(Snapshot()), A)
      ensures Valid()
    {
      ghost var db0 := Snapshot();
      var written := BooksBy(catalog.books, A);
      DeleteBooks(written);
      catalog := catalog.(profiles := catalog.profiles - A);
      analytics := analytics.(authorStats := analytics.authorStats - AuthorStatsOf(analytics.authorStats, A));
      catalog := catalog.(authors := catalog.authors - A);
      DropAuthorsSound(db0, A);
    }

    method DeleteProfiles(A: set<Id>)
      requires Valid()
      modifies this
      ensures Snapshot() == DropProfiles(old(Snapshot()), A)
      ensures Valid()
    {
      ghost var db0 := Snapshot();
      catalog := catalog.(profiles := catalog.profiles - A);
      DropProfilesSound(db0, A);
    }

    method DeletePublications(P: set<Id>)
      requires Valid()
      modifies this
      ensures Snapshot() == DropPublications(old(Snapshot()), P)
      ensures Valid()
    {
      ghost var db0 := Snapshot();
      catalog := catalog.(publications := catalog.publications - P);
      DropPublicationsSound(db0, P);
    }

    method DeletePublishers(P: set<Id>)
      requires Valid()
      modifies this
      ensures Snapshot() == DropPublishers(old(Snapshot()), P)
      ensures Valid()
    {
      ghost var db0 := Snapshot();
      catalog := catalog.(publications := catalog.publications - PublishedBy(catalog.publications, P),
                          publishers := catalog.publishers - P);
      DropPublishersSound(db0, P);
    }

    /** Category delete: unlinked from books and fans; its analytics row goes. */
    method DeleteCategories(C: set<Id>)
      requires Valid()
      modifies this
      ensures Snapshot() == DropCategories(old(Snapshot()), C)
      ensures Valid()
    {
      ghost var db0 := Snapshot();
      catalog := catalog.(bookCategories := WithoutRight(catalog.bookCategories, C));
      accounts := accounts.(favorites := WithoutRight(accounts.favorites, C));
      analytics := analytics.(categoryStats := analytics.categoryStats - CategoryStatsOf(analytics.categoryStats, C));
      catalog := catalog.(categories := catalog.categories - C);
      DropCategoriesSound(db0, C);
    }

    /** Branch delete: the copies held there are collected and deleted, then its reservations. */
    method DeleteBranches(R: set<Id>)
      requires Valid()
      modifies this
      ensures Snapshot() == DropBranches(old(Snapshot()), R)
      ensures Valid()
    {
      ghost var db0 := Snapshot();
      var held := CopiesAt(circulation.copies, R);
      DeleteCopies(held);
      circulation := circulation.(reservations := circulation.reservations - ReservationsAt(circulation.reservations, R),
                                  branches := circulation.branches - R);
      DropBranchesSound(db0, R);
    }

    /** The view log with the user of every view by one of U cleared, row by row (SET_NULL). */
    method ViewsAnonymized(U: set<Id>) returns (views: map<Id, BookView>)
      ensures views == Anonymized(analytics.bookViews, U)
    {
      views := analytics.bookViews;
      var todo := views.Keys;
      while todo != {}
        invariant todo <= views.Keys && views.Keys == analytics.bookViews.Keys
        invariant forall v :: v in views ==>
            views[v] == if v !in todo && ViewedBy(analytics.bookViews[v], U) then analytics.bookViews[v].(user := None)
                        else analytics.bookViews[v]
        decreases todo
      {
        var v :| v in todo;
        if views[v].user.Some? && views[v].user.value in U {
          views := views[v := views[v].(user := None)];
        }
        todo := todo - {v};
      }
    }

    /** User delete: the users' own rows and reading lists go, they leave every category's
        fans, and each of their views is kept with its user cleared (SET_NULL), row by row. */
    method DeleteUsers(U: set<Id>)
      requires Valid()
      modifies this
      ensures Snapshot() == DropUsers(old(Snapshot()), U)
      ensures Valid()
    {
      ghost var db0 := Snapshot();
      var views := ViewsAnonymized(U);
      circulation := circulation.(loans := circulation.loans - LoansBy(circulation.loans, U),
                                  reservations := circulation.reservations - ReservationsBy(circulation.reservations, U));
      accounts := accounts.(reviews := accounts.reviews - ReviewsBy(accounts.reviews, U));
      analytics := analytics.(recommendations := analytics.recommendations - RecommendationsFor(analytics.recommendations, U));
      var lists := ListsOf(accounts.readingLists, U);
      accounts := accounts.(readingLists := accounts.readingLists - lists,
                            listBooks := WithoutLeft(accounts.listBooks, lists));
      accounts := accounts.(favorites := WithoutLeft(accounts.favorites, U), users := accounts.users - U);
      analytics := analytics.(bookViews := views);
      DropUsersSound(db0, U);
    }
  }
}
