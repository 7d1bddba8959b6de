/**
 * The on_delete edges of the schema as functions from a database and a set of
 * doomed primary keys to the database after the delete. Every CASCADE edge
 * removes the dependent rows, SET_NULL (BookView.user) clears the reference,
 * and the link tables lose every pair that names a deleted row.
 */
module Cascade {
  import opened Basics
  import opened Catalog
  import opened Circulation
  import opened Accounts
  import opened Analytics
  import opened Database

  // ----- the dependent rows of a set of parents, each over the one table it reads -----

  function BooksBy(books: map<Id, Book>, A: set<Id>): set<Id>
  {
    set b | b in books && books[b].author in A
  }

  function CopiesOf(copies: map<Id, BookCopy>, B: set<Id>): set<Id>
  {
    set c | c in copies && copies[c].book in B
  }

  function CopiesAt(copies: map<Id, BookCopy>, R: set<Id>): set<Id>
  {
    set c | c in copies && copies[c].branch in R
  }

  function LoansOn(loans: map<Id, BookLoan>, K: set<Id>): set<Id>
  {
    set l | l in loans && loans[l].copy in K
  }

  function LoansBy(loans: map<Id, BookLoan>, U: set<Id>): set<Id>
  {
    set l | l in loans && loans[l].borrower in U
  }

  function ListsOf(lists: map<Id, ReadingList>, U: set<Id>): set<Id>
  {
    set r | r in lists && lists[r].user in U
  }

  function PublicationsOf(pubs: map<Id, Publication>, B: set<Id>): set<Id>
  {
    set p | p in pubs && pubs[p].book in B
  }

  function PublishedBy(pubs: map<Id, Publication>, P: set<Id>): set<Id>
  {
    set p | p in pubs && pubs[p].publisher in P
  }

  function ReservationsOf(res: map<Id, Reservation>, B: set<Id>): set<Id>
  {
    set r | r in res && res[r].book in B
  }

  function ReservationsAt(res: map<Id, Reservation>, R: set<Id>): set<Id>
  {
    set r | r in res && res[r].branch in R
  }

  function ReservationsBy(res: map<Id, Reservation>, U: set<Id>): set<Id>
  {
    set r | r in res && res[r].user in U
  }

  function ReviewsOf(reviews: map<Id, BookReview>, B: set<Id>): set<Id>
  {
    set r | r in reviews && reviews[r].book in B
  }

  function ReviewsBy(reviews: map<Id, BookReview>, U: set<Id>): set<Id>
  {
    set r | r in reviews && reviews[r].user in U
  }

  function ViewsOf(views: map<Id, BookView>, B: set<Id>): set<Id>
  {
    set v | v in views && views[v].book in B
  }

  function RecommendationsOf(recs: map<Id, RecommendationLog>, B: set<Id>): set<Id>
  {
    set r | r in recs && recs[r].book in B
  }

  function RecommendationsFor(recs: map<Id, RecommendationLog>, U: set<Id>): set<Id>
  {
    set r | r in recs && recs[r].user in U
  }

  function CategoryStatsOf(stats: map<Id, CategoryAnalytics>, C: set<Id>): set<Id>
  {
    set s | s in stats && stats[s].category in C
  }

  function AuthorStatsOf(stats: map<Id, AuthorAnalytics>, A: set<Id>): set<Id>
  {
    set s | s in stats && stats[s].author in A
  }

  /** The pairs of a link table whose left end survives the delete of S. */
  function WithoutLeft(links: set<(Id, Id)>, S: set<Id>): set<(Id, Id)>
  {
    set l | l in links && l.0 !in S
  }

  /** The pairs of a link table whose right end survives the delete of S. */
  function WithoutRight(links: set<(Id, Id)>, S: set<Id>): set<(Id, Id)>
  {
    set l | l in links && l.1 !in S
  }

  predicate ViewedBy(v: BookView, U: set<Id>)
  {
    v.user.Some? && v.user.value in U
  }

  /** SET_NULL: the views of the users in U stay, with their user reference cleared. */
  function Anonymized(views: map<Id, BookView>, U: set<Id>): map<Id, BookView>
  {
    map v | v in views :: if ViewedBy(views[v], U) then views[v].(user := None) else views[v]
  }

  // ----- deletes -----

  /** BookCopy delete: its loans go with it. */
  function DropCopies(db: Db, K: set<Id>): Db
  {
    db.(loans := db.loans - LoansOn(db.loans, K), copies := db.copies - K)
  }

  /** Book delete, the rows of Publication, Reservation and BookReview that name a doomed book. */
  function DropBookRecords(db: Db, B: set<Id>): Db
  {
    db.(publications := db.publications - PublicationsOf(db.publications, B),
        reservations := db.reservations - ReservationsOf(db.reservations, B),
        reviews := db.reviews - ReviewsOf(db.reviews, B))
  }

  /** Book delete, the analytics rows (BookView, RecommendationLog) that name a doomed book. */
  function DropBookLogs(db: Db, B: set<Id>): Db
  {
    db.(bookViews := db.bookViews - ViewsOf(db.bookViews, B),
        recommendations := db.recommendations - RecommendationsOf(db.recommendations, B))
  }

  /** Book delete, last step: the books leave every category and reading list, and go. */
  function UnlinkBooks(db: Db, B: set<Id>): Db
  {
    db.(bookCategories := WithoutLeft(db.bookCategories, B),
        listBooks := WithoutRight(db.listBooks, B),
        books := db.books - B)
  }

  /** Book delete, for every table that points straight at a book other than BookCopy. */
  function DropBookRows(db: Db, B: set<Id>): Db
  {
    UnlinkBooks(DropBookLogs(DropBookRecords(db, B), B), B)
  }

  /** Book delete: copies (and their loans), publications, reservations, reviews,
      views and recommendations go; the books leave every category and reading list. */
  function DropBooks(db: Db, B: set<Id>): Db
  {
    DropBookRows(DropCopies(db, CopiesOf(db.copies, B)), B)
  }

  /** Author delete, once the authors' books are gone: the profiles, analytics rows and authors. */
  function DropAuthorRows(db: Db, A: set<Id>): Db
  {
    db.(profiles := db.profiles - A,
        authorStats := db.authorStats - AuthorStatsOf(db.authorStats, A),
        authors := db.authors - A)
  }

  /** Author delete: its books (with everything that cascades from them), its profile and its analytics row. */
  function DropAuthors(db: Db, A: set<Id>): Db
  {
    DropAuthorRows(DropBooks(db, BooksBy(db.books, A)), A)
  }

  function DropProfiles(db: Db, A: set<Id>): Db
  {
    db.(profiles := db.profiles - A)
  }

  function DropPublications(db: Db, P: set<Id>): Db
  {
    db.(publications := db.publications - P)
  }

  /** Publisher delete: exactly the publications naming it go. */
  function DropPublishers(db: Db, P: set<Id>): Db
  {
    db.(publications := db.publications - PublishedBy(db.publications, P),
        publishers := db.publishers - P)
  }

  /** Category delete: its links to books and to fans go, and so does its analytics row. */
  function DropCategories(db: Db, C: set<Id>): Db
  {
    db.(bookCategories := WithoutRight(db.bookCategories, C),
        favorites := WithoutRight(db.favorites, C),
        categoryStats := db.categoryStats - CategoryStatsOf(db.categoryStats, C),
        categories := db.categories - C)
  }

  /** Branch delete: its copies (and their loans) and its reservations go. */
  function DropBranches(db: Db, R: set<Id>): Db
  {
    var d := DropCopies(db, CopiesAt(db.copies, R));
    d.(reservations := d.reservations - ReservationsAt(d.reservations, R),
       branches := d.branches - R)
  }

  /** User delete, the rows of BookLoan, Reservation, BookReview and RecommendationLog that name a doomed user. */
  function DropUserRecords(db: Db, U: set<Id>): Db
  {
    db.(loans := db.loans - LoansBy(db.loans, U),
        reservations := db.reservations - ReservationsBy(db.reservations, U),
        reviews := db.reviews - ReviewsBy(db.reviews, U),
        recommendations := db.recommendations - RecommendationsFor(db.recommendations, U))
  }

  /** User delete, the users' reading lists and those lists' links to books. */
  function DropUserLists(db: Db, U: set<Id>): Db
  {
    var lists := ListsOf(db.readingLists, U);
    db.(readingLists := db.readingLists - lists,
        listBooks := WithoutLeft(db.listBooks, lists))
  }

  /** User delete, last step: the users leave every category's fans, their views
      stay with the user cleared, and the users go. */
  function UnlinkUsers(db: Db, U: set<Id>): Db
  {
    db.(favorites := WithoutLeft(db.favorites, U),
        bookViews := Anonymized(db.bookViews, U),
        users := db.users - U)
  }

  /** User delete: loans, reservations, reading lists (and their links), reviews and
      recommendations go; favourites are unlinked; views stay with the user cleared. */
  function DropUsers(db: Db, U: set<Id>): Db
  {
    UnlinkUsers(DropUserLists(DropUserRecords(db, U), U), U)
  }

  // ----- every delete keeps the schema's constraints -----

  lemma DropCopiesSound(db: Db, K: set<Id>)
    requires Integrity(db)
    ensures Integrity(DropCopies(db, K))
  {
  }

  lemma DropBooksSound(db: Db, B: set<Id>)
    requires Integrity(db)
    ensures Integrity(DropBooks(db, B))
  {
    DropCopiesSound(db, CopiesOf(db.copies, B));
    DropBookRowsSound(DropCopies(db, CopiesOf(db.copies, B)), B);
  }

  /** Once no copy of a doomed book is left, dropping the book rows keeps every constraint. */
  lemma DropBookRowsSound(d: Db, B: set<Id>)
    requires Integrity(d)
    requires forall c :: c in d.copies ==> d.copies[c].book !in B
    ensures Integrity(DropBookRows(d, B))
  {
    DropBookRecordsSound(d, B);
    DropBookLogsSound(DropBookRecords(d, B), B);
    UnlinkBooksSound(DropBookLogs(DropBookRecords(d, B), B), B);
  }

  lemma DropBookRecordsSound(d: Db, B: set<Id>)
    requires Integrity(d)
    ensures Integrity(DropBookRecords(d, B))
  {
  }

  lemma DropBookLogsSound(d: Db, B: set<Id>)
    requires Integrity(d)
    ensures Integrity(DropBookLogs(d, B))
  {
  }

  /** Once only link rows name a doomed book, unlinking and dropping the books keeps every constraint. */
  lemma UnlinkBooksSound(d: Db, B: set<Id>)
    requires Integrity(d)
    requires forall c :: c in d.copies ==> d.copies[c].book !in B
    requires forall p :: p in d.publications ==> d.publications[p].book !in B
    requires forall r :: r in d.reservations ==> d.reservations[r].book !in B
    requires forall r :: r in d.reviews ==> d.reviews[r].book !in B
    requires forall v :: v in d.bookViews ==> d.bookViews[v].book !in B
    requires forall r :: r in d.recommendations ==> d.recommendations[r].book !in B
    ensures Integrity(UnlinkBooks(d, B))
  {
  }

  lemma DropAuthorsSound(db: Db, A: set<Id>)
    requires Integrity(db)
    ensures Integrity(DropAuthors(db, A))
  {
    DropBooksSound(db, BooksBy(db.books, A));
  }

  lemma DropProfilesSound(db: Db, A: set<Id>)
    requires Integrity(db)
    ensures Integrity(DropProfiles(db, A))
  {
  }

  lemma DropPublicationsSound(db: Db, P: set<Id>)
    requires Integrity(db)
    ensures Integrity(DropPublications(db, P))
  {
  }

  lemma DropPublishersSound(db: Db, P: set<Id>)
    requires Integrity(db)
    ensures Integrity(DropPublishers(db, P))
  {
  }

  lemma DropCategoriesSound(db: Db, C: set<Id>)
    requires Integrity(db)
    ensures Integrity(DropCategories(db, C))
  {
  }

  lemma DropBranchesSound(db: Db, R: set<Id>)
    requires Integrity(db)
    ensures Integrity(DropBranches(db, R))
  {
    DropCopiesSound(db, CopiesAt(db.copies, R));
  }

  lemma DropUsersSound(db: Db, U: set<Id>)
    requires Integrity(db)
    ensures Integrity(DropUsers(db, U))
  {
    DropUserRecordsSound(db, U);
    DropUserListsSound(DropUserRecords(db, U), U);
    UnlinkUsersSound(DropUserLists(DropUserRecords(db, U), U), U);
  }

  lemma DropUserRecordsSound(db: Db, U: set<Id>)
    requires Integrity(db)
    ensures Integrity(DropUserRecords(db, U))
  {
  }

  lemma DropUserListsSound(db: Db, U: set<Id>)
    requires Integrity(db)
    ensures Integrity(DropUserLists(db, U))
  {
  }

  /** Once nothing but favourites and views names a doomed user, unlinking and dropping the users keeps every constraint. */
  lemma UnlinkUsersSound(d: Db, U: set<Id>)
    requires Integrity(d)
    requires forall l :: l in d.loans ==> d.loans[l].borrower !in U
    requires forall r :: r in d.reservations ==> d.reservations[r].user !in U
    requires forall r :: r in d.readingLists ==> d.readingLists[r].user !in U
    requires forall r :: r in d.reviews ==> d.reviews[r].user !in U
    requires forall r :: r in d.recommendations ==> d.recommendations[r].user !in U
    ensures Integrity(UnlinkUsers(d, U))
  {
  }
}
