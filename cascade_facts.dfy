/** What each delete removes, what it rewrites and what it leaves alone. */
module CascadeFacts {
  import opened Basics
  import opened Catalog
  import opened Circulation
  import opened Accounts
  import opened Analytics
  import opened Database
  import opened Cascade

  /** Every row left in a table after a delete is a row it had before, unchanged. */
  ghost predicate Kept<T>(after: map<Id, T>, before: map<Id, T>)
  {
    forall k :: k in after ==> k in before && after[k] == before[k]
  }

  /** The loans left after deleting the copies in S and then copy c are those left after deleting S and c at once. */
  lemma DropLoansCompose(loans: map<Id, BookLoan>, S: set<Id>, c: Id)
    ensures var rest := loans - LoansOn(loans, S);
      rest - LoansOn(rest, {c}) == loans - LoansOn(loans, S + {c})
  {
    var rest := loans - LoansOn(loans, S);
    assert LoansOn(rest, {c}) + LoansOn(loans, S) == LoansOn(loans, S + {c});
  }

  /** Deleting the copies in S and then copy c is deleting S and c at once. */
  lemma DropCopiesCompose(db: Db, S: set<Id>, c: Id)
    ensures DropCopies(DropCopies(db, S), {c}) == DropCopies(db, S + {c})
  {
    assert LoansOn(DropCopies(db, S).loans, {c}) + LoansOn(db.loans, S) == LoansOn(db.loans, S + {c});
  }

  /** A book delete leaves every row it does not delete as it was. */
  lemma DropBooksKeepsSurvivors(db: Db, B: set<Id>)
    ensures var r := DropBooks(db, B);
      && Kept(r.copies, db.copies)
      && Kept(r.loans, db.loans)
      && Kept(r.publications, db.publications)
      && Kept(r.reservations, db.reservations)
      && Kept(r.reviews, db.reviews)
      && Kept(r.bookViews, db.bookViews)
      && Kept(r.recommendations, db.recommendations)
  {
  }

  /** A user delete leaves every row it does not delete as it was. */
  lemma DropUsersKeepsSurvivors(db: Db, U: set<Id>)
    ensures var r := DropUsers(db, U);
      && Kept(r.loans, db.loans)
      && Kept(r.reservations, db.reservations)
      && Kept(r.readingLists, db.readingLists)
      && Kept(r.reviews, db.reviews)
      && Kept(r.recommendations, db.recommendations)
  {
  }

  /** Deleting authors: their profiles, their books and everything that goes with
      a book (copies and those copies' loans, publications, reservations, reviews,
      views, recommendations, category and reading-list links) and their analytics
      rows go; nothing else changes. */
  lemma DropAuthorsEffect(db: Db, A: set<Id>)
    requires LoanRefs(db.loans, db.copies, db.users)
    ensures var r := DropAuthors(db, A);
      var gone := BooksBy(db.books, A);
      && r.authors == db.authors - A
      && r.profiles == db.profiles - A
      && (forall b :: b in gone <==> b in db.books && db.books[b].author in A)
      && r.books == db.books - gone
      && (forall c :: c in r.copies <==> c in db.copies && db.copies[c].book !in gone)
      && (forall l :: l in r.loans <==> l in db.loans && db.copies[db.loans[l].copy].book !in gone)
      && (forall p :: p in r.publications <==> p in db.publications && db.publications[p].book !in gone)
      && (forall v :: v in r.reservations <==> v in db.reservations && db.reservations[v].book !in gone)
      && (forall v :: v in r.reviews <==> v in db.reviews && db.reviews[v].book !in gone)
      && (forall v :: v in r.bookViews <==> v in db.bookViews && db.bookViews[v].book !in gone)
      && (forall v :: v in r.recommendations <==> v in db.recommendations && db.recommendations[v].book !in gone)
      && (forall l :: l in r.listBooks <==> l in db.listBooks && l.1 !in gone)
      && (forall l :: l in r.bookCategories <==> l in db.bookCategories && l.0 !in gone)
      && (forall s :: s in r.authorStats <==> s in db.authorStats && db.authorStats[s].author !in A)
      && Kept(r.copies, db.copies)
      && Kept(r.loans, db.loans)
      && Kept(r.publications, db.publications)
      && Kept(r.reservations, db.reservations)
      && Kept(r.reviews, db.reviews)
      && Kept(r.bookViews, db.bookViews)
      && Kept(r.recommendations, db.recommendations)
      && Kept(r.authorStats, db.authorStats)
      && r == db.(authors := r.authors, profiles := r.profiles, books := r.books, copies := r.copies,
                  loans := r.loans, publications := r.publications, reservations := r.reservations,
                  reviews := r.reviews, bookViews := r.bookViews, recommendations := r.recommendations,
                  listBooks := r.listBooks, bookCategories := r.bookCategories, authorStats := r.authorStats)
  {
    DropBooksEffect(db, BooksBy(db.books, A));
    DropBooksKeepsSurvivors(db, BooksBy(db.books, A));
  }

  /** Deleting books: their copies and those copies' loans, their publications,
      reservations, reviews, views and recommendations go; the books leave every
      category and every reading list, and no list, author or user is deleted. */
  lemma DropBooksEffect(db: Db, B: set<Id>)
    requires LoanRefs(db.loans, db.copies, db.users)
    ensures var r := DropBooks(db, B);
      && r.books == db.books - B
      && (forall c :: c in r.copies <==> c in db.copies && db.copies[c].book !in B)
      && (forall l :: l in r.loans <==> l in db.loans && db.copies[db.loans[l].copy].book !in B)
      && (forall p :: p in r.publications <==> p in db.publications && db.publications[p].book !in B)
      && (forall v :: v in r.reservations <==> v in db.reservations && db.reservations[v].book !in B)
      && (forall v :: v in r.reviews <==> v in db.reviews && db.reviews[v].book !in B)
      && (forall v :: v in r.bookViews <==> v in db.bookViews && db.bookViews[v].book !in B)
      && (forall v :: v in r.recommendations <==> v in db.recommendations && db.recommendations[v].book !in B)
      && (forall l :: l in r.listBooks <==> l in db.listBooks && l.1 !in B)
      && (forall l :: l in r.bookCategories <==> l in db.bookCategories && l.0 !in B)
      && Kept(r.copies, db.copies)
      && Kept(r.loans, db.loans)
      && Kept(r.publications, db.publications)
      && Kept(r.reservations, db.reservations)
      && Kept(r.reviews, db.reviews)
      && Kept(r.bookViews, db.bookViews)
      && Kept(r.recommendations, db.recommendations)
      && r == db.(books := r.books, copies := r.copies, loans := r.loans, publications := r.publications,
                  reservations := r.reservations, reviews := r.reviews, bookViews := r.bookViews,
                  recommendations := r.recommendations, listBooks := r.listBooks,
                  bookCategories := r.bookCategories)
  {
    DropBooksKeepsSurvivors(db, B);
  }

  /** Deleting a publisher deletes exactly the publications that name it, and nothing else. */
  lemma DropPublishersEffect(db: Db, P: set<Id>)
    ensures var r := DropPublishers(db, P);
      && r.publishers == db.publishers - P
      && (forall p :: p in r.publications <==> p in db.publications && db.publications[p].publisher !in P)
      && Kept(r.publications, db.publications)
      && r == db.(publishers := r.publishers, publications := r.publications)
  {
  }

  /** Deleting a category unlinks it from books and fans and deletes its analytics
      row; no book and no user is deleted. */
  lemma DropCategoriesEffect(db: Db, C: set<Id>)
    ensures var r := DropCategories(db, C);
      && r.categories == db.categories - C
      && (forall f :: f in r.favorites <==> f in db.favorites && f.1 !in C)
      && (forall l :: l in r.bookCategories <==> l in db.bookCategories && l.1 !in C)
      && (forall s :: s in r.categoryStats <==> s in db.categoryStats && db.categoryStats[s].category !in C)
      && Kept(r.categoryStats, db.categoryStats)
      && r == db.(categories := r.categories, favorites := r.favorites, bookCategories := r.bookCategories,
                  categoryStats := r.categoryStats)
  {
  }

  /** Deleting a copy deletes its loans and nothing else. */
  lemma DropCopiesEffect(db: Db, K: set<Id>)
    ensures var r := DropCopies(db, K);
      && r.copies == db.copies - K
      && (forall l :: l in r.loans <==> l in db.loans && db.loans[l].copy !in K)
      && Kept(r.loans, db.loans)
      && r == db.(copies := r.copies, loans := r.loans)
  {
  }

  /** Deleting branches: their copies, those copies' loans and their reservations go. */
  lemma DropBranchesEffect(db: Db, R: set<Id>)
    requires LoanRefs(db.loans, db.copies, db.users)
    ensures var r := DropBranches(db, R);
      && r.branches == db.branches - R
      && (forall c :: c in r.copies <==> c in db.copies && db.copies[c].branch !in R)
      && (forall l :: l in r.loans <==> l in db.loans && db.copies[db.loans[l].copy].branch !in R)
      && (forall v :: v in r.reservations <==> v in db.reservations && db.reservations[v].branch !in R)
      && Kept(r.copies, db.copies)
      && Kept(r.loans, db.loans)
      && Kept(r.reservations, db.reservations)
      && r == db.(branches := r.branches, copies := r.copies, loans := r.loans, reservations := r.reservations)
  {
  }

  /** Deleting users: their loans, reservations, reading lists (with those lists'
      book links), reviews and recommendations go, and they leave every category's
      fans; every view row stays, with the user cleared exactly on theirs; nothing
      else changes. */
  lemma DropUsersEffect(db: Db, U: set<Id>)
    ensures var r := DropUsers(db, U);
      && r.users == db.users - U
      && (forall l :: l in r.loans <==> l in db.loans && db.loans[l].borrower !in U)
      && (forall v :: v in r.reservations <==> v in db.reservations && db.reservations[v].user !in U)
      && (forall v :: v in r.readingLists <==> v in db.readingLists && db.readingLists[v].user !in U)
      && (forall v :: v in r.reviews <==> v in db.reviews && db.reviews[v].user !in U)
      && (forall v :: v in r.recommendations <==> v in db.recommendations && db.recommendations[v].user !in U)
      && (forall f :: f in r.favorites <==> f in db.favorites && f.0 !in U)
      && (forall l :: l in r.listBooks <==>
            l in db.listBooks && !(l.0 in db.readingLists && db.readingLists[l.0].user in U))
      && r.bookViews.Keys == db.bookViews.Keys
      && (forall v :: v in r.bookViews ==>
            && r.bookViews[v].book == db.bookViews[v].book
            && r.bookViews[v].timestamp == db.bookViews[v].timestamp
            && r.bookViews[v].user == (if ViewedBy(db.bookViews[v], U) then None else db.bookViews[v].user))
      && Kept(r.loans, db.loans)
      && Kept(r.reservations, db.reservations)
      && Kept(r.readingLists, db.readingLists)
      && Kept(r.reviews, db.reviews)
      && Kept(r.recommendations, db.recommendations)
      && r == db.(users := r.users, loans := r.loans, reservations := r.reservations,
                  readingLists := r.readingLists, reviews := r.reviews, recommendations := r.recommendations,
                  favorites := r.favorites, listBooks := r.listBooks, bookViews := r.bookViews)
  {
    DropUsersKeepsSurvivors(db, U);
  }
}
