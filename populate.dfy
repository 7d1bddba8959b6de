/**
 * The populate_db management command: it empties the catalog tables one after
 * another, letting every on_delete edge run, and then saves a fixed sample
 * catalog in dependency order (categories, authors, their profiles, publishers,
 * books, the book/category links and the publications).
 */
module Populate {
  import opened Basics
  import opened Catalog
  import opened Circulation
  import opened Accounts
  import opened Analytics
  import opened Database
  import opened Writes
  import opened Cascade
  import opened WritesFacts
  import opened Store

  // ----- clearing -----

  /** The database once Publication, Book, Category, AuthorProfile, Author and Publisher
      are emptied: with them go every row that cascades from a book, a category or an
      author, and every link naming one. Users, their reading lists and the branches stay. */
  function Cleared(db: Db): Db
  {
    db.(authors := map[], profiles := map[], categories := map[], publishers := map[], books := map[],
        bookCategories := {}, publications := map[],
        copies := map[], loans := map[], reservations := map[],
        favorites := {}, listBooks := {}, reviews := map[],
        bookViews := map[], categoryStats := map[], authorStats := map[], recommendations := map[])
  }

  lemma ClearPublications(db: Db)
    ensures DropPublications(db, db.publications.Keys) == db.(publications := map[])
  {
    assert db.publications - db.publications.Keys == map[];
  }

  /** Deleting every book takes every copy, loan, reservation, review, view,
      recommendation and publication with it, and empties both link tables that name books. */
  lemma ClearBooks(db: Db)
    requires CopyRefs(db.copies, db.books, db.branches) && LoanRefs(db.loans, db.copies, db.users)
    requires PublicationRefs(db.publications, db.books, db.publishers)
    requires ReservationRefs(db.reservations, db.books, db.users, db.branches)
    requires ReviewRefs(db.reviews, db.users, db.books) && ViewRefs(db.bookViews, db.books, db.users)
    requires RecommendationRefs(db.recommendations, db.users, db.books)
    requires BookCategoryLinks(db.bookCategories, db.books, db.categories)
    requires ListBookLinks(db.listBooks, db.readingLists, db.books)
    ensures DropBooks(db, db.books.Keys)
         == db.(books := map[], copies := map[], loans := map[], publications := map[], reservations := map[],
                reviews := map[], bookViews := map[], recommendations := map[], bookCategories := {}, listBooks := {})
  {
    var B := db.books.Keys;
    ClearCopies(db);
    var d1 := DropCopies(db, CopiesOf(db.copies, B));
    ClearBookRecords(d1, B);
    var d2 := DropBookRecords(d1, B);
    ClearBookLogs(d2, B);
    ClearBookLinks(DropBookLogs(d2, B), B);
  }

  /** Every copy is of some book, and every loan of some copy. */
  lemma ClearCopies(db: Db)
    requires CopyRefs(db.copies, db.books, db.branches) && LoanRefs(db.loans, db.copies, db.users)
    ensures DropCopies(db, CopiesOf(db.copies, db.books.Keys)) == db.(copies := map[], loans := map[])
  {
    assert CopiesOf(db.copies, db.books.Keys) == db.copies.Keys;
    assert LoansOn(db.loans, db.copies.Keys) == db.loans.Keys;
  }

  lemma ClearBookRecords(d: Db, B: set<Id>)
    requires PublicationRefs(d.publications, d.books, d.publishers) && d.books.Keys == B
    requires ReservationRefs(d.reservations, d.books, d.users, d.branches)
    requires ReviewRefs(d.reviews, d.users, d.books)
    ensures DropBookRecords(d, B) == d.(publications := map[], reservations := map[], reviews := map[])
  {
    assert PublicationsOf(d.publications, B) == d.publications.Keys;
    assert ReservationsOf(d.reservations, B) == d.reservations.Keys;
    assert ReviewsOf(d.reviews, B) == d.reviews.Keys;
  }

  lemma ClearBookLogs(d: Db, B: set<Id>)
    requires ViewRefs(d.bookViews, d.books, d.users) && d.books.Keys == B
    requires RecommendationRefs(d.recommendations, d.users, d.books)
    ensures DropBookLogs(d, B) == d.(bookViews := map[], recommendations := map[])
  {
    assert ViewsOf(d.bookViews, B) == d.bookViews.Keys;
    assert RecommendationsOf(d.recommendations, B) == d.recommendations.Keys;
  }

  lemma ClearBookLinks(d: Db, B: set<Id>)
    requires BookCategoryLinks(d.bookCategories, d.books, d.categories) && d.books.Keys == B
    requires ListBookLinks(d.listBooks, d.readingLists, d.books)
    ensures UnlinkBooks(d, B) == d.(books := map[], bookCategories := {}, listBooks := {})
  {
    assert WithoutLeft(d.bookCategories, B) == {};
    assert WithoutRight(d.listBooks, B) == {};
  }

  /** Deleting every category empties both link tables that name categories and the category analytics. */
  lemma ClearCategories(db: Db)
    requires BookCategoryLinks(db.bookCategories, db.books, db.categories)
    requires FavoriteLinks(db.favorites, db.users, db.categories)
    requires CategoryStatsOwned(db.categoryStats, db.categories)
    ensures DropCategories(db, db.categories.Keys)
         == db.(categories := map[], bookCategories := {}, favorites := {}, categoryStats := map[])
  {
    var C := db.categories.Keys;
    assert WithoutRight(db.bookCategories, C) == {};
    assert WithoutRight(db.favorites, C) == {};
    assert CategoryStatsOf(db.categoryStats, C) == db.categoryStats.Keys;
  }

  lemma ClearProfiles(db: Db)
    ensures DropProfiles(db, db.profiles.Keys) == db.(profiles := map[])
  {
    assert db.profiles - db.profiles.Keys == map[];
  }

  /** Once no book is left, deleting every author takes only the profiles and the author analytics. */
  lemma ClearAuthors(db: Db)
    requires db.books == map[]
    requires ProfilesOwned(db.profiles, db.authors) && AuthorStatsOwned(db.authorStats, db.authors)
    ensures DropAuthors(db, db.authors.Keys) == db.(authors := map[], profiles := map[], authorStats := map[])
  {
    var A := db.authors.Keys;
    assert BooksBy(db.books, A) == {};
    DropNoBooks(db);
    assert db.profiles - A == map[];
    assert AuthorStatsOf(db.authorStats, A) == db.authorStats.Keys;
  }

  /** Once no publication is left, deleting every publisher takes nothing else. */
  lemma ClearPublishers(db: Db)
    requires db.publications == map[]
    ensures DropPublishers(db, db.publishers.Keys) == db.(publishers := map[])
  {
    assert PublishedBy(db.publications, db.publishers.Keys) == {};
  }

  /** handle(), first part: the six objects.all().delete() calls in the order written. */
  method Clear(store: LibraryStore)
    requires store.Valid()
    modifies store
    ensures store.Valid()
    ensures store.Snapshot() == Cleared(old(store.Snapshot()))
  {
    ghost var db0 := store.Snapshot();
    ClearPublications(store.Snapshot());
    store.DeletePublications(store.catalog.publications.Keys);
    ClearBooks(store.Snapshot());
    store.DeleteBooks(store.catalog.books.Keys);
    ClearCategories(store.Snapshot());
    store.DeleteCategories(store.catalog.categories.Keys);
    ClearProfiles(store.Snapshot());
    store.DeleteProfiles(store.catalog.profiles.Keys);
    ClearAuthors(store.Snapshot());
    store.DeleteAuthors(store.catalog.authors.Keys);
    ClearPublishers(store.Snapshot());
    store.DeletePublishers(store.catalog.publishers.Keys);
  }

  // ----- saving a list of rows one by one -----

  /** The rows a table holds after saving rows one by one into an empty table: the
      j-th row under the j-th key handed out, and nothing else. */
  ghost predicate Seeded<T>(m: map<Id, T>, ids: seq<Id>, rows: seq<T>)
  {
    && |ids| == |rows|
    && (forall k :: k in m <==> k in ids)
    && (forall j :: 0 <= j < |ids| ==> ids[j] in m && m[ids[j]] == rows[j])
    && Distinct(ids)
  }

  ghost predicate Distinct(ids: seq<Id>)
  {
    forall j, k :: 0 <= j < k < |ids| ==> ids[j] != ids[k]
  }

  /** A seeded table holds exactly as many rows as were saved. */
  lemma {:induction false} SeededSize<T>(m: map<Id, T>, ids: seq<Id>, rows: seq<T>)
    requires Seeded(m, ids, rows)
    ensures |m| == |rows|
    decreases |ids|
  {
    if ids == [] {
      assert m.Keys == {};
    } else {
      var n := |ids| - 1;
      var rest := m - {ids[n]};
      assert Seeded(rest, ids[..n], rows[..n]) by {
        forall k
          ensures k in rest <==> k in ids[..n]
        {
          if k in ids && k != ids[n] {
            var j :| 0 <= j < |ids| && ids[j] == k;
            assert j < n && ids[..n][j] == k;
          }
        }
      }
      SeededSize(rest, ids[..n], rows[..n]);
    }
  }

  /** One more row under a fresh key keeps the table seeded. */
  lemma SeededExtend<T>(m: map<Id, T>, ids: seq<Id>, rows: seq<T>, n: Id, row: T)
    requires Seeded(m, ids, rows) && n !in m
    ensures Seeded(m[n := row], ids + [n], rows + [row])
  {
  }

  /** A table keyed by the keys of another seeded table grows by the next of those keys. */
  lemma SeededAlongside<T, U>(m: map<Id, T>, ids: seq<Id>, rows: seq<T>, i: nat, row: T,
                              keys: map<Id, U>, keyRows: seq<U>)
    requires Seeded(keys, ids, keyRows) && i < |ids| && Seeded(m, ids[..i], rows)
    ensures Seeded(m[ids[i] := row], ids[..i + 1], rows + [row])
  {
    assert ids[i] !in m;
    SeededExtend(m, ids[..i], rows, ids[i], row);
    assert ids[..i] + [ids[i]] == ids[..i + 1];
  }

  // ----- categories: Category.save() may refuse a slug -----

  /** The categories as Category.save() stores them: every empty slug filled from the name. */
  function Filled(rows: seq<Category>, slugify: string -> string): (cs: seq<Category>)
    ensures |cs| == |rows|
    ensures forall j :: 0 <= j < |rows| ==> cs[j] == WithSlug(rows[j], slugify)
  {
    seq(|rows|, j requires 0 <= j < |rows| => WithSlug(rows[j], slugify))
  }

  /** No two of the first n categories get the same slug. */
  predicate SlugsDistinctBelow(rows: seq<Category>, slugify: string -> string, n: nat)
    requires n <= |rows|
  {
    forall j, k :: 0 <= j < k < n ==> Filled(rows, slugify)[j].slug != Filled(rows, slugify)[k].slug
  }

  predicate SlugsDistinct(rows: seq<Category>, slugify: string -> string)
  {
    SlugsDistinctBelow(rows, slugify, |rows|)
  }

  /** A slug clash with a category saved earlier means two of the rows share a slug. */
  lemma SlugClash(m: map<Id, Category>, ids: seq<Id>, rows: seq<Category>, slugify: string -> string, i: nat, c: Id)
    requires i < |rows| && Seeded(m, ids, Filled(rows, slugify)[..i])
    requires c in m && m[c].slug == Filled(rows, slugify)[i].slug
    ensures !SlugsDistinct(rows, slugify)
  {
    var j :| 0 <= j < |ids| && ids[j] == c;
    assert Filled(rows, slugify)[j].slug == Filled(rows, slugify)[i].slug;
  }

  /** No category saved earlier has the next one's slug, so the first i+1 slugs are distinct. */
  lemma SlugFree(m: map<Id, Category>, ids: seq<Id>, rows: seq<Category>, slugify: string -> string, i: nat)
    requires i < |rows| && Seeded(m, ids, Filled(rows, slugify)[..i]) && SlugsDistinctBelow(rows, slugify, i)
    requires forall c :: c in m ==> m[c].slug != Filled(rows, slugify)[i].slug
    ensures SlugsDistinctBelow(rows, slugify, i + 1)
  {
    forall j | 0 <= j < i
      ensures Filled(rows, slugify)[j].slug != Filled(rows, slugify)[i].slug
    {
      assert ids[j] in m && m[ids[j]] == Filled(rows, slugify)[..i][j];
    }
  }

  /** category.save() for the i-th row. */
  method SaveCategory(store: LibraryStore, rows: seq<Category>, slugify: string -> string, ids: seq<Id>, i: nat)
    returns (r: Result<seq<Id>>)
    requires i < |rows| && store.Valid() && SlugsDistinctBelow(rows, slugify, i)
    requires Seeded(store.catalog.categories, ids, Filled(rows, slugify)[..i])
    modifies store
    ensures store.Valid()
    ensures r.Err? ==> r.error == ConstraintViolation && !SlugsDistinct(rows, slugify)
    ensures r.Ok? ==> Seeded(store.catalog.categories, r.value, Filled(rows, slugify)[..i + 1])
    ensures r.Ok? ==> SlugsDistinctBelow(rows, slugify, i + 1)
    ensures store.catalog == old(store.catalog).(categories := store.catalog.categories)
    ensures store.circulation == old(store.circulation) && store.accounts == old(store.accounts)
    ensures store.analytics == old(store.analytics)
  {
    ghost var db0 := store.Snapshot();
    var res := store.InsertCategory(rows[i], slugify);
    if res.Err? {
      ghost var c :| c in db0.categories && db0.categories[c].slug == Filled(rows, slugify)[i].slug;
      SlugClash(db0.categories, ids, rows, slugify, i, c);
      return Err(res.error);
    }
    SlugFree(db0.categories, ids, rows, slugify, i);
    SeededExtend(db0.categories, ids, Filled(rows, slugify)[..i], db0.nextId, Filled(rows, slugify)[i]);
    assert Filled(rows, slugify)[..i] + [Filled(rows, slugify)[i]] == Filled(rows, slugify)[..i + 1];
    r := Ok(ids + [res.value]);
  }

  /** for category in categories: category.save(). The first category whose slug is
      already stored aborts the command. */
  method SaveCategories(store: LibraryStore, rows: seq<Category>, slugify: string -> string) returns (r: Result<seq<Id>>)
    requires store.Valid() && store.catalog.categories == map[]
    modifies store
    ensures store.Valid()
    ensures r.Ok? <==> SlugsDistinct(rows, slugify)
    ensures r.Err? ==> r.error == ConstraintViolation
    ensures r.Ok? ==> Seeded(store.catalog.categories, r.value, Filled(rows, slugify))
    ensures store.catalog == old(store.catalog).(categories := store.catalog.categories)
    ensures store.circulation == old(store.circulation) && store.accounts == old(store.accounts)
    ensures store.analytics == old(store.analytics)
  {
    var ids: seq<Id> := [];
    var i := 0;
    while i < |rows|
      invariant 0 <= i <= |rows|
      invariant store.Valid()
      invariant Seeded(store.catalog.categories, ids, Filled(rows, slugify)[..i])
      invariant SlugsDistinctBelow(rows, slugify, i)
      invariant store.catalog == old(store.catalog).(categories := store.catalog.categories)
      invariant store.circulation == old(store.circulation) && store.accounts == old(store.accounts)
      invariant store.analytics == old(store.analytics)
    {
      var res := SaveCategory(store, rows, slugify, ids, i);
      if res.Err? {
        return Err(res.error);
      }
      ids := res.value;
      i := i + 1;
    }
    assert Filled(rows, slugify)[..i] == Filled(rows, slugify);
    return Ok(ids);
  }

  // ----- authors, profiles and publishers: nothing can refuse them -----

  method SaveAuthor(store: LibraryStore, rows: seq<Author>, ids: seq<Id>, i: nat) returns (next: seq<Id>)
    requires i < |rows| && store.Valid() && Seeded(store.catalog.authors, ids, rows[..i])
    modifies store
    ensures store.Valid() && Seeded(store.catalog.authors, next, rows[..i + 1])
    ensures store.catalog == old(store.catalog).(authors := store.catalog.authors)
    ensures store.circulation == old(store.circulation) && store.accounts == old(store.accounts)
    ensures store.analytics == old(store.analytics)
  {
    ghost var db0 := store.Snapshot();
    var res := store.InsertAuthor(rows[i]);
    SeededExtend(db0.authors, ids, rows[..i], db0.nextId, rows[i]);
    assert rows[..i] + [rows[i]] == rows[..i + 1];
    next := ids + [res.value];
  }

  /** for author in authors: author.save() */
  method SaveAuthors(store: LibraryStore, rows: seq<Author>) returns (ids: seq<Id>)
    requires store.Valid() && store.catalog.authors == map[]
    modifies store
    ensures store.Valid() && Seeded(store.catalog.authors, ids, rows)
    ensures store.catalog == old(store.catalog).(authors := store.catalog.authors)
    ensures store.circulation == old(store.circulation) && store.accounts == old(store.accounts)
    ensures store.analytics == old(store.analytics)
  {
    ids := [];
    var i := 0;
    while i < |rows|
      invariant 0 <= i <= |rows|
      invariant store.Valid() && Seeded(store.catalog.authors, ids, rows[..i])
      invariant store.catalog == old(store.catalog).(authors := store.catalog.authors)
      invariant store.circulation == old(store.circulation) && store.accounts == old(store.accounts)
      invariant store.analytics == old(store.analytics)
    {
      ids := SaveAuthor(store, rows, ids, i);
      i := i + 1;
    }
    assert rows[..i] == rows;
  }

  /** profile.save() for the i-th profile, which belongs to the i-th saved author. */
  method SaveProfileOf(store: LibraryStore, authors: seq<Id>, authorRows: seq<Author>, rows: seq<AuthorProfile>, i: nat)
    requires i < |rows| == |authors| && store.Valid() && Seeded(store.catalog.authors, authors, authorRows)
    requires Seeded(store.catalog.profiles, authors[..i], rows[..i])
    modifies store
    ensures store.Valid() && Seeded(store.catalog.profiles, authors[..i + 1], rows[..i + 1])
    ensures store.catalog == old(store.catalog).(profiles := store.catalog.profiles)
    ensures store.circulation == old(store.circulation) && store.accounts == old(store.accounts)
    ensures store.analytics == old(store.analytics)
  {
    ghost var db0 := store.Snapshot();
    assert authors[i] in db0.authors;
    var res := store.SaveProfile(authors[i], rows[i]);
    SeededAlongside(db0.profiles, authors, rows[..i], i, rows[i], db0.authors, authorRows);
    assert rows[..i] + [rows[i]] == rows[..i + 1];
  }

  /** for profile in profiles: profile.save() */
  method SaveProfiles(store: LibraryStore, authors: seq<Id>, authorRows: seq<Author>, rows: seq<AuthorProfile>)
    requires |rows| == |authors| && store.Valid() && store.catalog.profiles == map[]
    requires Seeded(store.catalog.authors, authors, authorRows)
    modifies store
    ensures store.Valid() && Seeded(store.catalog.profiles, authors, rows)
    ensures store.catalog == old(store.catalog).(profiles := store.catalog.profiles)
    ensures store.circulation == old(store.circulation) && store.accounts == old(store.accounts)
    ensures store.analytics == old(store.analytics)
  {
    var i := 0;
    while i < |rows|
      invariant 0 <= i <= |rows|
      invariant store.Valid() && Seeded(store.catalog.profiles, authors[..i], rows[..i])
      invariant store.catalog == old(store.catalog).(profiles := store.catalog.profiles)
      invariant store.circulation == old(store.circulation) && store.accounts == old(store.accounts)
      invariant store.analytics == old(store.analytics)
    {
      SaveProfileOf(store, authors, authorRows, rows, i);
      i := i + 1;
    }
    assert authors[..i] == authors && rows[..i] == rows;
  }

  method SavePublisher(store: LibraryStore, rows: seq<Publisher>, ids: seq<Id>, i: nat) returns (next: seq<Id>)
    requires i < |rows| && store.Valid() && Seeded(store.catalog.publishers, ids, rows[..i])
    modifies store
    ensures store.Valid() && Seeded(store.catalog.publishers, next, rows[..i + 1])
    ensures store.catalog == old(store.catalog).(publishers := store.catalog.publishers)
    ensures store.circulation == old(store.circulation) && store.accounts == old(store.accounts)
    ensures store.analytics == old(store.analytics)
  {
    ghost var db0 := store.Snapshot();
    var res := store.InsertPublisher(rows[i]);
    SeededExtend(db0.publishers, ids, rows[..i], db0.nextId, rows[i]);
    assert rows[..i] + [rows[i]] == rows[..i + 1];
    next := ids + [res.value];
  }

  /** for publisher in publishers: publisher.save() */
  method SavePublishers(store: LibraryStore, rows: seq<Publisher>) returns (ids: seq<Id>)
    requires store.Valid() && store.catalog.publishers == map[]
    modifies store
    ensures store.Valid() && Seeded(store.catalog.publishers, ids, rows)
    ensures store.catalog == old(store.catalog).(publishers := store.catalog.publishers)
    ensures store.circulation == old(store.circulation) && store.accounts == old(store.accounts)
    ensures store.analytics == old(store.analytics)
  {
    ids := [];
    var i := 0;
    while i < |rows|
      invariant 0 <= i <= |rows|
      invariant store.Valid() && Seeded(store.catalog.publishers, ids, rows[..i])
      invariant store.catalog == old(store.catalog).(publishers := store.catalog.publishers)
      invariant store.circulation == old(store.circulation) && store.accounts == old(store.accounts)
      invariant store.analytics == old(store.analytics)
    {
      ids := SavePublisher(store, rows, ids, i);
      i := i + 1;
    }
    assert rows[..i] == rows;
  }

  // ----- books and publications: accepted when their parents are saved and their keys are new -----

  predicate IsbnsDistinct(rows: seq<Book>)
  {
    forall j, k :: 0 <= j < k < |rows| ==> rows[j].isbn != rows[k].isbn
  }

  /** None of the books saved so far has the next book's ISBN. */
  lemma IsbnFree(m: map<Id, Book>, ids: seq<Id>, rows: seq<Book>, i: nat)
    requires i < |rows| && IsbnsDistinct(rows) && Seeded(m, ids, rows[..i])
    ensures forall b :: b in m ==> m[b].isbn != rows[i].isbn
  {
    forall b | b in m
      ensures m[b].isbn != rows[i].isbn
    {
      var j :| 0 <= j < |ids| && ids[j] == b;
      assert m[b] == rows[j];
    }
  }

  method SaveBook(store: LibraryStore, rows: seq<Book>, ids: seq<Id>, i: nat) returns (next: seq<Id>)
    requires i < |rows| && store.Valid() && IsbnsDistinct(rows) && rows[i].author in store.catalog.authors
    requires Seeded(store.catalog.books, ids, rows[..i])
    modifies store
    ensures store.Valid() && Seeded(store.catalog.books, next, rows[..i + 1])
    ensures store.catalog == old(store.catalog).(books := store.catalog.books)
    ensures store.circulation == old(store.circulation) && store.accounts == old(store.accounts)
    ensures store.analytics == old(store.analytics)
  {
    ghost var db0 := store.Snapshot();
    IsbnFree(db0.books, ids, rows, i);
    var res := store.InsertBook(rows[i]);
    SeededExtend(db0.books, ids, rows[..i], db0.nextId, rows[i]);
    assert rows[..i] + [rows[i]] == rows[..i + 1];
    next := ids + [res.value];
  }

  /** for book in books: book.save(): every book is accepted when its author is saved
      and no two books share an ISBN. */
  method SaveBooks(store: LibraryStore, rows: seq<Book>) returns (ids: seq<Id>)
    requires store.Valid() && store.catalog.books == map[] && IsbnsDistinct(rows)
    requires forall j :: 0 <= j < |rows| ==> rows[j].author in store.catalog.authors
    modifies store
    ensures store.Valid() && Seeded(store.catalog.books, ids, rows)
    ensures store.catalog == old(store.catalog).(books := store.catalog.books)
    ensures store.circulation == old(store.circulation) && store.accounts == old(store.accounts)
    ensures store.analytics == old(store.analytics)
  {
    ids := [];
    var i := 0;
    while i < |rows|
      invariant 0 <= i <= |rows|
      invariant store.Valid() && Seeded(store.catalog.books, ids, rows[..i])
      invariant store.catalog == old(store.catalog).(books := store.catalog.books)
      invariant store.circulation == old(store.circulation) && store.accounts == old(store.accounts)
      invariant store.analytics == old(store.analytics)
    {
      ids := SaveBook(store, rows, ids, i);
      i := i + 1;
    }
    assert rows[..i] == rows;
  }

  predicate SameTriple(p: Publication, q: Publication)
  {
    p.book == q.book && p.publisher == q.publisher && p.country == q.country
  }

  predicate TriplesDistinct(rows: seq<Publication>)
  {
    forall j, k :: 0 <= j < k < |rows| ==> !SameTriple(rows[j], rows[k])
  }

  /** None of the publications saved so far has the next one's (book, publisher, country). */
  lemma TripleFree(m: map<Id, Publication>, ids: seq<Id>, rows: seq<Publication>, i: nat)
    requires i < |rows| && TriplesDistinct(rows) && Seeded(m, ids, rows[..i])
    ensures forall q :: q in m ==> !SameTriple(m[q], rows[i])
  {
    forall q | q in m
      ensures !SameTriple(m[q], rows[i])
    {
      var j :| 0 <= j < |ids| && ids[j] == q;
      assert m[q] == rows[j];
    }
  }

  method SavePublication(store: LibraryStore, rows: seq<Publication>, ids: seq<Id>, i: nat) returns (next: seq<Id>)
    requires i < |rows| && store.Valid() && TriplesDistinct(rows)
    requires rows[i].book in store.catalog.books && rows[i].publisher in store.catalog.publishers
    requires Seeded(store.catalog.publications, ids, rows[..i])
    modifies store
    ensures store.Valid() && Seeded(store.catalog.publications, next, rows[..i + 1])
    ensures store.catalog == old(store.catalog).(publications := store.catalog.publications)
    ensures store.circulation == old(store.circulation) && store.accounts == old(store.accounts)
    ensures store.analytics == old(store.analytics)
  {
    ghost var db0 := store.Snapshot();
    TripleFree(db0.publications, ids, rows, i);
    var res := store.InsertPublication(rows[i]);
    SeededExtend(db0.publications, ids, rows[..i], db0.nextId, rows[i]);
    assert rows[..i] + [rows[i]] == rows[..i + 1];
    next := ids + [res.value];
  }

  /** for publication in publications: publication.save(): every publication is accepted
      when its book and publisher are saved and no two share a (book, publisher, country). */
  method SavePublications(store: LibraryStore, rows: seq<Publication>) returns (ids: seq<Id>)
    requires store.Valid() && store.catalog.publications == map[] && TriplesDistinct(rows)
    requires forall j :: 0 <= j < |rows| ==> rows[j].book in store.catalog.books
    requires forall j :: 0 <= j < |rows| ==> rows[j].publisher in store.catalog.publishers
    modifies store
    ensures store.Valid() && Seeded(store.catalog.publications, ids, rows)
    ensures store.catalog == old(store.catalog).(publications := store.catalog.publications)
    ensures store.circulation == old(store.circulation) && store.accounts == old(store.accounts)
    ensures store.analytics == old(store.analytics)
  {
    ids := [];
    var i := 0;
    while i < |rows|
      invariant 0 <= i <= |rows|
      invariant store.Valid() && Seeded(store.catalog.publications, ids, rows[..i])
      invariant store.catalog == old(store.catalog).(publications := store.catalog.publications)
      invariant store.circulation == old(store.circulation) && store.accounts == old(store.accounts)
      invariant store.analytics == old(store.analytics)
    {
      ids := SavePublication(store, rows, ids, i);
      i := i + 1;
    }
    assert rows[..i] == rows;
  }

  /** book.categories.add(category) for a saved book and a saved category. */
  method LinkCategory(store: LibraryStore, book: Id, category: Id)
    requires store.Valid() && book in store.catalog.books && category in store.catalog.categories
    modifies store
    ensures store.Valid()
    ensures store.catalog == old(store.catalog).(bookCategories := old(store.catalog.bookCategories) + {(book, category)})
    ensures store.circulation == old(store.circulation) && store.accounts == old(store.accounts)
    ensures store.analytics == old(store.analytics)
  {
    var res := store.AddBookCategory(book, category);
  }

  // ----- the sample catalog -----

  // The longer texts of the sample rows, named so that the rows stay readable.
  const ScienceFictionAbout := "Imaginative fiction that explores advanced science and technology"
  const FantasyAbout := "Fiction with magical or supernatural elements"
  const MysteryAbout := "Fiction dealing with the solution of a crime or puzzle"
  const RomanceAbout := "Fiction that focuses on romantic relationships"
  const NonFictionAbout := "Information based on facts and reality"
  const BiographyAbout := "An account of someone's life written by someone else"
  const RowlingBiography := "British author best known for the Harry Potter series."
  const OrwellBiography := "English novelist, essayist, and critic known for works like '1984' and 'Animal Farm'."
  const AustenBiography := "English novelist known for works such as 'Pride and Prejudice' and 'Sense and Sensibility'."
  const RowlingWebsite := "https://www.jkrowling.com"
  const PenguinWebsite := "https://www.penguin.com"
  const HarperCollinsWebsite := "https://www.harpercollins.com"
  const HarperCollinsEmail := "info@harpercollins.com"
  const BloomsburyWebsite := "https://www.bloomsbury.com"
  const PhilosophersStone := "Harry Potter and the Philosopher's Stone"
  const PhilosophersStoneSummary := "The first book in the Harry Potter series."
  const NineteenEightyFourSummary := "A dystopian novel set in a totalitarian society."
  const PrideAndPrejudiceSummary := "A romantic novel that follows the character development of Elizabeth Bennet."
  const ChamberOfSecrets := "Harry Potter and the Chamber of Secrets"
  const ChamberOfSecretsSummary := "The second book in the Harry Potter series."

  const CategorySeed: seq<Category> := [
    Category("Science Fiction", ScienceFictionAbout),
    Category("Fantasy", FantasyAbout),
    Category("Mystery", MysteryAbout),
    Category("Romance", RomanceAbout),
    Category("Non-fiction", NonFictionAbout),
    Category("Biography", BiographyAbout)]

  const AuthorSeed: seq<Author> := [
    Author("J.K. Rowling", Some(Date(1965, 7, 31)), RowlingBiography),
    Author("George Orwell", Some(Date(1903, 6, 25)), OrwellBiography),
    Author("Jane Austen", Some(Date(1775, 12, 16)), AustenBiography)]

  /** The i-th profile belongs to the i-th author. */
  const ProfileSeed: seq<AuthorProfile> := [
    AuthorProfile(RowlingWebsite, "@jk_rowling"),
    AuthorProfile("", ""),
    AuthorProfile("", "")]

  const PublisherSeed: seq<Publisher> := [
    Publisher("Penguin Books", PenguinWebsite, "info@penguin.com"),
    Publisher("HarperCollins", HarperCollinsWebsite, HarperCollinsEmail),
    Publisher("Bloomsbury", BloomsburyWebsite, "info@bloomsbury.com")]

  /** How many rows of each kind the sample catalog has. */
  lemma SeedLengths()
    ensures |CategorySeed| == 6 && |AuthorSeed| == 3 && |ProfileSeed| == 3 && |PublisherSeed| == 3
  {
  }

  /** The books, each pointing at the saved author it was written with. */
  function BookRows(authors: seq<Id>): seq<Book>
    requires |authors| == 3
  {
    [Book(PhilosophersStone, authors[0], "9780747532743", Some(Date(1997, 6, 26)),
          PhilosophersStoneSummary),
     Book("1984", authors[1], "9780451524935", Some(Date(1949, 6, 8)),
          NineteenEightyFourSummary),
     Book("Pride and Prejudice", authors[2], "9780141439518", Some(Date(1813, 1, 28)),
          PrideAndPrejudiceSummary),
     Book(ChamberOfSecrets, authors[0], "9780747538486", Some(Date(1998, 7, 2)),
          ChamberOfSecretsSummary)]
  }

  /** The five book/category links. */
  function LinkRows(books: seq<Id>, categories: seq<Id>): set<(Id, Id)>
    requires |books| == 4 && |categories| == 6
  {
    {(books[0], categories[1]), (books[1], categories[0]), (books[1], categories[4]),
     (books[2], categories[3]), (books[3], categories[1])}
  }

  /** The publications, each pointing at the saved book and publisher it was written with. */
  function PublicationRows(books: seq<Id>, publishers: seq<Id>): seq<Publication>
    requires |books| == 4 && |publishers| == 3
  {
    [Publication(books[0], publishers[2], Date(1997, 6, 26), "United Kingdom"),
     Publication(books[0], publishers[0], Date(1998, 9, 1), "United States"),
     Publication(books[1], publishers[0], Date(1949, 6, 8), "United Kingdom"),
     Publication(books[2], publishers[1], Date(1813, 1, 28), "United Kingdom"),
     Publication(books[3], publishers[2], Date(1998, 7, 2), "United Kingdom")]
  }

  /** The six category names are different, so a slugify that keeps different names apart
      never makes the sample categories clash. */
  lemma InjectiveSlugifySeeds(slugify: string -> string)
    requires forall a, b :: slugify(a) == slugify(b) ==> a == b
    ensures SlugsDistinct(CategorySeed, slugify)
  {
    forall j, k | 0 <= j < k < |CategorySeed|
      ensures Filled(CategorySeed, slugify)[j].slug != Filled(CategorySeed, slugify)[k].slug
    {
      assert CategorySeed[j].name != CategorySeed[k].name by {
        assert CategorySeed[j].name[0] != CategorySeed[k].name[0] || |CategorySeed[j].name| != |CategorySeed[k].name|;
      }
    }
  }

  /** Every sample slug is the slugified name, since no sample category is given a slug. */
  lemma SeedSlugsFromNames(slugify: string -> string)
    ensures forall j :: 0 <= j < |CategorySeed| ==> Filled(CategorySeed, slugify)[j].slug == slugify(CategorySeed[j].name)
  {
  }

  /** The four sample books have four different ISBNs. */
  lemma SeedIsbnsDistinct(authors: seq<Id>)
    requires |authors| == 3
    ensures IsbnsDistinct(BookRows(authors))
  {
    var b := BookRows(authors);
    assert b[0].isbn[4] != b[1].isbn[4] && b[0].isbn[4] != b[2].isbn[4] && b[1].isbn[4] != b[2].isbn[4];
    assert b[0].isbn[9] != b[3].isbn[9] && b[1].isbn[4] != b[3].isbn[4] && b[2].isbn[4] != b[3].isbn[4];
  }

  /** Every sample book points at a saved author. */
  lemma SeedBookAuthorsSaved(m: map<Id, Author>, authors: seq<Id>)
    requires Seeded(m, authors, AuthorSeed)
    ensures forall j :: 0 <= j < 4 ==> BookRows(authors)[j].author in m
  {
  }

  /** With distinct keys for the saved books and publishers, the five sample publications
      have five different (book, publisher, country) triples. */
  lemma SeedTriplesDistinct(books: seq<Id>, publishers: seq<Id>)
    requires |books| == 4 && |publishers| == 3 && Distinct(books) && Distinct(publishers)
    ensures TriplesDistinct(PublicationRows(books, publishers))
  {
    assert books[0] != books[1] && books[0] != books[2] && books[0] != books[3];
    assert books[1] != books[2] && books[1] != books[3] && books[2] != books[3];
    assert publishers[0] != publishers[2];
  }

  /** Every sample publication points at a saved book and a saved publisher. */
  lemma SeedPublicationRefsSaved(bookMap: map<Id, Book>, books: seq<Id>, bookRows: seq<Book>,
                                 publisherMap: map<Id, Publisher>, publishers: seq<Id>)
    requires Seeded(bookMap, books, bookRows) && |books| == 4
    requires Seeded(publisherMap, publishers, PublisherSeed)
    ensures forall j :: 0 <= j < 5 ==> PublicationRows(books, publishers)[j].book in bookMap
    ensures forall j :: 0 <= j < 5 ==> PublicationRows(books, publishers)[j].publisher in publisherMap
  {
  }

  // ----- the command -----

  /** handle(): the five categories.add(...) calls. */
  method SeedLinks(store: LibraryStore, books: seq<Id>, categories: seq<Id>)
    requires store.Valid() && store.catalog.bookCategories == {}
    requires |books| == 4 && |categories| == 6
    requires forall j :: 0 <= j < |books| ==> books[j] in store.catalog.books
    requires forall j :: 0 <= j < |categories| ==> categories[j] in store.catalog.categories
    modifies store
    ensures store.Valid()
    ensures store.catalog == old(store.catalog).(bookCategories := LinkRows(books, categories))
    ensures store.circulation == old(store.circulation) && store.accounts == old(store.accounts)
    ensures store.analytics == old(store.analytics)
  {
    LinkCategory(store, books[0], categories[1]);
    LinkCategory(store, books[1], categories[0]);
    LinkCategory(store, books[1], categories[4]);
    LinkCategory(store, books[2], categories[3]);
    LinkCategory(store, books[3], categories[1]);
  }

  /** The keys handed out to the sample rows, in the order they were saved. */
  datatype SeedIds = SeedIds(categories: seq<Id>, authors: seq<Id>, publishers: seq<Id>,
                             books: seq<Id>, publications: seq<Id>)

  /** The catalog tables hold exactly the sample data under the keys in ids. */
  ghost predicate SeededCatalog(c: CatalogTables, ids: SeedIds, slugify: string -> string)
  {
    && |ids.categories| == 6 && |ids.authors| == 3 && |ids.publishers| == 3 && |ids.books| == 4
    && c.bookCategories == LinkRows(ids.books, ids.categories)
    && Seeded(c.books, ids.books, BookRows(ids.authors))
    && Seeded(c.publications, ids.publications, PublicationRows(ids.books, ids.publishers))
    && Seeded(c.categories, ids.categories, Filled(CategorySeed, slugify))
    && Seeded(c.authors, ids.authors, AuthorSeed)
    && Seeded(c.profiles, ids.authors, ProfileSeed)
    && Seeded(c.publishers, ids.publishers, PublisherSeed)
  }

  const EmptyCatalog := CatalogTables(map[], map[], map[], map[], map[], {}, map[])

  /** The authors and their profiles. */
  method SeedAuthors(store: LibraryStore) returns (authors: seq<Id>)
    requires store.Valid() && store.catalog.authors == map[] && store.catalog.profiles == map[]
    modifies store
    ensures store.Valid() && |authors| == 3
    ensures Seeded(store.catalog.authors, authors, AuthorSeed) && Seeded(store.catalog.profiles, authors, ProfileSeed)
    ensures store.catalog == old(store.catalog).(authors := store.catalog.authors, profiles := store.catalog.profiles)
    ensures store.circulation == old(store.circulation) && store.accounts == old(store.accounts)
    ensures store.analytics == old(store.analytics)
  {
    SeedLengths();
    authors := SaveAuthors(store, AuthorSeed);
    SaveProfiles(store, authors, AuthorSeed, ProfileSeed);
  }

  /** The books, for the saved authors. */
  method SeedBooks(store: LibraryStore, authors: seq<Id>) returns (books: seq<Id>)
    requires store.Valid() && store.catalog.books == map[] && Seeded(store.catalog.authors, authors, AuthorSeed)
    modifies store
    ensures store.Valid() && |books| == 4 && Seeded(store.catalog.books, books, BookRows(authors))
    ensures store.catalog == old(store.catalog).(books := store.catalog.books)
    ensures store.circulation == old(store.circulation) && store.accounts == old(store.accounts)
    ensures store.analytics == old(store.analytics)
  {
    SeedLengths();
    SeedIsbnsDistinct(authors);
    SeedBookAuthorsSaved(store.catalog.authors, authors);
    books := SaveBooks(store, BookRows(authors));
  }

  /** The publications, for the saved books and publishers. */
  method SeedPublications(store: LibraryStore, books: seq<Id>, bookRows: seq<Book>, publishers: seq<Id>)
    returns (publications: seq<Id>)
    requires store.Valid() && store.catalog.publications == map[] && |books| == 4
    requires Seeded(store.catalog.books, books, bookRows) && Seeded(store.catalog.publishers, publishers, PublisherSeed)
    modifies store
    ensures store.Valid() && Seeded(store.catalog.publications, publications, PublicationRows(books, publishers))
    ensures store.catalog == old(store.catalog).(publications := store.catalog.publications)
    ensures store.circulation == old(store.circulation) && store.accounts == old(store.accounts)
    ensures store.analytics == old(store.analytics)
  {
    SeedLengths();
    SeedTriplesDistinct(books, publishers);
    SeedPublicationRefsSaved(store.catalog.books, books, bookRows, store.catalog.publishers, publishers);
    publications := SavePublications(store, PublicationRows(books, publishers));
  }

  /** The categories, authors, profiles and publishers are saved; nothing else is. */
  ghost predicate PeopleSeeded(c: CatalogTables, ids: SeedIds, slugify: string -> string)
  {
    && |ids.categories| == 6 && |ids.authors| == 3 && |ids.publishers| == 3
    && c.books == map[] && c.bookCategories == {} && c.publications == map[]
    && Seeded(c.categories, ids.categories, Filled(CategorySeed, slugify))
    && Seeded(c.authors, ids.authors, AuthorSeed)
    && Seeded(c.profiles, ids.authors, ProfileSeed)
    && Seeded(c.publishers, ids.publishers, PublisherSeed)
  }

  /** The categories, then the authors with their profiles, then the publishers. */
  method SeedPeople(store: LibraryStore, slugify: string -> string) returns (r: Result<SeedIds>)
    requires store.Valid() && store.catalog == EmptyCatalog
    modifies store
    ensures store.Valid()
    ensures r.Ok? <==> SlugsDistinct(CategorySeed, slugify)
    ensures r.Err? ==> r.error == ConstraintViolation
    ensures r.Ok? ==> PeopleSeeded(store.catalog, r.value, slugify)
    ensures store.circulation == old(store.circulation) && store.accounts == old(store.accounts)
    ensures store.analytics == old(store.analytics)
  {
    var categories := SaveCategories(store, CategorySeed, slugify);
    if categories.Err? {
      return Err(categories.error);
    }
    SeedLengths();
    var authors := SeedAuthors(store);
    var publishers := SavePublishers(store, PublisherSeed);
    r := Ok(SeedIds(categories.value, authors, publishers, [], []));
  }

  /** The books, their categories and their publications. */
  method SeedWorks(store: LibraryStore, people: SeedIds, slugify: string -> string) returns (ids: SeedIds)
    requires store.Valid() && PeopleSeeded(store.catalog, people, slugify)
    modifies store
    ensures store.Valid() && SeededCatalog(store.catalog, ids, slugify)
    ensures store.circulation == old(store.circulation) && store.accounts == old(store.accounts)
    ensures store.analytics == old(store.analytics)
  {
    var books := SeedBooks(store, people.authors);
    SeedLinks(store, books, people.categories);
    var publications := SeedPublications(store, books, BookRows(people.authors), people.publishers);
    ids := people.(books := books, publications := publications);
  }

  /** The tables outside the catalog (circulation, accounts, analytics). */
  function OutsideCatalog(db: Db): Db
  {
    db.(authors := map[], profiles := map[], categories := map[], publishers := map[], books := map[],
        bookCategories := {}, publications := map[], nextId := 0)
  }

  /** handle(): clear, then save the sample catalog. Only a slug clash among the sample
      categories can make a save fail, and it aborts the command. */
  method Handle(store: LibraryStore, slugify: string -> string) returns (r: Result<SeedIds>)
    requires store.Valid()
    modifies store
    ensures store.Valid()
    ensures r.Ok? <==> SlugsDistinct(CategorySeed, slugify)
    ensures r.Err? ==> r.error == ConstraintViolation
    ensures r.Ok? ==> SeededCatalog(store.catalog, r.value, slugify)
    ensures OutsideCatalog(store.Snapshot()) == OutsideCatalog(Cleared(old(store.Snapshot())))
  {
    Clear(store);
    r := SeedPeople(store, slugify);
    if r.Ok? {
      var ids := SeedWorks(store, r.value, slugify);
      r := Ok(ids);
    }
  }

  /** With distinct book and category keys the five links are five different pairs, and
      the second book ("1984") is linked to the first and the fifth category. */
  lemma LinkRowsShape(books: seq<Id>, categories: seq<Id>)
    requires |books| == 4 && |categories| == 6 && Distinct(books) && Distinct(categories)
    ensures |LinkRows(books, categories)| == 5
    ensures (set l | l in LinkRows(books, categories) && l.0 == books[1] :: l.1) == {categories[0], categories[4]}
  {
    var b, k := books, categories;
    assert b[0] != b[1] && b[0] != b[2] && b[0] != b[3] && b[1] != b[2] && b[1] != b[3] && b[2] != b[3];
    assert k[0] != k[4];
  }

  /** After a successful run the catalog has 6 categories, 3 authors with 3 profiles,
      3 publishers, 4 books in 5 book/category links and 5 publications; "1984" is in
      two categories, Science Fiction and Non-fiction. */
  lemma SeededCatalogSizes(c: CatalogTables, ids: SeedIds, slugify: string -> string)
    requires SeededCatalog(c, ids, slugify)
    ensures |c.categories| == 6 && |c.authors| == 3 && |c.profiles| == 3 && |c.publishers| == 3
    ensures |c.books| == 4 && |c.publications| == 5 && |c.bookCategories| == 5
    ensures (set l | l in c.bookCategories && l.0 == ids.books[1] :: l.1) == {ids.categories[0], ids.categories[4]}
  {
    SeedLengths();
    SeededSize(c.categories, ids.categories, Filled(CategorySeed, slugify));
    SeededSize(c.authors, ids.authors, AuthorSeed);
    SeededSize(c.profiles, ids.authors, ProfileSeed);
    SeededSize(c.publishers, ids.publishers, PublisherSeed);
    SeededSize(c.books, ids.books, BookRows(ids.authors));
    SeededSize(c.publications, ids.publications, PublicationRows(ids.books, ids.publishers));
    LinkRowsShape(ids.books, ids.categories);
  }

  /** Clearing twice leaves the non-catalog tables as clearing once does. */
  lemma ClearedOutsideTwice(d0: Db, d1: Db)
    requires OutsideCatalog(d1) == OutsideCatalog(Cleared(d0))
    ensures OutsideCatalog(Cleared(d1)) == OutsideCatalog(Cleared(d0))
  {
    assert d1.users == d0.users && d1.readingLists == d0.readingLists && d1.branches == d0.branches;
  }

  /** Running the command a second time reaches the same outcome and the same database shape:
      the same tables hold the same sample rows, under the keys of the second run, and the
      tables the command does not seed are as clearing left them the first time. */
  method HandleTwice(store: LibraryStore, slugify: string -> string) returns (first: Result<SeedIds>, second: Result<SeedIds>)
    requires store.Valid()
    modifies store
    ensures store.Valid()
    ensures first.Ok? <==> second.Ok?
    ensures first.Ok? ==> SeededCatalog(store.catalog, second.value, slugify)
    ensures OutsideCatalog(store.Snapshot()) == OutsideCatalog(Cleared(old(store.Snapshot())))
  {
    ghost var d0 := store.Snapshot();
    first := Handle(store, slugify);
    ghost var d1 := store.Snapshot();
    second := Handle(store, slugify);
    ClearedOutsideTwice(d0, d1);
  }
}
