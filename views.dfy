/**
 * The query part of each page of library/views.py, as a function of the tables. Rendering
 * is not modelled; each view returns what it puts in its template context.
 */
module Views {
  import opened Basics
  import opened Catalog
  import opened Database
  import opened Cascade
  import opened Ordering

  // ----- reading a table -----

  predicate Increasing(ks: seq<Id>)
  {
    forall i, j :: 0 <= i < j < |ks| ==> ks[i] < ks[j]
  }

  /** Model.objects.all(): the stored keys below bound, in ascending order. */
  function KeysUpTo<T>(m: map<Id, T>, bound: nat): (r: seq<Id>)
    ensures forall k :: k in r <==> k in m && k < bound
    ensures Increasing(r)
  {
    if bound == 0 then []
    else
      var r0 := KeysUpTo(m, bound - 1);
      if bound - 1 in m then
        assert forall i :: 0 <= i < |r0| ==> r0[i] < bound - 1 by {
          forall i | 0 <= i < |r0| ensures r0[i] < bound - 1 {
            assert r0[i] in r0;
          }
        }
        r0 + [bound - 1]
      else r0
  }

  /** An increasing sequence holding exactly the elements of S has |S| elements. */
  lemma {:induction false} IncreasingSize(r: seq<Id>, S: set<Id>)
    requires Increasing(r) && forall k :: k in r <==> k in S
    ensures |r| == |S|
  {
    if |r| == 0 {
      assert S == {};
    } else {
      assert r == [r[0]] + r[1..];
      forall k ensures k in r[1..] <==> k in S - {r[0]} {
        if k in r[1..] {
          var i :| 0 <= i < |r[1..]| && r[1..][i] == k;
          assert r[i + 1] == k;
        }
      }
      IncreasingSize(r[1..], S - {r[0]});
    }
  }

  /** Every key the store hands out is below nextId, so reading up to it sees every row once. */
  lemma AllRows<T>(m: map<Id, T>, bound: nat)
    requires KeysBelow(m, bound)
    ensures |KeysUpTo(m, bound)| == |m|
    ensures forall k :: k in KeysUpTo(m, bound) <==> k in m
  {
    IncreasingSize(KeysUpTo(m, bound), m.Keys);
  }

  /** A sequence of increasing keys holds each key once. */
  lemma {:induction false} DistinctCard(ks: seq<Id>)
    requires Increasing(ks)
    ensures forall k :: multiset(ks)[k] <= 1
  {
    if |ks| > 0 {
      DistinctCard(ks[1..]);
      assert ks == [ks[0]] + ks[1..];
      assert ks[0] !in ks[1..];
    }
  }

  /** An element at two positions is counted at least twice. */
  lemma CountTwice(t: seq<Id>, i: nat, j: nat)
    requires i < j < |t| && t[i] == t[j]
    ensures multiset(t)[t[i]] >= 2
  {
    assert t == t[..i] + [t[i]] + t[i + 1..j] + [t[j]] + t[j + 1..];
  }

  /** A whole table read and sorted: each row once, in order. */
  lemma SortedListing<T>(m: map<Id, T>, bound: nat, le: (Id, Id) -> bool)
    requires KeysBelow(m, bound) && TotalPreorder(le)
    ensures var t := Sort(KeysUpTo(m, bound), le);
      && |t| == |m| && (forall k :: k in t <==> k in m)
      && (forall i, j :: 0 <= i < j < |t| ==> t[i] != t[j] && le(t[i], t[j]))
  {
    var ks := KeysUpTo(m, bound);
    var t := Sort(ks, le);
    AllRows(m, bound);
    SortKeeps(ks, le);
    SortSorted(ks, le);
    DistinctCard(ks);
    forall i, j | 0 <= i < j < |t| ensures t[i] != t[j] {
      if t[i] == t[j] {
        CountTwice(t, i, j);
      }
    }
  }

  /** A whole table read, sorted and cut to its first n rows: as many rows as there are up
      to n, each once, in order, and no row left out goes before a row kept. */
  lemma TopListing<T>(m: map<Id, T>, bound: nat, le: (Id, Id) -> bool, n: nat)
    requires KeysBelow(m, bound) && TotalPreorder(le)
    ensures var top := Take(Sort(KeysUpTo(m, bound), le), n);
      && |top| == (if |m| <= n then |m| else n)
      && (forall i :: 0 <= i < |top| ==> top[i] in m)
      && (forall i, j :: 0 <= i < j < |top| ==> top[i] != top[j] && le(top[i], top[j]))
      && (forall k :: k in m && k !in top ==> forall i :: 0 <= i < |top| ==> le(top[i], k))
  {
    var t := Sort(KeysUpTo(m, bound), le);
    SortedListing(m, bound, le);
    TakeDominates(t, le, n);
    var top := Take(t, n);
    forall i | 0 <= i < |top| ensures top[i] in m {
      assert top[i] == t[i];
    }
    forall k, i | k in m && k !in top && 0 <= i < |top| ensures le(top[i], k) {
      assert top[i] in top;
    }
  }

  /** Sorting a whole table by a text key. */
  lemma ListingByText<T>(m: map<Id, T>, bound: nat, le: (Id, Id) -> bool, key: Id -> string)
    requires KeysBelow(m, bound) && forall a, b :: le(a, b) == LexLe(key(a), key(b))
    ensures var t := Sort(KeysUpTo(m, bound), le);
      && |t| == |m| && (forall k :: k in t <==> k in m)
      && (forall i, j :: 0 <= i < j < |t| ==> t[i] != t[j] && LexLe(key(t[i]), key(t[j])))
  {
    ByTextOrders(le, key);
    SortedListing(m, bound, le);
  }

  /** The first n rows of a whole table by a count, larger first. */
  lemma TopByCount<T>(m: map<Id, T>, bound: nat, le: (Id, Id) -> bool, key: Id -> int, n: nat)
    requires KeysBelow(m, bound) && forall a, b :: le(a, b) == (key(a) >= key(b))
    ensures var top := Take(Sort(KeysUpTo(m, bound), le), n);
      && |top| == (if |m| <= n then |m| else n)
      && (forall i :: 0 <= i < |top| ==> top[i] in m)
      && (forall i, j :: 0 <= i < j < |top| ==> top[i] != top[j] && key(top[i]) >= key(top[j]))
      && (forall k :: k in m && k !in top ==> forall i :: 0 <= i < |top| ==> key(top[i]) >= key(k))
  {
    LargerFirstOrders(le, key);
    TopListing(m, bound, le, n);
  }

  /** The first n rows of a whole table by a date, newest first. */
  lemma TopByDate<T>(m: map<Id, T>, bound: nat, le: (Id, Id) -> bool, key: Id -> Option<Date>, nullsFirst: bool, n: nat)
    requires KeysBelow(m, bound) && forall a, b :: le(a, b) == NewerOrSame(nullsFirst, key(a), key(b))
    ensures var top := Take(Sort(KeysUpTo(m, bound), le), n);
      && |top| == (if |m| <= n then |m| else n)
      && (forall i :: 0 <= i < |top| ==> top[i] in m)
      && (forall i, j :: 0 <= i < j < |top| ==> top[i] != top[j] && NewerOrSame(nullsFirst, key(top[i]), key(top[j])))
      && (forall k :: k in m && k !in top ==> forall i :: 0 <= i < |top| ==> NewerOrSame(nullsFirst, key(top[i]), key(k)))
  {
    NewestFirstOrders(le, key, nullsFirst);
    TopListing(m, bound, le, n);
  }

  // ----- the link tables seen from each side -----

  /** category.books.all() */
  function BooksIn(links: set<(Id, Id)>, c: Id): (r: set<Id>)
    ensures forall b :: b in r <==> (b, c) in links
  {
    set l | l in links && l.1 == c :: l.0
  }

  /** book.categories.all() */
  function CategoriesOf(links: set<(Id, Id)>, b: Id): (r: set<Id>)
    ensures forall c :: c in r <==> (b, c) in links
  {
    set l | l in links && l.0 == b :: l.1
  }

  /** Count('books'): the number of link rows that name the category. */
  function BookCount(db: Db, c: Id): nat
  {
    |BooksIn(db.bookCategories, c)|
  }

  /** Category.objects.annotate(book_count=Count('books')) over the given keys. */
  function WithCounts(db: Db, ids: seq<Id>): (r: seq<(Id, nat)>)
    ensures |r| == |ids|
    ensures forall i :: 0 <= i < |ids| ==> r[i] == (ids[i], BookCount(db, ids[i]))
  {
    seq(|ids|, i requires 0 <= i < |ids| => (ids[i], BookCount(db, ids[i])))
  }

  /** book.publishers.all(): the publishers reached through the book's publications. */
  function PublishersOf(db: Db, b: Id): set<Id>
  {
    set p | p in db.publications && db.publications[p].book == b :: db.publications[p].publisher
  }

  // ----- the orders: name, title, book count, publication date -----

  function AuthorName(db: Db, a: Id): string
  {
    if a in db.authors then db.authors[a].name else ""
  }

  function BookTitle(db: Db, b: Id): string
  {
    if b in db.books then db.books[b].title else ""
  }

  function CategoryName(db: Db, c: Id): string
  {
    if c in db.categories then db.categories[c].name else ""
  }

  function PublicationDate(db: Db, b: Id): Option<Date>
  {
    if b in db.books then db.books[b].publicationDate else None
  }

  function ByAuthorName(db: Db): (Id, Id) -> bool
  {
    (a: Id, b: Id) => LexLe(AuthorName(db, a), AuthorName(db, b))
  }

  function ByBookTitle(db: Db): (Id, Id) -> bool
  {
    (a: Id, b: Id) => LexLe(BookTitle(db, a), BookTitle(db, b))
  }

  function ByCategoryName(db: Db): (Id, Id) -> bool
  {
    (a: Id, b: Id) => LexLe(CategoryName(db, a), CategoryName(db, b))
  }

  function ByMostBooks(db: Db): (Id, Id) -> bool
  {
    (a: Id, b: Id) => BookCount(db, a) >= BookCount(db, b)
  }

  function ByNewest(db: Db, nullsFirst: bool): (Id, Id) -> bool
  {
    (a: Id, b: Id) => NewerOrSame(nullsFirst, PublicationDate(db, a), PublicationDate(db, b))
  }

  // ----- home -----

  datatype HomePage = HomePage(totalBooks: nat, totalAuthors: nat, totalCategories: nat, totalPublishers: nat,
                               categories: seq<(Id, nat)>, recentBooks: seq<Id>)

  /** home(): the four table sizes, the five categories with most books, the five newest books. */
  function Home(db: Db, nullsFirst: bool): (r: HomePage)
    ensures r.totalBooks == |db.books| && r.totalAuthors == |db.authors|
    ensures r.totalCategories == |db.categories| && r.totalPublishers == |db.publishers|
    ensures |r.categories| <= 5 && |r.recentBooks| <= 5
  {
    HomePage(|db.books|, |db.authors|, |db.categories|, |db.publishers|,
             TopCategoryCounts(db),
             Take(Sort(KeysUpTo(db.books, db.nextId), ByNewest(db, nullsFirst)), 5))
  }

  /** The home page's categories: the five with the most books, each with its count. */
  function TopCategoryCounts(db: Db): seq<(Id, nat)>
  {
    WithCounts(db, TopCategoryIds(db))
  }

  /** order_by('-book_count')[:5] */
  function TopCategoryIds(db: Db): seq<Id>
  {
    Take(Sort(KeysUpTo(db.categories, db.nextId), ByMostBooks(db)), 5)
  }

  lemma HomeTopCategories(db: Db)
    requires KeysBelow(db.categories, db.nextId)
    ensures var r := TopCategoryCounts(db);
      && |r| == (if |db.categories| <= 5 then |db.categories| else 5)
      && (forall i :: 0 <= i < |r| ==> r[i].0 in db.categories && r[i].1 == BookCount(db, r[i].0))
      && (forall i, j :: 0 <= i < j < |r| ==> r[i].0 != r[j].0 && r[i].1 >= r[j].1)
      && (forall c :: c in db.categories && (forall i :: 0 <= i < |r| ==> r[i].0 != c) ==>
            forall i :: 0 <= i < |r| ==> r[i].1 >= BookCount(db, c))
  {
    TopCategories(db);
    CountsOfTop(db, TopCategoryIds(db));
  }

  /** The five categories with the most books, before their counts are attached. */
  lemma TopCategories(db: Db)
    requires KeysBelow(db.categories, db.nextId)
    ensures var top := TopCategoryIds(db);
      && |top| == (if |db.categories| <= 5 then |db.categories| else 5)
      && (forall i :: 0 <= i < |top| ==> top[i] in db.categories)
      && (forall i, j :: 0 <= i < j < |top| ==> top[i] != top[j] && BookCount(db, top[i]) >= BookCount(db, top[j]))
      && (forall k :: k in db.categories && k !in top ==>
            forall i :: 0 <= i < |top| ==> BookCount(db, top[i]) >= BookCount(db, k))
  {
    TopByCount(db.categories, db.nextId, ByMostBooks(db), (c: Id) => BookCount(db, c), 5);
  }

  /** Attaching the book counts to the best-stocked categories keeps their rank. */
  lemma CountsOfTop(db: Db, top: seq<Id>)
    requires |top| == (if |db.categories| <= 5 then |db.categories| else 5)
    requires forall i :: 0 <= i < |top| ==> top[i] in db.categories
    requires forall i, j :: 0 <= i < j < |top| ==> top[i] != top[j] && BookCount(db, top[i]) >= BookCount(db, top[j])
    requires forall k :: k in db.categories && k !in top ==>
      forall i :: 0 <= i < |top| ==> BookCount(db, top[i]) >= BookCount(db, k)
    ensures var r := WithCounts(db, top);
      && |r| == (if |db.categories| <= 5 then |db.categories| else 5)
      && (forall i :: 0 <= i < |r| ==> r[i].0 in db.categories && r[i].1 == BookCount(db, r[i].0))
      && (forall i, j :: 0 <= i < j < |r| ==> r[i].0 != r[j].0 && r[i].1 >= r[j].1)
      && (forall c :: c in db.categories && (forall i :: 0 <= i < |r| ==> r[i].0 != c) ==>
            forall i :: 0 <= i < |r| ==> r[i].1 >= BookCount(db, c))
  {
    var r := WithCounts(db, top);
    forall c | c in db.categories && (forall i :: 0 <= i < |r| ==> r[i].0 != c)
      ensures forall i :: 0 <= i < |r| ==> r[i].1 >= BookCount(db, c)
    {
      assert c !in top by {
        forall i | 0 <= i < |top| ensures top[i] != c {
          assert r[i].0 == top[i];
        }
      }
    }
  }

  /** The home page's books are the five newest: as many as there are up to five, in
      non-increasing publication date, and no book left out is newer than any shown. Books
      without a date come before or after all dated ones, as the backend orders them. */
  lemma HomeRecentBooks(db: Db, nullsFirst: bool)
    requires KeysBelow(db.books, db.nextId)
    ensures var r := Home(db, nullsFirst).recentBooks;
      && |r| == (if |db.books| <= 5 then |db.books| else 5)
      && (forall i :: 0 <= i < |r| ==> r[i] in db.books)
      && (forall i, j :: 0 <= i < j < |r| ==>
            r[i] != r[j] && NewerOrSame(nullsFirst, db.books[r[i]].publicationDate, db.books[r[j]].publicationDate))
      && (forall b :: b in db.books && b !in r ==>
            forall i :: 0 <= i < |r| ==> NewerOrSame(nullsFirst, db.books[r[i]].publicationDate, db.books[b].publicationDate))
  {
    TopByDate(db.books, db.nextId, ByNewest(db, nullsFirst), (b: Id) => PublicationDate(db, b), nullsFirst, 5);
  }

  // ----- the list pages -----

  /** author_list(): every author, ordered by name. */
  function AuthorList(db: Db): seq<Id>
  {
    Sort(KeysUpTo(db.authors, db.nextId), ByAuthorName(db))
  }

  /** The author list shows each author exactly once, in name order. */
  lemma AuthorListOrdered(db: Db)
    requires KeysBelow(db.authors, db.nextId)
    ensures var r := AuthorList(db);
      && |r| == |db.authors| && (forall a :: a in r <==> a in db.authors)
      && (forall i, j :: 0 <= i < j < |r| ==> r[i] != r[j] && LexLe(db.authors[r[i]].name, db.authors[r[j]].name))
  {
    ListingByText(db.authors, db.nextId, ByAuthorName(db), (a: Id) => AuthorName(db, a));
    var r := AuthorList(db);
    forall i, j | 0 <= i < j < |r| ensures LexLe(db.authors[r[i]].name, db.authors[r[j]].name) {
      assert r[i] in r && r[j] in r;
    }
  }

  /** book_list(): every book, ordered by title. */
  function BookList(db: Db): seq<Id>
  {
    Sort(KeysUpTo(db.books, db.nextId), ByBookTitle(db))
  }

  /** The book list shows each book exactly once, in title order. */
  lemma BookListOrdered(db: Db)
    requires KeysBelow(db.books, db.nextId)
    ensures var r := BookList(db);
      && |r| == |db.books| && (forall b :: b in r <==> b in db.books)
      && (forall i, j :: 0 <= i < j < |r| ==> r[i] != r[j] && LexLe(db.books[r[i]].title, db.books[r[j]].title))
  {
    ListingByText(db.books, db.nextId, ByBookTitle(db), (b: Id) => BookTitle(db, b));
    var r := BookList(db);
    forall i, j | 0 <= i < j < |r| ensures LexLe(db.books[r[i]].title, db.books[r[j]].title) {
      assert r[i] in r && r[j] in r;
    }
  }

  /** category_list(): every category with its book count, ordered by name. */
  function CategoryList(db: Db): seq<(Id, nat)>
  {
    WithCounts(db, Sort(KeysUpTo(db.categories, db.nextId), ByCategoryName(db)))
  }

  /** The category list shows each category exactly once, in name order, with the number of
      books linked to it. */
  lemma CategoryListOrdered(db: Db)
    requires KeysBelow(db.categories, db.nextId)
    ensures var r := CategoryList(db);
      && |r| == |db.categories| && (forall c :: (exists i :: 0 <= i < |r| && r[i].0 == c) <==> c in db.categories)
      && (forall i :: 0 <= i < |r| ==> r[i].1 == |BooksIn(db.bookCategories, r[i].0)|)
      && (forall i, j :: 0 <= i < j < |r| ==>
            r[i].0 != r[j].0 && LexLe(db.categories[r[i].0].name, db.categories[r[j].0].name))
  {
    CategoriesByName(db);
    CountsKeepOrder(db, Sort(KeysUpTo(db.categories, db.nextId), ByCategoryName(db)));
  }

  /** Attaching the book counts to a listing of the categories keeps its rows and their order. */
  lemma CountsKeepOrder(db: Db, t: seq<Id>)
    requires |t| == |db.categories| && (forall c :: c in t <==> c in db.categories)
    requires forall i, j :: 0 <= i < j < |t| ==>
      t[i] != t[j] && LexLe(db.categories[t[i]].name, db.categories[t[j]].name)
    ensures var r := WithCounts(db, t);
      && |r| == |db.categories| && (forall c :: (exists i :: 0 <= i < |r| && r[i].0 == c) <==> c in db.categories)
      && (forall i :: 0 <= i < |r| ==> r[i].1 == |BooksIn(db.bookCategories, r[i].0)|)
      && (forall i, j :: 0 <= i < j < |r| ==>
            r[i].0 != r[j].0 && LexLe(db.categories[r[i].0].name, db.categories[r[j].0].name))
  {
    var r := WithCounts(db, t);
    forall c ensures (exists i :: 0 <= i < |r| && r[i].0 == c) <==> c in db.categories {
      if c in db.categories {
        var i :| 0 <= i < |t| && t[i] == c;
        assert r[i].0 == c;
      }
    }
  }

  /** The categories sorted by name, before their counts are attached. */
  lemma CategoriesByName(db: Db)
    requires KeysBelow(db.categories, db.nextId)
    ensures var t := Sort(KeysUpTo(db.categories, db.nextId), ByCategoryName(db));
      && |t| == |db.categories| && (forall c :: c in t <==> c in db.categories)
      && (forall i, j :: 0 <= i < j < |t| ==>
            t[i] != t[j] && LexLe(db.categories[t[i]].name, db.categories[t[j]].name))
  {
    ListingByText(db.categories, db.nextId, ByCategoryName(db), (c: Id) => CategoryName(db, c));
    var t := Sort(KeysUpTo(db.categories, db.nextId), ByCategoryName(db));
    forall i, j | 0 <= i < j < |t| ensures LexLe(db.categories[t[i]].name, db.categories[t[j]].name) {
      assert t[i] in t && t[j] in t;
    }
  }

  // ----- the detail pages -----

  datatype AuthorPage = AuthorPage(author: Author, books: set<Id>)

  /** author_detail(pk): the author and every book written by them; NotFound for an unknown pk. */
  function AuthorDetail(db: Db, pk: Id): (r: Result<AuthorPage>)
    ensures r.Ok? <==> pk in db.authors
    ensures r.Err? ==> r.error == NotFound
    ensures r.Ok? ==> r.value.author == db.authors[pk]
    ensures r.Ok? ==> forall b :: b in r.value.books <==> b in db.books && db.books[b].author == pk
  {
    if pk !in db.authors then Err(NotFound)
    else Ok(AuthorPage(db.authors[pk], BooksBy(db.books, {pk})))
  }

  /** With every book's author stored, each book is on exactly one author page. */
  lemma AuthorPagesCoverBooks(db: Db)
    requires BooksAuthored(db.books, db.authors)
    ensures forall b :: b in db.books ==>
      && AuthorDetail(db, db.books[b].author).Ok?
      && b in AuthorDetail(db, db.books[b].author).value.books
      && forall a :: AuthorDetail(db, a).Ok? && b in AuthorDetail(db, a).value.books ==> a == db.books[b].author
  {
  }

  datatype BookPage = BookPage(book: Book, categories: set<Id>, publications: set<Id>)

  /** book_detail(pk): the book, its categories and its publications; NotFound for an unknown pk. */
  function BookDetail(db: Db, pk: Id): (r: Result<BookPage>)
    ensures r.Ok? <==> pk in db.books
    ensures r.Err? ==> r.error == NotFound
    ensures r.Ok? ==> r.value.book == db.books[pk]
    ensures r.Ok? ==> forall c :: c in r.value.categories <==> (pk, c) in db.bookCategories
    ensures r.Ok? ==> forall p :: p in r.value.publications <==> p in db.publications && db.publications[p].book == pk
  {
    if pk !in db.books then Err(NotFound)
    else Ok(BookPage(db.books[pk], CategoriesOf(db.bookCategories, pk), PublicationsOf(db.publications, {pk})))
  }

  /** In a sound catalog the book page's categories and publishers are stored rows, and the
      publishers of its publications are exactly the book's publishers. */
  lemma BookDetailResolves(db: Db, pk: Id)
    requires BookCategoryLinks(db.bookCategories, db.books, db.categories)
    requires PublicationRefs(db.publications, db.books, db.publishers)
    requires pk in db.books
    ensures var page := BookDetail(db, pk).value;
      && (forall c :: c in page.categories ==> c in db.categories)
      && (forall p :: p in page.publications ==> db.publications[p].publisher in db.publishers)
      && PublishersOf(db, pk) == set p | p in page.publications :: db.publications[p].publisher
  {
  }

  datatype CategoryPage = CategoryPage(id: Id, category: Category, books: set<Id>)

  /** Category.objects.filter(slug=slug) over the given keys, in their order. */
  function SlugMatches(categories: map<Id, Category>, ks: seq<Id>, slug: string): (r: seq<Id>)
    ensures forall k :: k in r <==> k in ks && k in categories && categories[k].slug == slug
    ensures Increasing(ks) ==> Increasing(r)
  {
    if |ks| == 0 then []
    else
      var rest := SlugMatches(categories, ks[1..], slug);
      assert Increasing(ks) ==> Increasing(ks[1..]) && forall k :: k in rest ==> ks[0] < k by {
        if Increasing(ks) {
          forall k | k in rest ensures ks[0] < k {
            var i :| 0 <= i < |ks[1..]| && ks[1..][i] == k;
            assert ks[i + 1] == k;
          }
        }
      }
      if ks[0] in categories && categories[ks[0]].slug == slug then
        assert Increasing(ks) ==> Increasing([ks[0]] + rest) by {
          if Increasing(ks) {
            forall i, j | 0 <= i < j < |[ks[0]] + rest| ensures ([ks[0]] + rest)[i] < ([ks[0]] + rest)[j] {
              assert rest[j - 1] in rest;
            }
          }
        }
        [ks[0]] + rest
      else rest
  }

  /** Two matches of a slug are two different stored categories with that slug. */
  lemma MatchPair(categories: map<Id, Category>, ks: seq<Id>, slug: string)
    requires Increasing(ks)
    ensures var r := SlugMatches(categories, ks, slug);
      |r| >= 2 ==> r[0] < r[1] && r[0] in categories && r[1] in categories &&
                   categories[r[0]].slug == slug && categories[r[1]].slug == slug
  {
    var r := SlugMatches(categories, ks, slug);
    if |r| >= 2 {
      assert r[0] in r && r[1] in r;
    }
  }

  /** With slugs unique, at most one category matches a slug. */
  lemma AtMostOneMatch(categories: map<Id, Category>, ks: seq<Id>, slug: string)
    requires SlugsUnique(categories) && Increasing(ks)
    ensures |SlugMatches(categories, ks, slug)| <= 1
  {
    MatchPair(categories, ks, slug);
  }

  /** category_detail(slug): the category with that slug and its books. get_object_or_404
      turns a missing row into NotFound; a second row with the slug is an error it passes on. */
  function CategoryDetail(db: Db, slug: string): (r: Result<CategoryPage>)
    ensures r.Err? ==> r.error == NotFound || r.error == MultipleObjectsReturned
    ensures r.Ok? ==> r.value.id in db.categories && r.value.category == db.categories[r.value.id]
    ensures r.Ok? ==> r.value.category.slug == slug
    ensures r.Ok? ==> forall b :: b in r.value.books <==> (b, r.value.id) in db.bookCategories
  {
    var matches := SlugMatches(db.categories, KeysUpTo(db.categories, db.nextId), slug);
    if |matches| == 0 then Err(NotFound)
    else if |matches| > 1 then Err(MultipleObjectsReturned)
    else
      assert matches[0] in matches;
      Ok(CategoryPage(matches[0], db.categories[matches[0]], BooksIn(db.bookCategories, matches[0])))
  }

  /** With slugs unique, the category page exists exactly when some category has the slug,
      and it shows that category. */
  lemma CategoryDetailBySlug(db: Db, slug: string)
    requires KeysBelow(db.categories, db.nextId) && SlugsUnique(db.categories)
    ensures CategoryDetail(db, slug).Ok? <==> exists c :: c in db.categories && db.categories[c].slug == slug
    ensures CategoryDetail(db, slug).Err? ==> CategoryDetail(db, slug).error == NotFound
    ensures forall c :: c in db.categories && db.categories[c].slug == slug ==>
      CategoryDetail(db, slug) == Ok(CategoryPage(c, db.categories[c], BooksIn(db.bookCategories, c)))
  {
    var ks := KeysUpTo(db.categories, db.nextId);
    var matches := SlugMatches(db.categories, ks, slug);
    AtMostOneMatch(db.categories, ks, slug);
    if c :| c in db.categories && db.categories[c].slug == slug {
      assert c in matches;
    }
  }

  /** The two sides of the book/category link agree: a book is on its category's page
      exactly when the category is on the book's page. */
  lemma LinkSidesAgree(db: Db, slug: string, b: Id)
    requires CategoryDetail(db, slug).Ok? && b in db.books
    ensures b in CategoryDetail(db, slug).value.books <==>
            CategoryDetail(db, slug).value.id in BookDetail(db, b).value.categories
  {
  }
}
